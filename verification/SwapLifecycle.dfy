/** The life of one swap over a run: the moves it can make, that it is paid at most once, how long it is
    remembered, and that an escrowed amount can always be recovered. */
module SwapLifecycle {
  import opened Basics
  import opened SwapTypes
  import opened Bank
  import opened SwapSpec
  import opened SwapInvariant
  import opened SwapRuns
  import opened SwapClaims

  function Lookup(s: State, id: SwapID): Option<AtomicSwap> {
    if id in s.swaps then Some(s.swaps[id]) else None
  }

  /** The only ways an event may change what is stored under an ID. Open is 1, completed 2 and expired 3. */
  predicate Moves(e: Event, id: SwapID, before: Option<AtomicSwap>, after: Option<AtomicSwap>, height: Height) {
    match (before, after)
    case (None, None) => true
    case (None, Some(sw)) => e.CreateEvent? && sw.status == 1
    case (Some(sw), None) => e.BlockEvent? && Stale(sw, height)
    case (Some(sw), Some(sw')) =>
      || sw' == sw
      || (e.BlockEvent? && Due(sw, height) && sw' == sw.(status := 3))
      || (e.ClaimEvent? && e.id == id && sw.status == 1 && sw' == sw.(status := 2, closedBlock := height))
      || (e.RefundEvent? && e.id == id && sw.status == 3 && sw' == sw.(status := 2, closedBlock := height))
  }

  lemma BlockSwaps(s: State, id: SwapID)
    ensures Lookup(BeginBlocker(s), id) ==
              match Lookup(s, id)
              case None => None
              case Some(sw) => if Stale(sw, s.height) then None else Some(ExpireSwap(sw, s.height))
  {
    hide TickAll, DeletionHeight;
  }

  /** Open to Completed, Open to Expired to Completed, Completed to deleted, and nothing else. */
  lemma NextMoves(s: State, e: Event, id: SwapID)
    requires SingleCoins(s.swaps)
    ensures Moves(e, id, Lookup(s, id), Lookup(Next(s, e), id), Next(s, e).height)
    ensures Next(s, e).height == if e.BlockEvent? && CanStartBlock(s, e.time) then s.height + 1 else s.height
  {
    hide BeginBlocker, IncrementIncoming, IncrementOutgoing, SendFromAccountToModule, CheckCreate,
         DecrementIncoming, DecrementOutgoing, IncrementCurrent, DecrementCurrent, SendFromModuleToAccount, Burn,
         SecretMatches, ValidateBasic, ValidParams, Move, Stale, Due;
    if e.BlockEvent? && CanStartBlock(s, e.time) {
      BlockSwaps(StartBlock(s, e.time), id);
      BlockFrame(StartBlock(s, e.time));
    }
  }

  // ---- Paid at most once ------------------------------------------------------------------------

  predicate Creates(s: State, e: Event, id: SwapID) {
    && e.CreateEvent? && ValidateBasic(s.env, e.msg) && e.msg.sender !in s.env.moduleAccounts
    && MsgSwapID(s.env, e.msg) == id && Create(s, e.msg).Ok?
  }

  /** The event pays the swap out, by a claim or by a refund. */
  predicate Pays(s: State, e: Event, id: SwapID)
    requires SingleCoins(s.swaps)
  {
    || (e.ClaimEvent? && e.id == id && Claim(s, id, e.randomNumber).Ok?)
    || (e.RefundEvent? && e.id == id && Refund(s, id).Ok?)
  }

  function One(b: bool): nat {
    if b then 1 else 0
  }

  function LiveCount(s: State, id: SwapID): nat {
    One(id in s.swaps && Live(s.swaps[id]))
  }

  lemma NextBalancesPayouts(s: State, e: Event, id: SwapID)
    requires SingleCoins(s.swaps)
    ensures LiveCount(s, id) + One(Creates(s, e, id)) == LiveCount(Next(s, e), id) + One(Pays(s, e, id))
  {
    hide BeginBlocker, IncrementIncoming, IncrementOutgoing, SendFromAccountToModule,
         DecrementIncoming, DecrementOutgoing, IncrementCurrent, DecrementCurrent, SendFromModuleToAccount, Burn,
         SecretMatches, ValidateBasic, ValidParams, Move, DeletionHeight, CalculateSwapID, GetAsset;
    if e.BlockEvent? && CanStartBlock(s, e.time) {
      BlockSwaps(StartBlock(s, e.time), id);
    }
  }

  function CreateCount(s: State, es: seq<Event>, id: SwapID): nat
    requires SingleCoins(s.swaps)
    decreases |es|
  {
    if es == [] then 0
    else
      NextSingleCoins(s, es[0]);
      One(Creates(s, es[0], id)) + CreateCount(Next(s, es[0]), es[1..], id)
  }

  function PayoutCount(s: State, es: seq<Event>, id: SwapID): nat
    requires SingleCoins(s.swaps)
    decreases |es|
  {
    if es == [] then 0
    else
      NextSingleCoins(s, es[0]);
      One(Pays(s, es[0], id)) + PayoutCount(Next(s, es[0]), es[1..], id)
  }

  /** Over any run, each live or newly created swap is paid out exactly once or is still live at the end. */
  lemma {:induction false} RunBalancesPayouts(s: State, es: seq<Event>, id: SwapID)
    requires SingleCoins(s.swaps)
    ensures LiveCount(s, id) + CreateCount(s, es, id) == LiveCount(Run(s, es), id) + PayoutCount(s, es, id)
    decreases |es|
  {
    hide Next, Creates, Pays;
    if es != [] {
      NextSingleCoins(s, es[0]);
      NextBalancesPayouts(s, es[0], id);
      RunBalancesPayouts(Next(s, es[0]), es[1..], id);
    }
  }

  // ---- Retention --------------------------------------------------------------------------------

  lemma {:induction false} RunHeight(s: State, es: seq<Event>)
    requires SingleCoins(s.swaps)
    ensures s.height <= Run(s, es).height
    decreases |es|
  {
    hide Next;
    if es != [] {
      NextSingleCoins(s, es[0]);
      NextMoves(s, es[0], []);
      RunHeight(Next(s, es[0]), es[1..]);
    }
  }

  /** A swap closed at a positive height is due for deletion exactly 86400 blocks later. */
  lemma DeletionHeightIs(env: Env, id: SwapID, sw: AtomicSwap)
    requires GoodSwap(env, id, sw) && sw.status == SWAP_STATUS_COMPLETED
    ensures DeletionHeight(sw) == sw.closedBlock + 86400
  {
  }

  /** A closed swap stays stored, unchanged, at every height below its deletion height. */
  lemma {:induction false} ClosedSwapRetained(s: State, es: seq<Event>, id: SwapID)
    requires SingleCoins(s.swaps)
    requires id in s.swaps && s.swaps[id].status == SWAP_STATUS_COMPLETED
    requires Run(s, es).height < DeletionHeight(s.swaps[id])
    ensures Lookup(Run(s, es), id) == Some(s.swaps[id])
    decreases |es|
  {
    hide Next, DeletionHeight;
    if es != [] {
      NextSingleCoins(s, es[0]);
      NextMoves(s, es[0], id);
      RunHeight(Next(s, es[0]), es[1..]);
      ClosedSwapRetained(Next(s, es[0]), es[1..], id);
    }
  }

  /** ... and is gone once the block at its deletion height, or a later one, has begun. */
  lemma ClosedSwapDeleted(s: State, t: int, id: SwapID)
    requires SingleCoins(s.swaps) && CanStartBlock(s, t)
    requires id in s.swaps && s.swaps[id].status == SWAP_STATUS_COMPLETED
    ensures id in Next(s, BlockEvent(t)).swaps <==> s.height + 1 < DeletionHeight(s.swaps[id])
  {
    hide BeginBlocker, DeletionHeight;
    BlockSwaps(StartBlock(s, t), id);
  }

  // ---- No stuck escrow --------------------------------------------------------------------------

  predicate Unclaimed(es: seq<Event>, id: SwapID) {
    forall e | e in es :: !(e.ClaimEvent? && e.id == id)
  }

  predicate Untouched(es: seq<Event>, id: SwapID) {
    Unclaimed(es, id) && forall e | e in es :: !(e.RefundEvent? && e.id == id)
  }

  /** The status a live swap has after a run that neither claims nor refunds it. */
  function WaitingStatus(sw: AtomicSwap, start: Height, end: Height): Int32 {
    if sw.status == SWAP_STATUS_OPEN && start < end && sw.expireHeight <= end then SWAP_STATUS_EXPIRED else sw.status
  }

  /** An untouched open swap expires exactly when a block at or past its expiry height has begun,
      whatever else happens, changes of parameters included. */
  lemma {:induction false} UntouchedSwapExpires(s: State, es: seq<Event>, id: SwapID)
    requires SingleCoins(s.swaps) && id in s.swaps && Live(s.swaps[id]) && Untouched(es, id)
    ensures var sw, s' := s.swaps[id], Run(s, es);
            Lookup(s', id) == Some(sw.(status := WaitingStatus(sw, s.height, s'.height)))
    decreases |es|
  {
    hide Next, DeletionHeight;
    if es != [] {
      var s1 := Next(s, es[0]);
      NextSingleCoins(s, es[0]);
      NextMoves(s, es[0], id);
      NextExpires(s, es[0], id);
      RunHeight(s1, es[1..]);
      UntouchedSwapExpires(s1, es[1..], id);
    }
  }

  lemma NextExpires(s: State, e: Event, id: SwapID)
    requires SingleCoins(s.swaps) && id in s.swaps && Live(s.swaps[id]) && Untouched([e], id)
    ensures var sw, s' := s.swaps[id], Next(s, e);
            Lookup(s', id) == Some(sw.(status := WaitingStatus(sw, s.height, s'.height)))
  {
    NextMoves(s, e, id);
    assert e in [e];
    hide BeginBlocker, Create, Claim, Refund, DeletionHeight;
    if e.BlockEvent? && CanStartBlock(s, e.time) {
      BlockSwaps(StartBlock(s, e.time), id);
    }
  }

  /** Refunding an expired outgoing swap pays exactly its amount, to its sender. */
  lemma RefundPays(s: State, id: SwapID)
    requires Inv(s) && id in s.swaps && s.swaps[id].status == SWAP_STATUS_EXPIRED
    requires s.swaps[id].direction == SWAP_DIRECTION_OUTGOING
    ensures |s.swaps[id].amount| == 1
    ensures var s' := Next(s, RefundEvent(id));
            && Paid(s, s', s.swaps[id].sender, s.swaps[id].amount[0])
            && id in s'.swaps && s'.swaps[id].status == SWAP_STATUS_COMPLETED
  {
    LiveSwapCovered(s, id);
    InvSingleCoins(s);
    RefundNeverFails(s, id);
    RefundShifts(s, id);
    hide Inv, GoodSwap, Paid, Shifted, RefundIncoming, RefundOutgoing;
  }

  /** Whatever run leads past the expiry of an untouched outgoing swap, one refund then returns
      exactly the escrowed amount to the sender, and to nobody else. */
  lemma ExpiredEscrowReturned(s: State, es: seq<Event>, id: SwapID)
    requires Inv(s) && id in s.swaps && Live(s.swaps[id]) && s.swaps[id].direction == SWAP_DIRECTION_OUTGOING
    requires Untouched(es, id)
    requires WaitingStatus(s.swaps[id], s.height, Run(s, es).height) == SWAP_STATUS_EXPIRED
    ensures SingleCoins(Run(s, es).swaps) && |s.swaps[id].amount| == 1
    ensures var s1 := Run(s, es);
            var s2 := Next(s1, RefundEvent(id));
            && Paid(s1, s2, s.swaps[id].sender, s.swaps[id].amount[0])
            && id in s2.swaps && s2.swaps[id].status == SWAP_STATUS_COMPLETED
  {
    hide Inv, Run, Next, Paid;
    InvSingleCoins(s);
    RunKeepsInv(s, es);
    InvSingleCoins(Run(s, es));
    UntouchedSwapExpires(s, es, id);
    RefundPays(Run(s, es), id);
  }

  function Blocks(n: nat, t: int): seq<Event> {
    seq(n, _ => BlockEvent(t))
  }

  lemma {:induction false} WaitBlocks(s: State, n: nat)
    requires SingleCoins(s.swaps) && s.height + n < TWO_63
    ensures Run(s, Blocks(n, s.time)).height == s.height + n
    decreases n
  {
    if n > 0 {
      var s1, e := Next(s, BlockEvent(s.time)), BlockEvent(s.time);
      NextSingleCoins(s, e);
      NextMoves(s, e, []);
      BlockFrame(StartBlock(s, s.time));
      WaitBlocks(s1, n - 1);
      assert Blocks(n, s.time)[0] == e && Blocks(n, s.time)[1..] == Blocks(n - 1, s.time);
      hide Next, BeginBlocker;
    }
  }

  /** No stuck escrow: from every state of every run, waiting n blocks and then refunding returns a live
      outgoing swap's amount to its sender, provided its expiry height is one that blocks can reach. */
  lemma EscrowRecoverable(s: State, id: SwapID) returns (n: nat)
    requires Inv(s) && id in s.swaps && Live(s.swaps[id]) && s.swaps[id].direction == SWAP_DIRECTION_OUTGOING
    requires s.swaps[id].status == SWAP_STATUS_OPEN ==> s.swaps[id].expireHeight < TWO_63 && s.height + 1 < TWO_63
    ensures |s.swaps[id].amount| == 1 && SingleCoins(Run(s, Blocks(n, s.time)).swaps)
    ensures var s1 := Run(s, Blocks(n, s.time));
            Paid(s1, Next(s1, RefundEvent(id)), s.swaps[id].sender, s.swaps[id].amount[0])
  {
    hide Inv, Run, Next;
    InvSingleCoins(s);
    var sw := s.swaps[id];
    n := if sw.status == SWAP_STATUS_EXPIRED then 0
         else if sw.expireHeight <= s.height then 1 else sw.expireHeight - s.height;
    WaitBlocks(s, n);
    ExpiredEscrowReturned(s, Blocks(n, s.time), id);
  }

  /** The proviso is exact: an open swap whose expiry height exceeds every block height stays open until it is
      claimed, so no refund ever succeeds. */
  lemma {:induction false} UnreachableExpiryStaysOpen(s: State, es: seq<Event>, id: SwapID)
    requires SingleCoins(s.swaps) && id in s.swaps && s.swaps[id].status == SWAP_STATUS_OPEN
    requires s.swaps[id].expireHeight >= TWO_63 && Unclaimed(es, id)
    ensures Lookup(Run(s, es), id) == Some(s.swaps[id])
    ensures SingleCoins(Run(s, es).swaps) && Refund(Run(s, es), id) == Err(ErrSwapNotRefundable)
    decreases |es|
  {
    hide Next, DeletionHeight;
    if es != [] {
      NextSingleCoins(s, es[0]);
      NextMoves(s, es[0], id);
      UnreachableExpiryStaysOpen(Next(s, es[0]), es[1..], id);
    }
  }
}

/** What every reachable state keeps: supplies equal sums over live swaps, escrow covers what is owed,
    and, while parameters stand, the supply caps hold. */
module SwapInvariant {
  import opened Basics
  import opened SwapTypes
  import opened Bank
  import opened MapSums
  import opened SwapSpec

  /** A swap whose amount is still outstanding. */
  predicate Live(sw: AtomicSwap) {
    sw.status == SWAP_STATUS_OPEN || sw.status == SWAP_STATUS_EXPIRED
  }

  predicate HasStatus(sw: AtomicSwap) {
    Live(sw) || sw.status == SWAP_STATUS_COMPLETED
  }

  predicate HasDirection(sw: AtomicSwap) {
    sw.direction == SWAP_DIRECTION_INCOMING || sw.direction == SWAP_DIRECTION_OUTGOING
  }

  /** What creation guarantees of a stored swap. It is weaker than ValidSwap, which InitGenesis asks for. */
  predicate GoodSwap(env: Env, id: SwapID, sw: AtomicSwap) {
    && GetSwapID(env, sw) == id
    && |sw.amount| == 1 && sw.amount[0].amount > 0
    && HasStatus(sw) && HasDirection(sw)
    && (sw.status == SWAP_STATUS_COMPLETED ==> sw.closedBlock > 0)
    && |sw.randomNumberHash| == RANDOM_NUMBER_HASH_LENGTH
    && sw.timestamp != 0
    && sw.sender != [] && sw.sender !in env.moduleAccounts
    && sw.recipient != [] && sw.recipient !in env.moduleAccounts
    && !env.blank(sw.recipientOtherChain)
  }

  /** What a swap contributes to the outstanding amount of one direction and denomination. */
  function Weight(direction: Int32, d: Denom): (SwapID, AtomicSwap) -> int {
    (id: SwapID, sw: AtomicSwap) => SwapWeight(sw, direction, d)
  }

  function SwapWeight(sw: AtomicSwap, direction: Int32, d: Denom): int {
    if Live(sw) && sw.direction == direction && |sw.amount| == 1 && sw.amount[0].denom == d then sw.amount[0].amount
    else 0
  }

  /** The amount outstanding in live swaps. */
  ghost function Outstanding(swaps: Swaps, direction: Int32, d: Denom): int {
    Sum(swaps, Weight(direction, d))
  }

  ghost predicate SupplyMatches(swaps: Swaps, d: Denom, a: AssetSupply) {
    && a.denom == d
    && a.incoming == Outstanding(swaps, SWAP_DIRECTION_INCOMING, d)
    && a.outgoing == Outstanding(swaps, SWAP_DIRECTION_OUTGOING, d)
    && a.outgoing <= a.current
    && a.timeLimitedCurrent >= 0
  }

  predicate SwapsGood(env: Env, swaps: Swaps, supplies: Supplies) {
    forall id | id in swaps :: GoodSwap(env, id, swaps[id]) && swaps[id].amount[0].denom in supplies
  }

  ghost predicate SuppliesMatch(swaps: Swaps, supplies: Supplies) {
    forall d | d in supplies :: SupplyMatches(swaps, d, supplies[d])
  }

  predicate EscrowCovers(env: Env, bank: BankState, supplies: Supplies) {
    forall d | d in supplies :: supplies[d].outgoing <= Balance(bank, env.moduleAddress, d)
  }

  ghost predicate Inv(s: State) {
    && s.env.moduleAddress in s.env.moduleAccounts
    && s.height > 0
    && ValidParams(s.params)
    && SwapsGood(s.env, s.swaps, s.supplies)
    && SuppliesMatch(s.swaps, s.supplies)
    && Solvent(s.bank)
    && EscrowCovers(s.env, s.bank, s.supplies)
  }

  /** The caps a supply stays under while its asset's parameters stand. */
  predicate WithinLimit(limit: SupplyLimit, a: AssetSupply) {
    && a.current + a.incoming <= limit.limit
    && (limit.timeLimited ==> a.timeLimitedCurrent + a.incoming <= limit.timeBasedLimit)
  }

  /** The supply of a denomination, if there is one, belongs to a listed asset and stays under its caps. */
  predicate Capped(params: seq<AssetParam>, supplies: Supplies, d: Denom) {
    d in supplies ==>
      GetAsset(params, d).Ok? && WithinLimit(GetAsset(params, d).value.supplyLimit, supplies[d])
  }

  predicate CoinsCapped(params: seq<AssetParam>, supplies: Supplies, sw: AtomicSwap) {
    forall c | c in sw.amount :: Capped(params, supplies, c.denom)
  }

  // ---- Sums -----------------------------------------------------------------------------------

  lemma OutstandingPut(swaps: Swaps, id: SwapID, sw: AtomicSwap, direction: Int32, d: Denom)
    ensures Outstanding(swaps[id := sw], direction, d)
         == Outstanding(swaps, direction, d) - (if id in swaps then SwapWeight(swaps[id], direction, d) else 0)
            + SwapWeight(sw, direction, d)
  {
    hide Sum;
    SumUpdate(swaps, Weight(direction, d), id, sw);
  }

  lemma OutstandingAgree(swaps: Swaps, swaps': Swaps, direction: Int32, d: Denom)
    requires swaps'.Keys <= swaps.Keys
    requires forall id | id in swaps' :: SwapWeight(swaps'[id], direction, d) == SwapWeight(swaps[id], direction, d)
    requires forall id | id in swaps && id !in swaps' :: SwapWeight(swaps[id], direction, d) == 0
    ensures Outstanding(swaps', direction, d) == Outstanding(swaps, direction, d)
  {
    hide Sum;
    SumAgree(swaps, swaps', Weight(direction, d));
  }

  /** A live swap's amount is part of what is outstanding. */
  lemma OutstandingCovers(env: Env, swaps: Swaps, supplies: Supplies, id: SwapID)
    requires SwapsGood(env, swaps, supplies) && id in swaps && Live(swaps[id])
    ensures swaps[id].amount[0].amount <= Outstanding(swaps, swaps[id].direction, swaps[id].amount[0].denom)
  {
    hide Sum;
    SumAtLeast(swaps, Weight(swaps[id].direction, swaps[id].amount[0].denom), id);
  }

  lemma OutstandingNonNegative(env: Env, swaps: Swaps, supplies: Supplies, direction: Int32, d: Denom)
    requires SwapsGood(env, swaps, supplies)
    ensures Outstanding(swaps, direction, d) >= 0
  {
    hide Sum;
    SumAtLeast(swaps, Weight(direction, d), []);
  }

  lemma InvSingleCoins(s: State)
    requires Inv(s)
    ensures SingleCoins(s.swaps)
  {
    hide Sum, Solvent, SuppliesMatch, EscrowCovers;
  }

  // ---- Opening and closing a swap ---------------------------------------------------------------

  /** Storing a swap and moving its denomination's supply by the change in the swap's weight keeps the match. */
  lemma PutMatches(swaps: Swaps, supplies: Supplies, id: SwapID, sw: AtomicSwap, a: AssetSupply)
    requires SuppliesMatch(swaps, supplies)
    requires |sw.amount| == 1
    requires id in swaps ==> swaps[id].amount == sw.amount
    requires a.denom == sw.amount[0].denom && a.denom in supplies
    requires forall direction: Int32 | direction == SWAP_DIRECTION_INCOMING || direction == SWAP_DIRECTION_OUTGOING ::
               Flow(a, direction) == Flow(supplies[a.denom], direction) + SwapWeight(sw, direction, a.denom)
                                     - (if id in swaps then SwapWeight(swaps[id], direction, a.denom) else 0)
    requires a.outgoing <= a.current && a.timeLimitedCurrent >= 0
    ensures SuppliesMatch(swaps[id := sw], supplies[a.denom := a])
  {
    hide Sum;
    var swaps', supplies' := swaps[id := sw], supplies[a.denom := a];
    forall d | d in supplies' ensures SupplyMatches(swaps', d, supplies'[d]) {
      assert SupplyMatches(swaps, d, supplies[d]);
      OutstandingPut(swaps, id, sw, SWAP_DIRECTION_INCOMING, d);
      OutstandingPut(swaps, id, sw, SWAP_DIRECTION_OUTGOING, d);
      if d == a.denom {
        assert Flow(a, SWAP_DIRECTION_INCOMING) == a.incoming && Flow(a, SWAP_DIRECTION_OUTGOING) == a.outgoing;
      }
    }
  }

  function Flow(a: AssetSupply, direction: Int32): int {
    if direction == SWAP_DIRECTION_INCOMING then a.incoming else a.outgoing
  }

  // ---- What each message does -----------------------------------------------------------------

  /** Changes to the four amounts of a supply. */
  datatype Shift = Shift(incoming: int, outgoing: int, current: int, window: int)

  function ShiftSupply(a: AssetSupply, delta: Shift): AssetSupply {
    a.(incoming := a.incoming + delta.incoming, outgoing := a.outgoing + delta.outgoing,
       current := a.current + delta.current, timeLimitedCurrent := a.timeLimitedCurrent + delta.window)
  }

  function Gain(b: BankState, b': BankState, addr: Address, d: Denom): int {
    Balance(b', addr, d) - Balance(b, addr, d)
  }

  function When(cond: bool, amount: int): int {
    if cond then amount else 0
  }

  /** One denomination's supply shifts; its escrow moves with the outgoing supply, and its
      total in the bank with the current supply. */
  ghost predicate Shifted(s: State, s': State, d: Denom, delta: Shift) {
    && s' == s.(swaps := s'.swaps, supplies := s'.supplies, bank := s'.bank, accounts := s'.accounts)
    && d in s.supplies
    && s'.supplies == s.supplies[d := ShiftSupply(s.supplies[d], delta)]
    && Solvent(s'.bank)
    && (forall e :: Gain(s.bank, s'.bank, s.env.moduleAddress, e) == When(e == d, delta.outgoing))
    && (forall e :: Total(s'.bank, e) - Total(s.bank, e) == When(e == d, delta.current))
  }

  /** Only the named account and the escrow see their balances change. */
  ghost predicate Paid(s: State, s': State, addr: Address, c: Coin) {
    forall a, e | a != s.env.moduleAddress ::
      Gain(s.bank, s'.bank, a, e) == When(a == addr && e == c.denom, c.amount)
  }

  function WindowShift(s: State, c: Coin): int {
    match GetAsset(s.params, c.denom)
    case Ok(asset) => When(asset.supplyLimit.timeLimited, c.amount)
    case Err(_) => 0
  }

  /** An incoming claim turns incoming supply into current supply and mints it to the recipient. */
  lemma ClaimIncomingShift(s: State, id: SwapID, sw: AtomicSwap)
    requires Inv(s) && GoodSwap(s.env, id, sw)
    requires ClaimIncoming(s, sw).Ok?
    ensures var c, s' := sw.amount[0], ClaimIncoming(s, sw).value;
            && Shifted(s, s', c.denom, Shift(-c.amount, 0, c.amount, WindowShift(s, c)))
            && Paid(s, s', sw.recipient, c)
  {
    hide Sum, Balance, Total, Move, Issue, GetSwapID, ValidParams, SwapsGood, SuppliesMatch, EscrowCovers;
    var c := sw.amount[0];
    MintSolvent(s.env, s.bank, c);
    IssueEffect(s.bank, s.env.moduleAddress, c);
    MoveSolvent(Mint(s.env, s.bank, c), s.env.moduleAddress, sw.recipient, c);
    MoveEffect(Mint(s.env, s.bank, c), s.env.moduleAddress, sw.recipient, c);
  }

  /** An outgoing claim takes the amount off the outgoing and current supplies and burns it out of escrow. */
  lemma ClaimOutgoingShift(s: State, id: SwapID, sw: AtomicSwap)
    requires Inv(s) && GoodSwap(s.env, id, sw)
    requires ClaimOutgoing(s, sw).Ok?
    ensures var c, s' := sw.amount[0], ClaimOutgoing(s, sw).value;
            && Shifted(s, s', c.denom, Shift(0, -c.amount, -c.amount, 0))
            && Paid(s, s', sw.sender, Coin(c.denom, 0))
  {
    hide Sum, Balance, Total, Move, Issue, GetSwapID, ValidParams, SwapsGood, SuppliesMatch, EscrowCovers;
    var c := sw.amount[0];
    BurnSolvent(s.env, s.bank, c);
    IssueEffect(s.bank, s.env.moduleAddress, Coin(c.denom, -c.amount));
  }

  /** An outgoing refund takes the amount off the outgoing supply and returns it from escrow to the sender. */
  lemma RefundOutgoingShift(s: State, id: SwapID, sw: AtomicSwap)
    requires Inv(s) && GoodSwap(s.env, id, sw)
    requires RefundOutgoing(s, sw).Ok?
    ensures var c, s' := sw.amount[0], RefundOutgoing(s, sw).value;
            && Shifted(s, s', c.denom, Shift(0, -c.amount, 0, 0))
            && Paid(s, s', sw.sender, c)
  {
    hide Sum, Balance, Total, Move, Issue, GetSwapID, ValidParams, SwapsGood, SuppliesMatch, EscrowCovers;
    var c := sw.amount[0];
    MoveSolvent(s.bank, s.env.moduleAddress, sw.sender, c);
    MoveEffect(s.bank, s.env.moduleAddress, sw.sender, c);
  }

  /** Storing a swap while its denomination shifts by the change in the swap's weight keeps the invariant. */
  lemma ShiftKeepsInv(s: State, s': State, id: SwapID, sw: AtomicSwap, delta: Shift)
    requires Inv(s)
    requires s'.swaps == s.swaps[id := sw] && GoodSwap(s.env, id, sw)
    requires id in s.swaps ==> s.swaps[id].amount == sw.amount
    requires Shifted(s, s', sw.amount[0].denom, delta)
    requires delta.incoming == WeightChange(s.swaps, id, sw, SWAP_DIRECTION_INCOMING)
    requires delta.outgoing == WeightChange(s.swaps, id, sw, SWAP_DIRECTION_OUTGOING)
    requires s'.supplies[sw.amount[0].denom].outgoing <= s'.supplies[sw.amount[0].denom].current
    requires delta.window >= 0
    ensures Inv(s')
  {
    hide Sum, Balance, Total, GetSwapID, ValidParams;
    var d := sw.amount[0].denom;
    assert SupplyMatches(s.swaps, d, s.supplies[d]);
    PutMatches(s.swaps, s.supplies, id, sw, s'.supplies[d]);
    forall e | e in s'.supplies ensures s'.supplies[e].outgoing <= Balance(s'.bank, s'.env.moduleAddress, e) {
      assert Gain(s.bank, s'.bank, s.env.moduleAddress, e) == When(e == d, delta.outgoing);
    }
  }

  function WeightChange(swaps: Swaps, id: SwapID, sw: AtomicSwap, direction: Int32): int
    requires |sw.amount| == 1
  {
    SwapWeight(sw, direction, sw.amount[0].denom)
    - (if id in swaps then SwapWeight(swaps[id], direction, sw.amount[0].denom) else 0)
  }

  /** The shift a create message makes, by the direction it settles. */
  function CreateShift(s: State, m: CreateMsg): Shift
    requires |m.amount| == 1
  {
    match GetAsset(s.params, m.amount[0].denom)
    case Ok(asset) =>
      if m.sender == asset.deputyAddress then Shift(m.amount[0].amount, 0, 0, 0) else Shift(0, m.amount[0].amount, 0, 0)
    case Err(_) => Shift(0, 0, 0, 0)
  }

  lemma CreateShifts(s: State, m: CreateMsg)
    requires Inv(s)
    requires ValidateBasic(s.env, m) && m.sender !in s.env.moduleAccounts
    requires Create(s, m).Ok?
    ensures |m.amount| == 1
    ensures var c, delta, s' := m.amount[0], CreateShift(s, m), Create(s, m).value;
            Shifted(s, s', c.denom, delta) && Paid(s, s', m.sender, Coin(c.denom, -delta.outgoing))
    ensures Inv(Create(s, m).value)
  {
    hide Sum, Move, Balance, Total, CalculateSwapID, EscrowCovers;
    var s', c, id := Create(s, m).value, m.amount[0], MsgSwapID(s.env, m);
    if s'.swaps[id].direction == SWAP_DIRECTION_OUTGOING {
      MoveSolvent(s.bank, m.sender, s.env.moduleAddress, c);
      MoveEffect(s.bank, m.sender, s.env.moduleAddress, c);
    }
    assert SupplyMatches(s.swaps, c.denom, s.supplies[c.denom]);
    ShiftKeepsInv(s, s', id, s'.swaps[id], CreateShift(s, m));
  }

  /** The shift that closing a swap makes: a claim if it is open, a refund if it has expired. */
  function CloseShift(s: State, sw: AtomicSwap): Shift
    requires |sw.amount| == 1
  {
    var c := sw.amount[0];
    var claimed := sw.status == SWAP_STATUS_OPEN;
    if sw.direction == SWAP_DIRECTION_INCOMING then
      Shift(-c.amount, 0, When(claimed, c.amount), When(claimed, WindowShift(s, c)))
    else Shift(0, -c.amount, When(claimed, -c.amount), 0)
  }

  /** Who is paid when a swap closes: the recipient of a claimed incoming swap, the sender of a refunded outgoing one. */
  function Payee(sw: AtomicSwap): Address {
    if sw.direction == SWAP_DIRECTION_INCOMING then sw.recipient else sw.sender
  }

  function Payout(sw: AtomicSwap): Coin
    requires |sw.amount| == 1
  {
    var pays := (sw.direction == SWAP_DIRECTION_INCOMING) == (sw.status == SWAP_STATUS_OPEN);
    Coin(sw.amount[0].denom, When(pays, sw.amount[0].amount))
  }

  lemma CloseGood(s: State, id: SwapID)
    requires Inv(s) && id in s.swaps
    ensures var sw, sw' := s.swaps[id], CloseSwap(s, s.swaps[id]);
            && GoodSwap(s.env, id, sw) && GoodSwap(s.env, id, sw')
            && HasDirection(sw) && |sw.amount| == 1 && sw.amount[0].amount > 0 && sw.amount[0].denom in s.supplies
  {
    hide Sum;
  }

  lemma ClaimShifts(s: State, id: SwapID, r: Bytes)
    requires Inv(s)
    requires Claim(s, id, r).Ok?
    ensures var sw, s' := s.swaps[id], Claim(s, id, r).value;
            Shifted(s, s', sw.amount[0].denom, CloseShift(s, sw)) && Paid(s, s', Payee(sw), Payout(sw))
    ensures Inv(Claim(s, id, r).value)
  {
    hide Sum, Solvent, ClaimIncoming, ClaimOutgoing, GoodSwap, Balance, Total, ValidParams, EscrowCovers, Gain, GetAsset, SecretMatches, SwapsGood;
    InvSingleCoins(s);
    var s', sw := Claim(s, id, r).value, s.swaps[id];
    var c := sw.amount[0];
    CloseGood(s, id);
    if sw.direction == SWAP_DIRECTION_INCOMING {
      ClaimIncomingShift(s, id, sw);
    } else {
      ClaimOutgoingShift(s, id, sw);
    }
    assert SupplyMatches(s.swaps, c.denom, s.supplies[c.denom]);
    ShiftKeepsInv(s, s', id, s'.swaps[id], CloseShift(s, sw));
  }

  lemma RefundShifts(s: State, id: SwapID)
    requires Inv(s)
    requires Refund(s, id).Ok?
    ensures var sw, s' := s.swaps[id], Refund(s, id).value;
            Shifted(s, s', sw.amount[0].denom, CloseShift(s, sw)) && Paid(s, s', Payee(sw), Payout(sw))
    ensures Inv(Refund(s, id).value)
  {
    hide Sum, Solvent, RefundOutgoing, GoodSwap, Balance, Total, ValidParams, EscrowCovers;
    InvSingleCoins(s);
    var s', sw := Refund(s, id).value, s.swaps[id];
    var c := sw.amount[0];
    CloseGood(s, id);
    if sw.direction == SWAP_DIRECTION_OUTGOING {
      RefundOutgoingShift(s, id, sw);
    }
    assert SupplyMatches(s.swaps, c.denom, s.supplies[c.denom]);
    ShiftKeepsInv(s, s', id, s'.swaps[id], CloseShift(s, sw));
  }

  // ---- Single supply steps ----------------------------------------------------------------------

  /** A step on supplies touches no other denomination and moves the named amount by exactly the coin. */
  predicate Steps(r: Result<Supplies, Error>, supplies: Supplies, d: Denom, delta: Shift) {
    r.Ok? ==> d in supplies && r.value == supplies[d := ShiftSupply(supplies[d], delta)]
  }

  /** Each of the six steps, in any state at all: which amount it moves, and that it is refused exactly when an amount
      would become negative or exceed its bound. */
  lemma SupplyStep(params: seq<AssetParam>, supplies: Supplies, c: Coin, asset: AssetParam)
    requires c.denom in supplies && GetAsset(params, c.denom) == Ok(asset)
    ensures var a, limit, n := supplies[c.denom], asset.supplyLimit, c.amount;
            var window := if limit.timeLimited then n else 0;
            && Steps(IncrementCurrent(params, supplies, c), supplies, c.denom, Shift(0, 0, n, window))
            && Steps(DecrementCurrent(supplies, c), supplies, c.denom, Shift(0, 0, -n, 0))
            && Steps(IncrementIncoming(params, supplies, c), supplies, c.denom, Shift(n, 0, 0, 0))
            && Steps(DecrementIncoming(supplies, c), supplies, c.denom, Shift(-n, 0, 0, 0))
            && Steps(IncrementOutgoing(supplies, c), supplies, c.denom, Shift(0, n, 0, 0))
            && Steps(DecrementOutgoing(supplies, c), supplies, c.denom, Shift(0, -n, 0, 0))
            && (IncrementCurrent(params, supplies, c).Ok? <==>
                  a.current + n <= limit.limit && (limit.timeLimited ==> a.timeLimitedCurrent + n <= limit.timeBasedLimit))
            && (IncrementIncoming(params, supplies, c).Ok? <==> WithinLimit(limit, a.(incoming := a.incoming + n)))
            && (IncrementOutgoing(supplies, c).Ok? <==> a.outgoing + n <= a.current)
            && (DecrementCurrent(supplies, c).Ok? <==> 0 <= a.current - n)
            && (DecrementIncoming(supplies, c).Ok? <==> 0 <= a.incoming - n)
            && (DecrementOutgoing(supplies, c).Ok? <==> 0 <= a.outgoing - n)
  {
    hide GetAsset;
  }
}

/** Messages, genesis states and runs that the code accepts and that show what it does not keep. */
module SwapExamples {
  import opened Basics
  import opened SwapTypes
  import opened Bank
  import opened MapSums
  import opened SwapSpec
  import opened SwapInvariant
  import opened SwapRuns
  import opened SwapClaims
  import opened SwapLifecycle
  import opened SwapRateLimit
  import opened Genesis

  /** A hash that keeps the first 32 bytes, and one module account. */
  function ExampleEnv(): Env {
    Env(PadRandomNumber, x => x, x => x == [], [0], {[0]})
  }

  function ExampleAsset(limit: SupplyLimit, maxBlockLock: Uint64): AssetParam {
    AssetParam("bnb", 714, limit, true, [1], 0, 1, 100, 1, maxBlockLock)
  }

  const UNLIMITED := SupplyLimit(100, false, 0, 0)

  /** No swaps yet, an empty supply and an empty bank. */
  function EmptyState(limit: SupplyLimit, maxBlockLock: Uint64): State {
    State(ExampleEnv(), [ExampleAsset(limit, maxBlockLock)], map[], map["bnb" := NewSupply("bnb")], None,
          BankState(map[], map[]), {}, 1, 0)
  }

  lemma EmptyStateInv(limit: SupplyLimit, maxBlockLock: Uint64)
    requires 0 <= limit.timeBasedLimit <= limit.limit && 1 <= maxBlockLock
    ensures var s := EmptyState(limit, maxBlockLock);
            Inv(s) && GetAsset(s.params, "bnb") == Ok(ExampleAsset(limit, maxBlockLock))
  {
    var s := EmptyState(limit, maxBlockLock);
    NothingOutstanding(s.swaps, SWAP_DIRECTION_INCOMING, "bnb");
    NothingOutstanding(s.swaps, SWAP_DIRECTION_OUTGOING, "bnb");
  }

  function Number(b: byte): Bytes {
    seq(32, i => b)
  }

  /** A message of the deputy. */
  function IncomingMsg(b: byte, heightSpan: Uint64, senderOtherChain: Bytes, amount: int): CreateMsg {
    CreateMsg(Number(b), 1, heightSpan, [1], [2], senderOtherChain, [3], [Coin("bnb", amount)])
  }

  /** A creation with a blank sender on the other chain succeeds. */
  lemma BlankSenderExample() returns (s: State, m: CreateMsg)
    ensures Inv(s) && ValidateBasic(s.env, m) && m.sender !in s.env.moduleAccounts
    ensures Create(s, m).Ok? && s.env.blank(m.senderOtherChain)
  {
    hide Inv, CalculateSwapID;
    s, m := EmptyState(UNLIMITED, 10), IncomingMsg(0, 5, [], 7);
    EmptyStateInv(UNLIMITED, 10);
  }

  /** A creation whose expiry height wraps around to zero succeeds, and the state it leaves cannot be exported. */
  lemma ZeroExpiryExample() returns (s: State, m: CreateMsg)
    ensures Inv(s) && ValidateBasic(s.env, m) && m.sender !in s.env.moduleAccounts && Create(s, m).Ok?
    ensures var s', id := Create(s, m).value, MsgSwapID(s.env, m);
            && id in s'.swaps && s'.swaps[id].expireHeight == 0
            && SingleCoins(s'.swaps) && !Exportable(s')
  {
    hide Inv, CalculateSwapID, LiveAsset, SupplyListed;
    s, m := EmptyState(UNLIMITED, 10), IncomingMsg(0, TWO_64 - 1, [4], 7);
    EmptyStateInv(UNLIMITED, 10);
    var s', id := Create(s, m).value, MsgSwapID(s.env, m);
    assert id in s'.swaps && s'.swaps[id].expireHeight == 0;
  }

  /** The holder of seven coins, all of them issued by the module. */
  function HolderState(): State {
    EmptyState(UNLIMITED, TWO_63).(
      supplies := map["bnb" := NewSupply("bnb").(current := 7)],
      bank := BankState(map[Account([2], "bnb") := 7], map["bnb" := 7]))
  }

  lemma HolderStateInv()
    ensures Inv(HolderState())
    ensures GetAsset(HolderState().params, "bnb") == Ok(ExampleAsset(UNLIMITED, TWO_63))
  {
    EmptyStateInv(UNLIMITED, TWO_63);
    var s := HolderState();
    NothingOutstanding(s.swaps, SWAP_DIRECTION_INCOMING, "bnb");
    NothingOutstanding(s.swaps, SWAP_DIRECTION_OUTGOING, "bnb");
    forall d ensures Balanced(s.bank, d) {
      SumUpdate(map[], HoldingOf(d), Account([2], "bnb"), 7);
    }
  }

  function StuckMsg(): CreateMsg {
    CreateMsg(Number(0), 1, TWO_63, [2], [1], [4], [3], [Coin("bnb", 7)])
  }

  lemma StuckCreate()
    ensures var s, m := HolderState(), StuckMsg();
            && ValidateBasic(s.env, m) && m.sender !in s.env.moduleAccounts && Create(s, m).Ok?
            && Create(s, m).value.swaps == map[MsgSwapID(s.env, m) := NewSwap(s, m, SWAP_DIRECTION_OUTGOING)]
            && NewSwap(s, m, SWAP_DIRECTION_OUTGOING).expireHeight == TWO_63 + 1
  {
    hide Inv, CalculateSwapID;
    HolderStateInv();
  }

  /** An outgoing swap can be created, within its asset's block lock, whose expiry height no block reaches. Unless it is
      claimed it stays open on every run, and no refund ever succeeds. */
  lemma StuckEscrowExample() returns (s: State, m: CreateMsg, id: SwapID)
    ensures Inv(s) && ValidateBasic(s.env, m) && m.sender !in s.env.moduleAccounts && Create(s, m).Ok?
    ensures var s' := Create(s, m).value;
            && id in s'.swaps && s'.swaps[id].direction == SWAP_DIRECTION_OUTGOING && SingleCoins(s'.swaps)
            && forall es | Unclaimed(es, id) ::
                 && Lookup(Run(s', es), id) == Some(s'.swaps[id])
                 && SingleCoins(Run(s', es).swaps) && Refund(Run(s', es), id) == Err(ErrSwapNotRefundable)
  {
    hide Inv, CalculateSwapID, Run, Refund, Lookup, Create, ValidateBasic, HolderState;
    s, m := HolderState(), StuckMsg();
    id := MsgSwapID(s.env, m);
    HolderStateInv();
    StuckCreate();
    var s' := Create(s, m).value;
    forall es | Unclaimed(es, id)
      ensures Lookup(Run(s', es), id) == Some(s'.swaps[id])
      ensures SingleCoins(Run(s', es).swaps) && Refund(Run(s', es), id) == Err(ErrSwapNotRefundable)
    {
      UnreachableExpiryStaysOpen(s', es, id);
    }
  }

  // ---- A window that began in the future --------------------------------------------------------

  /** Five units in ten nanoseconds. */
  const FIVE_IN_TEN := SupplyLimit(100, true, 10, 5)

  function NegativeGenesis(): GenesisState {
    GenesisState([ExampleAsset(FIVE_IN_TEN, 10)], [], [NewSupply("bnb").(timeElapsed := -100)], 0)
  }

  /** The import does not look at elapsed times: it accepts a negative one, and the first block can leave it so. */
  lemma NegativeElapsedExample() returns (s: State, gs: GenesisState)
    ensures Accepted(s.env, gs) && SoundGenesis(s, gs)
    ensures var s0 := GenesisLoaded(s, gs);
            && Inv(s0) && CanStartBlock(s0, 1) && SingleCoins(s0.swaps)
            && Metered(Next(s0, BlockEvent(1)), "bnb") && ElapsedOf(Next(s0, BlockEvent(1)), "bnb") == -99
  {
    s, gs := EmptyState(FIVE_IN_TEN, 10), NegativeGenesis();
    NegativeGenesisAccepted();
    hide Inv, Accepted, SoundGenesis, Next;
    GenesisEstablishesInv(s, gs);
    var s0 := GenesisLoaded(s, gs);
    InvSingleCoins(s0);
    assert SupplyMap(gs.supplies)["bnb"] == gs.supplies[0];
    assert GetAsset(s0.params, "bnb") == Ok(ExampleAsset(FIVE_IN_TEN, 10));
    BlockMeters(s0, 1, "bnb");
  }

  lemma NegativeGenesisAccepted()
    ensures Accepted(ExampleEnv(), NegativeGenesis())
    ensures SoundGenesis(EmptyState(FIVE_IN_TEN, 10), NegativeGenesis())
  {
    EmptyStateInv(FIVE_IN_TEN, 10);
    assert GetAsset(NegativeGenesis().params, "bnb") == Ok(ExampleAsset(FIVE_IN_TEN, 10));
  }

  // ---- Twice the limit in less than a period ----------------------------------------------------

  /** Between blocks of the example run: the supply of the one asset, the time and the height. */
  ghost predicate Stage(s: State, incoming: int, current: int, window: int, elapsed: int, t: int, h: int) {
    && Inv(s) && s.env == ExampleEnv() && s.params == [ExampleAsset(FIVE_IN_TEN, 10)]
    && s.time == t && s.previousBlockTime == Some(t) && s.height == h
    && "bnb" in s.supplies && s.supplies["bnb"] == AssetSupply("bnb", incoming, 0, current, window, elapsed)
  }

  function FiveMsg(b: byte): CreateMsg {
    IncomingMsg(b, 5, [4], 5)
  }

  function FiveSwap(b: byte, h: Height): AtomicSwap {
    AtomicSwap([Coin("bnb", 5)], Number(b), ToUint64(h + 5), 1, [1], [2], [4], [3], 0, SWAP_STATUS_OPEN, true,
               SWAP_DIRECTION_INCOMING)
  }

  /** With the example's hash a swap's ID is its random number. */
  lemma NumberIsID(b: byte, h: Height)
    ensures MsgSwapID(ExampleEnv(), FiveMsg(b)) == Number(b) && GetSwapID(ExampleEnv(), FiveSwap(b, h)) == Number(b)
    ensures SecretMatches(ExampleEnv(), FiveSwap(b, h), Number(b))
  {
    var other := [4];
    assert (Number(b) + [1] + other)[..32] == Number(b);
    assert (Number(b) + BigEndian64(ToUint64(1)))[..32] == Number(b);
  }

  lemma CreateStage(s: State, b: byte, current: int, elapsed: int, t: int, h: Height)
    requires Stage(s, 0, current, 0, elapsed, t, h) && 0 <= t <= 100 && current + 5 <= 100 && Number(b) !in s.swaps
    ensures SingleCoins(s.swaps)
    ensures var s' := Next(s, CreateEvent(FiveMsg(b)));
            && Stage(s', 5, current, 0, elapsed, t, h)
            && s'.swaps == s.swaps[Number(b) := FiveSwap(b, h)]
            && ClaimedBy(s, CreateEvent(FiveMsg(b)), SWAP_DIRECTION_INCOMING, "bnb") == 0
  {
    hide Inv, CalculateSwapID, Number;
    InvSingleCoins(s);
    NextKeepsInv(s, CreateEvent(FiveMsg(b)));
    NumberIsID(b, h);
    NumberLength(b);
    assert GetAsset(s.params, "bnb") == Ok(ExampleAsset(FIVE_IN_TEN, 10));
  }

  lemma NumberLength(b: byte)
    ensures |Number(b)| == 32
  {
  }

  lemma ClaimStage(s: State, b: byte, made: Height, current: int, elapsed: int, t: int, h: Height)
    requires Stage(s, 5, current, 0, elapsed, t, h) && 0 <= current <= 95
    requires Number(b) in s.swaps && s.swaps[Number(b)] == FiveSwap(b, made)
    ensures SingleCoins(s.swaps)
    ensures var e := ClaimEvent(Number(b), Number(b));
            && Stage(Next(s, e), 0, current + 5, 5, elapsed, t, h)
            && Next(s, e).swaps.Keys == s.swaps.Keys
            && ClaimedBy(s, e, SWAP_DIRECTION_INCOMING, "bnb") == 5
  {
    hide Inv, CalculateSwapID, Number, SecretMatches, Claim, Paid, Balance, Total, Solvent;
    var e, id := ClaimEvent(Number(b), Number(b)), Number(b);
    InvSingleCoins(s);
    NextKeepsInv(s, e);
    NumberIsID(b, made);
    assert GetAsset(s.params, "bnb") == Ok(ExampleAsset(FIVE_IN_TEN, 10));
    ClaimSucceedsIff(s, id, id);
    ClaimShifts(s, id, id);
    ClaimKeepsKeys(s, id, id);
  }

  lemma ClaimKeepsKeys(s: State, id: SwapID, r: Bytes)
    requires SingleCoins(s.swaps) && Claim(s, id, r).Ok?
    ensures Claim(s, id, r).value.swaps.Keys == s.swaps.Keys
  {
    hide ClaimIncoming, ClaimOutgoing, SecretMatches;
  }

  lemma BlockStage(s: State, incoming: int, current: int, window: int, elapsed: int, t: int, h: Height, t': int)
    requires Stage(s, incoming, current, window, elapsed, t, h) && t <= t' && h < 100
    ensures SingleCoins(s.swaps)
    ensures var s', later := Next(s, BlockEvent(t')), elapsed + t' - t < 10;
            && Stage(s', incoming, current, if later then window else 0, if later then elapsed + t' - t else 0, t', h + 1)
            && s'.swaps.Keys <= s.swaps.Keys
            && (forall id | id in s.swaps && s.swaps[id].status == SWAP_STATUS_OPEN && h + 1 < s.swaps[id].expireHeight ::
                  id in s'.swaps && s'.swaps[id] == s.swaps[id])
            && ClaimedBy(s, BlockEvent(t'), SWAP_DIRECTION_INCOMING, "bnb") == 0
  {
    hide Inv, BeginBlocker, UpdateTimeBasedSupplyLimits, Create, Claim, Refund, Move;
    var s0 := StartBlock(s, t');
    InvSingleCoins(s);
    NextKeepsInv(s, BlockEvent(t'));
    assert GetAsset(s.params, "bnb") == Ok(ExampleAsset(FIVE_IN_TEN, 10));
    BlockFrame(s0);
    TickWindow(s0, "bnb", t);
    var s' := Next(s, BlockEvent(t'));
    forall id
      ensures id in s'.swaps ==> id in s.swaps
      ensures id in s.swaps && s.swaps[id].status == SWAP_STATUS_OPEN && h + 1 < s.swaps[id].expireHeight ==>
                id in s'.swaps && s'.swaps[id] == s.swaps[id]
    {
      BlockKeepsOpen(s0, id);
    }
  }

  lemma BlockKeepsOpen(s: State, id: SwapID)
    ensures var s' := BeginBlocker(s);
            && (id in s'.swaps ==> id in s.swaps)
            && (id in s.swaps && s.swaps[id].status == SWAP_STATUS_OPEN && s.height < s.swaps[id].expireHeight ==>
                  id in s'.swaps && s'.swaps[id] == s.swaps[id])
  {
    hide BeginBlocker;
    BlockSwaps(s, id);
  }

  /** The bound of the rate limit is reached: after a block and a creation, two claims of the full limit one nanosecond
      apart, out of a period of ten. */
  lemma FullLimitTwice() returns (s: State, t: int, before: seq<Event>, es: seq<Event>)
    ensures Inv(s) && Capped(s.params, s.supplies, "bnb") && TimeLimited(s.params, "bnb")
    ensures CanStartBlock(s, t) && NoParamsChange(before) && NoParamsChange(es)
    ensures SingleCoins(s.swaps) && SingleCoins(Next(s, BlockEvent(t)).swaps)
    ensures var s1, limit := Run(Next(s, BlockEvent(t)), before), GetAsset(s.params, "bnb").value.supplyLimit;
            && Metered(s1, "bnb") && WindowOf(s1, "bnb") == 0 && SingleCoins(s1.swaps) && limit.timeBasedLimit == 5
            && Run(s1, es).time - s1.time < limit.timePeriod
            && TotalClaimed(s1, es, SWAP_DIRECTION_INCOMING, "bnb") == 2 * limit.timeBasedLimit
  {
    hide Inv, Next, ClaimedBy, Number, Stage;
    s, t, before, es := MeteredStart(), 0, [CreateEvent(FiveMsg(1)), BlockEvent(9)], TwoClaims();
    StartStage();
    BlockStage(s, 0, 0, 0, 0, 0, 1, 0);
    var s0 := Next(s, BlockEvent(0));
    assert Number(1) !in s0.swaps;
    CreateStage(s0, 1, 0, 0, 0, 2);
    var s1 := Next(s0, before[0]);
    BlockStage(s1, 5, 0, 0, 0, 0, 2, 9);
    var s2 := Next(s1, before[1]);
    StageFacts(s2, 5, 0, 0, 9, 9, 3);
    RunTwo(s0, before);
    TwoClaimsClaimed(s2);
  }

  /** The state of a genesis at time zero. */
  function MeteredStart(): State {
    EmptyState(FIVE_IN_TEN, 10).(previousBlockTime := Some(0))
  }

  function TwoClaims(): seq<Event> {
    [ClaimEvent(Number(1), Number(1)), BlockEvent(10), CreateEvent(FiveMsg(2)), ClaimEvent(Number(2), Number(2))]
  }

  lemma StartStage()
    ensures Stage(MeteredStart(), 0, 0, 0, 0, 0, 1) && MeteredStart().swaps == map[]
    ensures TimeLimited(MeteredStart().params, "bnb") && Capped(MeteredStart().params, MeteredStart().supplies, "bnb")
    ensures GetAsset(MeteredStart().params, "bnb").value.supplyLimit == FIVE_IN_TEN
    ensures Inv(MeteredStart()) && CanStartBlock(MeteredStart(), 0)
  {
    EmptyStateInv(FIVE_IN_TEN, 10);
    InvIgnoresTimes(EmptyState(FIVE_IN_TEN, 10), MeteredStart());
  }

  lemma StageFacts(s: State, incoming: int, current: int, window: int, elapsed: int, t: int, h: int)
    requires Stage(s, incoming, current, window, elapsed, t, h)
    ensures Metered(s, "bnb") && WindowOf(s, "bnb") == window && s.time == t && SingleCoins(s.swaps)
  {
    InvSingleCoins(s);
    assert GetAsset(s.params, "bnb") == Ok(ExampleAsset(FIVE_IN_TEN, 10));
  }

  lemma RunTwo(s: State, es: seq<Event>)
    requires SingleCoins(s.swaps) && |es| == 2
    ensures SingleCoins(Next(s, es[0]).swaps) && Run(s, es) == Next(Next(s, es[0]), es[1])
  {
    hide Next;
    NextSingleCoins(s, es[0]);
    var s1 := Next(s, es[0]);
    NextSingleCoins(s1, es[1]);
    assert es[1..] == [es[1]] && es[1..][1..] == [];
    assert Run(s1, [es[1]]) == Run(Next(s1, es[1]), []);
  }

  lemma TwoClaimsClaimed(s: State)
    requires Stage(s, 5, 0, 0, 9, 9, 3) && s.swaps.Keys == {Number(1)} && s.swaps[Number(1)] == FiveSwap(1, 2)
    ensures SingleCoins(s.swaps) && Run(s, TwoClaims()).time == 10
    ensures TotalClaimed(s, TwoClaims(), SWAP_DIRECTION_INCOMING, "bnb") == 10
  {
    hide Inv, Next, ClaimedBy, Number, Stage;
    var es := TwoClaims();
    ClaimStage(s, 1, 2, 0, 9, 9, 3);
    var s3 := Next(s, es[0]);
    BlockStage(s3, 0, 5, 5, 9, 9, 3, 10);
    var s4 := Next(s3, es[1]);
    NumbersDiffer();
    CreateStage(s4, 2, 5, 0, 10, 4);
    var s5 := Next(s4, es[2]);
    ClaimStage(s5, 2, 4, 5, 0, 10, 4);
    StageFacts(Next(s5, es[3]), 0, 10, 5, 0, 10, 4);
    assert es == es[..2] + es[2..];
    RunTwo(s, es[..2]);
    RunTwo(s4, es[2..]);
    ClaimedTwo(s, es[..2]);
    ClaimedTwo(s4, es[2..]);
    RunConcat(s, es[..2], es[2..]);
  }

  lemma NumbersDiffer()
    ensures Number(1) != Number(2)
  {
    assert Number(1)[0] != Number(2)[0];
  }

  lemma ClaimedTwo(s: State, es: seq<Event>)
    requires SingleCoins(s.swaps) && |es| == 2
    ensures SingleCoins(Next(s, es[0]).swaps)
    ensures TotalClaimed(s, es, SWAP_DIRECTION_INCOMING, "bnb")
         == ClaimedBy(s, es[0], SWAP_DIRECTION_INCOMING, "bnb")
            + ClaimedBy(Next(s, es[0]), es[1], SWAP_DIRECTION_INCOMING, "bnb")
  {
    hide Next, ClaimedBy;
    NextSingleCoins(s, es[0]);
    var s1 := Next(s, es[0]);
    NextSingleCoins(s1, es[1]);
    assert es[1..] == [es[1]] && es[1..][1..] == [];
    assert TotalClaimed(Next(s1, es[1]), [], SWAP_DIRECTION_INCOMING, "bnb") == 0;
  }

  lemma {:induction false} RunConcat(s: State, es: seq<Event>, fs: seq<Event>)
    requires SingleCoins(s.swaps)
    ensures SingleCoins(Run(s, es).swaps) && Run(s, es + fs) == Run(Run(s, es), fs)
    ensures TotalClaimed(s, es + fs, SWAP_DIRECTION_INCOMING, "bnb")
         == TotalClaimed(s, es, SWAP_DIRECTION_INCOMING, "bnb")
            + TotalClaimed(Run(s, es), fs, SWAP_DIRECTION_INCOMING, "bnb")
    decreases |es|
  {
    hide Next, ClaimedBy;
    if es == [] {
      assert es + fs == fs;
    } else {
      NextSingleCoins(s, es[0]);
      RunConcat(Next(s, es[0]), es[1..], fs);
      assert (es + fs)[1..] == es[1..] + fs;
    }
  }
}

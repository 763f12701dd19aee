/** How much can be claimed: the current supply as a ledger of claims, and the time-based limit as a
    bound on what any stretch of time lets in. */
module SwapRateLimit {
  import opened Basics
  import opened SwapTypes
  import opened Bank
  import opened SwapSpec
  import opened SwapInvariant
  import opened SwapRuns

  /** What an event claims of one direction and denomination. */
  function ClaimedBy(s: State, e: Event, direction: Int32, d: Denom): int
    requires SingleCoins(s.swaps)
  {
    if e.ClaimEvent? && Claim(s, e.id, e.randomNumber).Ok?
       && s.swaps[e.id].direction == direction && s.swaps[e.id].amount[0].denom == d
    then s.swaps[e.id].amount[0].amount else 0
  }

  function TotalClaimed(s: State, es: seq<Event>, direction: Int32, d: Denom): int
    requires SingleCoins(s.swaps)
    decreases |es|
  {
    if es == [] then 0
    else
      NextSingleCoins(s, es[0]);
      ClaimedBy(s, es[0], direction, d) + TotalClaimed(Next(s, es[0]), es[1..], direction, d)
  }

  // ---- The current supply is a ledger of claims -------------------------------------------------

  predicate TimeLimited(params: seq<AssetParam>, d: Denom) {
    GetAsset(params, d).Ok? && GetAsset(params, d).value.supplyLimit.timeLimited
  }

  /** A successful claim shifts the current supply and the window by what it claims; no other message moves them. */
  lemma MessageDelta(s: State, e: Event, d: Denom) returns (e': Denom, delta: Shift)
    requires Inv(s) && (e.CreateEvent? || e.ClaimEvent? || e.RefundEvent?)
    ensures Next(s, e) == s || Shifted(s, Next(s, e), e', delta)
    ensures var c := ClaimedBy(s, e, SWAP_DIRECTION_INCOMING, d);
            && c - ClaimedBy(s, e, SWAP_DIRECTION_OUTGOING, d) == When(Next(s, e) != s && d == e', delta.current)
            && (TimeLimited(s.params, d) ==> c == When(Next(s, e) != s && d == e', delta.window))
  {
    hide Inv, Create, Claim, Refund, Paid, ValidateBasic, GetSwapID, Shifted, GetAsset;
    InvSingleCoins(s);
    e', delta := [], Shift(0, 0, 0, 0);
    match e
    case CreateEvent(m) =>
      if Next(s, e) != s {
        CreateShifts(s, m);
        e', delta := m.amount[0].denom, CreateShift(s, m);
      }
    case ClaimEvent(id, r) =>
      if Claim(s, id, r).Ok? {
        ClaimFound(s, id, r);
        ClaimShifts(s, id, r);
        ClaimChanges(s, id, r);
        e', delta := s.swaps[id].amount[0].denom, CloseShift(s, s.swaps[id]);
      }
    case RefundEvent(id) =>
      if Next(s, e) != s {
        RefundFound(s, id);
        RefundShifts(s, id);
        e', delta := s.swaps[id].amount[0].denom, CloseShift(s, s.swaps[id]);
      }
  }

  lemma ClaimChanges(s: State, id: SwapID, r: Bytes)
    requires SingleCoins(s.swaps) && Claim(s, id, r).Ok?
    ensures Claim(s, id, r).value != s
  {
    assert Claim(s, id, r).value.swaps[id].status != s.swaps[id].status;
  }

  lemma ShiftWindow(s: State, s': State, e: Denom, delta: Shift, d: Denom)
    requires Shifted(s, s', e, delta)
    ensures s'.supplies.Keys == s.supplies.Keys
    ensures CurrentOf(s', d) == CurrentOf(s, d) + When(d == e, delta.current)
    ensures d in s.supplies ==>
              && s'.supplies[d].timeElapsed == s.supplies[d].timeElapsed
              && s'.supplies[d].timeLimitedCurrent == s.supplies[d].timeLimitedCurrent + When(d == e, delta.window)
    ensures s'.time == s.time && s'.previousBlockTime == s.previousBlockTime && s'.params == s.params
  {
    hide Solvent, Balance, Total;
  }

  /** What a message or transfer adds to the current supply and to the window of a denomination. */
  lemma MessageClaims(s: State, e: Event, d: Denom)
    requires Inv(s) && !e.BlockEvent? && !e.ParamsEvent?
    ensures CurrentOf(Next(s, e), d) == CurrentOf(s, d)
              + ClaimedBy(s, e, SWAP_DIRECTION_INCOMING, d) - ClaimedBy(s, e, SWAP_DIRECTION_OUTGOING, d)
    ensures Next(s, e).supplies.Keys == s.supplies.Keys
    ensures d in s.supplies ==>
              var a, a' := s.supplies[d], Next(s, e).supplies[d];
              && a'.timeElapsed == a.timeElapsed
              && (TimeLimited(s.params, d) ==>
                    a'.timeLimitedCurrent == a.timeLimitedCurrent + ClaimedBy(s, e, SWAP_DIRECTION_INCOMING, d))
    ensures Next(s, e).time == s.time && Next(s, e).previousBlockTime == s.previousBlockTime
    ensures Next(s, e).params == s.params
  {
    InvSingleCoins(s);
    if e.TransferEvent? {
      hide Inv, Move, Create, Claim, Refund, BeginBlocker;
    } else {
      var e', delta := MessageDelta(s, e, d);
      hide Inv, ClaimedBy, Shifted, Next, TimeLimited;
      if Next(s, e) != s {
        ShiftWindow(s, Next(s, e), e', delta, d);
      }
    }
  }

  lemma TickCurrent(s: State, d: Denom)
    ensures CurrentOf(UpdateTimeBasedSupplyLimits(s), d) == CurrentOf(s, d)
  {
  }

  lemma NextCurrent(s: State, e: Event, d: Denom)
    requires Inv(s)
    ensures CurrentOf(Next(s, e), d) == CurrentOf(s, d)
              + ClaimedBy(s, e, SWAP_DIRECTION_INCOMING, d) - ClaimedBy(s, e, SWAP_DIRECTION_OUTGOING, d)
  {
    InvSingleCoins(s);
    if e.BlockEvent? {
      hide Inv, BeginBlocker, UpdateTimeBasedSupplyLimits, Create, Claim, Refund, Move;
      if CanStartBlock(s, e.time) {
        BlockFrame(StartBlock(s, e.time));
        TickCurrent(StartBlock(s, e.time), d);
      }
    } else if !e.ParamsEvent? {
      MessageClaims(s, e, d);
    }
  }

  /** The current supply is what it was, plus what incoming claims brought, less what outgoing claims took. */
  lemma {:induction false} CurrentIsLedger(s: State, es: seq<Event>, d: Denom)
    requires Inv(s)
    ensures CurrentOf(Run(s, es), d) == CurrentOf(s, d)
              + TotalClaimed(s, es, SWAP_DIRECTION_INCOMING, d) - TotalClaimed(s, es, SWAP_DIRECTION_OUTGOING, d)
    decreases |es|
  {
    hide Inv, Next, CurrentOf, ClaimedBy;
    InvSingleCoins(s);
    if es != [] {
      NextKeepsInv(s, es[0]);
      NextCurrent(s, es[0], d);
      CurrentIsLedger(Next(s, es[0]), es[1..], d);
    }
  }

  // ---- The window -------------------------------------------------------------------------------

  /** A time-limited asset whose supply is known and whose last window update was at the current block. */
  predicate Metered(s: State, d: Denom) {
    && TimeLimited(s.params, d) && d in s.supplies
    && s.previousBlockTime == Some(s.time)
  }

  function LimitOf(s: State, d: Denom): SupplyLimit
    requires Metered(s, d)
  {
    GetAsset(s.params, d).value.supplyLimit
  }

  function WindowOf(s: State, d: Denom): int
    requires Metered(s, d)
  {
    s.supplies[d].timeLimitedCurrent
  }

  function ElapsedOf(s: State, d: Denom): int
    requires Metered(s, d)
  {
    s.supplies[d].timeElapsed
  }

  /** The event begins a block at which the window has lasted its full period. */
  predicate Restarts(s: State, e: Event, d: Denom)
    requires Metered(s, d)
  {
    e.BlockEvent? && CanStartBlock(s, e.time) && ElapsedOf(s, d) + e.time - s.time >= LimitOf(s, d).timePeriod
  }

  lemma NextWindow(s: State, e: Event, d: Denom)
    requires Inv(s) && Metered(s, d) && !e.ParamsEvent?
    ensures var s' := Next(s, e);
            && Metered(s', d) && LimitOf(s', d) == LimitOf(s, d)
            && s'.time == (if e.BlockEvent? && CanStartBlock(s, e.time) then e.time else s.time)
            && (if Restarts(s, e, d) then WindowOf(s', d) == 0 && ElapsedOf(s', d) == 0
                else && WindowOf(s', d) == WindowOf(s, d) + ClaimedBy(s, e, SWAP_DIRECTION_INCOMING, d)
                     && ElapsedOf(s', d) == ElapsedOf(s, d) + s'.time - s.time)
            && (Restarts(s, e, d) ==>
                  && ClaimedBy(s, e, SWAP_DIRECTION_INCOMING, d) == 0
                  && ElapsedOf(s, d) + s'.time - s.time >= LimitOf(s, d).timePeriod)
  {
    InvSingleCoins(s);
    if e.BlockEvent? {
      hide Inv, BeginBlocker, UpdateTimeBasedSupplyLimits, Create, Claim, Refund, Move;
      if CanStartBlock(s, e.time) {
        BlockFrame(StartBlock(s, e.time));
        TickWindow(StartBlock(s, e.time), d, s.time);
      }
    } else {
      hide Next, ClaimedBy;
      MessageClaims(s, e, d);
    }
  }

  lemma TickWindow(s: State, d: Denom, previous: int)
    requires TimeLimited(s.params, d) && d in s.supplies && s.previousBlockTime == Some(previous)
    ensures var s', limit, elapsed := UpdateTimeBasedSupplyLimits(s), GetAsset(s.params, d).value.supplyLimit, s.time - previous;
            && d in s'.supplies && s'.supplies[d] == Tick(limit, s.supplies[d], elapsed)
            && s'.previousBlockTime == Some(s.time)
  {
  }

  /** A stretch of less than a period lets in at most twice the limit; one without a restart at most the limit. */
  lemma {:induction false} MeteredStretch(s: State, es: seq<Event>, d: Denom)
    requires Inv(s) && Capped(s.params, s.supplies, d) && Metered(s, d) && NoParamsChange(es)
    requires Run(s, es).time - s.time < LimitOf(s, d).timePeriod
    ensures TotalClaimed(s, es, SWAP_DIRECTION_INCOMING, d) <= 2 * LimitOf(s, d).timeBasedLimit - WindowOf(s, d)
    ensures ElapsedOf(s, d) + Run(s, es).time - s.time < LimitOf(s, d).timePeriod ==>
              TotalClaimed(s, es, SWAP_DIRECTION_INCOMING, d) <= LimitOf(s, d).timeBasedLimit - WindowOf(s, d)
    decreases |es|
  {
    hide Inv, Next, Capped, ClaimedBy, Metered, LimitOf, WindowOf, ElapsedOf, Restarts;
    InvSingleCoins(s);
    WindowWithinLimit(s, d);
    if es != [] {
      var s1 := Next(s, es[0]);
      NextKeepsInv(s, es[0]);
      NextKeepsCaps(s, es[0], d);
      NextWindow(s, es[0], d);
      RunTime(s1, es[1..]);
      MeteredStretch(s1, es[1..], d);
    }
  }

  lemma WindowWithinLimit(s: State, d: Denom)
    requires Inv(s) && Capped(s.params, s.supplies, d) && Metered(s, d)
    ensures 0 <= WindowOf(s, d) <= LimitOf(s, d).timeBasedLimit
  {
    WindowNonNegative(s, d);
  }

  lemma {:induction false} RunTime(s: State, es: seq<Event>)
    requires Inv(s) && NoParamsChange(es)
    ensures s.time <= Run(s, es).time
    decreases |es|
  {
    hide Inv, Next;
    InvSingleCoins(s);
    if es != [] {
      NextKeepsInv(s, es[0]);
      NextTime(s, es[0]);
      RunTime(Next(s, es[0]), es[1..]);
    }
  }

  lemma NextTime(s: State, e: Event)
    requires Inv(s) && !e.ParamsEvent?
    ensures s.time <= Next(s, e).time
  {
    InvSingleCoins(s);
    if e.BlockEvent? {
      hide Inv, BeginBlocker, Create, Claim, Refund, Move;
      if CanStartBlock(s, e.time) {
        BlockFrame(StartBlock(s, e.time));
      }
    } else {
      MessageClaims(s, e, []);
    }
  }

  /** A window as an observer of claims and block times sees it: when it began, and what was claimed since. */
  datatype Window = Window(start: int, claimed: int)

  function Observe(s: State, e: Event, d: Denom, period: int, w: Window): Window
    requires SingleCoins(s.swaps)
  {
    if e.BlockEvent? && CanStartBlock(s, e.time) && e.time - w.start >= period then Window(e.time, 0)
    else w.(claimed := w.claimed + ClaimedBy(s, e, SWAP_DIRECTION_INCOMING, d))
  }

  function Track(s: State, es: seq<Event>, d: Denom, period: int, w: Window): Window
    requires SingleCoins(s.swaps)
    decreases |es|
  {
    if es == [] then w
    else
      NextSingleCoins(s, es[0]);
      Track(Next(s, es[0]), es[1..], d, period, Observe(s, es[0], d, period, w))
  }

  /** The stored window agrees with the observed one and has not outlived its period. A period that is not positive
      leaves a window no time at all. */
  predicate Agrees(s: State, d: Denom, limit: SupplyLimit, w: Window) {
    && Metered(s, d) && LimitOf(s, d) == limit
    && WindowOf(s, d) == w.claimed && ElapsedOf(s, d) == s.time - w.start
    && InPeriod(ElapsedOf(s, d), limit.timePeriod)
  }

  predicate InPeriod(elapsed: int, period: int) {
    elapsed == 0 || 0 < elapsed < period
  }

  lemma NextAgrees(s: State, e: Event, d: Denom, limit: SupplyLimit, w: Window)
    requires Inv(s) && Agrees(s, d, limit, w) && !e.ParamsEvent?
    ensures Agrees(Next(s, e), d, limit, Observe(s, e, d, limit.timePeriod, w))
  {
    hide Inv, Next, ClaimedBy, Metered, LimitOf, WindowOf, ElapsedOf;
    InvSingleCoins(s);
    NextWindow(s, e, d);
  }

  lemma {:induction false} RunAgrees(s: State, es: seq<Event>, d: Denom, limit: SupplyLimit, w: Window)
    requires Inv(s) && Capped(s.params, s.supplies, d) && NoParamsChange(es)
    requires Agrees(s, d, limit, w)
    ensures Agrees(Run(s, es), d, limit, Track(s, es, d, limit.timePeriod, w))
    ensures 0 <= Track(s, es, d, limit.timePeriod, w).claimed <= limit.timeBasedLimit
    decreases |es|
  {
    WindowWithinLimit(s, d);
    hide Inv, Next, Capped, Agrees, Observe;
    InvSingleCoins(s);
    if es != [] {
      NextKeepsInv(s, es[0]);
      NextKeepsCaps(s, es[0], d);
      NextAgrees(s, es[0], d, limit, w);
      RunAgrees(Next(s, es[0]), es[1..], d, limit, Observe(s, es[0], d, limit.timePeriod, w));
    }
  }

  // ---- The first block --------------------------------------------------------------------------

  /** The elapsed time that a block at time t finds. */
  function ElapsedAt(s: State, d: Denom, t: int): int {
    SupplyOrNew(s.supplies, d).timeElapsed + t - (if s.previousBlockTime.Some? then s.previousBlockTime.value else t)
  }

  /** The window as a block leaves it. */
  function WindowAt(s: State, d: Denom): Window
    requires Metered(s, d)
  {
    Window(s.time - ElapsedOf(s, d), WindowOf(s, d))
  }

  /** Any block meters every time-limited asset. Its window then agrees with what an observer sees exactly when the
      elapsed time found was not negative, or at least not below the period. */
  lemma BlockMeters(s: State, t: int, d: Denom)
    requires Inv(s) && TimeLimited(s.params, d) && CanStartBlock(s, t)
    ensures SingleCoins(s.swaps)
    ensures var s', limit := Next(s, BlockEvent(t)), GetAsset(s.params, d).value.supplyLimit;
            && Metered(s', d) && LimitOf(s', d) == limit && s'.time == t && s'.params == s.params
            && (ElapsedOf(s', d) == if ElapsedAt(s, d, t) < limit.timePeriod then ElapsedAt(s, d, t) else 0)
            && (Agrees(s', d, limit, WindowAt(s', d)) <==>
                  0 <= ElapsedAt(s, d, t) || limit.timePeriod <= ElapsedAt(s, d, t))
  {
    hide Inv, BeginBlocker, UpdateTimeBasedSupplyLimits, Create, Claim, Refund, Move, GetAsset;
    InvSingleCoins(s);
    BlockFrame(StartBlock(s, t));
    FirstTick(StartBlock(s, t), d);
  }

  lemma FirstTick(s: State, d: Denom)
    requires TimeLimited(s.params, d)
    ensures var s', limit := UpdateTimeBasedSupplyLimits(s), GetAsset(s.params, d).value.supplyLimit;
            && d in s'.supplies && s'.previousBlockTime == Some(s.time)
            && (s'.supplies[d].timeElapsed ==
                  if ElapsedAt(s, d, s.time) < limit.timePeriod then ElapsedAt(s, d, s.time) else 0)
  {
  }

  /** On every run with fixed parameters that begins with a block: the stored window is the incoming claims since its
      last restart, which is the first block at least a period after the one before; it never exceeds the time-based
      limit; and a window of a positive period never reaches its period, while one of any other period lasts no time. */
  lemma WindowIsClaims(s: State, t: int, es: seq<Event>, d: Denom)
    requires Inv(s) && Capped(s.params, s.supplies, d) && TimeLimited(s.params, d)
    requires CanStartBlock(s, t) && NoParamsChange(es)
    requires 0 <= ElapsedAt(s, d, t) || GetAsset(s.params, d).value.supplyLimit.timePeriod <= ElapsedAt(s, d, t)
    ensures SingleCoins(s.swaps) && SingleCoins(Next(s, BlockEvent(t)).swaps)
    ensures var s1, limit := Next(s, BlockEvent(t)), GetAsset(s.params, d).value.supplyLimit;
            && Metered(s1, d)
            && var w := Track(s1, es, d, limit.timePeriod, WindowAt(s1, d));
            && Agrees(Run(s1, es), d, limit, w)
            && 0 <= w.claimed <= limit.timeBasedLimit
  {
    hide Inv, Next, Capped, Agrees, ElapsedAt, NoParamsChange;
    InvSingleCoins(s);
    var s1, limit := Next(s, BlockEvent(t)), GetAsset(s.params, d).value.supplyLimit;
    NextKeepsInv(s, BlockEvent(t));
    InvSingleCoins(s1);
    NextKeepsCaps(s, BlockEvent(t), d);
    BlockMeters(s, t, d);
    RunAgrees(s1, es, d, limit, WindowAt(s1, d));
  }

  /** The window is a rate limit. Take any run with fixed parameters that begins with a block, and any stretch of it
      that is shorter than the period: at most twice the time-based limit is claimed in it, less what the window held;
      and at most the limit if no restart falls into it. */
  lemma RateLimited(s: State, t: int, before: seq<Event>, es: seq<Event>, d: Denom)
    requires Inv(s) && Capped(s.params, s.supplies, d) && TimeLimited(s.params, d)
    requires CanStartBlock(s, t) && NoParamsChange(before) && NoParamsChange(es)
    ensures SingleCoins(s.swaps) && SingleCoins(Next(s, BlockEvent(t)).swaps)
    ensures var s1, limit := Run(Next(s, BlockEvent(t)), before), GetAsset(s.params, d).value.supplyLimit;
            && Metered(s1, d) && SingleCoins(s1.swaps)
            && var s2, claimed := Run(s1, es), TotalClaimed(s1, es, SWAP_DIRECTION_INCOMING, d);
            && (s2.time - s1.time < limit.timePeriod ==> claimed <= 2 * limit.timeBasedLimit - WindowOf(s1, d))
            && (ElapsedOf(s1, d) + s2.time - s1.time < limit.timePeriod && s2.time - s1.time < limit.timePeriod ==>
                  claimed <= limit.timeBasedLimit - WindowOf(s1, d))
  {
    hide Inv, Next, Capped, ElapsedAt, NoParamsChange, TotalClaimed;
    InvSingleCoins(s);
    var s0 := Next(s, BlockEvent(t));
    NextKeepsInv(s, BlockEvent(t));
    InvSingleCoins(s0);
    NextKeepsCaps(s, BlockEvent(t), d);
    BlockMeters(s, t, d);
    RunKeepsInv(s0, before);
    RunKeepsCaps(s0, before, d);
    RunMetered(s0, before, d);
    var s1 := Run(s0, before);
    InvSingleCoins(s1);
    if Run(s1, es).time - s1.time < LimitOf(s1, d).timePeriod {
      MeteredStretch(s1, es, d);
    }
  }

  lemma {:induction false} RunMetered(s: State, es: seq<Event>, d: Denom)
    requires Inv(s) && Metered(s, d) && NoParamsChange(es)
    ensures Metered(Run(s, es), d) && LimitOf(Run(s, es), d) == LimitOf(s, d)
    decreases |es|
  {
    hide Inv, Next, Metered, LimitOf;
    InvSingleCoins(s);
    if es != [] {
      NextKeepsInv(s, es[0]);
      NextWindow(s, es[0], d);
      RunMetered(Next(s, es[0]), es[1..], d);
    }
  }

  // ---- Elapsed times ----------------------------------------------------------------------------

  /** No elapsed time is negative and the last window update is not in the future. */
  predicate Clocked(s: State) {
    && (forall d | d in s.supplies :: 0 <= s.supplies[d].timeElapsed)
    && (s.previousBlockTime.Some? ==> s.previousBlockTime.value <= s.time)
  }

  lemma NextClocked(s: State, e: Event)
    requires Inv(s) && Clocked(s)
    ensures Clocked(Next(s, e))
  {
    hide Inv, Create, Claim, Refund, Move, ValidParams;
    InvSingleCoins(s);
    if e.BlockEvent? {
      if CanStartBlock(s, e.time) {
        BlockFrame(StartBlock(s, e.time));
        TickClocked(StartBlock(s, e.time));
      }
    } else if !e.ParamsEvent? {
      forall d ensures d in Next(s, e).supplies ==> 0 <= Next(s, e).supplies[d].timeElapsed {
        MessageClaims(s, e, d);
      }
      MessageClaims(s, e, []);
    }
  }

  lemma TickClocked(s: State)
    requires Clocked(s)
    ensures Clocked(UpdateTimeBasedSupplyLimits(s))
  {
  }

  /** From a state that is clocked, every later block on every run, parameter changes included, finds an elapsed time
      that is not negative. */
  lemma {:induction false} RunClocked(s: State, es: seq<Event>, d: Denom, t: int)
    requires Inv(s) && Clocked(s)
    ensures Clocked(Run(s, es))
    ensures CanStartBlock(Run(s, es), t) ==> 0 <= ElapsedAt(Run(s, es), d, t)
    decreases |es|
  {
    hide Inv, Next;
    InvSingleCoins(s);
    if es != [] {
      NextKeepsInv(s, es[0]);
      NextClocked(s, es[0]);
      RunClocked(Next(s, es[0]), es[1..], d, t);
    }
  }

  // ---- Other assets -----------------------------------------------------------------------------

  /** What a block does to the supply of every denomination. Amounts stay; a listed asset without one gets an empty
      supply; a listed asset without a time limit has no window; and what is not listed is left alone. */
  lemma BlockSupplies(s: State, t: int, d: Denom)
    requires Inv(s) && CanStartBlock(s, t)
    ensures SingleCoins(s.swaps)
    ensures var s', listed := Next(s, BlockEvent(t)), GetAsset(s.params, d).Ok?;
            && (d in s'.supplies <==> d in s.supplies || listed)
            && (d in s'.supplies ==>
                  var a, a' := SupplyOrNew(s.supplies, d), s'.supplies[d];
                  && a'.incoming == a.incoming && a'.outgoing == a.outgoing && a'.current == a.current
                  && (!listed ==> a' == a)
                  && (listed && !TimeLimited(s.params, d) ==> a'.timeElapsed == 0 && a'.timeLimitedCurrent == 0))
            && (d in s'.supplies && d !in s.supplies ==>
                  s'.supplies[d] == AssetSupply(d, 0, 0, 0, 0, s'.supplies[d].timeElapsed))
            && s'.previousBlockTime == (if s.params == [] then s.previousBlockTime else Some(t))
  {
    hide Inv, BeginBlocker, UpdateTimeBasedSupplyLimits, Create, Claim, Refund, Move, GetAsset;
    InvSingleCoins(s);
    BlockFrame(StartBlock(s, t));
    TickSupplies(StartBlock(s, t), d);
  }

  lemma TickSupplies(s: State, d: Denom)
    ensures var s', listed := UpdateTimeBasedSupplyLimits(s), GetAsset(s.params, d).Ok?;
            && (d in s'.supplies <==> d in s.supplies || listed)
            && (d in s'.supplies ==>
                  var a, a' := SupplyOrNew(s.supplies, d), s'.supplies[d];
                  && a'.incoming == a.incoming && a'.outgoing == a.outgoing && a'.current == a.current
                  && (!listed ==> a' == a)
                  && (listed && !TimeLimited(s.params, d) ==> a'.timeElapsed == 0 && a'.timeLimitedCurrent == 0))
            && (d in s'.supplies && d !in s.supplies ==>
                  s'.supplies[d] == AssetSupply(d, 0, 0, 0, 0, s'.supplies[d].timeElapsed))
            && s'.previousBlockTime == (if s.params == [] then s.previousBlockTime else Some(s.time))
  {
    assert d in Denoms(s.params) <==> GetAsset(s.params, d).Ok?;
  }
}

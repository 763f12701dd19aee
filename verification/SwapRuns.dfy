/** Safety over whole runs: the invariant, the supply caps, and the two conservation laws. */
module SwapRuns {
  import opened Basics
  import opened SwapTypes
  import opened Bank
  import opened MapSums
  import opened SwapSpec
  import opened SwapInvariant

  // ---- Begin block keeps the invariant --------------------------------------------------------

  /** Nothing is outstanding in a denomination that no stored swap uses. */
  lemma NothingOutstanding(swaps: Swaps, direction: Int32, d: Denom)
    requires forall id | id in swaps :: |swaps[id].amount| == 1 && swaps[id].amount[0].denom != d
    ensures Outstanding(swaps, direction, d) == 0
  {
    OutstandingAgree(swaps, map[], direction, d);
  }

  lemma TickKeepsInv(s: State)
    requires Inv(s)
    ensures Inv(UpdateTimeBasedSupplyLimits(s))
  {
    hide Sum, Balance, GoodSwap, Solvent;
    var s' := UpdateTimeBasedSupplyLimits(s);
    forall d | d in s'.supplies
      ensures SupplyMatches(s.swaps, d, s'.supplies[d])
      ensures s'.supplies[d].outgoing <= Balance(s.bank, s.env.moduleAddress, d)
    {
      if d in s.supplies {
        assert SupplyMatches(s.swaps, d, s.supplies[d]);
      } else {
        NewSupplyMatches(s, d);
      }
    }
  }

  lemma NewSupplyMatches(s: State, d: Denom)
    requires Inv(s) && d !in s.supplies
    ensures SupplyMatches(s.swaps, d, NewSupply(d))
    ensures 0 <= Balance(s.bank, s.env.moduleAddress, d)
  {
    hide Sum;
    NothingOutstanding(s.swaps, SWAP_DIRECTION_INCOMING, d);
    NothingOutstanding(s.swaps, SWAP_DIRECTION_OUTGOING, d);
    BalanceWithinTotal(s.bank, s.env.moduleAddress, d);
  }

  lemma ExpiryKeepsInv(s: State)
    requires Inv(s)
    ensures Inv(UpdateExpiredAtomicSwaps(s))
  {
    hide SwapsGood, SuppliesMatch, EscrowCovers, Solvent, ValidParams;
    var swaps := UpdateExpiredAtomicSwaps(s).swaps;
    ExpiryKeepsWeights(s.env, s.swaps, swaps, s.supplies);
    WeightsKeepMatch(s.swaps, swaps, s.supplies);
  }

  /** Swaps of the same amounts, each live or completed as before, are as good and weigh the same. */
  lemma ExpiryKeepsWeights(env: Env, swaps: Swaps, swaps': Swaps, supplies: Supplies)
    requires SwapsGood(env, swaps, supplies) && swaps'.Keys == swaps.Keys
    requires forall id | id in swaps :: swaps'[id] == swaps[id]
               || (Live(swaps[id]) && swaps'[id] == swaps[id].(status := SWAP_STATUS_EXPIRED))
    ensures SwapsGood(env, swaps', supplies)
    ensures SameWeights(swaps, swaps')
  {
    hide CalculateSwapID;
  }

  /** Every swap weighs what it did; those that are gone weighed nothing. */
  predicate SameWeights(swaps: Swaps, swaps': Swaps) {
    && swaps'.Keys <= swaps.Keys
    && (forall id | id in swaps' :: swaps'[id].amount == swaps[id].amount && swaps'[id].direction == swaps[id].direction
                                    && Live(swaps'[id]) == Live(swaps[id]))
    && (forall id | id in swaps && id !in swaps' :: !Live(swaps[id]))
  }

  lemma WeightsKeepMatch(swaps: Swaps, swaps': Swaps, supplies: Supplies)
    requires SuppliesMatch(swaps, supplies) && SameWeights(swaps, swaps')
    ensures SuppliesMatch(swaps', supplies)
  {
    hide Sum, Outstanding;
    forall d | d in supplies ensures SupplyMatches(swaps', d, supplies[d]) {
      assert SupplyMatches(swaps, d, supplies[d]);
      OutstandingAgree(swaps, swaps', SWAP_DIRECTION_INCOMING, d);
      OutstandingAgree(swaps, swaps', SWAP_DIRECTION_OUTGOING, d);
    }
  }

  lemma DeletionKeepsInv(s: State)
    requires Inv(s)
    ensures Inv(DeleteClosedAtomicSwaps(s))
  {
    hide SuppliesMatch, EscrowCovers, Solvent, ValidParams, GoodSwap, DeletionHeight;
    WeightsKeepMatch(s.swaps, DeleteClosedAtomicSwaps(s).swaps, s.supplies);
  }

  lemma BlockKeepsInv(s: State)
    requires Inv(s)
    ensures Inv(BeginBlocker(s))
  {
    hide Inv, UpdateTimeBasedSupplyLimits, UpdateExpiredAtomicSwaps, DeleteClosedAtomicSwaps;
    TickKeepsInv(s);
    var s1 := UpdateTimeBasedSupplyLimits(s);
    ExpiryKeepsInv(s1);
    DeletionKeepsInv(UpdateExpiredAtomicSwaps(s1));
  }

  lemma AdvanceKeepsInv(s: State, t: int)
    requires Inv(s) && CanStartBlock(s, t)
    ensures Inv(StartBlock(s, t))
  {
    hide Sum, Solvent, SuppliesMatch, EscrowCovers, SwapsGood, ValidParams;
  }

  lemma TransferKeepsInv(s: State, from: Address, to: Address, c: Coin)
    requires Inv(s) && c.amount > 0
    requires from !in s.env.moduleAccounts && to !in s.env.moduleAccounts
    requires Move(s.bank, from, to, c).Ok?
    ensures Inv(s.(bank := Move(s.bank, from, to, c).value))
    ensures var b' := Move(s.bank, from, to, c).value;
            forall d :: Total(b', d) == Total(s.bank, d)
                     && Balance(b', s.env.moduleAddress, d) == Balance(s.bank, s.env.moduleAddress, d)
  {
    hide Sum, SuppliesMatch, SwapsGood, ValidParams;
    MoveSolvent(s.bank, from, to, c);
    if from != to {
      MoveEffect(s.bank, from, to, c);
    }
  }

  /** Every event keeps the invariant, whatever it does to the parameters. */
  lemma NextKeepsInv(s: State, e: Event)
    requires Inv(s)
    ensures Inv(Next(s, e))
  {
    hide Sum, Create, Claim, Refund, BeginBlocker, Move, Solvent, SuppliesMatch, SwapsGood, EscrowCovers;
    InvSingleCoins(s);
    match e
    case CreateEvent(m) =>
      if ValidateBasic(s.env, m) && m.sender !in s.env.moduleAccounts && Create(s, m).Ok? { CreateShifts(s, m); }
    case ClaimEvent(id, r) =>
      if Claim(s, id, r).Ok? { ClaimShifts(s, id, r); }
    case RefundEvent(id) =>
      if Refund(s, id).Ok? { RefundShifts(s, id); }
    case BlockEvent(t) =>
      if CanStartBlock(s, t) {
        AdvanceKeepsInv(s, t);
        BlockKeepsInv(StartBlock(s, t));
      }
    case ParamsEvent(p) =>
    case TransferEvent(from, to, c) =>
      if c.amount > 0 && from !in s.env.moduleAccounts && to !in s.env.moduleAccounts && Move(s.bank, from, to, c).Ok? {
        TransferKeepsInv(s, from, to, c);
      }
  }

  /** Safety of every run: in every reachable state the incoming and outgoing supplies are the sums
      over live swaps, and the escrow covers the outgoing supply. */
  lemma {:induction false} RunKeepsInv(s: State, es: seq<Event>)
    requires Inv(s)
    ensures Inv(Run(s, es))
    decreases |es|
  {
    hide Inv, Next;
    InvSingleCoins(s);
    if es != [] {
      NextKeepsInv(s, es[0]);
      RunKeepsInv(Next(s, es[0]), es[1..]);
    }
  }

  // ---- Supply caps ------------------------------------------------------------------------------

  /** A shift that keeps its own denomination within its limit keeps the caps of every denomination. */
  lemma ShiftKeepsCaps(s: State, s': State, e: Denom, delta: Shift, d: Denom)
    requires Capped(s.params, s.supplies, d) && Shifted(s, s', e, delta)
    requires d == e && GetAsset(s.params, d).Ok? ==>
               WithinLimit(GetAsset(s.params, d).value.supplyLimit, s'.supplies[d])
    ensures Capped(s'.params, s'.supplies, d)
  {
    hide Sum, Solvent, Balance, Total, GetAsset;
  }

  lemma TickKeepsCaps(s: State, d: Denom)
    requires Inv(s) && Capped(s.params, s.supplies, d)
    ensures Capped(s.params, UpdateTimeBasedSupplyLimits(s).supplies, d)
  {
    hide Sum, Solvent, Balance, SwapsGood, EscrowCovers, SupplyMatches;
    if d in s.supplies {
      assert SupplyMatches(s.swaps, d, s.supplies[d]);
      WindowNonNegative(s, d);
    }
  }

  lemma WindowNonNegative(s: State, d: Denom)
    requires Inv(s) && d in s.supplies
    ensures s.supplies[d].timeLimitedCurrent >= 0 && s.supplies[d].incoming >= 0
    ensures 0 <= s.supplies[d].outgoing <= s.supplies[d].current
  {
    hide Sum, Solvent;
    assert SupplyMatches(s.swaps, d, s.supplies[d]);
    OutstandingNonNegative(s.env, s.swaps, s.supplies, SWAP_DIRECTION_INCOMING, d);
    OutstandingNonNegative(s.env, s.swaps, s.supplies, SWAP_DIRECTION_OUTGOING, d);
  }

  lemma CreateKeepsCaps(s: State, m: CreateMsg, d: Denom)
    requires Inv(s) && Capped(s.params, s.supplies, d)
    requires ValidateBasic(s.env, m) && m.sender !in s.env.moduleAccounts
    requires Create(s, m).Ok?
    ensures Capped(s.params, Create(s, m).value.supplies, d)
  {
    hide Sum, Solvent, SwapsGood, SuppliesMatch, EscrowCovers, Move, GetAsset, CalculateSwapID, ValidateBasic;
    CreateShifts(s, m);
    ShiftKeepsCaps(s, Create(s, m).value, m.amount[0].denom, CreateShift(s, m), d);
  }

  /** Closing a swap leaves current plus incoming, and window plus incoming, no larger. */
  lemma CloseKeepsCaps(s: State, s': State, sw: AtomicSwap, d: Denom)
    requires Capped(s.params, s.supplies, d)
    requires |sw.amount| == 1 && sw.amount[0].amount > 0
    requires Shifted(s, s', sw.amount[0].denom, CloseShift(s, sw))
    ensures Capped(s.params, s'.supplies, d)
  {
    hide Sum, Solvent, Balance, Total, GetAsset;
    ShiftKeepsCaps(s, s', sw.amount[0].denom, CloseShift(s, sw), d);
  }

  lemma NextKeepsCaps(s: State, e: Event, d: Denom)
    requires Inv(s) && Capped(s.params, s.supplies, d) && !e.ParamsEvent?
    ensures Next(s, e).params == s.params
    ensures Capped(s.params, Next(s, e).supplies, d)
  {
    hide Inv, Create, Claim, Refund, BeginBlocker, UpdateTimeBasedSupplyLimits, Move, Capped, CloseShift, CreateShift, Paid,
         ValidateBasic, GetSwapID, Solvent;
    InvSingleCoins(s);
    match e
    case CreateEvent(m) =>
      if ValidateBasic(s.env, m) && m.sender !in s.env.moduleAccounts && Create(s, m).Ok? {
        CreateShifts(s, m);
        CreateKeepsCaps(s, m, d);
      }
    case ClaimEvent(id, r) =>
      if Claim(s, id, r).Ok? {
        ClaimFound(s, id, r);
        ClaimShifts(s, id, r);
        CloseKeepsCaps(s, Claim(s, id, r).value, s.swaps[id], d);
      }
    case RefundEvent(id) =>
      if Refund(s, id).Ok? {
        RefundFound(s, id);
        RefundShifts(s, id);
        CloseKeepsCaps(s, Refund(s, id).value, s.swaps[id], d);
      }
    case BlockEvent(t) =>
      if CanStartBlock(s, t) {
        AdvanceKeepsInv(s, t);
        TickKeepsCaps(StartBlock(s, t), d);
        BlockFrame(StartBlock(s, t));
      }
    case TransferEvent(from, to, c) =>
  }

  lemma ClaimFound(s: State, id: SwapID, r: Bytes)
    requires Inv(s) && Claim(s, id, r).Ok?
    ensures id in s.swaps && GoodSwap(s.env, id, s.swaps[id]) && s.swaps[id].status == SWAP_STATUS_OPEN
  {
    hide Sum, Solvent, ClaimIncoming, ClaimOutgoing;
  }

  lemma RefundFound(s: State, id: SwapID)
    requires Inv(s) && Refund(s, id).Ok?
    ensures id in s.swaps && GoodSwap(s.env, id, s.swaps[id]) && s.swaps[id].status == SWAP_STATUS_EXPIRED
  {
    hide Sum, Solvent, RefundIncoming, RefundOutgoing;
  }

  /** A block changes supplies through the window update alone, and leaves the rest of the state but the swaps. */
  lemma BlockFrame(s: State)
    ensures var s', s1 := BeginBlocker(s), UpdateTimeBasedSupplyLimits(s);
            && s'.env == s.env && s'.params == s.params && s'.bank == s.bank && s'.accounts == s.accounts
            && s'.height == s.height && s'.time == s.time
            && s'.supplies == s1.supplies && s'.previousBlockTime == s1.previousBlockTime
            && s1.env == s.env && s1.bank == s.bank
  {
  }

  predicate NoParamsChange(es: seq<Event>) {
    forall e | e in es :: !e.ParamsEvent?
  }

  /** Supply caps over every run with fixed parameters, one denomination at a time: what other assets are listed or
      how far over their limits they are does not matter. */
  lemma {:induction false} RunKeepsCaps(s: State, es: seq<Event>, d: Denom)
    requires Inv(s) && Capped(s.params, s.supplies, d) && NoParamsChange(es)
    ensures Run(s, es).params == s.params && Capped(s.params, Run(s, es).supplies, d)
    decreases |es|
  {
    hide Inv, Next, Capped;
    InvSingleCoins(s);
    if es != [] {
      NextKeepsInv(s, es[0]);
      NextKeepsCaps(s, es[0], d);
      RunKeepsCaps(Next(s, es[0]), es[1..], d);
    }
  }

  // ---- Conservation -----------------------------------------------------------------------------

  function CurrentOf(s: State, d: Denom): int {
    if d in s.supplies then s.supplies[d].current else 0
  }

  function OutgoingOf(s: State, d: Denom): int {
    if d in s.supplies then s.supplies[d].outgoing else 0
  }

  /** What the module account holds beyond what it owes. */
  function EscrowSurplus(s: State, d: Denom): int {
    Balance(s.bank, s.env.moduleAddress, d) - OutgoingOf(s, d)
  }

  /** What exists of a denomination beyond what the module issued. */
  function ForeignSupply(s: State, d: Denom): int {
    Total(s.bank, d) - CurrentOf(s, d)
  }

  lemma ShiftConserves(s: State, s': State, d: Denom, delta: Shift, e: Denom)
    requires Shifted(s, s', d, delta)
    ensures EscrowSurplus(s', e) == EscrowSurplus(s, e) && ForeignSupply(s', e) == ForeignSupply(s, e)
  {
    hide Sum, Solvent, Balance, Total;
    assert Gain(s.bank, s'.bank, s.env.moduleAddress, e) == When(e == d, delta.outgoing);
  }

  lemma TickConserves(s: State, d: Denom)
    ensures var s' := UpdateTimeBasedSupplyLimits(s);
            EscrowSurplus(s', d) == EscrowSurplus(s, d) && ForeignSupply(s', d) == ForeignSupply(s, d)
  {
    hide Balance, Total;
  }

  /** A message either changes nothing or shifts one denomination. */
  lemma MessageShift(s: State, e: Event) returns (d: Denom, delta: Shift)
    requires Inv(s) && (e.CreateEvent? || e.ClaimEvent? || e.RefundEvent?)
    ensures Next(s, e) == s || Shifted(s, Next(s, e), d, delta)
  {
    hide Inv, Create, Claim, Refund, CloseShift, CreateShift, Paid, ValidateBasic, GetSwapID, Shifted;
    InvSingleCoins(s);
    d, delta := [], Shift(0, 0, 0, 0);
    match e
    case CreateEvent(m) =>
      if Next(s, e) != s {
        CreateShifts(s, m);
        d, delta := m.amount[0].denom, CreateShift(s, m);
      }
    case ClaimEvent(id, r) =>
      if Next(s, e) != s {
        ClaimFound(s, id, r);
        ClaimShifts(s, id, r);
        d, delta := s.swaps[id].amount[0].denom, CloseShift(s, s.swaps[id]);
      }
    case RefundEvent(id) =>
      if Next(s, e) != s {
        RefundFound(s, id);
        RefundShifts(s, id);
        d, delta := s.swaps[id].amount[0].denom, CloseShift(s, s.swaps[id]);
      }
  }

  lemma NextConserves(s: State, e: Event, d: Denom)
    requires Inv(s)
    ensures EscrowSurplus(Next(s, e), d) == EscrowSurplus(s, d)
    ensures ForeignSupply(Next(s, e), d) == ForeignSupply(s, d)
  {
    hide Inv, Create, Claim, Refund, BeginBlocker, UpdateTimeBasedSupplyLimits, Move, Balance, Total, Shifted;
    InvSingleCoins(s);
    match e
    case BlockEvent(t) =>
      if CanStartBlock(s, t) {
        TickConserves(StartBlock(s, t), d);
        BlockFrame(StartBlock(s, t));
      }
    case ParamsEvent(_) =>
    case TransferEvent(from, to, c) =>
      if c.amount > 0 && from !in s.env.moduleAccounts && to !in s.env.moduleAccounts && Move(s.bank, from, to, c).Ok? {
        TransferKeepsInv(s, from, to, c);
      }
    case _ =>
      var e', delta := MessageShift(s, e);
      if Next(s, e) != s {
        ShiftConserves(s, Next(s, e), e', delta, d);
      }
  }

  /** Conservation over every run: neither the escrow's surplus over what is owed nor the supply that
      the module did not issue ever changes, in any denomination. */
  lemma {:induction false} RunConserves(s: State, es: seq<Event>, d: Denom)
    requires Inv(s)
    ensures EscrowSurplus(Run(s, es), d) == EscrowSurplus(s, d)
    ensures ForeignSupply(Run(s, es), d) == ForeignSupply(s, d)
    decreases |es|
  {
    hide Inv, Next, EscrowSurplus, ForeignSupply;
    InvSingleCoins(s);
    if es != [] {
      NextKeepsInv(s, es[0]);
      NextConserves(s, es[0], d);
      RunConserves(Next(s, es[0]), es[1..], d);
    }
  }
}

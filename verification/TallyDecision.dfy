/** When a proposal passes, fails and burns its deposits, in exact arithmetic: the rounded decision of the tally is that
    of the true ratios, but within one unit of a threshold. */
module TallyDecision {

  import opened Basics
  import opened Decimals
  import opened MapSums
  import opened Tally
  import opened TallyLaws

  // ---- The decision -----------------------------------------------------------------------------

  /** A proposal passes only if strictly more than the threshold of the non-abstaining power said yes. */
  lemma PassesOnlyAboveThreshold(c: Chamber, totalBonded: int, params: TallyParams)
    requires Staked(c) && ProperVotes(c)
    requires var outcome := Outcomes(c, totalBonded, params); outcome.Some? && outcome.value.passes
    ensures params.threshold * (TotalPower(c) - OptionTally(c, Abstain)) < OptionTally(c, Yes) * ONE
  {
    hide Sum, Quo, OptionTally, TotalPower, Staked, ProperVotes;
    OptionWithinTotal(c, Yes);
    OptionWithinTotal(c, Abstain);
    QuoAbove(OptionTally(c, Yes), TotalPower(c) - OptionTally(c, Abstain), params.threshold);
  }

  /** Deposits of a proposal that reached the quorum are burned only if strictly more than the veto threshold of
      the power vetoed it. */
  lemma BurnsOnlyAboveVeto(c: Chamber, totalBonded: int, params: TallyParams)
    requires Staked(c) && ProperVotes(c) && 0 < totalBonded
    requires var outcome := Outcomes(c, totalBonded, params); outcome.Some? && outcome.value.burnDeposits
    ensures TotalPower(c) < params.quorum * totalBonded
         || params.vetoThreshold * TotalPower(c) < OptionTally(c, NoWithVeto) * ONE
  {
    hide Sum, Quo, OptionTally, TotalPower, Staked, ProperVotes;
    OptionWithinTotal(c, NoWithVeto);
    OptionWithinTotal(c, Abstain);
    if params.quorum * totalBonded <= TotalPower(c) {
      QuorumReached(TotalPower(c), totalBonded, params.quorum);
      QuoAbove(OptionTally(c, NoWithVeto), TotalPower(c), params.vetoThreshold);
    }
  }

  lemma QuorumReached(total: Dec, totalBonded: int, quorum: Dec)
    requires 0 <= total && 0 < totalBonded && quorum * totalBonded <= total
    ensures quorum <= Quo(total, totalBonded * ONE)
  {
    assert quorum * (totalBonded * ONE) == quorum * totalBonded * ONE;
    QuoAtLeast(total, totalBonded * ONE, quorum);
  }

  /** A proposal with a quorum, no veto and yes at least one unit above the threshold passes. */
  lemma PassesAboveThreshold(c: Chamber, totalBonded: int, params: TallyParams)
    requires Staked(c) && ProperVotes(c) && 0 < totalBonded
    requires params.quorum * totalBonded <= TotalPower(c) && OptionTally(c, Abstain) != TotalPower(c)
    requires OptionTally(c, NoWithVeto) * ONE <= params.vetoThreshold * TotalPower(c)
    requires (params.threshold + 1) * (TotalPower(c) - OptionTally(c, Abstain)) <= OptionTally(c, Yes) * ONE
    ensures var outcome := Outcomes(c, totalBonded, params);
            outcome.Some? && outcome.value.passes && !outcome.value.burnDeposits
  {
    hide Sum, Quo, OptionTally, TotalPower, Staked, ProperVotes;
    OptionWithinTotal(c, Yes);
    OptionWithinTotal(c, Abstain);
    OptionWithinTotal(c, NoWithVeto);
    var total := TotalPower(c);
    QuorumReached(total, totalBonded, params.quorum);
    QuoAtLeast(OptionTally(c, Yes), total - OptionTally(c, Abstain), params.threshold + 1);
    if Quo(OptionTally(c, NoWithVeto), total) > params.vetoThreshold {
      QuoAbove(OptionTally(c, NoWithVeto), total, params.vetoThreshold);
      assert false;
    }
  }

  /** A veto one unit or more above its threshold rejects the proposal and burns the deposits, whatever else was voted. */
  lemma VetoRejects(c: Chamber, totalBonded: int, params: TallyParams)
    requires Staked(c) && ProperVotes(c) && 0 < totalBonded
    requires params.quorum * totalBonded <= TotalPower(c) && OptionTally(c, Abstain) != TotalPower(c)
    requires (params.vetoThreshold + 1) * TotalPower(c) <= OptionTally(c, NoWithVeto) * ONE
    ensures var outcome := Outcomes(c, totalBonded, params);
            outcome.Some? && !outcome.value.passes && outcome.value.burnDeposits
  {
    hide Sum, Quo, OptionTally, TotalPower, Staked, ProperVotes;
    OptionWithinTotal(c, Abstain);
    OptionWithinTotal(c, NoWithVeto);
    QuorumReached(TotalPower(c), totalBonded, params.quorum);
    QuoAtLeast(OptionTally(c, NoWithVeto), TotalPower(c), params.vetoThreshold + 1);
  }

  /** Power one unit or more below the quorum rejects the proposal and burns the deposits, whatever was voted. */
  lemma BelowQuorumBurns(c: Chamber, totalBonded: int, params: TallyParams)
    requires Staked(c) && ProperVotes(c) && 0 < totalBonded
    requires TotalPower(c) <= (params.quorum - 1) * totalBonded
    ensures var outcome := Outcomes(c, totalBonded, params);
            outcome.Some? && !outcome.value.passes && outcome.value.burnDeposits
  {
    hide Sum, Quo, OptionTally, TotalPower, Staked, ProperVotes;
    OptionWithinTotal(c, Abstain);
    QuorumMissed(TotalPower(c), totalBonded, params.quorum);
  }

  lemma QuorumMissed(total: Dec, totalBonded: int, quorum: Dec)
    requires 0 <= total && 0 < totalBonded && total <= (quorum - 1) * totalBonded
    ensures Quo(total, totalBonded * ONE) < quorum
  {
    hide Quo;
    assert (quorum - 1) * (totalBonded * ONE) == (quorum - 1) * totalBonded * ONE;
    if quorum - 1 < Quo(total, totalBonded * ONE) {
      QuoAbove(total, totalBonded * ONE, quorum - 1);
      assert false;
    }
  }

  /** A quorum without a veto keeps the deposits. */
  lemma QuorumWithoutVetoKeepsDeposits(c: Chamber, totalBonded: int, params: TallyParams)
    requires Staked(c) && ProperVotes(c) && 0 < totalBonded && params.quorum * totalBonded <= TotalPower(c)
    requires OptionTally(c, NoWithVeto) * ONE <= params.vetoThreshold * TotalPower(c)
    ensures var outcome := Outcomes(c, totalBonded, params); outcome.Some? && !outcome.value.burnDeposits
  {
    hide Outcomes, OptionTally, TotalPower, Staked, ProperVotes;
    TallyNeverPanics(c, totalBonded, params);
    if Outcomes(c, totalBonded, params).value.burnDeposits {
      BurnsOnlyAboveVeto(c, totalBonded, params);
      assert false;
    }
  }

  /** Without bonded tokens, or when all that reached the quorum abstained, a proposal fails and keeps its deposits. */
  lemma NothingToDecide(c: Chamber, totalBonded: int, params: TallyParams)
    requires Staked(c) && ProperVotes(c)
    requires totalBonded == 0 || (0 < totalBonded && params.quorum * totalBonded <= TotalPower(c)
                                  && OptionTally(c, Abstain) == TotalPower(c))
    ensures var outcome := Outcomes(c, totalBonded, params);
            outcome.Some? && !outcome.value.passes && !outcome.value.burnDeposits
  {
    hide Sum, Quo, OptionTally, TotalPower, Staked, ProperVotes;
    OptionWithinTotal(c, Abstain);
    if totalBonded != 0 {
      QuorumReached(TotalPower(c), totalBonded, params.quorum);
    }
  }

  predicate IsWhole(n: int, tally: Dec) {
    n * ONE <= tally < (n + 1) * ONE
  }

  /** Each number of the result is the whole part of its own option's tally. */
  lemma ResultIsTallies(c: Chamber, totalBonded: int, params: TallyParams)
    requires Staked(c) && ProperVotes(c)
    ensures Outcomes(c, totalBonded, params).Some?
    ensures var tally := Outcomes(c, totalBonded, params).value.tally;
            && IsWhole(tally.yes, OptionTally(c, Yes)) && IsWhole(tally.abstain, OptionTally(c, Abstain))
            && IsWhole(tally.no, OptionTally(c, No)) && IsWhole(tally.noWithVeto, OptionTally(c, NoWithVeto))
  {
    hide Sum, Quo, OptionTally, TotalPower, Staked, ProperVotes, Decide, TruncateInt, IsWhole;
    TallyNeverPanics(c, totalBonded, params);
    forall o ensures IsWhole(TruncateInt(OptionTally(c, o)), OptionTally(c, o)) {
      OptionWithinTotal(c, o);
      WholePart(OptionTally(c, o));
    }
  }

  lemma WholePart(tally: Dec)
    requires 0 <= tally
    ensures IsWhole(TruncateInt(tally), tally)
  {
  }

  // ---- An example -------------------------------------------------------------------------------

  lemma SumSingle<K, V>(k: K, v: V, f: (K, V) -> int)
    ensures Sum(map[k := v], f) == f(k, v)
  {
    var none: map<K, V> := map[];
    SumUpdate(none, f, k, v);
    assert none[k := v] == map[k := v];
  }

  lemma QuoSelf()
    ensures Quo(ONE, ONE) == ONE
  {
    RoundedWhole(ONE);
  }

  /** One validator that votes yes with its own stake of one token. */
  function Example(): Chamber {
    Chamber(map[[1] := Validator(1, ONE)], map[], map[[1] := [WeightedOption(Yes, ONE)]])
  }

  lemma ExamplePower()
    ensures OwnPowers(Example())([1], Validator(1, ONE)) == ONE
  {
    hide VotingPower;
    var c, v, val := Example(), [1], Validator(1, ONE);
    assert Counted(c) == map[];
    assert Deducted(c, v) == 0;
    assert OwnPowers(c)(v, val) == VotingPower(val.delegatorShares - Deducted(c, v), val);
    ExampleQuo();
  }

  lemma ExampleQuo()
    ensures VotingPower(ONE, Validator(1, ONE)) == ONE
  {
    QuoSelf();
  }

  lemma ExampleTallies(o: VoteOption)
    ensures TotalPower(Example()) == ONE
    ensures OptionTally(Example(), o) == if o == Yes then ONE else 0
  {
    hide OwnPowers, OptionPower;
    var c, v, val := Example(), [1], Validator(1, ONE);
    assert Counted(c) == map[] && Voting(c) == map[v := val];
    ExamplePower();
    WholeVote(ONE, Yes, o);
    SumSingle(v, val, OwnPowers(c));
    SumSingle(v, val, OwnOptionPowers(c, o));
  }

  lemma ExampleStaked()
    ensures Staked(Example()) && ProperVotes(Example())
  {
    var none: map<Pair, Dec> := map[];
    assert Sum(none, SharesOf([1])) == 0;
  }

  /** Such a proposal passes, so the laws above speak of something. */
  lemma PassingExample()
    ensures Staked(Example()) && ProperVotes(Example()) && Divisible(Example())
    ensures Outcomes(Example(), 1, TallyParams(HALF, HALF, HALF))
         == Some(Outcome(true, false, TallyResult(1, 0, 0, 0)))
  {
    hide Quo, TotalPower, OptionTally, Example, Staked, ProperVotes;
    ExampleStaked();
    forall o {
      ExampleTallies(o);
    }
    QuoSelf();
    QuoZero();
  }

  lemma QuoZero()
    ensures Quo(0, ONE) == 0
  {
    RoundedWhole(0);
  }
}

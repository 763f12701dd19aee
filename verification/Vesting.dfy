/** ResetPeriodicVestingAccount: a periodic vesting account is moved to a new start time in place. */
module Vesting {

  type Denom = string

  /** A list of coins as the multiset of its units: each denomination as often as its amount. Sums, least
      amounts and differences of coins are then those of multisets. */
  type Coins = multiset<Denom>

  /** Lengths are in seconds. */
  datatype Period = Period(length: int, amount: Coins)

  datatype Account = Account(
    originalVesting: Coins,
    delegatedFree: Coins,
    delegatedVesting: Coins,
    endTime: int,
    startTime: int,
    periods: seq<Period>)

  // ---- The schedule -----------------------------------------------------------------------------

  /** A time and what vests then. */
  datatype Vest = Vest(time: int, amount: Coins)

  /** What a start time and its periods mean: each period's amount vests when the period ends. */
  function Schedule(start: int, periods: seq<Period>): seq<Vest>
    decreases periods
  {
    if periods == [] then []
    else
      var end := start + periods[0].length;
      [Vest(end, periods[0].amount)] + Schedule(end, periods[1..])
  }

  /** The part of a schedule later than a time. */
  function After(schedule: seq<Vest>, t: int): seq<Vest> {
    if schedule == [] then []
    else (if t < schedule[0].time then [schedule[0]] else []) + After(schedule[1..], t)
  }

  function TotalVest(schedule: seq<Vest>, d: Denom): nat {
    if schedule == [] then 0 else schedule[0].amount[d] + TotalVest(schedule[1..], d)
  }

  /** How much of a denomination vests after a time. */
  function UnvestedAt(start: int, periods: seq<Period>, t: int, d: Denom): nat {
    TotalVest(After(Schedule(start, periods), t), d)
  }

  function TotalLength(periods: seq<Period>): int {
    if periods == [] then 0 else periods[0].length + TotalLength(periods[1..])
  }

  /** The sum of the periods' amounts. */
  function TotalAmount(periods: seq<Period>): Coins {
    if periods == [] then multiset{} else TotalAmount(periods[..|periods| - 1]) + periods[|periods| - 1].amount
  }

  // ---- The reset --------------------------------------------------------------------------------

  /** The periods that end after the new start. The first of them is measured from the new start. */
  function Kept(periods: seq<Period>, current: int, newStart: int, first: bool): seq<Period> {
    if periods == [] then []
    else
      var p, end := periods[0], current + periods[0].length;
      if newStart < end then
        [if first then p.(length := end - newStart) else p] + Kept(periods[1..], end, newStart, false)
      else Kept(periods[1..], end, newStart, first)
  }

  /** The whole account after a reset: delegated vesting is cut to the new original vesting, and what is cut off
      becomes delegated free. */
  function Reset(a: Account, newStart: int): Account {
    var periods := Kept(a.periods, a.startTime, newStart, true);
    var original := TotalAmount(periods);
    Account(original, a.delegatedFree + (a.delegatedVesting - original), a.delegatedVesting * original,
            if newStart >= a.endTime then newStart else a.endTime, newStart, periods)
  }

  class PeriodicVestingAccount {
    var originalVesting: Coins
    var delegatedFree: Coins
    var delegatedVesting: Coins
    var endTime: int
    var startTime: int
    var vestingPeriods: seq<Period>

    ghost function Abs(): Account
      reads this
    {
      Account(originalVesting, delegatedFree, delegatedVesting, endTime, startTime, vestingPeriods)
    }

    constructor (a: Account)
      ensures Abs() == a
    {
      originalVesting, delegatedFree, delegatedVesting := a.originalVesting, a.delegatedFree, a.delegatedVesting;
      endTime, startTime, vestingPeriods := a.endTime, a.startTime, a.periods;
    }

    method ResetTo(newStartTime: int)
      modifies this
      ensures Abs() == Reset(old(Abs()), newStartTime)
    {
      hide Kept, TotalAmount;
      var newPeriods, newOriginalVesting := KeepPeriods(newStartTime);
      AdjustDelegations(newOriginalVesting);
      startTime := newStartTime;
      originalVesting := newOriginalVesting;
      vestingPeriods := newPeriods;
      if startTime >= endTime {
        endTime := startTime;
      }
    }

    method KeepPeriods(newStartTime: int) returns (newPeriods: seq<Period>, newOriginalVesting: Coins)
      ensures newPeriods == Kept(vestingPeriods, startTime, newStartTime, true)
      ensures newOriginalVesting == TotalAmount(newPeriods)
    {
      hide TotalAmount;
      var currentPeriod := startTime;
      newOriginalVesting, newPeriods := multiset{}, [];
      TotalAmountNone();
      for i := 0 to |vestingPeriods|
        invariant newOriginalVesting == TotalAmount(newPeriods)
        invariant Kept(vestingPeriods, startTime, newStartTime, true)
               == newPeriods + Kept(vestingPeriods[i..], currentPeriod, newStartTime, newPeriods == [])
      {
        var period := vestingPeriods[i];
        ghost var rest := vestingPeriods[i + 1..];
        assert vestingPeriods[i..] == [period] + rest;
        currentPeriod := currentPeriod + period.length;
        if newStartTime < currentPeriod {
          if |newPeriods| == 0 {
            period := period.(length := currentPeriod - newStartTime);
          }
          newOriginalVesting := newOriginalVesting + period.amount;
          TotalAmountAppend(newPeriods, period);
          newPeriods := newPeriods + [period];
        }
      }
    }

    /** Delegated vesting above the new original vesting becomes delegated free, one denomination at a time. */
    method AdjustDelegations(original: Coins)
      modifies this`delegatedVesting, this`delegatedFree
      ensures delegatedVesting == old(delegatedVesting) * original
      ensures delegatedFree == old(delegatedFree) + (old(delegatedVesting) - original)
    {
      var coins := delegatedVesting;
      var rest := set d | d in coins;
      while rest != {}
        invariant forall d | d in rest :: d in coins
        invariant forall d :: delegatedVesting[d] == if d in rest then coins[d] else (coins * original)[d]
        invariant forall d :: delegatedFree[d] + delegatedVesting[d] == old(delegatedFree)[d] + coins[d]
        decreases rest
      {
        var d :| d in rest;
        var adjustment := coins[d] - if coins[d] < original[d] then coins[d] else original[d];
        if adjustment != 0 {
          delegatedVesting := delegatedVesting[d := delegatedVesting[d] - adjustment];
          delegatedFree := delegatedFree[d := delegatedFree[d] + adjustment];
        }
        rest := rest - {d};
      }
      assert delegatedVesting == coins * original;
    }
  }

  lemma TotalAmountNone()
    ensures TotalAmount([]) == multiset{}
  {
  }

  lemma TotalAmountAppend(periods: seq<Period>, p: Period)
    ensures TotalAmount(periods + [p]) == TotalAmount(periods) + p.amount
  {
    assert (periods + [p])[..|periods|] == periods;
  }

  // ---- The schedule after a reset ---------------------------------------------------------------

  /** Between two vests later than t, no vest is at or before t. */
  predicate Gapless(schedule: seq<Vest>, t: int) {
    forall i, j, k | 0 <= i < j < k < |schedule| ::
      t < schedule[i].time && t < schedule[k].time ==> t < schedule[j].time
  }

  /** Once past t, the schedule does not come back after falling behind. */
  predicate Unbroken(schedule: seq<Vest>, t: int) {
    forall j, k | 0 <= j < k < |schedule| :: t < schedule[k].time ==> t < schedule[j].time
  }

  predicate Over(schedule: seq<Vest>, t: int) {
    forall k | 0 <= k < |schedule| :: schedule[k].time <= t
  }

  lemma {:induction false} AfterOver(schedule: seq<Vest>, t: int)
    ensures After(schedule, t) == [] <==> Over(schedule, t)
  {
    if schedule != [] {
      AfterOver(schedule[1..], t);
      assert schedule == [schedule[0]] + schedule[1..];
    }
  }

  /** Measured from a wrong point later than t, kept periods keep their times only if there are none. */
  lemma {:induction false} MisplacedSchedule(periods: seq<Period>, current: int, wrong: int, t: int)
    requires current <= t < wrong
    ensures Schedule(wrong, Kept(periods, current, t, false)) == After(Schedule(current, periods), t)
            <==> Over(Schedule(current, periods), t)
    decreases periods
  {
    AfterOver(Schedule(current, periods), t);
    if periods != [] {
      var end, schedule := current + periods[0].length, Schedule(current, periods);
      assert schedule == [Vest(end, periods[0].amount)] + Schedule(end, periods[1..]);
      if end <= t {
        MisplacedSchedule(periods[1..], end, wrong, t);
        assert Over(schedule, t) <==> Over(Schedule(end, periods[1..]), t);
      } else {
        var kept := Kept(periods, current, t, false);
        assert Schedule(wrong, kept)[0].time == wrong + periods[0].length;
        assert After(schedule, t)[0].time == end;
        assert schedule[0].time > t;
      }
    }
  }

  lemma {:induction false} KeptScheduleIff(periods: seq<Period>, current: int, t: int)
    requires t < current
    ensures Schedule(current, Kept(periods, current, t, false)) == After(Schedule(current, periods), t)
            <==> Unbroken(Schedule(current, periods), t)
    decreases periods
  {
    if periods != [] {
      var end, schedule := current + periods[0].length, Schedule(current, periods);
      var rest := Schedule(end, periods[1..]);
      assert schedule == [Vest(end, periods[0].amount)] + rest;
      if t < end {
        KeptScheduleIff(periods[1..], end, t);
        var kept := Kept(periods[1..], end, t, false);
        assert Kept(periods, current, t, false) == [periods[0]] + kept;
        assert Schedule(current, [periods[0]] + kept) == [schedule[0]] + Schedule(end, kept);
        assert After(schedule, t) == [schedule[0]] + After(rest, t);
        UnbrokenTail(schedule[0], rest, t);
        SameHead(schedule[0], Schedule(end, kept), After(rest, t));
      } else {
        MisplacedSchedule(periods[1..], end, current, t);
        UnbrokenTail(schedule[0], rest, t);
      }
    }
  }

  lemma SameHead(v: Vest, a: seq<Vest>, b: seq<Vest>)
    ensures [v] + a == [v] + b <==> a == b
  {
    if [v] + a == [v] + b {
      assert a == ([v] + a)[1..] == ([v] + b)[1..] == b;
    }
  }

  lemma UnbrokenTail(v: Vest, rest: seq<Vest>, t: int)
    ensures Unbroken([v] + rest, t) <==> if t < v.time then Unbroken(rest, t) else Over(rest, t)
  {
    var schedule := [v] + rest;
    if Unbroken(schedule, t) {
      forall j, k | 0 <= j < k < |rest| ensures t < rest[k].time ==> t < rest[j].time {
        assert rest[j] == schedule[j + 1] && rest[k] == schedule[k + 1];
      }
      forall k | 0 <= k < |rest| && v.time <= t ensures rest[k].time <= t {
        assert rest[k] == schedule[k + 1] && schedule[0] == v;
      }
    }
  }

  lemma GaplessTail(v: Vest, rest: seq<Vest>, t: int)
    ensures Gapless([v] + rest, t) <==> if t < v.time then Unbroken(rest, t) else Gapless(rest, t)
  {
    var schedule := [v] + rest;
    if Gapless(schedule, t) {
      forall i, j, k | 0 <= i < j < k < |rest| ensures t < rest[i].time && t < rest[k].time ==> t < rest[j].time {
        assert rest[i] == schedule[i + 1] && rest[j] == schedule[j + 1] && rest[k] == schedule[k + 1];
      }
      forall j, k | 0 <= j < k < |rest| && t < v.time ensures t < rest[k].time ==> t < rest[j].time {
        assert rest[j] == schedule[j + 1] && rest[k] == schedule[k + 1] && schedule[0] == v;
      }
    }
  }

  lemma NoneGapless(t: int)
    ensures Gapless([], t) && Unbroken([], t)
  {
  }

  /** The reset keeps every later vest at its time and amount, and adds none, exactly when the schedule does not fall
      back to the new start between two later vests. */
  lemma {:induction false} ResetScheduleIff(periods: seq<Period>, current: int, t: int)
    ensures Schedule(t, Kept(periods, current, t, true)) == After(Schedule(current, periods), t)
            <==> Gapless(Schedule(current, periods), t)
    decreases periods
  {
    hide Gapless, Unbroken;
    NoneGapless(t);
    if periods != [] {
      var end, schedule := current + periods[0].length, Schedule(current, periods);
      var rest := Schedule(end, periods[1..]);
      assert schedule == [Vest(end, periods[0].amount)] + rest;
      GaplessTail(schedule[0], rest, t);
      if t < end {
        KeptScheduleIff(periods[1..], end, t);
        var kept := Kept(periods[1..], end, t, false);
        var first := periods[0].(length := end - t);
        assert Kept(periods, current, t, true) == [first] + kept;
        assert Schedule(t, [first] + kept) == [schedule[0]] + Schedule(end, kept);
        assert After(schedule, t) == [schedule[0]] + After(rest, t);
        SameHead(schedule[0], Schedule(end, kept), After(rest, t));
      } else {
        ResetScheduleIff(periods[1..], end, t);
      }
    }
  }

  predicate NonNegative(periods: seq<Period>) {
    forall i | 0 <= i < |periods| :: 0 <= periods[i].length
  }

  lemma {:induction false} NonNegativeUnbroken(periods: seq<Period>, start: int, t: int)
    requires NonNegative(periods)
    ensures Unbroken(Schedule(start, periods), t) || start <= t
    ensures Gapless(Schedule(start, periods), t)
    decreases periods
  {
    hide Gapless, Unbroken;
    if periods == [] {
      NoneGapless(t);
    } else {
      var end := start + periods[0].length;
      var v, rest := Vest(end, periods[0].amount), Schedule(end, periods[1..]);
      NonNegativeUnbroken(periods[1..], end, t);
      GaplessTail(v, rest, t);
      UnbrokenTail(v, rest, t);
    }
  }

  lemma {:induction false} AfterAfter(schedule: seq<Vest>, t1: int, t2: int)
    requires t1 <= t2
    ensures After(After(schedule, t1), t2) == After(schedule, t2)
  {
    if schedule != [] {
      AfterAfter(schedule[1..], t1, t2);
      var rest := After(schedule[1..], t1);
      assert ([schedule[0]] + rest)[1..] == rest;
      assert [] + rest == rest;
    }
  }

  /** The meaning of the account is kept: what is still to vest at any time from the new start on is unchanged. */
  lemma ResetKeepsUnvested(a: Account, newStart: int, t: int, d: Denom)
    requires NonNegative(a.periods) && newStart <= t
    ensures var r := Reset(a, newStart);
            UnvestedAt(r.startTime, r.periods, t, d) == UnvestedAt(a.startTime, a.periods, t, d)
  {
    NonNegativeUnbroken(a.periods, a.startTime, newStart);
    ResetScheduleIff(a.periods, a.startTime, newStart);
    AfterAfter(Schedule(a.startTime, a.periods), newStart, t);
  }

  /** A period that runs backwards: the one after it then vests later than it was scheduled to. */
  lemma BackwardPeriodMovesVest(coins: Coins)
    ensures var a := Account(coins + coins + coins, multiset{}, multiset{}, 300, 0,
                             [Period(200, coins), Period(-150, coins), Period(250, coins)]);
            && Schedule(0, a.periods) == [Vest(200, coins), Vest(50, coins), Vest(300, coins)]
            && Schedule(100, Reset(a, 100).periods) == [Vest(200, coins), Vest(450, coins)]
  {
    var p1, p2, p3 := Period(200, coins), Period(-150, coins), Period(250, coins);
    var periods := [p1, p2, p3];
    assert periods[1..] == [p2, p3] && [p2, p3][1..] == [p3] && [p3][1..] == [];
    assert Kept([p3], 50, 100, false) == [p3];
    assert Kept(periods, 0, 100, true) == [Period(100, coins), p3];
    assert Schedule(50, [p3]) == [Vest(300, coins)];
    assert Schedule(200, [p3]) == [Vest(450, coins)];
    assert [Period(100, coins), p3][1..] == [p3];
  }

  // ---- Totals after a reset ---------------------------------------------------------------------

  lemma {:induction false} TotalAmountFirst(periods: seq<Period>)
    requires periods != []
    ensures TotalAmount(periods) == periods[0].amount + TotalAmount(periods[1..])
  {
    var n := |periods| - 1;
    if n != 0 {
      TotalAmountFirst(periods[..n]);
      assert periods[..n][1..] == periods[1..][..n - 1];
    }
  }

  /** The kept amounts are what was scheduled after the new start, for any period lengths. */
  lemma {:induction false} KeptAmount(periods: seq<Period>, current: int, t: int, first: bool, d: Denom)
    ensures TotalAmount(Kept(periods, current, t, first))[d] == UnvestedAt(current, periods, t, d)
    decreases periods
  {
    if periods != [] {
      hide TotalAmount;
      var end, kept := current + periods[0].length, Kept(periods, current, t, first);
      var schedule := Schedule(current, periods);
      assert schedule[1..] == Schedule(end, periods[1..]);
      if t < end {
        KeptAmount(periods[1..], end, t, false, d);
        TotalAmountFirst(kept);
      } else {
        KeptAmount(periods[1..], end, t, first, d);
      }
      TotalVestFirst(schedule, t, d);
    }
  }

  lemma {:induction false} UnvestedFalls(schedule: seq<Vest>, t1: int, t2: int, d: Denom)
    requires t1 <= t2
    ensures TotalVest(After(schedule, t2), d) <= TotalVest(After(schedule, t1), d)
  {
    if schedule != [] {
      UnvestedFalls(schedule[1..], t1, t2, d);
      TotalVestFirst(schedule, t1, d);
      TotalVestFirst(schedule, t2, d);
    }
  }

  lemma TotalVestFirst(schedule: seq<Vest>, t: int, d: Denom)
    requires schedule != []
    ensures TotalVest(After(schedule, t), d)
         == (if t < schedule[0].time then schedule[0].amount[d] else 0) + TotalVest(After(schedule[1..], t), d)
  {
    var rest := After(schedule[1..], t);
    assert ([schedule[0]] + rest)[1..] == rest;
    assert [] + rest == rest;
  }

  /** Original vesting becomes exactly what was still to vest at the new start; delegated vesting is cut to it
      and nothing delegated is lost. */
  lemma ResetAmounts(a: Account, newStart: int, d: Denom)
    ensures var r := Reset(a, newStart);
            && r.originalVesting[d] == UnvestedAt(a.startTime, a.periods, newStart, d)
            && r.delegatedVesting[d] + r.delegatedFree[d] == a.delegatedVesting[d] + a.delegatedFree[d]
            && r.delegatedVesting[d] <= r.originalVesting[d]
            && r.delegatedVesting[d] <= a.delegatedVesting[d]
            && (r.delegatedVesting[d] == r.originalVesting[d] || r.delegatedVesting[d] == a.delegatedVesting[d])
  {
    KeptAmount(a.periods, a.startTime, newStart, true, d);
  }

  /** The account starts at the new time and ends at the later of it and the old end. */
  lemma ResetTimes(a: Account, newStart: int)
    ensures var r := Reset(a, newStart);
            && r.startTime == newStart && newStart <= r.endTime && a.endTime <= r.endTime
            && (r.endTime == newStart || r.endTime == a.endTime)
  {
    hide Kept, TotalAmount;
  }

  lemma {:induction false} KeptAll(periods: seq<Period>, current: int, t: int)
    requires NonNegative(periods) && t < current
    ensures Kept(periods, current, t, false) == periods
    decreases periods
  {
    if periods != [] {
      KeptAll(periods[1..], current + periods[0].length, t);
    }
  }

  lemma {:induction false} KeptLength(periods: seq<Period>, current: int, t: int)
    requires NonNegative(periods)
    ensures var end, kept := current + TotalLength(periods), Kept(periods, current, t, true);
            t + TotalLength(kept) == if periods != [] && t < end then end else t
    ensures current <= current + TotalLength(periods)
    decreases periods
  {
    if periods != [] {
      var end := current + periods[0].length;
      KeptLength(periods[1..], end, t);
      if t < end {
        KeptAll(periods[1..], end, t);
        var kept := Kept(periods, current, t, true);
        assert kept[1..] == periods[1..];
      }
    }
  }

  /** No period becomes negative, and an end time that is the start plus all the lengths is so again, unless an
      account without periods is moved back. */
  lemma ResetKeepsEndTime(a: Account, newStart: int)
    requires NonNegative(a.periods)
    requires a.endTime == a.startTime + TotalLength(a.periods)
    ensures var r := Reset(a, newStart);
            && NonNegative(r.periods)
            && (r.endTime == r.startTime + TotalLength(r.periods) <==> a.periods != [] || a.startTime <= newStart)
  {
    KeptLength(a.periods, a.startTime, newStart);
    KeptNonNegative(a.periods, a.startTime, newStart, true);
  }

  lemma {:induction false} KeptNonNegative(periods: seq<Period>, current: int, t: int, first: bool)
    requires NonNegative(periods)
    ensures NonNegative(Kept(periods, current, t, first))
    decreases periods
  {
    if periods != [] {
      var end := current + periods[0].length;
      KeptNonNegative(periods[1..], end, t, if t < end then false else first);
    }
  }

  // ---- Two resets -------------------------------------------------------------------------------

  lemma {:induction false} KeptTwice(periods: seq<Period>, current: int, t1: int, t2: int)
    requires NonNegative(periods) && t1 <= t2
    ensures Kept(Kept(periods, current, t1, true), t1, t2, true) == Kept(periods, current, t2, true)
    decreases periods
  {
    if periods != [] {
      var end, rest := current + periods[0].length, periods[1..];
      if t1 < end {
        KeptAll(rest, end, t1);
        assert Kept(periods, current, t1, true)[1..] == rest;
      } else {
        KeptTwice(rest, end, t1, t2);
      }
    }
  }

  /** Resetting twice, the second time no earlier, is resetting once to the second time. */
  lemma ResetTwice(a: Account, t1: int, t2: int)
    requires NonNegative(a.periods) && t1 <= t2
    ensures Reset(Reset(a, t1), t2) == Reset(a, t2)
  {
    hide Kept, TotalAmount, UnvestedAt, NonNegative;
    KeptTwice(a.periods, a.startTime, t1, t2);
    var o1, o2 := Reset(a, t1).originalVesting, Reset(a, t2).originalVesting;
    forall d ensures o2[d] <= o1[d] {
      OriginalFalls(a, t1, t2, d);
    }
    CutTwice(a.delegatedVesting, o1, o2);
  }

  lemma OriginalFalls(a: Account, t1: int, t2: int, d: Denom)
    requires t1 <= t2
    ensures Reset(a, t2).originalVesting[d] <= Reset(a, t1).originalVesting[d]
  {
    ResetAmounts(a, t1, d);
    ResetAmounts(a, t2, d);
    UnvestedFalls(Schedule(a.startTime, a.periods), t1, t2, d);
  }

  lemma CutTwice(c: Coins, o1: Coins, o2: Coins)
    requires forall d :: o2[d] <= o1[d]
    ensures c * o1 * o2 == c * o2
    ensures (c - o1) + (c * o1 - o2) == c - o2
  {
  }
}

/** What the count of a proposal keeps despite rounding: the options add up to the total, none exceeds it, the total
    does not exceed the bonded stake, and all of it is counted for a validator that voted. */
module TallyLaws {

  import opened Basics
  import opened Decimals
  import opened MapSums
  import opened Tally

  /** The staking state is in order: every bonded validator has shares, and no more of them are delegated. */
  ghost predicate Staked(c: Chamber) {
    && (forall v | v in c.validators :: c.validators[v].bondedTokens >= 0 && c.validators[v].delegatorShares > 0)
    && (forall p | p in c.delegations :: c.delegations[p] >= 0)
    && (forall v | v in c.validators :: Sum(c.delegations, SharesOf(v)) <= c.validators[v].delegatorShares)
  }

  // ---- The options add up to the total ----------------------------------------------------------

  function Weights(vote: Vote): Dec {
    if vote == [] then 0 else Weights(vote[..|vote| - 1]) + vote[|vote| - 1].weight
  }

  function AllOptions(power: Dec, vote: Vote): Dec {
    OptionPower(power, vote, Yes) + OptionPower(power, vote, Abstain) + OptionPower(power, vote, No)
    + OptionPower(power, vote, NoWithVeto)
  }

  lemma AllOptionsLast(power: Dec, vote: Vote, w: WeightedOption)
    ensures AllOptions(power, vote + [w]) == AllOptions(power, vote) + Mul(power, w.weight)
  {
    hide Mul;
    assert (vote + [w])[..|vote|] == vote;
  }

  lemma {:induction false} OptionsNear(power: Dec, vote: Vote)
    ensures -|vote| * ONE <= 2 * (AllOptions(power, vote) * ONE - power * Weights(vote)) <= |vote| * ONE
  {
    hide Mul;
    if vote != [] {
      var n := |vote| - 1;
      var before, w := vote[..n], vote[n];
      OptionsNear(power, before);
      AllOptionsLast(power, before, w);
      assert before + [w] == vote;
      MulNearest(power, w.weight);
      NearStep(n, AllOptions(power, before), power, Weights(before), Mul(power, w.weight), w.weight);
    }
  }

  lemma NearStep(n: int, sum: int, power: int, weights: int, m: int, w: int)
    requires -n * ONE <= 2 * (sum * ONE - power * weights) <= n * ONE
    requires -ONE <= 2 * (m * ONE - power * w) <= ONE
    ensures -(n + 1) * ONE <= 2 * ((sum + m) * ONE - power * (weights + w)) <= (n + 1) * ONE
  {
    assert power * (weights + w) == power * weights + power * w;
  }

  /** The weights of every vote add up to one. */
  predicate WholeVotes(c: Chamber) {
    forall a | a in c.votes :: Weights(c.votes[a]) == ONE
  }

  lemma WholeVoteNear(power: Dec, vote: Vote)
    requires Weights(vote) == ONE
    ensures -|vote| <= 2 * (AllOptions(power, vote) - power) <= |vote|
  {
    hide AllOptions;
    OptionsNear(power, vote);
  }

  ghost function Lengths(c: Chamber): (Pair, Dec) -> int {
    (p: Pair, shares: Dec) => |VoteOf(c, p.delegator)|
  }

  ghost function OwnLengths(c: Chamber): (Address, Validator) -> int {
    (v: Address, val: Validator) => |VoteOf(c, v)|
  }

  /** How often a power is added to an option. */
  ghost function Additions(c: Chamber): int {
    Sum(Counted(c), Lengths(c)) + Sum(Voting(c), OwnLengths(c))
  }

  lemma {:induction false} SumNear<K, V>(m: map<K, V>, y: (K, V) -> int, a: (K, V) -> int, n: (K, V) -> int,
                                         w: (K, V) -> int, f: (K, V) -> int, g: (K, V) -> int)
    requires forall k | k in m :: var v := m[k];
               -g(k, v) <= 2 * (y(k, v) + a(k, v) + n(k, v) + w(k, v) - f(k, v)) <= g(k, v)
    ensures -Sum(m, g) <= 2 * (Sum(m, y) + Sum(m, a) + Sum(m, n) + Sum(m, w) - Sum(m, f)) <= Sum(m, g)
    decreases |m|
  {
    hide Sum;
    if |m| == 0 {
      assert m.Keys == {};
      SumZero(m, y);
      SumZero(m, a);
      SumZero(m, n);
      SumZero(m, w);
      SumZero(m, f);
      SumZero(m, g);
    } else {
      var k :| k in m;
      MinusKey(m, k);
      SumSplit(m, y, k);
      SumSplit(m, a, k);
      SumSplit(m, n, k);
      SumSplit(m, w, k);
      SumSplit(m, f, k);
      SumSplit(m, g, k);
      SumNear(m - {k}, y, a, n, w, f, g);
    }
  }

  /** The four tallies add up to the total voting power, within half a unit for each time a power was added. */
  lemma TalliesAddUp(c: Chamber)
    requires WholeVotes(c)
    ensures var sum := OptionTally(c, Yes) + OptionTally(c, Abstain) + OptionTally(c, No)
                       + OptionTally(c, NoWithVeto);
            -Additions(c) <= 2 * (sum - TotalPower(c)) <= Additions(c)
  {
    hide Sum, Weights, OptionPower, Powers, OwnPowers;
    var counted, voting := Counted(c), Voting(c);
    forall p | p in counted {
      WholeVoteNear(Powers(c)(p, counted[p]), VoteOf(c, p.delegator));
    }
    SumNear(counted, OptionPowers(c, Yes), OptionPowers(c, Abstain), OptionPowers(c, No), OptionPowers(c, NoWithVeto),
            Powers(c), Lengths(c));
    forall v | v in voting {
      WholeVoteNear(OwnPowers(c)(v, voting[v]), VoteOf(c, v));
    }
    SumNear(voting, OwnOptionPowers(c, Yes), OwnOptionPowers(c, Abstain), OwnOptionPowers(c, No),
            OwnOptionPowers(c, NoWithVeto), OwnPowers(c), OwnLengths(c));
  }

  // ---- No option exceeds the total --------------------------------------------------------------

  lemma PowerNear(shares: Dec, val: Validator)
    requires 0 <= shares && 0 <= val.bondedTokens && 0 < val.delegatorShares
    ensures 0 <= VotingPower(shares, val)
    ensures 2 * VotingPower(shares, val) * val.delegatorShares
         <= 2 * (shares * val.bondedTokens * ONE) + val.delegatorShares
  {
    hide Quo;
    QuoNear(shares * val.bondedTokens, val.delegatorShares);
  }

  lemma DeductedWithinShares(c: Chamber, v: Address)
    requires Staked(c) && v in c.validators
    ensures Deducted(c, v) <= c.validators[v].delegatorShares
  {
    hide Sum;
    SumPart(Counted(c), c.delegations, SharesOf(v));
  }

  lemma PowersNonNegative(c: Chamber)
    requires Staked(c)
    ensures forall p | p in Counted(c) :: Powers(c)(p, Counted(c)[p]) >= 0
    ensures forall v | v in Voting(c) :: OwnPowers(c)(v, Voting(c)[v]) >= 0
  {
    hide Sum, VotingPower, Deducted;
    forall p | p in Counted(c) ensures Powers(c)(p, Counted(c)[p]) >= 0 {
      PowerNear(Counted(c)[p], c.validators[p.validator]);
    }
    forall v | v in Voting(c) ensures OwnPowers(c)(v, Voting(c)[v]) >= 0 {
      DeductedWithinShares(c, v);
      PowerNear(c.validators[v].delegatorShares - Deducted(c, v), c.validators[v]);
    }
  }

  /** A vote lists no option twice, and no weight is negative or above one. */
  predicate Proper(vote: Vote) {
    && (forall i | 0 <= i < |vote| :: 0 <= vote[i].weight <= ONE)
    && (forall i, j | 0 <= i < j < |vote| :: vote[i].option != vote[j].option)
  }

  lemma {:induction false} OptionWithinPower(power: Dec, vote: Vote, o: VoteOption)
    requires 0 <= power && Proper(vote)
    ensures 0 <= OptionPower(power, vote, o) <= power
    ensures (forall i | 0 <= i < |vote| :: vote[i].option != o) ==> OptionPower(power, vote, o) == 0
  {
    hide Mul;
    if vote != [] {
      var n := |vote| - 1;
      OptionWithinPower(power, vote[..n], o);
      MulWeight(power, vote[n].weight);
    }
  }

  ghost predicate ProperVotes(c: Chamber) {
    forall a | a in c.votes :: Proper(c.votes[a])
  }

  /** Rounding included, no option gets more than the total. */
  lemma OptionWithinTotal(c: Chamber, o: VoteOption)
    requires Staked(c) && ProperVotes(c)
    ensures 0 <= OptionTally(c, o) <= TotalPower(c)
  {
    PowersNonNegative(c);
    OptionWithinTotalOf(c, o);
  }

  lemma OptionWithinTotalOf(c: Chamber, o: VoteOption)
    requires ProperVotes(c)
    requires forall p | p in Counted(c) :: Powers(c)(p, Counted(c)[p]) >= 0
    requires forall v | v in Voting(c) :: OwnPowers(c)(v, Voting(c)[v]) >= 0
    ensures 0 <= OptionTally(c, o) <= TotalPower(c)
  {
    hide Sum, Powers, OwnPowers, OptionPower, Proper;
    var counted, voting := Counted(c), Voting(c);
    forall p | p in counted
      ensures 0 <= OptionPowers(c, o)(p, counted[p]) <= Powers(c)(p, counted[p])
    {
      OptionWithinPower(Powers(c)(p, counted[p]), VoteOf(c, p.delegator), o);
    }
    SumMonotone(counted, OptionPowers(c, o), Powers(c));
    SumNonNegative(counted, OptionPowers(c, o));
    forall v | v in voting
      ensures 0 <= OwnOptionPowers(c, o)(v, voting[v]) <= OwnPowers(c)(v, voting[v])
    {
      OptionWithinPower(OwnPowers(c)(v, voting[v]), VoteOf(c, v), o);
    }
    SumMonotone(voting, OwnOptionPowers(c, o), OwnPowers(c));
    SumNonNegative(voting, OwnOptionPowers(c, o));
  }

  // ---- No division by zero ----------------------------------------------------------------------

  lemma {:induction false} NoPowerNoOption(vote: Vote, o: VoteOption)
    ensures OptionPower(0, vote, o) == 0
  {
    if vote != [] {
      NoPowerNoOption(vote[..|vote| - 1], o);
      RoundedWhole(0);
    }
  }

  lemma NoTotalNoTally(c: Chamber, o: VoteOption)
    requires TotalPower(c) == 0
    requires forall p | p in Counted(c) :: Powers(c)(p, Counted(c)[p]) >= 0
    requires forall v | v in Voting(c) :: OwnPowers(c)(v, Voting(c)[v]) >= 0
    ensures OptionTally(c, o) == 0
  {
    hide Sum, Powers, OwnPowers, OptionPower;
    var counted, voting := Counted(c), Voting(c);
    SumNonNegative(counted, Powers(c));
    SumNonNegative(voting, OwnPowers(c));
    forall p | p in counted ensures OptionPowers(c, o)(p, counted[p]) == 0 {
      SumAtLeast(counted, Powers(c), p);
      NoPowerNoOption(VoteOf(c, p.delegator), o);
    }
    SumZero(counted, OptionPowers(c, o));
    forall v | v in voting ensures OwnOptionPowers(c, o)(v, voting[v]) == 0 {
      SumAtLeast(voting, OwnPowers(c), v);
      NoPowerNoOption(VoteOf(c, v), o);
    }
    SumZero(voting, OwnOptionPowers(c, o));
  }

  /** Nothing is divided by zero, neither by a validator's shares nor, once the early returns are passed, by the
      total power, whatever the weights of the votes. */
  lemma TallyNeverPanics(c: Chamber, totalBonded: int, params: TallyParams)
    requires Staked(c)
    ensures Divisible(c) && Outcomes(c, totalBonded, params).Some?
  {
    hide Sum, Quo, OptionTally, TotalPower, Divisible;
    StakedDivisible(c);
    if TotalPower(c) == 0 {
      PowersNonNegative(c);
      NoTotalNoTally(c, Abstain);
    }
  }

  // ---- The total does not exceed the bonded stake -----------------------------------------------

  function ValidatorOf(): Pair -> Address {
    (p: Pair) => p.validator
  }

  function Tokens(): (Address, Validator) -> int {
    (v: Address, val: Validator) => val.bondedTokens
  }

  ghost function PowersTo(c: Chamber, v: Address): (Pair, Dec) -> int {
    InGroup(Powers(c), ValidatorOf(), v)
  }

  ghost function CountTo(v: Address): (Pair, Dec) -> int {
    InGroup(One(), ValidatorOf(), v)
  }

  /** Delegations to one validator: half a unit too much for each of them at most. */
  lemma {:induction false} PowersToNear(c: Chamber, v: Address, m: map<Pair, Dec>)
    requires Staked(c) && v in c.validators
    requires forall p | p in m :: m[p] >= 0
    ensures var val := c.validators[v];
            2 * Sum(m, PowersTo(c, v)) * val.delegatorShares
            <= 2 * (Sum(m, SharesOf(v)) * val.bondedTokens * ONE) + Sum(m, CountTo(v)) * val.delegatorShares
    decreases |m|
  {
    hide Sum, VotingPower;
    if |m| == 0 {
      assert m.Keys == {};
      SumZero(m, PowersTo(c, v));
      SumZero(m, SharesOf(v));
      SumZero(m, CountTo(v));
    } else {
      var p := Pick(m);
      MinusKey(m, p);
      PowersToNear(c, v, m - {p});
      SumSplit(m, PowersTo(c, v), p);
      SumSplit(m, SharesOf(v), p);
      SumSplit(m, CountTo(v), p);
      if p.validator == v {
        var val := c.validators[v];
        PowerNear(m[p], val);
        AddNear(val.delegatorShares, val.bondedTokens, Sum(m - {p}, PowersTo(c, v)), Sum(m - {p}, SharesOf(v)),
                Sum(m - {p}, CountTo(v)), VotingPower(m[p], val), m[p]);
      }
    }
  }

  lemma AddNear(total: int, bonded: int, power1: int, shares1: int, n1: int, power2: int, shares2: int)
    requires 2 * power1 * total <= 2 * (shares1 * bonded * ONE) + n1 * total
    requires 2 * power2 * total <= 2 * (shares2 * bonded * ONE) + total
    ensures 2 * (power1 + power2) * total <= 2 * ((shares1 + shares2) * bonded * ONE) + (n1 + 1) * total
  {
    assert (shares1 + shares2) * bonded == shares1 * bonded + shares2 * bonded;
    assert 2 * (power1 + power2) * total == 2 * power1 * total + 2 * power2 * total;
    assert (n1 + 1) * total == n1 * total + total;
  }

  ghost function OwnIfVoting(c: Chamber): (Address, Validator) -> int {
    (v: Address, val: Validator) => if v in Voting(c) then OwnPowers(c)(v, val) else 0
  }

  ghost function OneIfVoting(c: Chamber): (Address, Validator) -> int {
    (v: Address, val: Validator) => if v in Voting(c) then 1 else 0
  }

  /** All the power behind one validator, its delegators' and its own. */
  lemma ValidatorPowerWithinBonded(c: Chamber, v: Address)
    requires Staked(c) && v in c.validators
    ensures 2 * Sum(Counted(c), PowersTo(c, v)) + 2 * OwnIfVoting(c)(v, c.validators[v])
         <= 2 * (c.validators[v].bondedTokens * ONE)
            + Sum(Counted(c), CountTo(v)) + OneIfVoting(c)(v, c.validators[v])
  {
    hide Sum, VotingPower, Staked;
    var val := c.validators[v];
    var total, bonded := val.delegatorShares, val.bondedTokens;
    StakedValidator(c, v);
    PowersToNear(c, v, Counted(c));
    DeductedWithinShares(c, v);
    var power, shares, n := Sum(Counted(c), PowersTo(c, v)), Deducted(c, v), Sum(Counted(c), CountTo(v));
    if v in Voting(c) {
      PowerNear(total - shares, val);
      var own := VotingPower(total - shares, val);
      OwnPowerIs(c, v);
      AddNear(total, bonded, power, shares, n, own, total - shares);
      Cancel(2 * (power + own), bonded, total, n + 1);
    } else {
      Scale(shares, total, bonded);
      Cancel(2 * power, bonded, total, n);
    }
  }

  lemma StakedValidator(c: Chamber, v: Address)
    requires Staked(c) && v in c.validators
    ensures 0 <= c.validators[v].bondedTokens && 0 < c.validators[v].delegatorShares
    ensures forall p | p in Counted(c) :: Counted(c)[p] >= 0
  {
  }

  lemma OwnPowerIs(c: Chamber, v: Address)
    requires v in Voting(c) && c.validators[v].delegatorShares != 0
    ensures var val := c.validators[v];
            OwnIfVoting(c)(v, val) == VotingPower(val.delegatorShares - Deducted(c, v), val)
  {
    hide VotingPower, Deducted;
    var val := c.validators[v];
    assert OwnPowers(c)(v, val) == VotingPower(val.delegatorShares - Deducted(c, v), val);
    assert OwnIfVoting(c)(v, val) == OwnPowers(c)(v, val);
  }

  lemma StakedDivisible(c: Chamber)
    requires Staked(c)
    ensures Divisible(c)
  {
  }

  lemma Cancel(power: int, bonded: int, total: int, n: int)
    requires 0 < total && power * total <= 2 * (total * bonded * ONE) + n * total
    ensures power <= 2 * (bonded * ONE) + n
  {
    assert 2 * (total * bonded * ONE) + n * total == (2 * (bonded * ONE) + n) * total;
    if power > 2 * (bonded * ONE) + n {
      Scale(2 * (bonded * ONE) + n + 1, power, total);
      assert false;
    }
  }

  lemma {:induction false} SumWithin<K, V>(m: map<K, V>, power: (K, V) -> int, own: (K, V) -> int,
                                           tokens: (K, V) -> int, n: (K, V) -> int, e: (K, V) -> int)
    requires forall k | k in m :: var v := m[k];
               2 * power(k, v) + 2 * own(k, v) <= 2 * (tokens(k, v) * ONE) + n(k, v) + e(k, v)
    ensures 2 * Sum(m, power) + 2 * Sum(m, own) <= 2 * (Sum(m, tokens) * ONE) + Sum(m, n) + Sum(m, e)
    decreases |m|
  {
    hide Sum;
    if |m| == 0 {
      assert m.Keys == {};
      SumZero(m, power);
      SumZero(m, own);
      SumZero(m, tokens);
      SumZero(m, n);
      SumZero(m, e);
    } else {
      var k := Pick(m);
      MinusKey(m, k);
      SumSplit(m, power, k);
      SumSplit(m, own, k);
      SumSplit(m, tokens, k);
      SumSplit(m, n, k);
      SumSplit(m, e, k);
      SumWithin(m - {k}, power, own, tokens, n, e);
    }
  }

  lemma VotingSums(c: Chamber)
    ensures Sum(Voting(c), OwnPowers(c)) == Sum(c.validators, OwnIfVoting(c))
    ensures |Voting(c)| == Sum(c.validators, OneIfVoting(c))
  {
    hide Sum, OwnPowers;
    var voting := Voting(c);
    SumMonotone(voting, OwnPowers(c), OwnIfVoting(c));
    SumMonotone(voting, OwnIfVoting(c), OwnPowers(c));
    SumAgree(c.validators, voting, OwnIfVoting(c));
    SumOne(voting);
    SumMonotone(voting, One(), OneIfVoting(c));
    SumMonotone(voting, OneIfVoting(c), One());
    SumAgree(c.validators, voting, OneIfVoting(c));
  }

  /** The total voting power is at most the bonded stake of the validators, plus half a unit for each power. */
  lemma TotalWithinBonded(c: Chamber)
    requires Staked(c)
    ensures 2 * TotalPower(c) <= 2 * (Sum(c.validators, Tokens()) * ONE) + |Counted(c)| + |Voting(c)|
  {
    hide Sum, Staked, Powers, OwnPowers;
    var counted, vs := Counted(c), c.validators;
    var powers, counts := GroupSums(counted, Powers(c), ValidatorOf()), GroupSums(counted, One(), ValidatorOf());
    forall v | v in vs {
      ValidatorPowerWithinBonded(c, v);
    }
    SumWithin(vs, powers, OwnIfVoting(c), Tokens(), counts, OneIfVoting(c));
    SumByGroup(counted, Powers(c), ValidatorOf(), vs);
    SumByGroup(counted, One(), ValidatorOf(), vs);
    SumOne(counted);
    VotingSums(c);
  }

  // ---- A validator that voted is counted in full ------------------------------------------------

  /** What a power may be too small by, in units of 10^-36: half a unit and what the first of its two roundings loses. */
  const SLACK: int := ONE + 2

  lemma PowerAtLeast(shares: Dec, val: Validator)
    requires 0 <= shares && 0 <= val.bondedTokens && 0 < val.delegatorShares
    ensures 2 * (shares * val.bondedTokens * ONE * ONE)
         <= 2 * (VotingPower(shares, val) * ONE * val.delegatorShares) + SLACK * val.delegatorShares
  {
    hide Quo;
    QuoNear(shares * val.bondedTokens, val.delegatorShares);
    var q, b := VotingPower(shares, val), val.delegatorShares;
    assert (2 * q * ONE + ONE + 2) * b == 2 * (q * ONE * b) + SLACK * b;
  }

  lemma AddAtLeast(total: int, bonded: int, power1: int, shares1: int, n1: int, power2: int, shares2: int)
    requires 2 * (shares1 * bonded * ONE * ONE) <= 2 * (power1 * ONE * total) + n1 * (SLACK * total)
    requires 2 * (shares2 * bonded * ONE * ONE) <= 2 * (power2 * ONE * total) + SLACK * total
    ensures 2 * ((shares1 + shares2) * bonded * ONE * ONE)
         <= 2 * ((power1 + power2) * ONE * total) + (n1 + 1) * (SLACK * total)
  {
    assert (shares1 + shares2) * bonded == shares1 * bonded + shares2 * bonded;
    assert (power1 + power2) * ONE * total == power1 * ONE * total + power2 * ONE * total;
    assert (n1 + 1) * (SLACK * total) == n1 * (SLACK * total) + SLACK * total;
  }

  lemma {:induction false} PowersToAtLeast(c: Chamber, v: Address, m: map<Pair, Dec>)
    requires Staked(c) && v in c.validators
    requires forall p | p in m :: m[p] >= 0
    ensures var val := c.validators[v];
            2 * (Sum(m, SharesOf(v)) * val.bondedTokens * ONE * ONE)
            <= 2 * (Sum(m, PowersTo(c, v)) * ONE * val.delegatorShares) + Sum(m, CountTo(v)) * (SLACK * val.delegatorShares)
    decreases |m|
  {
    hide Sum, VotingPower;
    if |m| == 0 {
      assert m.Keys == {};
      SumZero(m, PowersTo(c, v));
      SumZero(m, SharesOf(v));
      SumZero(m, CountTo(v));
    } else {
      var p := Pick(m);
      MinusKey(m, p);
      PowersToAtLeast(c, v, m - {p});
      SumSplit(m, PowersTo(c, v), p);
      SumSplit(m, SharesOf(v), p);
      SumSplit(m, CountTo(v), p);
      if p.validator == v {
        var val := c.validators[v];
        PowerAtLeast(m[p], val);
        AddAtLeast(val.delegatorShares, val.bondedTokens, Sum(m - {p}, PowersTo(c, v)), Sum(m - {p}, SharesOf(v)),
                   Sum(m - {p}, CountTo(v)), VotingPower(m[p], val), m[p]);
      }
    }
  }

  lemma CancelShares(power: int, bonded: int, total: int, n: int)
    requires 0 < total && 2 * (total * bonded * ONE * ONE) <= 2 * (power * ONE * total) + n * (SLACK * total)
    ensures 2 * (bonded * ONE * ONE) <= 2 * (power * ONE) + n * SLACK
  {
    var x, y := 2 * (bonded * ONE * ONE), 2 * (power * ONE) + n * SLACK;
    assert 2 * (total * bonded * ONE * ONE) == x * total;
    assert 2 * (power * ONE * total) + n * (SLACK * total) == y * total;
    if x > y {
      Scale(y + 1, x, total);
      assert false;
    }
  }

  /** The power behind a validator that voted, its delegators' and its own, is all of its bonded tokens, but for
      half a unit and a little for each part: every share counts once, either for its owner or for the validator. */
  lemma VotedValidatorCounted(c: Chamber, v: Address)
    requires Staked(c) && v in Voting(c)
    ensures 2 * (c.validators[v].bondedTokens * ONE * ONE)
         <= 2 * ((Sum(Counted(c), PowersTo(c, v)) + OwnPowers(c)(v, c.validators[v])) * ONE)
            + (Sum(Counted(c), CountTo(v)) + 1) * SLACK
  {
    hide Sum, VotingPower, Staked, OwnPowers;
    var val := c.validators[v];
    var total, bonded := val.delegatorShares, val.bondedTokens;
    StakedValidator(c, v);
    PowersToAtLeast(c, v, Counted(c));
    DeductedWithinShares(c, v);
    OwnPowerIs(c, v);
    var power, shares, n := Sum(Counted(c), PowersTo(c, v)), Deducted(c, v), Sum(Counted(c), CountTo(v));
    var own := VotingPower(total - shares, val);
    PowerAtLeast(total - shares, val);
    AddAtLeast(total, bonded, power, shares, n, own, total - shares);
    CancelShares(power + own, bonded, total, n + 1);
  }

  // ---- Votes go to the options they name --------------------------------------------------------

  /** The weight a vote gives to an option. */
  function WeightFor(vote: Vote, o: VoteOption): Dec {
    if vote == [] then 0
    else WeightFor(vote[..|vote| - 1], o) + if vote[|vote| - 1].option == o then vote[|vote| - 1].weight else 0
  }

  /** An option gets the power times the weight given to it, within half a unit for each entry of the vote. */
  lemma {:induction false} OptionNear(power: Dec, vote: Vote, o: VoteOption)
    ensures -|vote| * ONE <= 2 * (OptionPower(power, vote, o) * ONE - power * WeightFor(vote, o)) <= |vote| * ONE
  {
    hide Mul;
    if vote != [] {
      var n := |vote| - 1;
      var before, w := vote[..n], vote[n];
      OptionNear(power, before, o);
      if w.option == o {
        MulNearest(power, w.weight);
        NearStep(n, OptionPower(power, before, o), power, WeightFor(before, o), Mul(power, w.weight), w.weight);
      }
    }
  }

  lemma WholeVote(power: Dec, o: VoteOption, other: VoteOption)
    ensures OptionPower(power, [WeightedOption(o, ONE)], other) == if other == o then power else 0
  {
    hide Mul;
    MulByOne(power);
    var vote := [WeightedOption(o, ONE)];
    assert vote[..0] == [];
    assert OptionPower(power, [], other) == 0;
  }

  lemma MulByOne(power: Dec)
    ensures Mul(power, ONE) == power
  {
    RoundedWhole(power);
  }

  /** If all vote for one option, it gets all the power, to the last digit, and the others get nothing. */
  lemma UnanimousVote(c: Chamber, o: VoteOption, other: VoteOption)
    requires forall a | a in c.votes :: c.votes[a] == [WeightedOption(o, ONE)]
    ensures OptionTally(c, other) == if other == o then TotalPower(c) else 0
  {
    hide Sum, OptionPower, Powers, OwnPowers;
    var counted, voting := Counted(c), Voting(c);
    forall p | p in counted
      ensures OptionPowers(c, other)(p, counted[p]) == if other == o then Powers(c)(p, counted[p]) else 0
    {
      assert VoteOf(c, p.delegator) == [WeightedOption(o, ONE)];
      WholeVote(Powers(c)(p, counted[p]), o, other);
    }
    forall v | v in voting
      ensures OwnOptionPowers(c, other)(v, voting[v]) == if other == o then OwnPowers(c)(v, voting[v]) else 0
    {
      assert VoteOf(c, v) == [WeightedOption(o, ONE)];
      WholeVote(OwnPowers(c)(v, voting[v]), o, other);
    }
    if other == o {
      SumMonotone(counted, OptionPowers(c, o), Powers(c));
      SumMonotone(counted, Powers(c), OptionPowers(c, o));
      SumMonotone(voting, OwnOptionPowers(c, o), OwnPowers(c));
      SumMonotone(voting, OwnPowers(c), OwnOptionPowers(c, o));
    } else {
      SumZero(counted, OptionPowers(c, other));
      SumZero(voting, OwnOptionPowers(c, other));
    }
  }
}

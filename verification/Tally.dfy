/** TallyHandler.Tally: a stake-weighted count of the votes on a proposal. A delegator's vote counts with the stake
    behind their delegations; a validator's vote counts with what is left of its own stake. */
module Tally {

  import opened Basics
  import opened Decimals
  import opened MapSums

  type Address = seq<byte>

  datatype VoteOption = Yes | Abstain | No | NoWithVeto

  datatype WeightedOption = WeightedOption(option: VoteOption, weight: Dec)

  type Vote = seq<WeightedOption>

  datatype Validator = Validator(bondedTokens: int, delegatorShares: Dec)

  /** The key of a delegation. */
  datatype Pair = Pair(delegator: Address, validator: Address)

  /** Everything the count depends on: the bonded validators, all delegations and the votes on the proposal.
      A voter and a validator are the same account when their addresses have the same bytes. */
  datatype Chamber = Chamber(
    validators: map<Address, Validator>,
    delegations: map<Pair, Dec>,
    votes: map<Address, Vote>)

  datatype TallyParams = TallyParams(quorum: Dec, threshold: Dec, vetoThreshold: Dec)

  datatype TallyResult = TallyResult(yes: int, abstain: int, no: int, noWithVeto: int)

  datatype Outcome = Outcome(passes: bool, burnDeposits: bool, tally: TallyResult)

  // ---- The count as sums ------------------------------------------------------------------------

  /** The delegations that count: those of a voter to a bonded validator. */
  ghost function Counted(c: Chamber): map<Pair, Dec> {
    map p | p in c.delegations && p.delegator in c.votes && p.validator in c.validators :: c.delegations[p]
  }

  /** The validators that voted. */
  ghost function Voting(c: Chamber): map<Address, Validator> {
    map v | v in c.validators && v in c.votes && c.votes[v] != [] :: c.validators[v]
  }

  function SharesOf(v: Address): (Pair, Dec) -> int {
    (p: Pair, shares: Dec) => if p.validator == v then shares else 0
  }

  /** The shares of a validator whose owners voted themselves. */
  ghost function Deducted(c: Chamber, v: Address): Dec {
    Sum(Counted(c), SharesOf(v))
  }

  function VotingPower(shares: Dec, val: Validator): Dec
    requires val.delegatorShares != 0
  {
    Quo(shares * val.bondedTokens, val.delegatorShares)
  }

  /** What a vote adds to an option: the power times each weight given to it. */
  function OptionPower(power: Dec, vote: Vote, o: VoteOption): Dec {
    if vote == [] then 0
    else
      var n := |vote| - 1;
      OptionPower(power, vote[..n], o) + if vote[n].option == o then Mul(power, vote[n].weight) else 0
  }

  /** No power is divided by zero shares: a validator that voted, or that a voter delegates to, has some. */
  ghost predicate Divisible(c: Chamber) {
    && (forall p | p in Counted(c) :: c.validators[p.validator].delegatorShares != 0)
    && (forall v | v in Voting(c) :: c.validators[v].delegatorShares != 0)
  }

  /** The power of shares in a validator. It is only asked for where the validator has shares. */
  function PowerIn(validators: map<Address, Validator>, v: Address, shares: Dec): Dec {
    if v in validators && validators[v].delegatorShares != 0 then VotingPower(shares, validators[v]) else 0
  }

  ghost function Powers(c: Chamber): (Pair, Dec) -> int {
    (p: Pair, shares: Dec) => PowerIn(c.validators, p.validator, shares)
  }

  ghost function OwnPowers(c: Chamber): (Address, Validator) -> int {
    (v: Address, val: Validator) => PowerIn(c.validators, v, val.delegatorShares - Deducted(c, v))
  }

  ghost function VoteOf(c: Chamber, a: Address): Vote {
    if a in c.votes then c.votes[a] else []
  }

  ghost function OptionPowers(c: Chamber, o: VoteOption): (Pair, Dec) -> int {
    (p: Pair, shares: Dec) => OptionPower(Powers(c)(p, shares), VoteOf(c, p.delegator), o)
  }

  ghost function OwnOptionPowers(c: Chamber, o: VoteOption): (Address, Validator) -> int {
    (v: Address, val: Validator) => OptionPower(OwnPowers(c)(v, val), VoteOf(c, v), o)
  }

  ghost function TotalPower(c: Chamber): Dec {
    Sum(Counted(c), Powers(c)) + Sum(Voting(c), OwnPowers(c))
  }

  ghost function OptionTally(c: Chamber, o: VoteOption): Dec {
    Sum(Counted(c), OptionPowers(c, o)) + Sum(Voting(c), OwnOptionPowers(c, o))
  }

  // ---- The decision -----------------------------------------------------------------------------

  type Results = map<VoteOption, Dec>

  predicate Full(results: Results) {
    forall o: VoteOption :: o in results
  }

  function TallyResultFrom(results: Results): TallyResult
    requires Full(results)
  {
    TallyResult(TruncateInt(results[Yes]), TruncateInt(results[Abstain]), TruncateInt(results[No]),
                TruncateInt(results[NoWithVeto]))
  }

  /** Whether the proposal passes and whether its deposits are burned. None is the panic of a division by a total
      power of zero. */
  function Decide(results: Results, total: Dec, totalBonded: int, params: TallyParams): Option<(bool, bool)>
    requires Full(results)
  {
    if totalBonded == 0 then Some((false, false))
    else if Quo(total, totalBonded * ONE) < params.quorum then Some((false, true))
    else if total - results[Abstain] == 0 then Some((false, false))
    else if total == 0 then None
    else if Quo(results[NoWithVeto], total) > params.vetoThreshold then Some((false, true))
    else if Quo(results[Yes], total - results[Abstain]) > params.threshold then Some((true, false))
    else Some((false, false))
  }

  /** The outcome of a count that does not depend on the order of votes, delegations or validators. */
  ghost function Outcomes(c: Chamber, totalBonded: int, params: TallyParams): Option<Outcome> {
    var results := map o: VoteOption :: OptionTally(c, o);
    match Decide(results, TotalPower(c), totalBonded, params)
    case None => None
    case Some((passes, burn)) => Some(Outcome(passes, burn, TallyResultFrom(results)))
  }

  // ---- The count as the loops -------------------------------------------------------------------

  datatype GovInfo = GovInfo(bondedTokens: int, delegatorShares: Dec, delegatorDeductions: Dec, vote: Vote)

  /** The variables the loops update. */
  datatype Count = Count(validators: map<Address, GovInfo>, results: Results, total: Dec)

  /** The count after the given delegations and with the votes of the given validators recorded. */
  ghost predicate Counts(c: Chamber, done: map<Pair, Dec>, voted: set<Address>, n: Count) {
    && n.validators.Keys == c.validators.Keys
    && (forall v | v in c.validators ::
          n.validators[v] == GovInfo(c.validators[v].bondedTokens, c.validators[v].delegatorShares,
                                     Sum(done, SharesOf(v)), if v in voted then VoteOf(c, v) else []))
    && Full(n.results)
    && (forall o :: n.results[o] == Sum(done, OptionPowers(c, o)))
    && n.total == Sum(done, Powers(c))
  }

  method AddOptions(power: Dec, vote: Vote, before: Results) returns (results: Results)
    requires Full(before)
    ensures Full(results)
    ensures forall o :: results[o] == before[o] + OptionPower(power, vote, o)
  {
    results := before;
    for i := 0 to |vote|
      invariant Full(results)
      invariant forall o :: results[o] == before[o] + OptionPower(power, vote[..i], o)
    {
      assert vote[..i + 1][..i] == vote[..i];
      var option := vote[i];
      var subPower := Mul(power, option.weight);
      results := results[option.option := results[option.option] + subPower];
    }
    assert vote[..|vote|] == vote;
  }

  /** One delegation of a voter. */
  method CountDelegation(ghost c: Chamber, ghost done: map<Pair, Dec>, ghost voted: set<Address>,
                         before: Count, p: Pair, shares: Dec, vote: Vote)
    returns (n: Count)
    requires Divisible(c) && Counts(c, done, voted, before)
    requires p !in done && p.delegator in c.votes && vote == c.votes[p.delegator]
    requires p in c.delegations && shares == c.delegations[p]
    ensures Counts(c, if p.validator in c.validators then done[p := shares] else done, voted, n)
  {
    hide Sum, OptionPower, Quo;
    n := before;
    if p.validator in n.validators {
      assert p in Counted(c);
      var val := n.validators[p.validator];
      val := val.(delegatorDeductions := val.delegatorDeductions + shares);
      n := n.(validators := n.validators[p.validator := val]);
      var votingPower := Quo(shares * val.bondedTokens, val.delegatorShares);
      var results := AddOptions(votingPower, vote, n.results);
      n := n.(results := results, total := n.total + votingPower);
      forall v ensures Sum(done[p := shares], SharesOf(v)) == Sum(done, SharesOf(v)) + SharesOf(v)(p, shares) {
        SumUpdate(done, SharesOf(v), p, shares);
      }
      forall o ensures Sum(done[p := shares], OptionPowers(c, o))
                    == Sum(done, OptionPowers(c, o)) + OptionPowers(c, o)(p, shares) {
        SumUpdate(done, OptionPowers(c, o), p, shares);
      }
      SumUpdate(done, Powers(c), p, shares);
    }
  }

  ghost function CountedFrom(c: Chamber, voters: set<Address>): map<Pair, Dec> {
    map p | p in Counted(c) && p.delegator in voters :: c.delegations[p]
  }

  /** The totals after all delegations and the own shares of the given validators. */
  ghost predicate CountsOwn(c: Chamber, own: map<Address, Validator>, results: Results, total: Dec) {
    && Full(results)
    && (forall o :: results[o] == Sum(Counted(c), OptionPowers(c, o)) + Sum(own, OwnOptionPowers(c, o)))
    && total == Sum(Counted(c), Powers(c)) + Sum(own, OwnPowers(c))
  }

  /** The own shares of one validator. */
  method CountValidator(ghost c: Chamber, ghost own: map<Address, Validator>, ghost v: Address, val: GovInfo,
                        before: Results, sum: Dec)
    returns (results: Results, total: Dec)
    requires Divisible(c) && CountsOwn(c, own, before, sum)
    requires v in c.validators && v !in own && v in c.votes && val.vote == c.votes[v] != []
    requires val.bondedTokens == c.validators[v].bondedTokens && val.delegatorShares == c.validators[v].delegatorShares
    requires val.delegatorDeductions == Deducted(c, v)
    ensures CountsOwn(c, own[v := c.validators[v]], results, total)
  {
    hide Sum, OptionPower, Quo, Deducted;
    assert v in Voting(c);
    var sharesAfterDeductions := val.delegatorShares - val.delegatorDeductions;
    var votingPower := Quo(sharesAfterDeductions * val.bondedTokens, val.delegatorShares);
    results := AddOptions(votingPower, val.vote, before);
    total := sum + votingPower;
    ghost var w := c.validators[v];
    forall o ensures Sum(own[v := w], OwnOptionPowers(c, o))
                  == Sum(own, OwnOptionPowers(c, o)) + OwnOptionPowers(c, o)(v, w) {
      SumUpdate(own, OwnOptionPowers(c, o), v, w);
    }
    SumUpdate(own, OwnPowers(c), v, w);
  }

  lemma NothingCounts(c: Chamber, n: Count)
    requires n.validators == map v | v in c.validators ::
                               GovInfo(c.validators[v].bondedTokens, c.validators[v].delegatorShares, 0, [])
    requires n.results == map[Yes := 0, Abstain := 0, No := 0, NoWithVeto := 0] && n.total == 0
    ensures Counts(c, CountedFrom(c, {}), {}, n)
  {
    assert CountedFrom(c, {}) == map[];
    forall o: VoteOption ensures o in n.results {
      match o { case Yes => case Abstain => case No => case NoWithVeto => }
    }
  }

  lemma EveryVoter(c: Chamber)
    ensures CountedFrom(c, c.votes.Keys) == Counted(c)
  {
  }

  lemma RecordingCounts(c: Chamber, done: map<Pair, Dec>, voters: set<Address>, voter: Address,
                        before: Count, n: Count)
    requires Counts(c, done, voters, before) && voter in c.votes
    requires n == if voter !in before.validators then before
                  else before.(validators := before.validators[
                         voter := before.validators[voter].(vote := c.votes[voter])])
    ensures Counts(c, done, voters + {voter}, n)
  {
    hide Sum, OptionPowers, Powers, SharesOf;
  }

  lemma VotesCount(c: Chamber, n: Count)
    requires Counts(c, Counted(c), c.votes.Keys, n)
    ensures CountsOwn(c, map[], n.results, n.total)
    ensures n.validators.Keys == c.validators.Keys
    ensures forall v | v in c.validators ::
              n.validators[v] == GovInfo(c.validators[v].bondedTokens, c.validators[v].delegatorShares,
                                         Deducted(c, v), VoteOf(c, v))
  {
    var none: map<Address, Validator> := map[];
    assert Sum(none, OwnPowers(c)) == 0;
    forall o ensures Sum(none, OwnOptionPowers(c, o)) == 0 {
    }
  }

  lemma AllCount(c: Chamber, results: Results, total: Dec)
    requires CountsOwn(c, Voting(c), results, total)
    ensures Full(results)
    ensures results == map o: VoteOption :: OptionTally(c, o)
    ensures total == TotalPower(c)
  {
    hide Sum, OptionPowers, Powers, OwnPowers, OwnOptionPowers;
  }

  /** The own shares of every validator that voted. */
  method CountValidators(ghost c: Chamber, n: Count) returns (results: Results, total: Dec)
    requires Divisible(c) && Counts(c, Counted(c), c.votes.Keys, n)
    ensures CountsOwn(c, Voting(c), results, total)
  {
    hide Counts, CountsOwn, Divisible, Sum, Deducted;
    VotesCount(c, n);
    results, total := n.results, n.total;
    var rest := n.validators.Keys;
    ghost var own: map<Address, Validator> := map[];
    while rest != {}
      invariant rest <= n.validators.Keys
      invariant own == map v | v in Voting(c) && v !in rest :: c.validators[v]
      invariant CountsOwn(c, own, results, total)
      decreases rest
    {
      var v :| v in rest;
      rest := rest - {v};
      if |n.validators[v].vote| != 0 {
        results, total := CountValidator(c, own, v, n.validators[v], results, total);
        own := own[v := c.validators[v]];
      }
    }
    assert own == Voting(c);
  }

  /** The handler with the parts of the governance and staking state it reads. */
  class TallyHandler {
    var validators: map<Address, Validator>
    var delegations: map<Pair, Dec>
    var votes: map<Address, Vote>
    var totalBonded: int
    var params: TallyParams

    ghost function Abs(): Chamber
      reads this
    {
      Chamber(validators, delegations, votes)
    }

    method CurrentValidators() returns (current: map<Address, GovInfo>)
      ensures current == map v | v in validators ::
                           GovInfo(validators[v].bondedTokens, validators[v].delegatorShares, 0, [])
    {
      current := map v | v in validators ::
                   GovInfo(validators[v].bondedTokens, validators[v].delegatorShares, 0, []);
    }

    /** One vote: it is recorded if the voter is a validator, and counts with each of the voter's delegations. */
    method CountVoter(ghost c: Chamber, ghost voters: set<Address>, voter: Address, vote: Vote, before: Count)
      returns (n: Count)
      requires c.delegations == delegations && Divisible(c)
      requires voter in c.votes && vote == c.votes[voter] && voter !in voters
      requires Counts(c, CountedFrom(c, voters), voters, before)
      ensures Counts(c, CountedFrom(c, voters + {voter}), voters + {voter}, n)
    {
      hide Counts, Divisible;
      n := before;
      if voter in n.validators {
        n := n.(validators := n.validators[voter := n.validators[voter].(vote := vote)]);
      }
      RecordingCounts(c, CountedFrom(c, voters), voters, voter, before, n);
      var rest := set p | p in delegations && p.delegator == voter;
      ghost var done := CountedFrom(c, voters);
      while rest != {}
        invariant forall p | p in rest :: p in delegations && p.delegator == voter
        invariant forall p | p in done :: p !in rest
        invariant done == map p | p in CountedFrom(c, voters + {voter}) && p !in rest :: c.delegations[p]
        invariant Counts(c, done, voters + {voter}, n)
        decreases rest
      {
        var p :| p in rest;
        n := CountDelegation(c, done, voters + {voter}, n, p, delegations[p], vote);
        rest := rest - {p};
        if p.validator in c.validators {
          done := done[p := delegations[p]];
        }
      }
      assert done == CountedFrom(c, voters + {voter});
    }

    method CountVotes() returns (n: Count)
      requires Divisible(Abs())
      modifies this`votes
      ensures votes == map[]
      ensures Counts(old(Abs()), Counted(old(Abs())), old(votes).Keys, n)
    {
      hide Counts, CountedFrom, Counted, Divisible;
      ghost var c := Abs();
      ghost var voters: set<Address> := {};
      var current := CurrentValidators();
      n := Count(current, map[Yes := 0, Abstain := 0, No := 0, NoWithVeto := 0], 0);
      NothingCounts(c, n);
      while votes.Keys != {}
        invariant forall w :: w in c.votes <==> w in votes || w in voters
        invariant forall w | w in votes :: w !in voters && votes[w] == c.votes[w]
        invariant Counts(c, CountedFrom(c, voters), voters, n)
        decreases votes.Keys
      {
        var voter :| voter in votes.Keys;
        n := CountVoter(c, voters, voter, votes[voter], n);
        votes := votes - {voter};
        voters := voters + {voter};
      }
      assert voters == c.votes.Keys;
      EveryVoter(c);
    }

    method Tally() returns (outcome: Option<Outcome>)
      requires Divisible(Abs())
      modifies this`votes
      ensures outcome == Outcomes(old(Abs()), totalBonded, params)
      ensures votes == map[]
    {
      hide Counts, CountsOwn, Divisible, Full, Sum;
      ghost var c := Abs();
      var n := CountVotes();
      var results, total := CountValidators(c, n);
      AllCount(c, results, total);
      match Decide(results, total, totalBonded, params) {
        case None => outcome := None;
        case Some((passes, burn)) => outcome := Some(Outcome(passes, burn, TallyResultFrom(results)));
      }
    }
  }
}

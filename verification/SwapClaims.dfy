/** When claims and refunds succeed, and what a failure means. */
module SwapClaims {
  import opened Basics
  import opened SwapTypes
  import opened Bank
  import opened MapSums
  import opened SwapSpec
  import opened SwapInvariant
  import opened SwapRuns

  /** What the parameters in force must still allow for an incoming claim; outgoing claims ask nothing of them. */
  predicate ClaimAllowed(s: State, sw: AtomicSwap)
    requires |sw.amount| == 1 && sw.amount[0].denom in s.supplies
  {
    var c, a := sw.amount[0], s.supplies[sw.amount[0].denom];
    sw.direction == SWAP_DIRECTION_INCOMING ==>
      match GetAsset(s.params, c.denom)
      case Ok(asset) =>
        && a.current + c.amount <= asset.supplyLimit.limit
        && (asset.supplyLimit.timeLimited ==> a.timeLimitedCurrent + c.amount <= asset.supplyLimit.timeBasedLimit)
      case Err(_) => false
  }

  /** The supply and escrow of a live swap's denomination cover its amount. */
  lemma LiveSwapCovered(s: State, id: SwapID)
    requires Inv(s) && id in s.swaps && Live(s.swaps[id])
    ensures var sw := s.swaps[id];
            && GoodSwap(s.env, id, sw) && sw.amount[0].denom in s.supplies
            && var c, a := sw.amount[0], s.supplies[sw.amount[0].denom];
            && (sw.direction == SWAP_DIRECTION_INCOMING ==> c.amount <= a.incoming)
            && (sw.direction == SWAP_DIRECTION_OUTGOING ==>
                  c.amount <= a.outgoing <= a.current && c.amount <= Balance(s.bank, s.env.moduleAddress, c.denom))
  {
    hide Sum, Solvent, Balance;
    var sw := s.swaps[id];
    assert SupplyMatches(s.swaps, sw.amount[0].denom, s.supplies[sw.amount[0].denom]);
    OutstandingCovers(s.env, s.swaps, s.supplies, id);
  }

  lemma ClaimIncomingOk(s: State, id: SwapID, sw: AtomicSwap)
    requires Inv(s) && id in s.swaps && sw == s.swaps[id] && Live(sw) && sw.direction == SWAP_DIRECTION_INCOMING
    requires |sw.amount| == 1 && sw.amount[0].denom in s.supplies
    ensures ClaimIncoming(s, sw).Ok? <==> ClaimAllowed(s, sw)
  {
    LiveSwapCovered(s, id);
    BalanceWithinTotal(s.bank, s.env.moduleAddress, sw.amount[0].denom);
    IssueEffect(s.bank, s.env.moduleAddress, sw.amount[0]);
    hide Inv, GetAsset, Issue, Balance;
  }

  lemma OpenClaimSucceedsIff(s: State, id: SwapID, r: Bytes)
    requires Inv(s) && id in s.swaps && s.swaps[id].status == SWAP_STATUS_OPEN
    requires SecretMatches(s.env, s.swaps[id], r)
    requires s.swaps[id].amount[0].denom in s.supplies
    ensures Claim(s, id, r).Ok? <==> ClaimAllowed(s, s.swaps[id])
  {
    InvSingleCoins(s);
    LiveSwapCovered(s, id);
    if s.swaps[id].direction == SWAP_DIRECTION_INCOMING {
      ClaimIncomingOk(s, id, s.swaps[id]);
    }
    hide Inv, SecretMatches, ClaimIncoming, GetAsset, Balance, Issue, GetSwapID;
  }

  /** A claim succeeds exactly when the swap is stored, open and unlocked by the number, and the parameters in force
      still leave room for it. What keeps it from succeeding otherwise is what the error says. */
  lemma ClaimSucceedsIff(s: State, id: SwapID, r: Bytes)
    requires Inv(s)
    ensures SingleCoins(s.swaps)
    ensures Claim(s, id, r).Ok? <==>
              && id in s.swaps && s.swaps[id].status == 1 && SecretMatches(s.env, s.swaps[id], r)
              && s.swaps[id].amount[0].denom in s.supplies && ClaimAllowed(s, s.swaps[id])
    ensures Claim(s, id, r) == Err(ErrAtomicSwapNotFound) <==> id !in s.swaps
    ensures Claim(s, id, r) == Err(ErrSwapNotClaimable) <==> id in s.swaps && s.swaps[id].status != 1
    ensures Claim(s, id, r) == Err(ErrInvalidClaimSecret) <==>
              id in s.swaps && s.swaps[id].status == 1 && !SecretMatches(s.env, s.swaps[id], r)
  {
    hide Inv, SecretMatches, ClaimIncoming, ClaimOutgoing, ClaimAllowed;
    InvSingleCoins(s);
    if id in s.swaps && s.swaps[id].status == SWAP_STATUS_OPEN {
      LiveSwapCovered(s, id);
      ClaimPaymentErrors(s, s.swaps[id]);
      if SecretMatches(s.env, s.swaps[id], r) {
        OpenClaimSucceedsIff(s, id, r);
      }
    }
  }

  /** A payment does not fail with the errors of the checks before it. */
  predicate PaymentResult(r: Result<State, Error>) {
    r != Err(ErrAtomicSwapNotFound) && r != Err(ErrSwapNotClaimable) && r != Err(ErrInvalidClaimSecret)
  }

  lemma ClaimPaymentErrors(s: State, sw: AtomicSwap)
    requires |sw.amount| == 1
    ensures PaymentResult(ClaimIncoming(s, sw)) && PaymentResult(ClaimOutgoing(s, sw))
  {
    hide GetAsset, Balance;
  }

  /** While parameters stand, the caps checked when a swap was created make every later claim succeed. */
  lemma ClaimNeverFails(s: State, id: SwapID, r: Bytes)
    requires Inv(s) && id in s.swaps && s.swaps[id].status == SWAP_STATUS_OPEN
    requires CoinsCapped(s.params, s.supplies, s.swaps[id])
    requires SecretMatches(s.env, s.swaps[id], r)
    ensures Claim(s, id, r).Ok?
  {
    LiveSwapCovered(s, id);
    assert s.swaps[id].amount[0] in s.swaps[id].amount;
    OpenClaimSucceedsIff(s, id, r);
    WindowNonNegative(s, s.swaps[id].amount[0].denom);
    hide Inv, Claim, SecretMatches, GetAsset, Balance, GetSwapID;
  }

  /** A refund of an expired swap always succeeds, whatever the parameters are. */
  lemma RefundNeverFails(s: State, id: SwapID)
    requires Inv(s) && id in s.swaps && s.swaps[id].status == SWAP_STATUS_EXPIRED
    ensures Refund(s, id).Ok?
  {
    InvSingleCoins(s);
    LiveSwapCovered(s, id);
    hide Inv, Balance, GetSwapID;
  }

  /** A refund succeeds exactly when the swap is stored and expired, and the error says which it is not. */
  lemma RefundSucceedsIff(s: State, id: SwapID)
    requires Inv(s)
    ensures SingleCoins(s.swaps)
    ensures Refund(s, id).Ok? <==> id in s.swaps && s.swaps[id].status == 3
    ensures Refund(s, id) == Err(ErrAtomicSwapNotFound) <==> id !in s.swaps
    ensures Refund(s, id) == Err(ErrSwapNotRefundable) <==> id in s.swaps && s.swaps[id].status != 3
  {
    hide Inv, RefundIncoming, RefundOutgoing;
    InvSingleCoins(s);
    if id in s.swaps && s.swaps[id].status == SWAP_STATUS_EXPIRED {
      RefundNeverFails(s, id);
    }
  }

  /** On every run with fixed parameters, every open swap can be claimed with its secret. */
  lemma RunClaimNeverFails(s: State, es: seq<Event>, id: SwapID, r: Bytes)
    requires Inv(s) && NoParamsChange(es)
    requires var s' := Run(s, es);
             id in s'.swaps && s'.swaps[id].status == SWAP_STATUS_OPEN && SecretMatches(s'.env, s'.swaps[id], r)
    requires CoinsCapped(s.params, s.supplies, Run(s, es).swaps[id])
    ensures SingleCoins(Run(s, es).swaps) && Claim(Run(s, es), id, r).Ok?
  {
    hide Inv, Run, Capped, Claim, SecretMatches, NoParamsChange;
    InvSingleCoins(s);
    RunKeepsInv(s, es);
    InvSingleCoins(Run(s, es));
    var amount := Run(s, es).swaps[id].amount;
    RunKeepsCaps(s, es, amount[0].denom);
    assert amount[0] in amount && forall c | c in amount :: c == amount[0];
    ClaimNeverFails(Run(s, es), id, r);
  }

  /** Fixed parameters are needed: once its asset is delisted, an incoming swap cannot be claimed even with its
      secret, and the keeper finds out only after it has already lowered the incoming supply. */
  lemma DelistingBlocksClaim(s: State, id: SwapID, r: Bytes)
    requires Inv(s) && id in s.swaps && s.swaps[id].status == SWAP_STATUS_OPEN
    requires s.swaps[id].direction == SWAP_DIRECTION_INCOMING && SecretMatches(s.env, s.swaps[id], r)
    ensures var s' := Next(s, ParamsEvent([]));
            && SingleCoins(s'.swaps)
            && Claim(s', id, r) == Err(ErrAssetNotSupported)
            && DecrementIncoming(s'.supplies, s.swaps[id].amount[0]).Ok?
  {
    InvSingleCoins(s);
    LiveSwapCovered(s, id);
    hide Inv, Balance, GetSwapID, SecretMatches;
  }
}

/** When a creation succeeds, why one fails, and what it stores. */
module SwapCreation {
  import opened Basics
  import opened SwapTypes
  import opened Bank
  import opened SwapSpec
  import opened SwapInvariant
  import opened SwapRuns
  import opened SwapLifecycle
  import opened SwapSecrets

  // ---- When a creation succeeds -----------------------------------------------------------------

  /** The timestamp is at least 15 minutes ago and less than 30 minutes ahead, in whole seconds. Times are in
      nanoseconds. */
  predicate Timely(now: int, timestamp: Int64) {
    now - 900_000_000_000 < (timestamp + 1) * 1_000_000_000 <= now + 1_800_000_000_000
  }

  /** What is wrong with a message of one coin, once its asset is known. */
  predicate AssetCause(s: State, m: CreateMsg, c: Coin, asset: AssetParam, e: Error) {
    var fromDeputy, toDeputy := m.sender == asset.deputyAddress, m.recipient == asset.deputyAddress;
    || (e == ErrAssetNotActive && !asset.active)
    || (e == ErrInvalidAmount && (c.amount < asset.minSwapAmount || asset.maxSwapAmount < c.amount))
    || (e == ErrInvalidTimestamp && !Timely(s.time, m.timestamp))
    || (e == ErrInvalidSwapAccount && fromDeputy == toDeputy)
    || (e == ErrInvalidHeightSpan && !fromDeputy
        && (m.heightSpan < asset.minBlockLock || asset.maxBlockLock < m.heightSpan))
    || (e == ErrInsufficientAmount && !fromDeputy && c.amount <= asset.fixedFee + asset.minSwapAmount)
    || (e == ErrInsufficientFunds && !fromDeputy && Balance(s.bank, m.sender, c.denom) < c.amount)
    || (e == ErrAssetNotSupported && c.denom !in s.supplies)
    || (c.denom in s.supplies && SupplyCause(s.supplies[c.denom], c, asset.supplyLimit, fromDeputy, e))
  }

  /** What is wrong with the supply: an incoming amount must fit under the limits together with what is current and
      incoming, an outgoing one must be current and not yet on its way out. */
  predicate SupplyCause(a: AssetSupply, c: Coin, limit: SupplyLimit, incoming: bool, e: Error) {
    || (e == ErrExceedsSupplyLimit && incoming && limit.limit < a.current + a.incoming + c.amount)
    || (e == ErrExceedsTimeBasedSupplyLimit && incoming && limit.timeLimited
        && limit.timeBasedLimit < a.timeLimitedCurrent + a.incoming + c.amount)
    || (e == ErrExceedsAvailableSupply && !incoming && a.current < a.outgoing + c.amount)
  }

  /** Everything that can be wrong with a message in a state, by the error that reports it. */
  predicate Cause(s: State, m: CreateMsg, e: Error) {
    || (e == ErrAtomicSwapAlreadyExists && MsgSwapID(s.env, m) in s.swaps)
    || (e == ErrUnauthorized && m.recipient in s.env.moduleAccounts)
    || (e == ErrNotOneCoin && |m.amount| != 1)
    || (|m.amount| == 1 && CoinCause(s, m, m.amount[0], e))
  }

  predicate CoinCause(s: State, m: CreateMsg, c: Coin, e: Error) {
    match GetAsset(s.params, c.denom)
    case Err(_) => e == ErrAssetNotSupported
    case Ok(asset) => AssetCause(s, m, c, asset, e)
  }

  lemma TimelyIff(s: State, m: CreateMsg)
    ensures Timely(s.time, m.timestamp) <==>
              Unix(s.time - 15 * 60 * NANOS_PER_SECOND) <= m.timestamp < Unix(s.time + 30 * 60 * NANOS_PER_SECOND)
  {
  }

  /** A creation succeeds exactly when nothing is wrong, and the error it fails with is something that is. */
  lemma CreateSucceedsIff(s: State, m: CreateMsg)
    ensures Create(s, m).Ok? <==> forall e :: !Cause(s, m, e)
    ensures forall e | Create(s, m) == Err(e) :: Cause(s, m, e)
  {
    hide Create, Cause;
    forall e ensures Create(s, m) == Err(e) ==> Cause(s, m, e) {
      if Create(s, m) == Err(e) {
        CreateErrorIsCause(s, m, e);
      }
    }
    if Create(s, m).Ok? {
      forall e ensures !Cause(s, m, e) {
        CreatedWithoutCause(s, m, e);
      }
    }
  }

  lemma CreateErrorIsCause(s: State, m: CreateMsg, e: Error)
    requires Create(s, m) == Err(e)
    ensures Cause(s, m, e)
  {
    hide GetAsset, CalculateSwapID, Balance, Timely, Unix;
    TimelyIff(s, m);
  }

  lemma CreatedWithoutCause(s: State, m: CreateMsg, e: Error)
    requires Create(s, m).Ok?
    ensures !Cause(s, m, e)
  {
    hide GetAsset, CalculateSwapID, Balance, Timely, Unix;
    TimelyIff(s, m);
  }

  // ---- What a creation stores -------------------------------------------------------------------

  /** Every part of the state after a creation that is not a supply or a balance: one new swap with every field of the
      message, open and cross-chain, incoming (1) from the deputy and else outgoing (2); the recipient of an incoming swap
      gets an account. The expiry height is the sum of height and span, unless that exceeds 64 bits. */
  lemma CreatedSwap(s: State, m: CreateMsg)
    requires Create(s, m).Ok?
    ensures var s', id := Create(s, m).value, MsgSwapID(s.env, m);
            && s' == s.(swaps := s'.swaps, supplies := s'.supplies, bank := s'.bank, accounts := s'.accounts)
            && id !in s.swaps && id in s'.swaps && s'.swaps - {id} == s.swaps
            && GetAsset(s.params, m.amount[0].denom).Ok?
            && var sw, incoming := s'.swaps[id], m.sender == GetAsset(s.params, m.amount[0].denom).value.deputyAddress;
            && sw.amount == m.amount && sw.randomNumberHash == m.randomNumberHash && sw.timestamp == m.timestamp
            && sw.sender == m.sender && sw.recipient == m.recipient
            && sw.senderOtherChain == m.senderOtherChain && sw.recipientOtherChain == m.recipientOtherChain
            && sw.closedBlock == 0 && sw.status == 1 && sw.crossChain
            && sw.direction == (if incoming then 1 else 2)
            && s'.accounts == (if incoming then s.accounts + {m.recipient} else s.accounts)
            && (s.height + m.heightSpan < 0x1_0000_0000_0000_0000 ==> sw.expireHeight == s.height + m.heightSpan)
            && (s.height + m.heightSpan >= 0x1_0000_0000_0000_0000 ==>
                  sw.expireHeight == s.height + m.heightSpan - 0x1_0000_0000_0000_0000)
  {
    hide IncrementIncoming, IncrementOutgoing, SendFromAccountToModule, CalculateSwapID, GetAsset, Unix;
    var s', id := Create(s, m).value, MsgSwapID(s.env, m);
    assert s'.swaps - {id} == s.swaps;
  }

  /** A swap that can be created is not due in the block that creates it. */
  lemma NotDueAtOnce(s: State, m: CreateMsg)
    requires ValidateBasic(s.env, m) && Create(s, m).Ok? && s.height + m.heightSpan < 0x1_0000_0000_0000_0000
    ensures var s', id := Create(s, m).value, MsgSwapID(s.env, m); id in s'.swaps && !Due(s'.swaps[id], s.height)
  {
    hide Create, MsgSwapID, GetAsset;
    CreatedSwap(s, m);
  }

  /** The secret of a message unlocks the swap that it created. */
  lemma SecretOfMessageUnlocks(s: State, m: CreateMsg, r: Bytes)
    requires Create(s, m).Ok? && CalculateRandomHash(s.env, r, m.timestamp) == m.randomNumberHash
    ensures var s', id := Create(s, m).value, MsgSwapID(s.env, m);
            id in s'.swaps && SecretMatches(s'.env, s'.swaps[id], r)
  {
    hide Create, MsgSwapID, GetAsset, CalculateRandomHash, SecretMatches;
    CreatedSwap(s, m);
    SecretUnlocks(s.env, Create(s, m).value.swaps[MsgSwapID(s.env, m)], r);
  }

  /** And the other way round: a number that claims it, though it does not hash to the message's hash, is a collision. */
  lemma OtherNumberCollides(s: State, m: CreateMsg, r: Bytes) returns (x: Bytes, y: Bytes)
    requires Create(s, m).Ok? && CalculateRandomHash(s.env, r, m.timestamp) != m.randomNumberHash
    requires var s', id := Create(s, m).value, MsgSwapID(s.env, m);
             SingleCoins(s'.swaps) && Claim(s', id, r).Ok?
    ensures Collision(s.env, x, y)
  {
    hide Create, MsgSwapID, GetAsset, CalculateRandomHash, CalculateSwapID, ClaimIncoming, ClaimOutgoing;
    CreatedSwap(s, m);
    x, y := WrongHashCollides(s.env, Create(s, m).value.swaps[MsgSwapID(s.env, m)], r);
  }

  // ---- Addresses on the other chain -------------------------------------------------------------

  /** No stored address on the other chain is longer than 64 bytes. */
  predicate ShortAddresses(swaps: Swaps) {
    forall id | id in swaps :: |swaps[id].senderOtherChain| <= 64 && |swaps[id].recipientOtherChain| <= 64
  }

  lemma NextKeepsShort(s: State, e: Event)
    requires SingleCoins(s.swaps) && ShortAddresses(s.swaps)
    ensures ShortAddresses(Next(s, e).swaps)
  {
    hide Create, Claim, Refund, BeginBlocker, Move, ValidParams, MsgSwapID, Stale, Due;
    forall id | id in Next(s, e).swaps
      ensures |Next(s, e).swaps[id].senderOtherChain| <= 64 && |Next(s, e).swaps[id].recipientOtherChain| <= 64
    {
      NextMoves(s, e, id);
      if id !in s.swaps {
        NewSwapIsShort(s, e, id);
      }
    }
  }

  lemma NewSwapIsShort(s: State, e: Event, id: SwapID)
    requires SingleCoins(s.swaps) && e.CreateEvent? && id !in s.swaps && id in Next(s, e).swaps
    ensures |Next(s, e).swaps[id].senderOtherChain| <= 64 && |Next(s, e).swaps[id].recipientOtherChain| <= 64
  {
    hide Create, MsgSwapID, GetAsset;
    CreatedSwap(s, e.msg);
    var s', made := Create(s, e.msg).value, MsgSwapID(s.env, e.msg);
    assert s'.swaps.Keys == (s'.swaps - {made}).Keys + {made};
  }

  /** Messages keep the addresses of all swaps short, on every run. */
  lemma {:induction false} RunKeepsShort(s: State, es: seq<Event>)
    requires SingleCoins(s.swaps) && ShortAddresses(s.swaps)
    ensures ShortAddresses(Run(s, es).swaps)
    decreases |es|
  {
    hide Next, ShortAddresses;
    if es != [] {
      NextSingleCoins(s, es[0]);
      NextKeepsShort(s, es[0]);
      RunKeepsShort(Next(s, es[0]), es[1..]);
    }
  }
}

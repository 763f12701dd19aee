/** The records of x/bep3/types: swaps, asset parameters, asset supplies, and their validation. */
module SwapTypes {
  import opened Basics

  type Address = Bytes
  type Denom = string
  type SwapID = Bytes

  datatype Coin = Coin(denom: Denom, amount: int)

  const SWAP_STATUS_UNSPECIFIED: Int32 := 0
  const SWAP_STATUS_OPEN: Int32 := 1
  const SWAP_STATUS_COMPLETED: Int32 := 2
  const SWAP_STATUS_EXPIRED: Int32 := 3

  const SWAP_DIRECTION_UNSPECIFIED: Int32 := 0
  const SWAP_DIRECTION_INCOMING: Int32 := 1
  const SWAP_DIRECTION_OUTGOING: Int32 := 2

  const RANDOM_NUMBER_LENGTH := 32
  const RANDOM_NUMBER_HASH_LENGTH := 32
  const MAX_OTHER_CHAIN_ADDR_LENGTH := 64

  /** Blocks for which a closed swap is kept. */
  const LONGTERM_STORAGE_DURATION := 86400

  datatype AtomicSwap = AtomicSwap(
    amount: seq<Coin>,
    randomNumberHash: Bytes,
    expireHeight: Uint64,
    timestamp: Int64,
    sender: Address,
    recipient: Address,
    senderOtherChain: Bytes,
    recipientOtherChain: Bytes,
    closedBlock: Int64,
    status: Int32,
    crossChain: bool,
    direction: Int32)

  datatype SupplyLimit = SupplyLimit(limit: int, timeLimited: bool, timePeriod: int, timeBasedLimit: int)

  datatype AssetParam = AssetParam(
    denom: Denom,
    coinID: Int64,
    supplyLimit: SupplyLimit,
    active: bool,
    deputyAddress: Address,
    fixedFee: int,
    minSwapAmount: int,
    maxSwapAmount: int,
    minBlockLock: Uint64,
    maxBlockLock: Uint64)

  /** The four coins of an asset supply share one denomination. Durations are in nanoseconds. */
  datatype AssetSupply = AssetSupply(
    denom: Denom,
    incoming: int,
    outgoing: int,
    current: int,
    timeLimitedCurrent: int,
    timeElapsed: int)

  datatype Error =
    | ErrUnauthorized
    | ErrNotOneCoin
    | ErrInvalidDirection
    | ErrInsufficientFunds
    | ErrInvalidTimestamp
    | ErrInvalidHeightSpan
    | ErrInsufficientAmount
    | ErrAssetNotSupported
    | ErrAssetNotActive
    | ErrExceedsSupplyLimit
    | ErrExceedsAvailableSupply
    | ErrInvalidCurrentSupply
    | ErrInvalidIncomingSupply
    | ErrInvalidOutgoingSupply
    | ErrInvalidClaimSecret
    | ErrAtomicSwapAlreadyExists
    | ErrAtomicSwapNotFound
    | ErrSwapNotRefundable
    | ErrSwapNotClaimable
    | ErrInvalidAmount
    | ErrInvalidSwapAccount
    | ErrExceedsTimeBasedSupplyLimit

  /** What the module takes from its surroundings: the SHA-256 sum, the lower-casing and
      blankness tests of Go strings, and the accounts owned by modules. */
  datatype Env = Env(
    sum: Bytes -> Bytes,
    lower: Bytes -> Bytes,
    blank: Bytes -> bool,
    moduleAddress: Address,
    moduleAccounts: set<Address>)

  /** The random number, cut or zero-padded to 32 bytes. */
  function PadRandomNumber(r: Bytes): (p: Bytes)
    ensures |p| == 32
    ensures forall i | 0 <= i < 32 :: p[i] == if i < |r| then r[i] else 0
    ensures |r| == 32 ==> p == r
  {
    if |r| >= RANDOM_NUMBER_LENGTH then r[..RANDOM_NUMBER_LENGTH]
    else r + seq(RANDOM_NUMBER_LENGTH - |r|, i => 0)
  }

  /** Eight bytes, most significant first. */
  function BigEndian64(x: Uint64): (b: Bytes)
    ensures |b| == 8
  {
    BigEndian(x, 8)
  }

  function BigEndian(x: nat, n: nat): (b: Bytes)
    ensures |b| == n
  {
    if n == 0 then [] else BigEndian(x / 256, n - 1) + [x % 256]
  }

  function CalculateRandomHash(env: Env, randomNumber: Bytes, timestamp: Int64): Bytes {
    env.sum(PadRandomNumber(randomNumber) + BigEndian64(ToUint64(timestamp)))
  }

  function CalculateSwapID(env: Env, randomNumberHash: Bytes, sender: Address, senderOtherChain: Bytes): SwapID {
    env.sum(randomNumberHash + sender + env.lower(senderOtherChain))
  }

  function GetSwapID(env: Env, sw: AtomicSwap): SwapID {
    CalculateSwapID(env, sw.randomNumberHash, sw.sender, sw.senderOtherChain)
  }

  /** Coins are valid when every amount is positive and denominations strictly ascend. */
  predicate ValidCoins(coins: seq<Coin>) {
    && (forall i | 0 <= i < |coins| :: coins[i].amount > 0)
    && (forall i, j | 0 <= i < j < |coins| :: DenomLess(coins[i].denom, coins[j].denom))
  }

  /** Denominations are ordered by their characters. */
  predicate DenomLess(a: Denom, b: Denom) {
    Less(Codes(a), Codes(b))
  }

  function Codes(d: Denom): seq<int> {
    seq(|d|, i requires 0 <= i < |d| => d[i] as int)
  }

  predicate ValidSwap(env: Env, sw: AtomicSwap) {
    && ValidCoins(sw.amount)
    && sw.amount != []
    && |sw.randomNumberHash| == RANDOM_NUMBER_HASH_LENGTH
    && sw.expireHeight != 0
    && sw.timestamp != 0
    && sw.sender != []
    && sw.recipient != []
    && !env.blank(sw.senderOtherChain)
    && !env.blank(sw.recipientOtherChain)
    && !(sw.status == SWAP_STATUS_COMPLETED && sw.closedBlock == 0)
    && !(sw.status == SWAP_STATUS_UNSPECIFIED || sw.status > 3)
    && !(sw.direction == SWAP_DIRECTION_UNSPECIFIED || sw.direction > 2)
  }

  predicate ValidSupply(a: AssetSupply) {
    a.incoming >= 0 && a.outgoing >= 0 && a.current >= 0 && a.timeLimitedCurrent >= 0
  }

  predicate ValidAsset(a: AssetParam) {
    && a.coinID >= 0
    && a.supplyLimit.limit >= 0
    && 0 <= a.supplyLimit.timeBasedLimit <= a.supplyLimit.limit
    && a.deputyAddress != []
    && a.fixedFee >= 0
    && a.minBlockLock <= a.maxBlockLock
    && 0 < a.minSwapAmount <= a.maxSwapAmount
  }

  predicate ValidParams(params: seq<AssetParam>) {
    && (forall i | 0 <= i < |params| :: ValidAsset(params[i]))
    && (forall i, j | 0 <= i < j < |params| :: params[i].denom != params[j].denom)
  }

  /** The first asset with the denomination. */
  function GetAsset(params: seq<AssetParam>, denom: Denom): (r: Result<AssetParam, Error>)
    ensures r.Ok? ==> r.value in params && r.value.denom == denom
    ensures r.Err? ==> r.error == ErrAssetNotSupported && forall a | a in params :: a.denom != denom
  {
    if params == [] then Err(ErrAssetNotSupported)
    else if params[0].denom == denom then Ok(params[0])
    else GetAsset(params[1..], denom)
  }

  /** Valid parameters hold one asset per denomination, so the first match is the only one. */
  lemma {:induction false} GetAssetUnique(params: seq<AssetParam>, i: nat)
    requires ValidParams(params) && i < |params|
    ensures GetAsset(params, params[i].denom) == Ok(params[i])
  {
    if i > 0 {
      GetAssetUnique(params[1..], i - 1);
    }
  }

  datatype CreateMsg = CreateMsg(
    randomNumberHash: Bytes,
    timestamp: Int64,
    heightSpan: Uint64,
    sender: Address,
    recipient: Address,
    senderOtherChain: Bytes,
    recipientOtherChain: Bytes,
    amount: seq<Coin>)

  predicate ValidateBasic(env: Env, m: CreateMsg) {
    && m.sender != [] && m.recipient != []
    && !env.blank(m.recipientOtherChain)
    && |m.recipientOtherChain| <= MAX_OTHER_CHAIN_ADDR_LENGTH
    && |m.senderOtherChain| <= MAX_OTHER_CHAIN_ADDR_LENGTH
    && |m.randomNumberHash| == RANDOM_NUMBER_HASH_LENGTH
    && m.timestamp > 0
    && m.amount != [] && ValidCoins(m.amount)
    && m.heightSpan > 0
  }
}

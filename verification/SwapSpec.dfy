/** The atomic-swap state machine of x/bep3 on values: one function per keeper operation, and runs of
    messages, blocks and parameter changes. A swap's place in the two height indexes follows from its
    status, so the indexes appear only in the keeper that implements this machine. */
module SwapSpec {
  import opened Basics
  import opened SwapTypes
  import opened Bank

  type Height = x: int | 0 <= x < TWO_63
  type Supplies = map<Denom, AssetSupply>
  type Swaps = map<SwapID, AtomicSwap>

  /** Times are Unix times in nanoseconds. */
  datatype State = State(
    env: Env,
    params: seq<AssetParam>,
    swaps: Swaps,
    supplies: Supplies,
    previousBlockTime: Option<int>,
    bank: BankState,
    accounts: set<Address>,
    height: Height,
    time: int)

  const NANOS_PER_SECOND := 1_000_000_000

  function Unix(time: int): int {
    time / NANOS_PER_SECOND
  }

  // ---- Asset supplies -------------------------------------------------------------------------

  function FindSupply(supplies: Supplies, denom: Denom): Result<AssetSupply, Error> {
    if denom in supplies then Ok(supplies[denom]) else Err(ErrAssetNotSupported)
  }

  function IncrementCurrent(params: seq<AssetParam>, supplies: Supplies, c: Coin): Result<Supplies, Error> {
    var a :- FindSupply(supplies, c.denom);
    var asset :- GetAsset(params, c.denom);
    var limit := asset.supplyLimit;
    if limit.limit < a.current + c.amount then Err(ErrExceedsSupplyLimit)
    else if limit.timeLimited && limit.timeBasedLimit < a.timeLimitedCurrent + c.amount then
      Err(ErrExceedsTimeBasedSupplyLimit)
    else
      var window := if limit.timeLimited then a.timeLimitedCurrent + c.amount else a.timeLimitedCurrent;
      Ok(supplies[c.denom := a.(current := a.current + c.amount, timeLimitedCurrent := window)])
  }

  function DecrementCurrent(supplies: Supplies, c: Coin): Result<Supplies, Error> {
    var a :- FindSupply(supplies, c.denom);
    if a.current - c.amount < 0 then Err(ErrInvalidCurrentSupply)
    else Ok(supplies[c.denom := a.(current := a.current - c.amount)])
  }

  function IncrementIncoming(params: seq<AssetParam>, supplies: Supplies, c: Coin): Result<Supplies, Error> {
    var a :- FindSupply(supplies, c.denom);
    var asset :- GetAsset(params, c.denom);
    var limit := asset.supplyLimit;
    if limit.limit < a.current + a.incoming + c.amount then Err(ErrExceedsSupplyLimit)
    else if limit.timeLimited && limit.timeBasedLimit < a.timeLimitedCurrent + a.incoming + c.amount then
      Err(ErrExceedsTimeBasedSupplyLimit)
    else Ok(supplies[c.denom := a.(incoming := a.incoming + c.amount)])
  }

  function DecrementIncoming(supplies: Supplies, c: Coin): Result<Supplies, Error> {
    var a :- FindSupply(supplies, c.denom);
    if a.incoming - c.amount < 0 then Err(ErrInvalidIncomingSupply)
    else Ok(supplies[c.denom := a.(incoming := a.incoming - c.amount)])
  }

  function IncrementOutgoing(supplies: Supplies, c: Coin): Result<Supplies, Error> {
    var a :- FindSupply(supplies, c.denom);
    if a.current < a.outgoing + c.amount then Err(ErrExceedsAvailableSupply)
    else Ok(supplies[c.denom := a.(outgoing := a.outgoing + c.amount)])
  }

  function DecrementOutgoing(supplies: Supplies, c: Coin): Result<Supplies, Error> {
    var a :- FindSupply(supplies, c.denom);
    if a.outgoing - c.amount < 0 then Err(ErrInvalidOutgoingSupply)
    else Ok(supplies[c.denom := a.(outgoing := a.outgoing - c.amount)])
  }

  // ---- Messages -------------------------------------------------------------------------------

  /** The swap a create message asks for. The expiry height is a 64-bit sum and may wrap around. */
  function NewSwap(s: State, m: CreateMsg, direction: Int32): AtomicSwap {
    AtomicSwap(m.amount, m.randomNumberHash, ToUint64(s.height + m.heightSpan), m.timestamp, m.sender, m.recipient,
               m.senderOtherChain, m.recipientOtherChain, 0, SWAP_STATUS_OPEN, true, direction)
  }

  function MsgSwapID(env: Env, m: CreateMsg): SwapID {
    CalculateSwapID(env, m.randomNumberHash, m.sender, m.senderOtherChain)
  }

  /** The checks made before a create message writes anything, and the direction they settle. */
  function CheckCreate(s: State, m: CreateMsg): (r: Result<AssetParam, Error>)
    ensures r.Ok? ==>
              && MsgSwapID(s.env, m) !in s.swaps
              && m.recipient !in s.env.moduleAccounts
              && |m.amount| == 1
              && GetAsset(s.params, m.amount[0].denom) == Ok(r.value)
              && r.value.active
              && r.value.minSwapAmount <= m.amount[0].amount <= r.value.maxSwapAmount
              && Unix(s.time - 15 * 60 * NANOS_PER_SECOND) <= m.timestamp < Unix(s.time + 30 * 60 * NANOS_PER_SECOND)
              && (m.sender == r.value.deputyAddress <==> m.recipient != r.value.deputyAddress)
  {
    if MsgSwapID(s.env, m) in s.swaps then Err(ErrAtomicSwapAlreadyExists)
    else if m.recipient in s.env.moduleAccounts then Err(ErrUnauthorized)
    else if |m.amount| != 1 then Err(ErrNotOneCoin)
    else
      var asset :- GetAsset(s.params, m.amount[0].denom);
      if !asset.active then Err(ErrAssetNotActive)
      else if m.amount[0].amount < asset.minSwapAmount || m.amount[0].amount > asset.maxSwapAmount then
        Err(ErrInvalidAmount)
      else if m.timestamp < Unix(s.time - 15 * 60 * NANOS_PER_SECOND)
           || m.timestamp >= Unix(s.time + 30 * 60 * NANOS_PER_SECOND) then Err(ErrInvalidTimestamp)
      else if (m.sender == asset.deputyAddress) == (m.recipient == asset.deputyAddress) then Err(ErrInvalidSwapAccount)
      else Ok(asset)
  }

  function Create(s: State, m: CreateMsg): Result<State, Error> {
    var asset :- CheckCreate(s, m);
    var coin := m.amount[0];
    var id := MsgSwapID(s.env, m);
    if m.sender == asset.deputyAddress then
      var supplies :- IncrementIncoming(s.params, s.supplies, coin);
      Ok(s.(supplies := supplies, accounts := s.accounts + {m.recipient},
            swaps := s.swaps[id := NewSwap(s, m, SWAP_DIRECTION_INCOMING)]))
    else if m.heightSpan < asset.minBlockLock || m.heightSpan > asset.maxBlockLock then Err(ErrInvalidHeightSpan)
    else if coin.amount <= asset.fixedFee + asset.minSwapAmount then Err(ErrInsufficientAmount)
    else
      var supplies :- IncrementOutgoing(s.supplies, coin);
      var bank :- SendFromAccountToModule(s.env, s.bank, m.sender, coin);
      Ok(s.(supplies := supplies, bank := bank,
            swaps := s.swaps[id := NewSwap(s, m, SWAP_DIRECTION_OUTGOING)]))
  }

  /** Every stored swap holds exactly one coin. */
  predicate SingleCoins(swaps: Swaps) {
    forall id | id in swaps :: |swaps[id].amount| == 1
  }

  predicate SecretMatches(env: Env, sw: AtomicSwap, randomNumber: Bytes) {
    CalculateSwapID(env, CalculateRandomHash(env, randomNumber, sw.timestamp), sw.sender, sw.senderOtherChain)
    == GetSwapID(env, sw)
  }

  function CloseSwap(s: State, sw: AtomicSwap): AtomicSwap {
    sw.(status := SWAP_STATUS_COMPLETED, closedBlock := s.height)
  }

  function ClaimIncoming(s: State, sw: AtomicSwap): Result<State, Error>
    requires |sw.amount| == 1
  {
    var supplies0 :- DecrementIncoming(s.supplies, sw.amount[0]);
    var supplies1 :- IncrementCurrent(s.params, supplies0, sw.amount[0]);
    var bank :- SendFromModuleToAccount(s.env, Mint(s.env, s.bank, sw.amount[0]), sw.recipient, sw.amount[0]);
    Ok(s.(supplies := supplies1, bank := bank))
  }

  function ClaimOutgoing(s: State, sw: AtomicSwap): Result<State, Error>
    requires |sw.amount| == 1
  {
    var supplies0 :- DecrementOutgoing(s.supplies, sw.amount[0]);
    var supplies1 :- DecrementCurrent(supplies0, sw.amount[0]);
    var bank :- Burn(s.env, s.bank, sw.amount[0]);
    Ok(s.(supplies := supplies1, bank := bank))
  }

  function Claim(s: State, id: SwapID, randomNumber: Bytes): Result<State, Error>
    requires SingleCoins(s.swaps)
  {
    if id !in s.swaps then Err(ErrAtomicSwapNotFound)
    else if s.swaps[id].status != SWAP_STATUS_OPEN then Err(ErrSwapNotClaimable)
    else if !SecretMatches(s.env, s.swaps[id], randomNumber) then Err(ErrInvalidClaimSecret)
    else
      var sw := s.swaps[id];
      var paid :- if sw.direction == SWAP_DIRECTION_INCOMING then ClaimIncoming(s, sw)
                  else if sw.direction == SWAP_DIRECTION_OUTGOING then ClaimOutgoing(s, sw)
                  else Err(ErrInvalidDirection);
      Ok(paid.(swaps := s.swaps[id := CloseSwap(s, sw)]))
  }

  function RefundIncoming(s: State, sw: AtomicSwap): Result<State, Error>
    requires |sw.amount| == 1
  {
    var supplies :- DecrementIncoming(s.supplies, sw.amount[0]);
    Ok(s.(supplies := supplies))
  }

  function RefundOutgoing(s: State, sw: AtomicSwap): Result<State, Error>
    requires |sw.amount| == 1
  {
    var supplies :- DecrementOutgoing(s.supplies, sw.amount[0]);
    var bank :- SendFromModuleToAccount(s.env, s.bank, sw.sender, sw.amount[0]);
    Ok(s.(supplies := supplies, bank := bank))
  }

  function Refund(s: State, id: SwapID): Result<State, Error>
    requires SingleCoins(s.swaps)
  {
    if id !in s.swaps then Err(ErrAtomicSwapNotFound)
    else if s.swaps[id].status != SWAP_STATUS_EXPIRED then Err(ErrSwapNotRefundable)
    else
      var sw := s.swaps[id];
      var paid :- if sw.direction == SWAP_DIRECTION_INCOMING then RefundIncoming(s, sw)
                  else if sw.direction == SWAP_DIRECTION_OUTGOING then RefundOutgoing(s, sw)
                  else Err(ErrInvalidDirection);
      Ok(paid.(swaps := s.swaps[id := CloseSwap(s, sw)]))
  }

  // ---- Begin block ----------------------------------------------------------------------------

  function NewSupply(d: Denom): AssetSupply {
    AssetSupply(d, 0, 0, 0, 0, 0)
  }

  function Denoms(params: seq<AssetParam>): set<Denom> {
    set a | a in params :: a.denom
  }

  /** One asset's window moves on, or starts afresh once its period has elapsed. */
  function Tick(limit: SupplyLimit, a: AssetSupply, elapsed: int): AssetSupply {
    if limit.timeLimited && a.timeElapsed + elapsed < limit.timePeriod then a.(timeElapsed := a.timeElapsed + elapsed)
    else a.(timeElapsed := 0, timeLimitedCurrent := 0)
  }

  function SupplyOrNew(supplies: Supplies, d: Denom): AssetSupply {
    if d in supplies then supplies[d] else NewSupply(d)
  }

  /** The supplies after every asset has ticked; an asset met for the first time gets an empty supply. */
  function TickAll(params: seq<AssetParam>, supplies: Supplies, elapsed: int): Supplies {
    map d | d in supplies.Keys + Denoms(params) :: TickOne(params, supplies, elapsed, d)
  }

  function TickOne(params: seq<AssetParam>, supplies: Supplies, elapsed: int, d: Denom): AssetSupply {
    match GetAsset(params, d)
    case Ok(asset) => Tick(asset.supplyLimit, SupplyOrNew(supplies, d), elapsed)
    case Err(_) => SupplyOrNew(supplies, d)
  }

  function UpdateTimeBasedSupplyLimits(s: State): State {
    if s.params == [] then s
    else
      var previous := if s.previousBlockTime.Some? then s.previousBlockTime.value else s.time;
      s.(supplies := TickAll(s.params, s.supplies, s.time - previous), previousBlockTime := Some(s.time))
  }

  predicate Due(sw: AtomicSwap, height: Height) {
    sw.status == SWAP_STATUS_OPEN && sw.expireHeight <= height
  }

  function ExpireSwap(sw: AtomicSwap, height: Height): AtomicSwap {
    if Due(sw, height) then sw.(status := SWAP_STATUS_EXPIRED) else sw
  }

  function UpdateExpiredAtomicSwaps(s: State): State {
    s.(swaps := map id | id in s.swaps :: ExpireSwap(s.swaps[id], s.height))
  }

  function DeletionHeight(sw: AtomicSwap): Uint64 {
    ToUint64(ToUint64(sw.closedBlock) + LONGTERM_STORAGE_DURATION)
  }

  predicate Stale(sw: AtomicSwap, height: Height) {
    sw.status == SWAP_STATUS_COMPLETED && DeletionHeight(sw) <= height
  }

  function DeleteClosedAtomicSwaps(s: State): State {
    s.(swaps := map id | id in s.swaps && !Stale(s.swaps[id], s.height) :: s.swaps[id])
  }

  function BeginBlocker(s: State): State {
    DeleteClosedAtomicSwaps(UpdateExpiredAtomicSwaps(UpdateTimeBasedSupplyLimits(s)))
  }

  // ---- Runs -----------------------------------------------------------------------------------

  /** What can happen to the module: its messages, the next block, a parameter change, and
      transfers between ordinary accounts. */
  datatype Event =
    | CreateEvent(msg: CreateMsg)
    | ClaimEvent(id: SwapID, randomNumber: Bytes)
    | RefundEvent(id: SwapID)
    | BlockEvent(time: int)
    | ParamsEvent(params: seq<AssetParam>)
    | TransferEvent(from: Address, to: Address, coin: Coin)

  predicate CanStartBlock(s: State, t: int) {
    s.height + 1 < TWO_63 && s.time <= t
  }

  function StartBlock(s: State, t: int): State
    requires CanStartBlock(s, t)
  {
    s.(height := s.height + 1, time := t)
  }

  function OrElse(r: Result<State, Error>, s: State): State {
    if r.Ok? then r.value else s
  }

  /** One event. A message that fails is rolled back, heights end at the largest 64-bit block height,
      block times do not go back, and module accounts sign nothing. */
  function Next(s: State, e: Event): State
    requires SingleCoins(s.swaps)
  {
    match e
    case CreateEvent(m) =>
      if ValidateBasic(s.env, m) && m.sender !in s.env.moduleAccounts then OrElse(Create(s, m), s) else s
    case ClaimEvent(id, r) => OrElse(Claim(s, id, r), s)
    case RefundEvent(id) => OrElse(Refund(s, id), s)
    case BlockEvent(t) =>
      if CanStartBlock(s, t) then BeginBlocker(StartBlock(s, t)) else s
    case ParamsEvent(p) => if ValidParams(p) then s.(params := p) else s
    case TransferEvent(from, to, c) =>
      if c.amount > 0 && from !in s.env.moduleAccounts && to !in s.env.moduleAccounts && Move(s.bank, from, to, c).Ok?
      then s.(bank := Move(s.bank, from, to, c).value) else s
  }

  lemma NextSingleCoins(s: State, e: Event)
    requires SingleCoins(s.swaps)
    ensures SingleCoins(Next(s, e).swaps)
  {
  }

  /** The state after a list of events. */
  function Run(s: State, es: seq<Event>): State
    requires SingleCoins(s.swaps)
    decreases |es|
  {
    if es == [] then s
    else
      NextSingleCoins(s, es[0]);
      Run(Next(s, es[0]), es[1..])
  }
}

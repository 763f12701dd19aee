/** The keeper of x/bep3: the module's store, updated in place, refining the state machine of SwapSpec. */
module Keeper {
  import opened Basics
  import opened SwapTypes
  import opened Bank
  import opened MapSums
  import opened SwapSpec
  import opened SwapInvariant
  import opened SwapRuns
  import opened SwapClaims
  import opened ByteKeys
  import opened SwapIndex

  class Keeper {
    const env: Env
    var params: seq<AssetParam>
    var swaps: Swaps
    var byBlock: Store
    var longterm: Store
    var supplies: Supplies
    var previousBlockTime: Option<int>
    var bank: BankState
    var accounts: set<Address>
    var height: Height
    var time: int

    /** The state the machine sees. */
    ghost function Abs(): State
      reads this
    {
      State(env, params, swaps, supplies, previousBlockTime, bank, accounts, height, time)
    }

    /** The by-block index lists exactly the open swaps by expiry height, and the longterm index exactly
        the completed swaps by deletion height; expired swaps are in neither. */
    ghost predicate IndexesAgree()
      reads this`swaps, this`byBlock, this`longterm
    {
      Indexes(byBlock, OpenHeights(swaps)) && Indexes(longterm, ClosedHeights(swaps))
    }

    ghost predicate Valid()
      reads this
    {
      Inv(Abs()) && IndexesAgree()
    }

    /** A store with no swaps, in the block the parameters and bank belong to. */
    constructor (env: Env, params: seq<AssetParam>, bank: BankState, height: Height, time: int)
      requires env.moduleAddress in env.moduleAccounts && height > 0 && ValidParams(params) && Solvent(bank)
      ensures Valid() && Abs() == State(env, params, map[], map[], None, bank, {}, height, time)
      ensures byBlock == map[] && longterm == map[]
    {
      this.env, this.params, this.bank, this.height, this.time := env, params, bank, height, time;
      swaps, byBlock, longterm, supplies, previousBlockTime, accounts := map[], map[], map[], map[], None, {};
    }

    // ---- Parameters ---------------------------------------------------------------------------

    method FindAsset(denom: Denom) returns (r: Result<AssetParam, Error>)
      ensures r == GetAsset(params, denom)
    {
      for i := 0 to |params|
        invariant GetAsset(params, denom) == GetAsset(params[i..], denom)
      {
        assert params[i..][1..] == params[i + 1..];
        if params[i].denom == denom {
          return Ok(params[i]);
        }
      }
      return Err(ErrAssetNotSupported);
    }

    // ---- Asset supplies -----------------------------------------------------------------------

    method IncrementCurrentAssetSupply(coin: Coin) returns (err: Option<Error>)
      modifies this`supplies
      ensures match IncrementCurrent(params, old(supplies), coin)
              case Ok(m) => err == None && supplies == m
              case Err(e) => err == Some(e) && supplies == old(supplies)
    {
      if coin.denom !in supplies { return Some(ErrAssetNotSupported); }
      var supply := supplies[coin.denom];
      var asset := FindAsset(coin.denom);
      if asset.Err? { return Some(asset.error); }
      var limit := asset.value.supplyLimit;
      if limit.limit < supply.current + coin.amount { return Some(ErrExceedsSupplyLimit); }
      if limit.timeLimited {
        if limit.timeBasedLimit < supply.timeLimitedCurrent + coin.amount { return Some(ErrExceedsTimeBasedSupplyLimit); }
        supply := supply.(timeLimitedCurrent := supply.timeLimitedCurrent + coin.amount);
      }
      supply := supply.(current := supply.current + coin.amount);
      supplies := supplies[coin.denom := supply];
      return None;
    }

    method DecrementCurrentAssetSupply(coin: Coin) returns (err: Option<Error>)
      modifies this`supplies
      ensures match DecrementCurrent(old(supplies), coin)
              case Ok(m) => err == None && supplies == m
              case Err(e) => err == Some(e) && supplies == old(supplies)
    {
      if coin.denom !in supplies { return Some(ErrAssetNotSupported); }
      var supply := supplies[coin.denom];
      if supply.current - coin.amount < 0 { return Some(ErrInvalidCurrentSupply); }
      supplies := supplies[coin.denom := supply.(current := supply.current - coin.amount)];
      return None;
    }

    method IncrementIncomingAssetSupply(coin: Coin) returns (err: Option<Error>)
      modifies this`supplies
      ensures match IncrementIncoming(params, old(supplies), coin)
              case Ok(m) => err == None && supplies == m
              case Err(e) => err == Some(e) && supplies == old(supplies)
    {
      if coin.denom !in supplies { return Some(ErrAssetNotSupported); }
      var supply := supplies[coin.denom];
      var totalSupply := supply.current + supply.incoming;
      var asset := FindAsset(coin.denom);
      if asset.Err? { return Some(asset.error); }
      var limit := asset.value.supplyLimit;
      if limit.limit < totalSupply + coin.amount { return Some(ErrExceedsSupplyLimit); }
      if limit.timeLimited {
        var timeLimitedTotalSupply := supply.timeLimitedCurrent + supply.incoming;
        if limit.timeBasedLimit < timeLimitedTotalSupply + coin.amount { return Some(ErrExceedsTimeBasedSupplyLimit); }
      }
      supplies := supplies[coin.denom := supply.(incoming := supply.incoming + coin.amount)];
      return None;
    }

    method DecrementIncomingAssetSupply(coin: Coin) returns (err: Option<Error>)
      modifies this`supplies
      ensures match DecrementIncoming(old(supplies), coin)
              case Ok(m) => err == None && supplies == m
              case Err(e) => err == Some(e) && supplies == old(supplies)
    {
      if coin.denom !in supplies { return Some(ErrAssetNotSupported); }
      var supply := supplies[coin.denom];
      if supply.incoming - coin.amount < 0 { return Some(ErrInvalidIncomingSupply); }
      supplies := supplies[coin.denom := supply.(incoming := supply.incoming - coin.amount)];
      return None;
    }

    method IncrementOutgoingAssetSupply(coin: Coin) returns (err: Option<Error>)
      modifies this`supplies
      ensures match IncrementOutgoing(old(supplies), coin)
              case Ok(m) => err == None && supplies == m
              case Err(e) => err == Some(e) && supplies == old(supplies)
    {
      if coin.denom !in supplies { return Some(ErrAssetNotSupported); }
      var supply := supplies[coin.denom];
      if supply.current < supply.outgoing + coin.amount { return Some(ErrExceedsAvailableSupply); }
      supplies := supplies[coin.denom := supply.(outgoing := supply.outgoing + coin.amount)];
      return None;
    }

    method DecrementOutgoingAssetSupply(coin: Coin) returns (err: Option<Error>)
      modifies this`supplies
      ensures match DecrementOutgoing(old(supplies), coin)
              case Ok(m) => err == None && supplies == m
              case Err(e) => err == Some(e) && supplies == old(supplies)
    {
      if coin.denom !in supplies { return Some(ErrAssetNotSupported); }
      var supply := supplies[coin.denom];
      if supply.outgoing - coin.amount < 0 { return Some(ErrInvalidOutgoingSupply); }
      supplies := supplies[coin.denom := supply.(outgoing := supply.outgoing - coin.amount)];
      return None;
    }

    // ---- Swaps and their indexes --------------------------------------------------------------

    method SetAtomicSwap(sw: AtomicSwap)
      modifies this`swaps
      ensures swaps == old(swaps)[GetSwapID(env, sw) := sw]
    {
      swaps := swaps[GetSwapID(env, sw) := sw];
    }

    method RemoveAtomicSwap(id: SwapID)
      modifies this`swaps
      ensures swaps == old(swaps) - {id}
    {
      swaps := swaps - {id};
    }

    method InsertIntoByBlockIndex(sw: AtomicSwap)
      modifies this`byBlock
      ensures byBlock == old(byBlock)[HeightKey(sw.expireHeight, GetSwapID(env, sw)) := GetSwapID(env, sw)]
    {
      byBlock := byBlock[HeightKey(sw.expireHeight, GetSwapID(env, sw)) := GetSwapID(env, sw)];
    }

    method RemoveFromByBlockIndex(sw: AtomicSwap)
      modifies this`byBlock
      ensures byBlock == old(byBlock) - {HeightKey(sw.expireHeight, GetSwapID(env, sw))}
    {
      byBlock := byBlock - {HeightKey(sw.expireHeight, GetSwapID(env, sw))};
    }

    method InsertIntoLongtermStorage(sw: AtomicSwap)
      modifies this`longterm
      ensures longterm == old(longterm)[HeightKey(DeletionHeight(sw), GetSwapID(env, sw)) := GetSwapID(env, sw)]
    {
      longterm := longterm[HeightKey(DeletionHeight(sw), GetSwapID(env, sw)) := GetSwapID(env, sw)];
    }

    method RemoveFromLongtermStorage(sw: AtomicSwap)
      modifies this`longterm
      ensures longterm == old(longterm) - {HeightKey(DeletionHeight(sw), GetSwapID(env, sw))}
    {
      longterm := longterm - {HeightKey(DeletionHeight(sw), GetSwapID(env, sw))};
    }

    // ---- Messages -----------------------------------------------------------------------------

    /** The checks of a creation, up to and including who may send to whom. */
    method ValidateCreate(m: CreateMsg) returns (r: Result<AssetParam, Error>)
      ensures r == CheckCreate(Abs(), m)
    {
      if CalculateSwapID(env, m.randomNumberHash, m.sender, m.senderOtherChain) in swaps {
        return Err(ErrAtomicSwapAlreadyExists);
      }
      if m.recipient in env.moduleAccounts { return Err(ErrUnauthorized); }
      if |m.amount| != 1 { return Err(ErrNotOneCoin); }
      var coin := m.amount[0];
      r := FindAsset(coin.denom);
      if r.Err? { return; }
      var asset := r.value;
      if !asset.active { return Err(ErrAssetNotActive); }
      if coin.amount < asset.minSwapAmount || coin.amount > asset.maxSwapAmount { return Err(ErrInvalidAmount); }
      var pastTimestampLimit := Unix(time - 15 * 60 * NANOS_PER_SECOND);
      var futureTimestampLimit := Unix(time + 30 * 60 * NANOS_PER_SECOND);
      if m.timestamp < pastTimestampLimit || m.timestamp >= futureTimestampLimit { return Err(ErrInvalidTimestamp); }
      if m.sender == asset.deputyAddress {
        if m.recipient == asset.deputyAddress { return Err(ErrInvalidSwapAccount); }
      } else {
        if m.recipient != asset.deputyAddress { return Err(ErrInvalidSwapAccount); }
      }
    }

    method StoreOpenSwap(sw: AtomicSwap)
      requires IndexesAgree() && GetSwapID(env, sw) !in swaps && sw.status == SWAP_STATUS_OPEN
      modifies this`swaps, this`byBlock
      ensures IndexesAgree() && swaps == old(swaps)[GetSwapID(env, sw) := sw]
    {
      hide Indexes, OpenHeights, ClosedHeights, CalculateSwapID;
      OpeningLists(swaps, GetSwapID(env, sw), sw);
      IndexInsert(byBlock, OpenHeights(swaps), sw.expireHeight, GetSwapID(env, sw));
      SetAtomicSwap(sw);
      InsertIntoByBlockIndex(sw);
    }

    /** A failed creation may leave a raised supply or a new account behind, never a swap or an index entry. */
    method CreateAtomicSwap(m: CreateMsg) returns (err: Option<Error>)
      requires IndexesAgree()
      modifies this
      ensures IndexesAgree()
      ensures match Create(old(Abs()), m)
              case Ok(s) => err == None && Abs() == s
              case Err(e) => err == Some(e) && Abs() == old(Abs()).(supplies := supplies, accounts := accounts)
    {
      hide IndexesAgree, IncrementIncoming, IncrementOutgoing, SendFromAccountToModule, CheckCreate, CalculateSwapID;
      var checked := ValidateCreate(m);
      if checked.Err? { return Some(checked.error); }
      var asset, coin := checked.value, m.amount[0];
      var direction;
      if m.sender == asset.deputyAddress {
        direction := SWAP_DIRECTION_INCOMING;
        accounts := accounts + {m.recipient};
        err := IncrementIncomingAssetSupply(coin);
        if err.Some? { return; }
      } else {
        direction := SWAP_DIRECTION_OUTGOING;
        if m.heightSpan < asset.minBlockLock || m.heightSpan > asset.maxBlockLock { return Some(ErrInvalidHeightSpan); }
        if coin.amount <= asset.fixedFee + asset.minSwapAmount { return Some(ErrInsufficientAmount); }
        err := IncrementOutgoingAssetSupply(coin);
        if err.Some? { return; }
        var sent := SendFromAccountToModule(env, bank, m.sender, coin);
        if sent.Err? { return Some(sent.error); }
        bank := sent.value;
      }
      var expireHeight := ToUint64(height + m.heightSpan);
      StoreOpenSwap(AtomicSwap(m.amount, m.randomNumberHash, expireHeight, m.timestamp, m.sender, m.recipient,
                               m.senderOtherChain, m.recipientOtherChain, 0, SWAP_STATUS_OPEN, true, direction));
      err := None;
    }

    method StoreClosedSwap(sw: AtomicSwap)
      requires IndexesAgree()
      requires var id := GetSwapID(env, sw);
               id in swaps && Live(swaps[id]) && sw.expireHeight == swaps[id].expireHeight
      requires sw.status == SWAP_STATUS_COMPLETED
      modifies this`swaps, this`byBlock, this`longterm
      ensures IndexesAgree() && swaps == old(swaps)[GetSwapID(env, sw) := sw]
    {
      hide Indexes, OpenHeights, ClosedHeights, CalculateSwapID, DeletionHeight, HeightKey;
      var id := GetSwapID(env, sw);
      var wasOpen := swaps[id].status == SWAP_STATUS_OPEN;
      ClosingLists(swaps, id, sw);
      IndexInsert(longterm, ClosedHeights(swaps), DeletionHeight(sw), id);
      if wasOpen {
        IndexRemove(byBlock, OpenHeights(swaps), id);
      } else {
        NotListed(OpenHeights(swaps), id);
      }
      SetAtomicSwap(sw);
      if wasOpen {
        RemoveFromByBlockIndex(sw);
      }
      InsertIntoLongtermStorage(sw);
    }

    /** The claim's effect on supplies and bank. Only the incoming case can fail, and only against the parameters. */
    method PayClaim(sw: AtomicSwap) returns (err: Option<Error>)
      requires |sw.amount| == 1
      modifies this`supplies, this`bank
      ensures match (if sw.direction == SWAP_DIRECTION_INCOMING then ClaimIncoming(old(Abs()), sw)
                     else if sw.direction == SWAP_DIRECTION_OUTGOING then ClaimOutgoing(old(Abs()), sw)
                     else Err(ErrInvalidDirection))
              case Ok(s) => err == None && Abs() == s
              case Err(e) => err == Some(e)
    {
      if sw.direction == SWAP_DIRECTION_INCOMING {
        err := DecrementIncomingAssetSupply(sw.amount[0]);
        if err.Some? { return; }
        err := IncrementCurrentAssetSupply(sw.amount[0]);
        if err.Some? { return; }
        bank := Mint(env, bank, sw.amount[0]);
        var sent := SendFromModuleToAccount(env, bank, sw.recipient, sw.amount[0]);
        if sent.Err? { return Some(sent.error); }
        bank := sent.value;
      } else if sw.direction == SWAP_DIRECTION_OUTGOING {
        err := DecrementOutgoingAssetSupply(sw.amount[0]);
        if err.Some? { return; }
        err := DecrementCurrentAssetSupply(sw.amount[0]);
        if err.Some? { return; }
        var burned := Burn(env, bank, sw.amount[0]);
        if burned.Err? { return Some(burned.error); }
        bank := burned.value;
      } else {
        return Some(ErrInvalidDirection);
      }
    }

    /** A claim completes the swap and moves it to the longterm index. While the supply caps hold, a claim that
        fails has written nothing, so it needs no rollback. */
    method ClaimAtomicSwap(swapID: SwapID, randomNumber: Bytes) returns (err: Option<Error>)
      requires Valid()
      modifies this
      ensures IndexesAgree()
      ensures match Claim(old(Abs()), swapID, randomNumber)
              case Ok(s) => err == None && Abs() == s
              case Err(e) => err == Some(e) && Abs() == old(Abs()).(supplies := supplies, bank := bank)
      ensures err.Some? && (swapID in old(swaps) ==> CoinsCapped(params, old(supplies), old(swaps)[swapID]))
              ==> Abs() == old(Abs())
    {
      hide Inv, IndexesAgree, GetSwapID, SecretMatches, ClaimIncoming, ClaimOutgoing, Capped;
      InvSingleCoins(Abs());
      if swapID !in swaps { return Some(ErrAtomicSwapNotFound); }
      var swap := swaps[swapID];
      if swap.status != SWAP_STATUS_OPEN { return Some(ErrSwapNotClaimable); }
      if !SecretMatches(env, swap, randomNumber) { return Some(ErrInvalidClaimSecret); }
      StoredUnderID(Abs(), swapID);
      if CoinsCapped(params, supplies, swap) {
        assert swap.amount[0] in swap.amount;
        ClaimNeverFails(Abs(), swapID, randomNumber);
      }
      err := PayClaim(swap);
      if err.None? {
        StoreClosedSwap(swap.(status := SWAP_STATUS_COMPLETED, closedBlock := height));
      }
    }

    method PayRefund(sw: AtomicSwap) returns (err: Option<Error>)
      requires |sw.amount| == 1
      modifies this`supplies, this`bank
      ensures match (if sw.direction == SWAP_DIRECTION_INCOMING then RefundIncoming(old(Abs()), sw)
                     else if sw.direction == SWAP_DIRECTION_OUTGOING then RefundOutgoing(old(Abs()), sw)
                     else Err(ErrInvalidDirection))
              case Ok(s) => err == None && Abs() == s
              case Err(e) => err == Some(e)
    {
      if sw.direction == SWAP_DIRECTION_INCOMING {
        err := DecrementIncomingAssetSupply(sw.amount[0]);
      } else if sw.direction == SWAP_DIRECTION_OUTGOING {
        err := DecrementOutgoingAssetSupply(sw.amount[0]);
        if err.Some? { return; }
        var sent := SendFromModuleToAccount(env, bank, sw.sender, sw.amount[0]);
        if sent.Err? { return Some(sent.error); }
        bank := sent.value;
      } else {
        return Some(ErrInvalidDirection);
      }
    }

    /** A refund of an expired swap cannot fail, so a refund that fails has written nothing. */
    method RefundAtomicSwap(swapID: SwapID) returns (err: Option<Error>)
      requires Valid()
      modifies this
      ensures IndexesAgree()
      ensures match Refund(old(Abs()), swapID)
              case Ok(s) => err == None && Abs() == s
              case Err(e) => err == Some(e) && Abs() == old(Abs())
    {
      hide Inv, IndexesAgree, GetSwapID, RefundIncoming, RefundOutgoing;
      InvSingleCoins(Abs());
      if swapID !in swaps { return Some(ErrAtomicSwapNotFound); }
      var swap := swaps[swapID];
      if swap.status != SWAP_STATUS_EXPIRED { return Some(ErrSwapNotRefundable); }
      StoredUnderID(Abs(), swapID);
      err := PayRefund(swap);
      if err.None? {
        StoreClosedSwap(swap.(status := SWAP_STATUS_COMPLETED, closedBlock := height));
      } else {
        RefundNeverFails(old(Abs()), swapID);
        assert false;
      }
    }

    // ---- Begin block --------------------------------------------------------------------------

    method CreateNewAssetSupply(denom: Denom) returns (supply: AssetSupply)
      modifies this`supplies
      ensures supply == NewSupply(denom) && supplies == old(supplies)[denom := supply]
    {
      supply := AssetSupply(denom, 0, 0, 0, 0, 0);
      supplies := supplies[denom := supply];
    }

    method UpdateTimeBasedSupplyLimits()
      requires ValidParams(params)
      modifies this`supplies, this`previousBlockTime
      ensures Abs() == SwapSpec.UpdateTimeBasedSupplyLimits(old(Abs()))
    {
      hide TickAll, ValidParams;
      if |params| == 0 { return; }
      if previousBlockTime.None? {
        previousBlockTime := Some(time);
      }
      var timeElapsed := time - previousBlockTime.value;
      TickNone(supplies, timeElapsed);
      assert params[..0] == [];
      for i := 0 to |params|
        invariant supplies == TickAll(params[..i], old(supplies), timeElapsed)
      {
        TickOneMore(params, i, old(supplies), timeElapsed);
        var asset := params[i];
        var supply;
        if asset.denom in supplies {
          supply := supplies[asset.denom];
        } else {
          supply := CreateNewAssetSupply(asset.denom);
        }
        var newTimeElapsed := supply.timeElapsed + timeElapsed;
        if asset.supplyLimit.timeLimited && newTimeElapsed < asset.supplyLimit.timePeriod {
          supply := supply.(timeElapsed := newTimeElapsed);
        } else {
          supply := supply.(timeElapsed := 0, timeLimitedCurrent := 0);
        }
        supplies := supplies[asset.denom := supply];
      }
      assert params[..|params|] == params;
      previousBlockTime := Some(time);
    }

    method ExpireAtomicSwap(id: SwapID)
      requires IndexesAgree() && id in swaps && swaps[id].status == SWAP_STATUS_OPEN && GetSwapID(env, swaps[id]) == id
      modifies this`swaps, this`byBlock
      ensures IndexesAgree() && swaps == old(swaps)[id := old(swaps)[id].(status := SWAP_STATUS_EXPIRED)]
    {
      hide Indexes, HeightKey, CalculateSwapID, OpenHeights, ClosedHeights;
      var swap := swaps[id].(status := SWAP_STATUS_EXPIRED);
      ExpiringLists(swaps, id, swap);
      IndexRemove(byBlock, OpenHeights(swaps), id);
      RemoveFromByBlockIndex(swap);
      SetAtomicSwap(swap);
    }

    method DeleteAtomicSwap(id: SwapID)
      requires IndexesAgree() && id in swaps && swaps[id].status == SWAP_STATUS_COMPLETED && GetSwapID(env, swaps[id]) == id
      modifies this`swaps, this`longterm
      ensures IndexesAgree() && swaps == old(swaps) - {id}
    {
      hide Indexes, HeightKey, CalculateSwapID, OpenHeights, ClosedHeights, DeletionHeight;
      var swap := swaps[id];
      DeletingLists(swaps, id);
      IndexRemove(longterm, ClosedHeights(swaps), id);
      RemoveAtomicSwap(GetSwapID(env, swap));
      RemoveFromLongtermStorage(swap);
    }

    /** What the scan of the by-block index collects. */
    method CollectDue() returns (ids: seq<SwapID>)
      requires IndexesAgree()
      ensures Distinct(ids) && forall id :: id in ids <==> id in swaps && Due(swaps[id], height)
    {
      hide Indexes, HeightKey;
      ids := ScanIndex(byBlock, height, OpenHeights(swaps));
    }

    /** What the scan of the longterm index collects. */
    method CollectStale() returns (ids: seq<SwapID>)
      requires IndexesAgree()
      ensures Distinct(ids) && forall id :: id in ids <==> id in swaps && Stale(swaps[id], height)
    {
      hide Indexes, HeightKey, DeletionHeight;
      ids := ScanIndex(longterm, height, ClosedHeights(swaps));
    }

    /** The scan of the by-block index expires exactly the open swaps at or past their expiry height,
        and never meets an ID that is not stored. */
    method UpdateExpiredAtomicSwaps()
      requires Valid()
      modifies this`swaps, this`byBlock
      ensures IndexesAgree() && Abs() == SwapSpec.UpdateExpiredAtomicSwaps(old(Abs()))
    {
      hide Inv, IndexesAgree, GetSwapID, ExpiredIn, Distinct, SwapSpec.UpdateExpiredAtomicSwaps;
      var ids := CollectDue();
      ExpiredNone(swaps);
      assert ids[..0] == [];
      for i := 0 to |ids|
        invariant swaps == ExpiredIn(old(swaps), ids[..i]) && IndexesAgree()
      {
        var id := ids[i];
        assert id in ids;
        ExpiredOneMore(old(swaps), ids, i);
        if id in swaps {
          StoredUnderID(old(Abs()), id);
          ExpireAtomicSwap(id);
        } else {
          assert false;
        }
      }
      assert ids[..|ids|] == ids;
      ExpiredDue(old(Abs()), ids);
    }

    /** The scan of the longterm index deletes exactly the completed swaps at or past their deletion height,
        and never meets an ID that is not stored. */
    method DeleteClosedAtomicSwapsFromLongtermStorage()
      requires Valid()
      modifies this`swaps, this`longterm
      ensures IndexesAgree() && Abs() == DeleteClosedAtomicSwaps(old(Abs()))
    {
      hide Inv, IndexesAgree, GetSwapID, DeletionHeight;
      var ids := CollectStale();
      for i := 0 to |ids|
        invariant forall id :: id in swaps <==> id in old(swaps) && id !in ids[..i]
        invariant forall id | id in swaps :: swaps[id] == old(swaps)[id]
        invariant IndexesAgree()
      {
        var id := ids[i];
        assert id in ids && id !in ids[..i];
        if id in swaps {
          StoredUnderID(old(Abs()), id);
          DeleteAtomicSwap(id);
        } else {
          assert false;
        }
      }
      assert ids[..|ids|] == ids;
    }

    /** The window update, then expiry, then deletion. */
    method BeginBlocker()
      requires Valid()
      modifies this
      ensures Valid() && Abs() == SwapSpec.BeginBlocker(old(Abs()))
    {
      hide Inv, IndexesAgree, SwapSpec.UpdateTimeBasedSupplyLimits, SwapSpec.UpdateExpiredAtomicSwaps, DeleteClosedAtomicSwaps;
      TickKeepsInv(Abs());
      InvParams(Abs());
      UpdateTimeBasedSupplyLimits();
      ExpiryKeepsInv(Abs());
      UpdateExpiredAtomicSwaps();
      DeletionKeepsInv(Abs());
      DeleteClosedAtomicSwapsFromLongtermStorage();
    }

    // ---- Delivery -----------------------------------------------------------------------------

    /** One event, with the rollback that follows a failed message. Whatever the event, the keeper ends in
        the state that the machine moves to, with both indexes in agreement. */
    method Deliver(e: Event)
      requires Valid()
      modifies this
      ensures Valid() && Abs() == Next(old(Abs()), e)
    {
      hide Inv, IndexesAgree, Create, Claim, Refund, SwapSpec.BeginBlocker, Move, ValidateBasic, ValidParams;
      InvSingleCoins(Abs());
      NextKeepsInv(Abs(), e);
      var supplies0, bank0, accounts0 := supplies, bank, accounts;
      var err := None;
      match e {
        case CreateEvent(m) =>
          if ValidateBasic(env, m) && m.sender !in env.moduleAccounts {
            err := CreateAtomicSwap(m);
          }
        case ClaimEvent(id, r) =>
          err := ClaimAtomicSwap(id, r);
        case RefundEvent(id) =>
          err := RefundAtomicSwap(id);
        case BlockEvent(t) =>
          if height + 1 < TWO_63 && time <= t {
            AdvanceKeepsInv(Abs(), t);
            height, time := height + 1, t;
            BeginBlocker();
          }
        case ParamsEvent(p) =>
          if ValidParams(p) {
            params := p;
          }
        case TransferEvent(from, to, c) =>
          if c.amount > 0 && from !in env.moduleAccounts && to !in env.moduleAccounts {
            var moved := Move(bank, from, to, c);
            if moved.Ok? {
              bank := moved.value;
            }
          }
      }
      if err.Some? {
        supplies, bank, accounts := supplies0, bank0, accounts0;
      }
    }
  }

  // ---- Window updates, one asset at a time ------------------------------------------------------

  lemma TickAllAt(params: seq<AssetParam>, supplies: Supplies, elapsed: int, d: Denom)
    ensures d in TickAll(params, supplies, elapsed) <==> d in supplies || GetAsset(params, d).Ok?
    ensures d in TickAll(params, supplies, elapsed) ==>
              TickAll(params, supplies, elapsed)[d] == TickOne(params, supplies, elapsed, d)
  {
  }

  lemma TickNone(supplies: Supplies, elapsed: int)
    ensures TickAll([], supplies, elapsed) == supplies
  {
  }

  lemma {:induction false} GetAssetAppend(params: seq<AssetParam>, asset: AssetParam, d: Denom)
    ensures GetAsset(params + [asset], d) ==
              if GetAsset(params, d).Err? && asset.denom == d then Ok(asset) else GetAsset(params, d)
  {
    if params != [] {
      assert (params + [asset])[1..] == params[1..] + [asset];
      GetAssetAppend(params[1..], asset, d);
    } else {
      assert (params + [asset])[1..] == [];
    }
  }

  /** The next asset finds its supply untouched by those before it, and ticks it. */
  lemma TickOneMore(params: seq<AssetParam>, i: nat, supplies: Supplies, elapsed: int)
    requires ValidParams(params) && i < |params|
    ensures var asset, m := params[i], TickAll(params[..i], supplies, elapsed);
            && (asset.denom in m <==> asset.denom in supplies)
            && SupplyOrNew(m, asset.denom) == SupplyOrNew(supplies, asset.denom)
            && TickAll(params[..i + 1], supplies, elapsed)
               == m[asset.denom := Tick(asset.supplyLimit, SupplyOrNew(supplies, asset.denom), elapsed)]
  {
    hide TickAll, GetAsset, Tick, ValidAsset;
    var asset := params[i];
    var m, m' := TickAll(params[..i], supplies, elapsed), TickAll(params[..i + 1], supplies, elapsed);
    assert params[..i + 1] == params[..i] + [asset];
    forall d
      ensures d in m' <==> d in m || d == asset.denom
      ensures d in m' && d != asset.denom ==> m'[d] == m[d]
    {
      GetAssetAppend(params[..i], asset, d);
      TickAllAt(params[..i], supplies, elapsed, d);
      TickAllAt(params[..i + 1], supplies, elapsed, d);
    }
    GetAssetAppend(params[..i], asset, asset.denom);
    TickAllAt(params[..i], supplies, elapsed, asset.denom);
    TickAllAt(params[..i + 1], supplies, elapsed, asset.denom);
  }

  // ---- Expiry, one swap at a time ---------------------------------------------------------------

  /** The swaps after those listed have expired. */
  function ExpiredIn(swaps: Swaps, ids: seq<SwapID>): Swaps {
    map id | id in swaps :: if id in ids then swaps[id].(status := SWAP_STATUS_EXPIRED) else swaps[id]
  }

  lemma ExpiredNone(swaps: Swaps)
    ensures ExpiredIn(swaps, []) == swaps
  {
  }

  lemma ExpiredOneMore(swaps: Swaps, ids: seq<SwapID>, i: nat)
    requires i < |ids| && Distinct(ids) && ids[i] in swaps
    ensures var id, now := ids[i], ExpiredIn(swaps, ids[..i]);
            && id in now && now[id] == swaps[id]
            && ExpiredIn(swaps, ids[..i + 1]) == now[id := swaps[id].(status := SWAP_STATUS_EXPIRED)]
  {
    assert ids[..i + 1] == ids[..i] + [ids[i]];
  }

  lemma ExpiredDue(s: State, ids: seq<SwapID>)
    requires forall id :: id in ids <==> id in s.swaps && Due(s.swaps[id], s.height)
    ensures s.(swaps := ExpiredIn(s.swaps, ids)) == SwapSpec.UpdateExpiredAtomicSwaps(s)
  {
  }

  lemma InvParams(s: State)
    requires Inv(s)
    ensures ValidParams(s.params)
  {
    hide Sum, Solvent, SuppliesMatch;
  }

  lemma NotListed(heights: Heights, id: SwapID)
    requires id !in heights
    ensures heights - {id} == heights
  {
  }

  /** A stored swap's ID is the key it is stored under, and closing it does not change that. */
  lemma StoredUnderID(s: State, id: SwapID)
    requires Inv(s) && id in s.swaps
    ensures |s.swaps[id].amount| == 1
    ensures GetSwapID(s.env, s.swaps[id]) == id && GetSwapID(s.env, CloseSwap(s, s.swaps[id])) == id
  {
    hide Sum, Solvent;
  }
}

/** Genesis of x/bep3: what a genesis state must satisfy, how the store is rebuilt from it, and when an
    exported state can be imported again. */
module Genesis {
  import opened Basics
  import opened SwapTypes
  import opened Bank
  import opened MapSums
  import opened SwapSpec
  import opened SwapInvariant
  import opened SwapRuns
  import opened SwapLifecycle
  import opened SwapCreation
  import opened SwapRateLimit
  import opened ByteKeys
  import opened SwapIndex
  import opened Keeper

  datatype GenesisState = GenesisState(
    params: seq<AssetParam>,
    swaps: seq<AtomicSwap>,
    supplies: seq<AssetSupply>,
    previousBlockTime: int)

  /** One second after the Unix epoch. */
  const DEFAULT_PREVIOUS_BLOCK_TIME := NANOS_PER_SECOND

  // ---- Validation -------------------------------------------------------------------------------

  predicate DistinctIDs(env: Env, swaps: seq<AtomicSwap>) {
    forall i, j | 0 <= i < j < |swaps| :: GetSwapID(env, swaps[i]) != GetSwapID(env, swaps[j])
  }

  predicate DistinctDenoms(supplies: seq<AssetSupply>) {
    forall i, j | 0 <= i < j < |supplies| :: supplies[i].denom != supplies[j].denom
  }

  predicate ValidGenesis(env: Env, gs: GenesisState) {
    && ValidParams(gs.params)
    && DistinctIDs(env, gs.swaps) && (forall sw | sw in gs.swaps :: ValidSwap(env, sw))
    && DistinctDenoms(gs.supplies) && (forall a | a in gs.supplies :: ValidSupply(a))
  }

  method Validate(env: Env, gs: GenesisState) returns (ok: bool)
    ensures ok <==> ValidGenesis(env, gs)
  {
    hide GetSwapID, ValidSwap, ValidSupply, ValidAsset;
    if !ValidParams(gs.params) { return false; }
    var ids: set<SwapID> := {};
    for i := 0 to |gs.swaps|
      invariant ids == set j | 0 <= j < i :: GetSwapID(env, gs.swaps[j])
      invariant DistinctIDs(env, gs.swaps[..i]) && forall j | 0 <= j < i :: ValidSwap(env, gs.swaps[j])
    {
      var id := GetSwapID(env, gs.swaps[i]);
      if id in ids {
        assert !DistinctIDs(env, gs.swaps);
        return false;
      }
      if !ValidSwap(env, gs.swaps[i]) {
        assert gs.swaps[i] in gs.swaps;
        return false;
      }
      ids := ids + {id};
    }
    assert gs.swaps[..|gs.swaps|] == gs.swaps;
    var denoms: set<Denom> := {};
    for i := 0 to |gs.supplies|
      invariant denoms == set j | 0 <= j < i :: gs.supplies[j].denom
      invariant DistinctDenoms(gs.supplies[..i]) && forall j | 0 <= j < i :: ValidSupply(gs.supplies[j])
    {
      var a := gs.supplies[i];
      if !ValidSupply(a) {
        assert a in gs.supplies;
        return false;
      }
      if a.denom in denoms {
        assert !DistinctDenoms(gs.supplies);
        return false;
      }
      denoms := denoms + {a.denom};
    }
    assert gs.supplies[..|gs.supplies|] == gs.supplies;
    return true;
  }

  // ---- What InitGenesis accepts -----------------------------------------------------------------

  /** The amount of a denomination in a list of coins. */
  function AmountOf(coins: seq<Coin>, d: Denom): int {
    if coins == [] then 0
    else AmountOf(coins[..|coins| - 1], d) + When(coins[|coins| - 1].denom == d, coins[|coins| - 1].amount)
  }

  function CoinWeight(sw: AtomicSwap, direction: Int32, d: Denom): int {
    When(Live(sw) && sw.direction == direction, AmountOf(sw.amount, d))
  }

  /** What the live swaps of a list have outstanding, all their coins counted. */
  function ListOutstanding(swaps: seq<AtomicSwap>, direction: Int32, d: Denom): int {
    if swaps == [] then 0
    else ListOutstanding(swaps[..|swaps| - 1], direction, d) + CoinWeight(swaps[|swaps| - 1], direction, d)
  }

  predicate LiveAsset(params: seq<AssetParam>, d: Denom) {
    GetAsset(params, d).Ok? && GetAsset(params, d).value.active
  }

  predicate SwapAccepted(env: Env, params: seq<AssetParam>, sw: AtomicSwap) {
    ValidSwap(env, sw) && LiveAsset(params, sw.amount[0].denom) && HasDirection(sw) && HasStatus(sw)
  }

  predicate SupplyAccepted(params: seq<AssetParam>, swaps: seq<AtomicSwap>, a: AssetSupply) {
    && a.incoming == ListOutstanding(swaps, SWAP_DIRECTION_INCOMING, a.denom)
    && a.outgoing == ListOutstanding(swaps, SWAP_DIRECTION_OUTGOING, a.denom)
    && GetAsset(params, a.denom).Ok?
    && var limit := GetAsset(params, a.denom).value.supplyLimit.limit;
       a.current <= limit && a.incoming <= limit && a.incoming + a.current <= limit && a.outgoing <= limit
  }

  predicate Accepted(env: Env, gs: GenesisState) {
    && ValidGenesis(env, gs)
    && SwapsAccepted(env, gs.params, gs.swaps)
    && ListedSuppliesAccepted(gs.params, gs.swaps, gs.supplies)
  }

  predicate SwapsAccepted(env: Env, params: seq<AssetParam>, swaps: seq<AtomicSwap>) {
    forall sw | sw in swaps :: SwapAccepted(env, params, sw)
  }

  predicate ListedSuppliesAccepted(params: seq<AssetParam>, swaps: seq<AtomicSwap>, supplies: seq<AssetSupply>) {
    forall a | a in supplies :: SupplyAccepted(params, swaps, a)
  }

  predicate StoredSuppliesAccepted(params: seq<AssetParam>, swaps: seq<AtomicSwap>, supplies: Supplies) {
    forall d | d in supplies :: SupplyAccepted(params, swaps, supplies[d])
  }

  function SwapMap(env: Env, swaps: seq<AtomicSwap>): Swaps {
    if swaps == [] then map[]
    else SwapMap(env, swaps[..|swaps| - 1])[GetSwapID(env, swaps[|swaps| - 1]) := swaps[|swaps| - 1]]
  }

  function SupplyMap(supplies: seq<AssetSupply>): Supplies {
    if supplies == [] then map[]
    else SupplyMap(supplies[..|supplies| - 1])[supplies[|supplies| - 1].denom := supplies[|supplies| - 1]]
  }

  // ---- Lists as maps ----------------------------------------------------------------------------

  lemma {:induction false} SwapMapHolds(env: Env, swaps: seq<AtomicSwap>)
    requires DistinctIDs(env, swaps)
    ensures forall sw | sw in swaps :: GetSwapID(env, sw) in SwapMap(env, swaps) && SwapMap(env, swaps)[GetSwapID(env, sw)] == sw
    ensures forall id | id in SwapMap(env, swaps) :: SwapMap(env, swaps)[id] in swaps && GetSwapID(env, SwapMap(env, swaps)[id]) == id
  {
    hide GetSwapID;
    if swaps != [] {
      var front, last := swaps[..|swaps| - 1], swaps[|swaps| - 1];
      assert swaps == front + [last];
      SwapMapHolds(env, front);
      forall sw | sw in front ensures GetSwapID(env, sw) != GetSwapID(env, last) {
        var i :| 0 <= i < |front| && front[i] == sw;
        assert swaps[i] == sw;
      }
    }
  }

  lemma {:induction false} SupplyMapHolds(supplies: seq<AssetSupply>)
    requires DistinctDenoms(supplies)
    ensures forall a | a in supplies :: a.denom in SupplyMap(supplies) && SupplyMap(supplies)[a.denom] == a
    ensures forall d | d in SupplyMap(supplies) :: SupplyMap(supplies)[d] in supplies && SupplyMap(supplies)[d].denom == d
  {
    if supplies != [] {
      var front, last := supplies[..|supplies| - 1], supplies[|supplies| - 1];
      assert supplies == front + [last];
      SupplyMapHolds(front);
      forall a | a in front ensures a.denom != last.denom {
        var i :| 0 <= i < |front| && front[i] == a;
        assert supplies[i] == a;
      }
    }
  }

  /** Summed along a list or over the map it makes, single-coin swaps have the same amount outstanding. */
  lemma {:induction false} ListOutstandingIsOutstanding(env: Env, swaps: seq<AtomicSwap>, direction: Int32, d: Denom)
    requires DistinctIDs(env, swaps)
    requires forall sw | sw in swaps :: |sw.amount| == 1
    ensures Outstanding(SwapMap(env, swaps), direction, d) == ListOutstanding(swaps, direction, d)
  {
    if swaps == [] {
    } else {
      hide Sum, GetSwapID;
      var front, last := swaps[..|swaps| - 1], swaps[|swaps| - 1];
      assert swaps == front + [last];
      ListOutstandingIsOutstanding(env, front, direction, d);
      SwapMapHolds(env, front);
      assert GetSwapID(env, last) !in SwapMap(env, front);
      OutstandingPut(SwapMap(env, front), GetSwapID(env, last), last, direction, d);
      SingleCoinWeight(last, direction, d);
    }
  }

  lemma SingleCoinWeight(sw: AtomicSwap, direction: Int32, d: Denom)
    requires |sw.amount| == 1
    ensures CoinWeight(sw, direction, d) == SwapWeight(sw, direction, d)
  {
    assert AmountOf(sw.amount[..0], d) == 0;
  }

  // ---- InitGenesis ------------------------------------------------------------------------------

  /** Amounts added up by denomination. */
  type Totals = map<Denom, int>

  function AmountIn(coins: Totals, d: Denom): int {
    if d in coins then coins[d] else 0
  }

  method AddCoins(coins: Totals, more: seq<Coin>) returns (r: Totals)
    ensures forall d :: AmountIn(r, d) == AmountIn(coins, d) + AmountOf(more, d)
  {
    r := coins;
    for i := 0 to |more|
      invariant forall d :: AmountIn(r, d) == AmountIn(coins, d) + AmountOf(more[..i], d)
    {
      assert more[..i + 1][..i] == more[..i];
      r := r[more[i].denom := AmountIn(r, more[i].denom) + more[i].amount];
    }
    assert more[..|more|] == more;
  }

  /** Stores one swap and lists it in the index its status calls for. */
  method LoadSwap(k: Keeper, swap: AtomicSwap)
    requires k.IndexesAgree() && GetSwapID(k.env, swap) !in k.swaps
    modifies k`swaps, k`byBlock, k`longterm
    ensures k.IndexesAgree() && k.swaps == old(k.swaps)[GetSwapID(k.env, swap) := swap]
  {
    hide Indexes, OpenHeights, ClosedHeights, CalculateSwapID, DeletionHeight, HeightKey;
    if swap.status == SWAP_STATUS_OPEN {
      k.StoreOpenSwap(swap);
    } else {
      LoadingLists(k.swaps, GetSwapID(k.env, swap), swap);
      if swap.status == SWAP_STATUS_COMPLETED {
        IndexInsert(k.longterm, ClosedHeights(k.swaps), DeletionHeight(swap), GetSwapID(k.env, swap));
      }
      k.SetAtomicSwap(swap);
      if swap.status == SWAP_STATUS_COMPLETED {
        k.InsertIntoLongtermStorage(swap);
      }
    }
  }

  lemma NextIDIsNew(env: Env, swaps: seq<AtomicSwap>, i: nat)
    requires DistinctIDs(env, swaps) && i < |swaps|
    ensures GetSwapID(env, swaps[i]) !in SwapMap(env, swaps[..i])
  {
    hide GetSwapID;
    SwapMapHolds(env, swaps[..i]);
  }

  lemma NothingLoaded(env: Env)
    ensures SwapMap(env, []) == map[] && forall direction, d :: ListOutstanding([], direction, d) == 0
  {
  }

  lemma LoadStep(env: Env, swaps: seq<AtomicSwap>, i: nat)
    requires i < |swaps|
    ensures SwapMap(env, swaps[..i + 1]) == SwapMap(env, swaps[..i])[GetSwapID(env, swaps[i]) := swaps[i]]
    ensures forall direction, d :: ListOutstanding(swaps[..i + 1], direction, d)
                                == ListOutstanding(swaps[..i], direction, d) + CoinWeight(swaps[i], direction, d)
  {
    assert swaps[..i + 1][..i] == swaps[..i];
  }

  /** Stores the swaps one by one and adds up what is outstanding in each direction. */
  method LoadSwaps(k: Keeper, swaps: seq<AtomicSwap>) returns (ok: bool, incoming: Totals, outgoing: Totals)
    requires k.swaps == map[] && k.byBlock == map[] && k.longterm == map[]
    requires DistinctIDs(k.env, swaps)
    modifies k`swaps, k`byBlock, k`longterm
    ensures ok <==> SwapsAccepted(k.env, k.params, swaps)
    ensures ok ==> k.IndexesAgree() && k.swaps == SwapMap(k.env, swaps)
    ensures ok ==> forall d ::
              && AmountIn(incoming, d) == ListOutstanding(swaps, SWAP_DIRECTION_INCOMING, d)
              && AmountIn(outgoing, d) == ListOutstanding(swaps, SWAP_DIRECTION_OUTGOING, d)
  {
    hide GetSwapID, GetAsset, ValidCoins, ListOutstanding, SwapMap, LiveAsset;
    incoming, outgoing := map[], map[];
    NothingLoaded(k.env);
    assert swaps[..0] == [];
    for i := 0 to |swaps|
      invariant forall j | 0 <= j < i :: SwapAccepted(k.env, k.params, swaps[j])
      invariant k.IndexesAgree() && k.swaps == SwapMap(k.env, swaps[..i])
      invariant forall d ::
                  && AmountIn(incoming, d) == ListOutstanding(swaps[..i], SWAP_DIRECTION_INCOMING, d)
                  && AmountIn(outgoing, d) == ListOutstanding(swaps[..i], SWAP_DIRECTION_OUTGOING, d)
    {
      var swap := swaps[i];
      assert swap in swaps;
      LoadStep(k.env, swaps, i);
      if !ValidSwap(k.env, swap) || !LiveAsset(k.params, swap.amount[0].denom) || !HasDirection(swap) || !HasStatus(swap) {
        return false, incoming, outgoing;
      }
      NextIDIsNew(k.env, swaps, i);
      LoadSwap(k, swap);
      if Live(swap) {
        if swap.direction == SWAP_DIRECTION_INCOMING {
          incoming := AddCoins(incoming, swap.amount);
        } else {
          outgoing := AddCoins(outgoing, swap.amount);
        }
      }
    }
    assert swaps[..|swaps|] == swaps;
    ok := true;
  }

  method LoadSupplies(k: Keeper, supplies: seq<AssetSupply>)
    requires k.supplies == map[]
    modifies k`supplies
    ensures k.supplies == SupplyMap(supplies)
  {
    for i := 0 to |supplies|
      invariant k.supplies == SupplyMap(supplies[..i])
    {
      assert supplies[..i + 1][..i] == supplies[..i];
      k.supplies := k.supplies[supplies[i].denom := supplies[i]];
    }
    assert supplies[..|supplies|] == supplies;
  }

  /** Every stored supply must match what the swaps have outstanding and stay within its asset's limit. */
  method CheckSupplies(k: Keeper, incoming: Totals, outgoing: Totals, ghost swaps: seq<AtomicSwap>) returns (ok: bool)
    requires forall d :: && AmountIn(incoming, d) == ListOutstanding(swaps, SWAP_DIRECTION_INCOMING, d)
                         && AmountIn(outgoing, d) == ListOutstanding(swaps, SWAP_DIRECTION_OUTGOING, d)
    requires forall d | d in k.supplies :: k.supplies[d].denom == d
    ensures ok <==> StoredSuppliesAccepted(k.params, swaps, k.supplies)
  {
    hide ListOutstanding, GetAsset;
    var rest := k.supplies.Keys;
    while rest != {}
      invariant rest <= k.supplies.Keys
      invariant forall d | d in k.supplies && d !in rest :: SupplyAccepted(k.params, swaps, k.supplies[d])
      decreases rest
    {
      var d :| d in rest;
      var supply := k.supplies[d];
      if supply.incoming != AmountIn(incoming, d) { return false; }
      if supply.outgoing != AmountIn(outgoing, d) { return false; }
      var asset := k.FindAsset(d);
      if asset.Err? { return false; }
      var limit := asset.value.supplyLimit.limit;
      if supply.current > limit { return false; }
      if supply.incoming > limit { return false; }
      if supply.incoming + supply.current > limit { return false; }
      if supply.outgoing > limit { return false; }
      rest := rest - {d};
    }
    return true;
  }

  /** Rebuilds swaps, supplies and both indexes from a genesis state, or panics (false) if it is not acceptable. */
  method InitGenesis(k: Keeper, gs: GenesisState) returns (ok: bool)
    requires k.swaps == map[] && k.byBlock == map[] && k.longterm == map[] && k.supplies == map[]
    modifies k
    ensures ok <==> Accepted(k.env, gs)
    ensures ok ==>
              && k.IndexesAgree()
              && k.Abs() == old(k.Abs()).(params := gs.params, previousBlockTime := Some(gs.previousBlockTime),
                                          swaps := SwapMap(k.env, gs.swaps), supplies := SupplyMap(gs.supplies))
  {
    hide ValidSwap, ValidSupply, ValidParams, ListOutstanding, GetAsset, GetSwapID, SwapMap, SupplyMap, SwapAccepted,
         SupplyAccepted, DistinctIDs, DistinctDenoms, SwapsAccepted, ListedSuppliesAccepted, StoredSuppliesAccepted;
    ok := Validate(k.env, gs);
    if !ok { return; }
    k.previousBlockTime := Some(gs.previousBlockTime);
    k.params := gs.params;
    LoadSupplies(k, gs.supplies);
    SupplyMapHolds(gs.supplies);
    var incoming, outgoing;
    ok, incoming, outgoing := LoadSwaps(k, gs.swaps);
    if !ok { return; }
    ok := CheckSupplies(k, incoming, outgoing, gs.swaps);
    SuppliesAcceptedIff(gs);
  }

  /** Checking the stored supplies is checking the listed ones. */
  lemma SuppliesAcceptedIff(gs: GenesisState)
    requires DistinctDenoms(gs.supplies)
    ensures StoredSuppliesAccepted(gs.params, gs.swaps, SupplyMap(gs.supplies))
       <==> ListedSuppliesAccepted(gs.params, gs.swaps, gs.supplies)
  {
    hide SupplyMap, SupplyAccepted, DistinctDenoms;
    SupplyMapHolds(gs.supplies);
    var stored := SupplyMap(gs.supplies);
    if StoredSuppliesAccepted(gs.params, gs.swaps, stored) {
      forall a | a in gs.supplies ensures SupplyAccepted(gs.params, gs.swaps, a) {
        assert stored[a.denom] == a;
      }
    }
  }

  // ---- ExportGenesis ----------------------------------------------------------------------------

  /** A genesis state lists exactly what a state stores, in any order. */
  predicate IsExport(s: State, gs: GenesisState) {
    && gs.params == s.params
    && gs.previousBlockTime == (if s.previousBlockTime.Some? then s.previousBlockTime.value else DEFAULT_PREVIOUS_BLOCK_TIME)
    && DistinctIDs(s.env, gs.swaps) && DistinctDenoms(gs.supplies)
    && (forall sw | sw in gs.swaps :: GetSwapID(s.env, sw) in s.swaps && s.swaps[GetSwapID(s.env, sw)] == sw)
    && (forall id | id in s.swaps :: s.swaps[id] in gs.swaps)
    && (forall a | a in gs.supplies :: a.denom in s.supplies && s.supplies[a.denom] == a)
    && (forall d | d in s.supplies :: s.supplies[d] in gs.supplies)
  }

  method ExportGenesis(k: Keeper) returns (gs: GenesisState)
    requires k.Valid()
    ensures IsExport(k.Abs(), gs)
  {
    hide Inv, GetSwapID;
    var stored := k.swaps;
    var keys := Iterate(stored, None);
    assert forall i | 0 <= i < |keys| :: keys[i] in keys;
    var swaps := seq(|keys|, i requires 0 <= i < |keys| => stored[keys[i]]);
    forall i | 0 <= i < |keys| ensures GetSwapID(k.env, swaps[i]) == keys[i] {
      StoredUnderID(k.Abs(), keys[i]);
    }
    forall i, j | 0 <= i < j < |keys| ensures keys[i] != keys[j] {
      LessTotal(keys[i], keys[j]);
    }
    forall id | id in k.swaps ensures k.swaps[id] in swaps {
      var i :| 0 <= i < |keys| && keys[i] == id;
      assert swaps[i] == k.swaps[id];
    }
    var supplies := ListSupplies(k);
    var time := if k.previousBlockTime.Some? then k.previousBlockTime.value else DEFAULT_PREVIOUS_BLOCK_TIME;
    gs := GenesisState(k.params, swaps, supplies, time);
  }

  method ListSupplies(k: Keeper) returns (supplies: seq<AssetSupply>)
    requires k.Valid()
    ensures DistinctDenoms(supplies)
    ensures forall a | a in supplies :: a.denom in k.supplies && k.supplies[a.denom] == a
    ensures forall d | d in k.supplies :: k.supplies[d] in supplies
  {
    hide Inv;
    supplies := [];
    var rest := k.supplies.Keys;
    while rest != {}
      invariant rest <= k.supplies.Keys && DistinctDenoms(supplies)
      invariant forall a | a in supplies :: a.denom in k.supplies && a.denom !in rest && k.supplies[a.denom] == a
      invariant forall d | d in k.supplies && d !in rest :: k.supplies[d] in supplies
      decreases rest
    {
      var d :| d in rest;
      SupplyUnderDenom(k.Abs(), d);
      supplies := supplies + [k.supplies[d]];
      rest := rest - {d};
    }
  }

  lemma SupplyUnderDenom(s: State, d: Denom)
    requires Inv(s) && d in s.supplies
    ensures s.supplies[d].denom == d
  {
    hide Sum;
    assert SupplyMatches(s.swaps, d, s.supplies[d]);
  }

  // ---- Round trip -------------------------------------------------------------------------------

  /** What a state must have beyond what messages and blocks keep: creation lets a blank sender address on the other
      chain through, and lets an incoming swap's expiry height wrap around to zero; a change of parameters can delist
      or deactivate an asset, or take its limit below its supply. */
  predicate Exportable(s: State)
    requires SingleCoins(s.swaps)
  {
    && (forall id | id in s.swaps ::
          && LiveAsset(s.params, s.swaps[id].amount[0].denom)
          && !s.env.blank(s.swaps[id].senderOtherChain)
          && s.swaps[id].expireHeight != 0)
    && (forall d | d in s.supplies :: SupplyListed(s.params, s.supplies[d]))
  }

  predicate SupplyListed(params: seq<AssetParam>, a: AssetSupply) {
    GetAsset(params, a.denom).Ok? && a.current + a.incoming <= GetAsset(params, a.denom).value.supplyLimit.limit
  }

  lemma GoodSwapAccepted(env: Env, params: seq<AssetParam>, id: SwapID, sw: AtomicSwap)
    requires GoodSwap(env, id, sw)
    ensures SwapAccepted(env, params, sw) <==>
              LiveAsset(params, sw.amount[0].denom) && !env.blank(sw.senderOtherChain) && sw.expireHeight != 0
  {
    hide GetSwapID, GetAsset;
  }

  lemma ExportedMaps(s: State, gs: GenesisState)
    requires Inv(s) && IsExport(s, gs)
    ensures SwapMap(s.env, gs.swaps) == s.swaps && SupplyMap(gs.supplies) == s.supplies
  {
    hide Inv, GetSwapID;
    SwapMapHolds(s.env, gs.swaps);
    SupplyMapHolds(gs.supplies);
    forall id | id in s.swaps ensures GetSwapID(s.env, s.swaps[id]) == id {
      StoredUnderID(s, id);
    }
    forall d | d in s.supplies ensures s.supplies[d].denom == d {
      SupplyUnderDenom(s, d);
    }
  }

  lemma ExportedSupplyAccepted(s: State, gs: GenesisState, a: AssetSupply)
    requires Inv(s) && IsExport(s, gs) && a in gs.supplies
    ensures ValidSupply(a) && (SupplyAccepted(gs.params, gs.swaps, a) <==> SupplyListed(gs.params, a))
  {
    hide Sum, GetSwapID, GetAsset, Solvent, ListOutstanding, ValidParams;
    ExportedMaps(s, gs);
    InvSingleCoins(s);
    assert SupplyMatches(s.swaps, a.denom, a);
    WindowNonNegative(s, a.denom);
    ListOutstandingIsOutstanding(s.env, gs.swaps, SWAP_DIRECTION_INCOMING, a.denom);
    ListOutstandingIsOutstanding(s.env, gs.swaps, SWAP_DIRECTION_OUTGOING, a.denom);
  }

  /** Export then import, for every reachable state and its swaps and supplies listed in any order: the import is
      accepted exactly when the state is exportable, and what it rebuilds is what was exported. */
  lemma GenesisRoundTrip(s: State, gs: GenesisState)
    requires Inv(s) && IsExport(s, gs)
    ensures SingleCoins(s.swaps)
    ensures Accepted(s.env, gs) <==> Exportable(s)
    ensures SwapMap(s.env, gs.swaps) == s.swaps && SupplyMap(gs.supplies) == s.supplies
  {
    hide Inv, GetSwapID, SwapAccepted, SupplyAccepted, ValidParams, LiveAsset, SupplyListed;
    InvSingleCoins(s);
    InvParams(s);
    ExportedMaps(s, gs);
    forall a | a in gs.supplies
      ensures ValidSupply(a) && (SupplyAccepted(gs.params, gs.swaps, a) <==> SupplyListed(s.params, a))
    {
      ExportedSupplyAccepted(s, gs, a);
    }
    forall id | id in s.swaps
      ensures SwapAccepted(s.env, s.params, s.swaps[id]) <==>
                LiveAsset(s.params, s.swaps[id].amount[0].denom) && !s.env.blank(s.swaps[id].senderOtherChain)
                && s.swaps[id].expireHeight != 0
    {
      InvGoodSwap(s, id);
      GoodSwapAccepted(s.env, s.params, id, s.swaps[id]);
    }
    forall sw | sw in gs.swaps && SwapAccepted(s.env, s.params, sw) ensures ValidSwap(s.env, sw) {
      AcceptedIsValid(s.env, s.params, sw);
    }
  }

  lemma InvGoodSwap(s: State, id: SwapID)
    requires Inv(s) && id in s.swaps
    ensures GoodSwap(s.env, id, s.swaps[id])
  {
    hide Sum;
  }

  /** What an accepted genesis guarantees of every swap: one hash length, nothing empty or blank, a known status and
      direction, positive amounts of ascending denominations, and a closing height if it is completed. */
  lemma AcceptedSwaps(env: Env, gs: GenesisState, sw: AtomicSwap)
    requires Accepted(env, gs) && sw in gs.swaps
    ensures |sw.randomNumberHash| == 32 && sw.expireHeight != 0 && sw.timestamp != 0
    ensures sw.sender != [] && sw.recipient != []
    ensures !env.blank(sw.senderOtherChain) && !env.blank(sw.recipientOtherChain)
    ensures (sw.status == 1 || sw.status == 2 || sw.status == 3) && (sw.direction == 1 || sw.direction == 2)
    ensures sw.status == 2 ==> sw.closedBlock != 0
    ensures sw.amount != [] && GetAsset(gs.params, sw.amount[0].denom).Ok?
    ensures GetAsset(gs.params, sw.amount[0].denom).value.active
    ensures forall i | 0 <= i < |sw.amount| :: 0 < sw.amount[i].amount
    ensures forall i, j | 0 <= i < j < |sw.amount| ::
              Less(Codes(sw.amount[i].denom), Codes(sw.amount[j].denom)) && sw.amount[i].denom != sw.amount[j].denom
  {
    hide GetAsset, ListedSuppliesAccepted, DistinctIDs, Codes;
    assert SwapAccepted(env, gs.params, sw);
    forall i, j | 0 <= i < j < |sw.amount| ensures sw.amount[i].denom != sw.amount[j].denom {
      assert DenomLess(sw.amount[i].denom, sw.amount[j].denom);
      LessIrreflexive(Codes(sw.amount[i].denom));
    }
  }

  lemma {:induction false} LessIrreflexive(a: seq<int>)
    ensures !Less(a, a)
  {
    if a != [] {
      LessIrreflexive(a[1..]);
    }
  }

  /** What accepted parameters guarantee: one asset per denomination, a deputy, bounds that some amount and some height
      span meet, limits that are not negative, and fees that leave an outgoing amount above the least one. */
  lemma AcceptedParams(env: Env, gs: GenesisState)
    requires Accepted(env, gs)
    ensures forall i, j | 0 <= i < j < |gs.params| :: gs.params[i].denom != gs.params[j].denom
    ensures forall asset | asset in gs.params ::
              && asset.deputyAddress != [] && 0 <= asset.coinID
              && 0 < asset.minSwapAmount <= asset.maxSwapAmount && asset.minBlockLock <= asset.maxBlockLock
              && 0 <= asset.supplyLimit.timeBasedLimit <= asset.supplyLimit.limit
              && asset.minSwapAmount <= asset.fixedFee + asset.minSwapAmount
  {
    hide SwapsAccepted, ListedSuppliesAccepted, DistinctIDs;
  }

  lemma AcceptedIsValid(env: Env, params: seq<AssetParam>, sw: AtomicSwap)
    requires SwapAccepted(env, params, sw)
    ensures ValidSwap(env, sw)
  {
  }

  /** Export followed by import into an empty keeper: it succeeds exactly when the state is exportable, and
      then swaps, supplies, block time and the bytes of both indexes are those of the original. */
  method Restart(k: Keeper) returns (k': Keeper, ok: bool)
    requires k.Valid()
    ensures SingleCoins(k.swaps) && (ok <==> Exportable(k.Abs()))
    ensures ok ==> k'.Valid() && k'.byBlock == k.byBlock && k'.longterm == k.longterm
    ensures ok && k.previousBlockTime.Some? ==> k'.Abs() == k.Abs().(accounts := k'.accounts)
    ensures ok && k.previousBlockTime.None? ==>
              k'.Abs() == k.Abs().(accounts := k'.accounts, previousBlockTime := Some(1_000_000_000))
  {
    hide Inv, Accepted, Exportable, SwapMap, SupplyMap, OpenHeights, ClosedHeights, Indexes;
    InvContext(k.Abs());
    k' := new Keeper(k.env, k.params, k.bank, k.height, k.time);
    var gs := ExportGenesis(k);
    GenesisRoundTrip(k.Abs(), gs);
    ok := InitGenesis(k', gs);
    if ok {
      InvIgnoresTimes(k.Abs(), k'.Abs());
      IndexUnique(k.byBlock, k'.byBlock, OpenHeights(k.swaps));
      IndexUnique(k.longterm, k'.longterm, ClosedHeights(k.swaps));
    }
  }

  lemma InvContext(s: State)
    requires Inv(s)
    ensures s.env.moduleAddress in s.env.moduleAccounts && s.height > 0 && ValidParams(s.params) && Solvent(s.bank)
  {
    hide Sum, SuppliesMatch;
  }

  lemma InvIgnoresTimes(s: State, s': State)
    requires Inv(s)
    requires s' == s.(previousBlockTime := s'.previousBlockTime, accounts := s'.accounts)
    ensures Inv(s')
  {
    hide Sum, SuppliesMatch, Solvent, SwapsGood;
  }

  // ---- Genesis starts a run ---------------------------------------------------------------------

  /** What a run assumes of its genesis beyond what InitGenesis checks. */
  ghost predicate SoundGenesis(s: State, gs: GenesisState) {
    && s.env.moduleAddress in s.env.moduleAccounts && s.height > 0 && Solvent(s.bank)
    && (forall sw | sw in gs.swaps ::
          && |sw.amount| == 1
          && sw.sender !in s.env.moduleAccounts && sw.recipient !in s.env.moduleAccounts
          && (sw.status == SWAP_STATUS_COMPLETED ==> sw.closedBlock > 0)
          && exists a :: a in gs.supplies && a.denom == sw.amount[0].denom)
    && (forall a | a in gs.supplies ::
          && a.outgoing <= a.current
          && a.outgoing <= Balance(s.bank, s.env.moduleAddress, a.denom)
          && (GetAsset(gs.params, a.denom).Ok? ==>
                var limit := GetAsset(gs.params, a.denom).value.supplyLimit;
                limit.timeLimited ==> a.timeLimitedCurrent + a.incoming <= limit.timeBasedLimit))
  }

  function GenesisLoaded(s: State, gs: GenesisState): State {
    s.(params := gs.params, previousBlockTime := Some(gs.previousBlockTime),
       swaps := SwapMap(s.env, gs.swaps), supplies := SupplyMap(gs.supplies))
  }

  /** The state InitGenesis builds satisfies the invariant and the caps that every run then keeps. */
  lemma GenesisEstablishesInv(s: State, gs: GenesisState)
    requires Accepted(s.env, gs) && SoundGenesis(s, gs)
    ensures Inv(GenesisLoaded(s, gs)) && forall d :: Capped(gs.params, SupplyMap(gs.supplies), d)
  {
    hide Sum, GetSwapID, ListOutstanding, Solvent, Balance, GetAsset, SwapMap, SupplyMap, ValidParams, ValidCoins;
    var swaps, supplies := SwapMap(s.env, gs.swaps), SupplyMap(gs.supplies);
    SwapMapHolds(s.env, gs.swaps);
    SupplyMapHolds(gs.supplies);
    forall d | d in supplies ensures SupplyMatches(swaps, d, supplies[d]) {
      ListOutstandingIsOutstanding(s.env, gs.swaps, SWAP_DIRECTION_INCOMING, d);
      ListOutstandingIsOutstanding(s.env, gs.swaps, SWAP_DIRECTION_OUTGOING, d);
    }
    forall id | id in swaps ensures GoodSwap(s.env, id, swaps[id]) && swaps[id].amount[0].denom in supplies {
      LoadedSwapGood(s.env, gs.params, swaps[id]);
    }
  }

  /** Whether the windows of an import have begun is for the genesis to say: the import does not check it. */
  lemma GenesisClockedIff(s: State, gs: GenesisState)
    requires DistinctDenoms(gs.supplies)
    ensures Clocked(GenesisLoaded(s, gs)) <==>
              gs.previousBlockTime <= s.time && forall a | a in gs.supplies :: 0 <= a.timeElapsed
  {
    hide SupplyMap, SwapMap, DistinctDenoms;
    SupplyMapHolds(gs.supplies);
    if Clocked(GenesisLoaded(s, gs)) {
      forall a | a in gs.supplies ensures 0 <= a.timeElapsed {
        assert SupplyMap(gs.supplies)[a.denom] == a;
      }
    }
  }

  /** From a genesis whose windows have begun, after its first block and on every run with its parameters: the stored
      window of a time-limited asset is the incoming claims since its last restart, within the time-based limit. */
  lemma GenesisWindow(s: State, gs: GenesisState, t: int, es: seq<Event>, d: Denom)
    requires Accepted(s.env, gs) && SoundGenesis(s, gs) && TimeLimited(gs.params, d)
    requires gs.previousBlockTime <= s.time && forall a | a in gs.supplies :: 0 <= a.timeElapsed
    requires CanStartBlock(s, t) && NoParamsChange(es)
    ensures var s0 := GenesisLoaded(s, gs);
            && SingleCoins(s0.swaps) && SingleCoins(Next(s0, BlockEvent(t)).swaps)
            && var s1, limit := Next(s0, BlockEvent(t)), GetAsset(gs.params, d).value.supplyLimit;
            && Metered(s1, d)
            && var w := Track(s1, es, d, limit.timePeriod, WindowAt(s1, d));
            && Agrees(Run(s1, es), d, limit, w)
            && 0 <= w.claimed <= limit.timeBasedLimit
  {
    hide Inv, SoundGenesis, Clocked, Next, Agrees, NoParamsChange, SwapMap, SupplyMap, TimeLimited, ElapsedAt;
    var s0 := GenesisLoaded(s, gs);
    GenesisEstablishesInv(s, gs);
    GenesisClockedIff(s, gs);
    InvSingleCoins(s0);
    RunClocked(s0, [], d, t);
    WindowIsClaims(s0, t, es, d);
  }

  lemma LoadedSwapGood(env: Env, params: seq<AssetParam>, sw: AtomicSwap)
    requires SwapAccepted(env, params, sw) && |sw.amount| == 1
    requires sw.sender !in env.moduleAccounts && sw.recipient !in env.moduleAccounts
    requires sw.status == SWAP_STATUS_COMPLETED ==> sw.closedBlock > 0
    ensures GoodSwap(env, GetSwapID(env, sw), sw)
  {
    hide GetSwapID;
  }

  // ---- A message that makes the state impossible to re-import -----------------------------------

  /** The swap is stored before, during and after the run. */
  predicate StaysStored(s: State, es: seq<Event>, id: SwapID)
    requires SingleCoins(s.swaps)
    decreases |es|
  {
    id in s.swaps && (es != [] ==> (NextSingleCoins(s, es[0]); StaysStored(Next(s, es[0]), es[1..], id)))
  }

  lemma {:induction false} SenderStays(s: State, es: seq<Event>, id: SwapID)
    requires Inv(s)
    requires SingleCoins(s.swaps) && StaysStored(s, es, id)
    ensures Inv(Run(s, es)) && Run(s, es).env == s.env && id in Run(s, es).swaps
    ensures Run(s, es).swaps[id].senderOtherChain == s.swaps[id].senderOtherChain
    decreases |es|
  {
    hide Inv, Next;
    if es != [] {
      NextKeepsInv(s, es[0]);
      NextMoves(s, es[0], id);
      NextEnv(s, es[0]);
      InvSingleCoins(Next(s, es[0]));
      SenderStays(Next(s, es[0]), es[1..], id);
    }
  }

  lemma NextEnv(s: State, e: Event)
    requires SingleCoins(s.swaps)
    ensures Next(s, e).env == s.env
  {
    hide IncrementIncoming, IncrementOutgoing, IncrementCurrent, DecrementCurrent, DecrementIncoming, DecrementOutgoing,
         CheckCreate, SendFromAccountToModule, SendFromModuleToAccount, Burn, Move, SecretMatches, ValidateBasic;
  }

  /** No creation looks at whether the sender's address on the other chain is blank, so one that succeeds with a blank
      address leads to states whose export InitGenesis rejects, in any order and for as long as the swap is stored. */
  lemma BlankSenderBreaksExport(s: State, m: CreateMsg, es: seq<Event>, gs: GenesisState)
    requires Inv(s) && ValidateBasic(s.env, m) && m.sender !in s.env.moduleAccounts
    requires Create(s, m).Ok? && s.env.blank(m.senderOtherChain)
    requires SingleCoins(Create(s, m).value.swaps) && StaysStored(Create(s, m).value, es, MsgSwapID(s.env, m))
    requires IsExport(Run(Create(s, m).value, es), gs)
    ensures !Accepted(s.env, gs)
  {
    hide Inv, Accepted, IsExport, ValidateBasic, Create, LiveAsset, StaysStored, Run, MsgSwapID;
    CreateShifts(s, m);
    CreatedSwap(s, m);
    SenderStays(Create(s, m).value, es, MsgSwapID(s.env, m));
    GenesisRoundTrip(Run(Create(s, m).value, es), gs);
  }
}

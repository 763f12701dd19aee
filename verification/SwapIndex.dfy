/** The two height indexes over swaps: byte-keyed stores that list each open swap under its expiry height
    and each completed swap under its deletion height. */
module SwapIndex {
  import opened Basics
  import opened SwapTypes
  import opened SwapSpec
  import opened ByteKeys

  type Store = map<Bytes, Bytes>
  type Heights = map<SwapID, Uint64>

  /** The store holds one key per listed swap, height first, and nothing else. */
  predicate Indexes(store: Store, heights: Heights) {
    && (forall id | id in heights :: HeightKey(heights[id], id) in store && store[HeightKey(heights[id], id)] == id)
    && (forall k | k in store :: store[k] in heights && k == HeightKey(heights[store[k]], store[k]))
  }

  function OpenHeights(swaps: Swaps): Heights {
    map id | id in swaps && swaps[id].status == SWAP_STATUS_OPEN :: swaps[id].expireHeight
  }

  function ClosedHeights(swaps: Swaps): Heights {
    map id | id in swaps && swaps[id].status == SWAP_STATUS_COMPLETED :: DeletionHeight(swaps[id])
  }

  lemma IndexInsert(store: Store, heights: Heights, height: Uint64, id: SwapID)
    requires Indexes(store, heights) && id !in heights
    ensures Indexes(store[HeightKey(height, id) := id], heights[id := height])
  {
    forall id' | id' in heights ensures HeightKey(heights[id'], id') != HeightKey(height, id) {
      HeightKeyInjective(heights[id'], id', height, id);
    }
  }

  lemma IndexRemove(store: Store, heights: Heights, id: SwapID)
    requires Indexes(store, heights) && id in heights
    ensures Indexes(store - {HeightKey(heights[id], id)}, heights - {id})
  {
    forall id' | id' in heights && id' != id ensures HeightKey(heights[id'], id') != HeightKey(heights[id], id) {
      HeightKeyInjective(heights[id'], id', heights[id], id);
    }
  }

  /** What an index lists determines the store. */
  lemma IndexUnique(store: Store, store': Store, heights: Heights)
    requires Indexes(store, heights) && Indexes(store', heights)
    ensures store == store'
  {
  }

  predicate Distinct(ids: seq<SwapID>) {
    forall i, j | 0 <= i < j < |ids| :: ids[i] != ids[j]
  }

  /** A scan of an index up to a cutoff meets the listed swaps at or below it, each once, in order of height. */
  method ScanIndex(store: Store, cutoff: Uint64, ghost heights: Heights) returns (ids: seq<SwapID>)
    requires Indexes(store, heights)
    ensures forall id :: id in ids <==> id in heights && heights[id] <= cutoff
    ensures Distinct(ids)
    ensures forall i, j | 0 <= i < j < |ids| :: heights[ids[i]] <= heights[ids[j]]
  {
    var keys := Iterate(store, PrefixEnd(BigEndian64(cutoff)));
    assert forall i | 0 <= i < |keys| :: keys[i] in keys;
    ids := seq(|keys|, i requires 0 <= i < |keys| => store[keys[i]]);
    forall id | id in heights ensures id in ids <==> heights[id] <= cutoff {
      ScanIsByHeight(heights[id], id, cutoff);
      if HeightKey(heights[id], id) in keys {
        var i :| 0 <= i < |keys| && keys[i] == HeightKey(heights[id], id);
        assert ids[i] == id;
      }
    }
    forall i, j | 0 <= i < j < |ids| ensures heights[ids[i]] <= heights[ids[j]] && ids[i] != ids[j] {
      KeyOrderIsHeightOrder(heights[ids[i]], ids[i], heights[ids[j]], ids[j]);
      LessTotal(keys[i], keys[j]);
    }
  }

  // ---- How storing a swap changes what the indexes list -----------------------------------------

  lemma OpeningLists(swaps: Swaps, id: SwapID, sw: AtomicSwap)
    requires id !in swaps && sw.status == SWAP_STATUS_OPEN
    ensures OpenHeights(swaps[id := sw]) == OpenHeights(swaps)[id := sw.expireHeight]
    ensures ClosedHeights(swaps[id := sw]) == ClosedHeights(swaps)
    ensures id !in OpenHeights(swaps)
  {
    hide DeletionHeight;
  }

  /** A new swap that is not open is listed in the longterm index if completed, and nowhere if expired. */
  lemma LoadingLists(swaps: Swaps, id: SwapID, sw: AtomicSwap)
    requires id !in swaps && sw.status != SWAP_STATUS_OPEN
    ensures OpenHeights(swaps[id := sw]) == OpenHeights(swaps)
    ensures ClosedHeights(swaps[id := sw]) ==
              if sw.status == SWAP_STATUS_COMPLETED then ClosedHeights(swaps)[id := DeletionHeight(sw)] else ClosedHeights(swaps)
    ensures id !in ClosedHeights(swaps)
  {
    hide DeletionHeight;
  }

  lemma ExpiringLists(swaps: Swaps, id: SwapID, sw: AtomicSwap)
    requires id in swaps && swaps[id].status == SWAP_STATUS_OPEN && sw.status == SWAP_STATUS_EXPIRED
    ensures OpenHeights(swaps[id := sw]) == OpenHeights(swaps) - {id}
    ensures ClosedHeights(swaps[id := sw]) == ClosedHeights(swaps)
    ensures id in OpenHeights(swaps) && OpenHeights(swaps)[id] == swaps[id].expireHeight
  {
    hide DeletionHeight;
  }

  lemma DeletingLists(swaps: Swaps, id: SwapID)
    requires id in swaps && swaps[id].status == SWAP_STATUS_COMPLETED
    ensures OpenHeights(swaps - {id}) == OpenHeights(swaps)
    ensures ClosedHeights(swaps - {id}) == ClosedHeights(swaps) - {id}
    ensures id in ClosedHeights(swaps) && ClosedHeights(swaps)[id] == DeletionHeight(swaps[id])
  {
    hide DeletionHeight;
  }

  lemma ClosingLists(swaps: Swaps, id: SwapID, sw: AtomicSwap)
    requires id in swaps && swaps[id].status != SWAP_STATUS_COMPLETED && sw.status == SWAP_STATUS_COMPLETED
    ensures OpenHeights(swaps[id := sw]) == OpenHeights(swaps) - {id}
    ensures ClosedHeights(swaps[id := sw]) == ClosedHeights(swaps)[id := DeletionHeight(sw)]
    ensures id in OpenHeights(swaps) <==> swaps[id].status == SWAP_STATUS_OPEN
    ensures swaps[id].status == SWAP_STATUS_OPEN ==> OpenHeights(swaps)[id] == swaps[id].expireHeight
    ensures id !in ClosedHeights(swaps)
  {
    hide DeletionHeight;
  }
}

/** Store keys as byte strings: their order, the ends of prefix ranges, and the index keys that begin
    with a height. A range scan over such keys is a scan by height. */
module ByteKeys {
  import opened Basics
  import opened SwapTypes

  lemma {:induction false} LessTotal(a: Bytes, b: Bytes)
    ensures a == b || Less(a, b) || Less(b, a)
    ensures !(Less(a, b) && (a == b || Less(b, a)))
  {
    if a != [] && b != [] {
      LessTotal(a[1..], b[1..]);
      assert a == [a[0]] + a[1..] && b == [b[0]] + b[1..];
    }
  }

  lemma {:induction false} LessTransitive(a: Bytes, b: Bytes, c: Bytes)
    requires Less(a, b) && Less(b, c)
    ensures Less(a, c)
  {
    if a != [] && a[0] == b[0] == c[0] {
      LessTransitive(a[1..], b[1..], c[1..]);
    }
  }

  /** The least key after every key with the prefix; none if the prefix is all 0xff. */
  function PrefixEnd(prefix: Bytes): Option<Bytes> {
    if prefix == [] then None
    else
      var n := |prefix| - 1;
      if prefix[n] != 255 then Some(prefix[..n] + [prefix[n] + 1]) else PrefixEnd(prefix[..n])
  }

  /** A key lies before the end of a range. */
  predicate Before(k: Bytes, end: Option<Bytes>) {
    end.Some? ==> Less(k, end.value)
  }

  predicate Upto(k: Bytes, p: Bytes) {
    Less(k, p) || p <= k
  }

  lemma {:induction false} UptoBumped(k: Bytes, q: Bytes, x: byte)
    requires x < 255
    ensures Less(k, q + [x + 1]) <==> Upto(k, q + [x])
  {
    var y: byte := x + 1;
    if q == [] {
      assert q + [x] == [x] && q + [y] == [y];
    } else if k != [] {
      UptoBumped(k[1..], q[1..], x);
      assert (q + [x])[1..] == q[1..] + [x] && (q + [y])[1..] == q[1..] + [y];
      assert q + [x] <= k <==> q[0] == k[0] && q[1..] + [x] <= k[1..];
    }
  }

  lemma {:induction false} UptoTopByte(k: Bytes, q: Bytes)
    ensures Upto(k, q + [255]) <==> Upto(k, q)
  {
    if q == [] {
      assert q + [255] == [255];
    } else if k != [] {
      UptoTopByte(k[1..], q[1..]);
      assert (q + [255])[1..] == q[1..] + [255];
      assert q + [255] <= k <==> q[0] == k[0] && q[1..] + [255] <= k[1..];
      assert q <= k <==> q[0] == k[0] && q[1..] <= k[1..];
    }
  }

  /** The range that ends at a prefix's end holds exactly the keys below the prefix and the keys that carry it. */
  lemma {:induction false} BeforePrefixEnd(k: Bytes, p: Bytes)
    ensures Before(k, PrefixEnd(p)) <==> (p == [] || Upto(k, p))
  {
    if p != [] {
      var q, x := p[..|p| - 1], p[|p| - 1];
      assert p == q + [x];
      if x != 255 {
        UptoBumped(k, q, x);
      } else {
        UptoTopByte(k, q);
        BeforePrefixEnd(k, q);
        if q == [] { assert Upto(k, q); }
      }
    }
  }

  function Power256(n: nat): nat {
    if n == 0 then 1 else 256 * Power256(n - 1)
  }

  lemma {:induction false} LessAppend(a: Bytes, b: Bytes, x: byte, y: byte)
    requires |a| == |b|
    ensures Less(a + [x], b + [y]) <==> Less(a, b) || (a == b && x < y)
  {
    if a == [] {
      assert a + [x] == [x] && b + [y] == [y];
    } else {
      LessAppend(a[1..], b[1..], x, y);
      assert (a + [x])[1..] == a[1..] + [x] && (b + [y])[1..] == b[1..] + [y];
      assert a == b <==> a[0] == b[0] && a[1..] == b[1..];
    }
  }

  /** Big-endian numbers of one width are ordered as their bytes are. */
  lemma {:induction false} BigEndianOrder(x: nat, y: nat, n: nat)
    requires x < Power256(n) && y < Power256(n)
    ensures Less(BigEndian(x, n), BigEndian(y, n)) <==> x < y
    ensures BigEndian(x, n) == BigEndian(y, n) <==> x == y
  {
    if n > 0 {
      BigEndianOrder(x / 256, y / 256, n - 1);
      LessAppend(BigEndian(x / 256, n - 1), BigEndian(y / 256, n - 1), x % 256, y % 256);
      var a, b := BigEndian(x / 256, n - 1), BigEndian(y / 256, n - 1);
      assert a + [x % 256] == b + [y % 256] ==> a == (a + [x % 256])[..n - 1] == b && x % 256 == (a + [x % 256])[n - 1] == y % 256;
    }
  }

  lemma {:induction false} PrefixOrder(a: Bytes, s: Bytes, b: Bytes)
    requires |a| == |b|
    ensures Less(a + s, b) <==> Less(a, b)
    ensures b <= a + s <==> a == b
  {
    if a == [] {
      assert a + s == s;
    } else {
      PrefixOrder(a[1..], s, b[1..]);
      assert (a + s)[1..] == a[1..] + s;
      assert b <= a + s <==> b[0] == a[0] && b[1..] <= a[1..] + s;
      assert a == b <==> a[0] == b[0] && a[1..] == b[1..];
    }
  }

  // ---- Index keys -------------------------------------------------------------------------------

  function HeightKey(height: Uint64, id: SwapID): Bytes {
    BigEndian64(height) + id
  }

  lemma Uint64Range(x: Uint64)
    ensures x < Power256(8)
  {
    assert Power256(8) == 256 * Power256(7) == 256 * 256 * Power256(6);
    assert Power256(6) == 256 * Power256(5) == 256 * 256 * Power256(4);
    assert Power256(4) == 256 * Power256(3) == 256 * 256 * Power256(2);
    assert Power256(2) == 256 * Power256(1) == 256 * 256;
  }

  /** The scan up to a height's prefix end meets exactly the keys of that height and below,
      for every height a 64-bit number can express. */
  lemma ScanIsByHeight(height: Uint64, id: SwapID, cutoff: Uint64)
    ensures Before(HeightKey(height, id), PrefixEnd(BigEndian64(cutoff))) <==> height <= cutoff
  {
    BeforePrefixEnd(HeightKey(height, id), BigEndian64(cutoff));
    PrefixOrder(BigEndian64(height), id, BigEndian64(cutoff));
    Uint64Range(height);
    Uint64Range(cutoff);
    BigEndianOrder(height, cutoff, 8);
  }

  lemma {:induction false} LessPrefix(a: Bytes, s: Bytes, b: Bytes, t: Bytes)
    requires |a| == |b| && Less(a + s, b + t)
    ensures a == b || Less(a, b)
  {
    if a != [] {
      assert (a + s)[1..] == a[1..] + s && (b + t)[1..] == b[1..] + t;
      if a[0] == b[0] {
        LessPrefix(a[1..], s, b[1..], t);
      }
      assert a == b <==> a[0] == b[0] && a[1..] == b[1..];
    }
  }

  /** Ascending keys have non-descending heights. */
  lemma KeyOrderIsHeightOrder(height: Uint64, id: SwapID, height': Uint64, id': SwapID)
    requires Less(HeightKey(height, id), HeightKey(height', id'))
    ensures height <= height'
  {
    LessPrefix(BigEndian64(height), id, BigEndian64(height'), id');
    Uint64Range(height);
    Uint64Range(height');
    BigEndianOrder(height, height', 8);
  }

  lemma HeightKeyInjective(height: Uint64, id: SwapID, height': Uint64, id': SwapID)
    ensures HeightKey(height, id) == HeightKey(height', id') <==> height == height' && id == id'
  {
    var k, k' := HeightKey(height, id), HeightKey(height', id');
    assert k[..8] == BigEndian64(height) && k[8..] == id;
    assert k'[..8] == BigEndian64(height') && k'[8..] == id';
    Uint64Range(height);
    Uint64Range(height');
    BigEndianOrder(height, height', 8);
  }

  // ---- Range scans ------------------------------------------------------------------------------

  predicate Ascending(keys: seq<Bytes>) {
    forall i, j | 0 <= i < j < |keys| :: Less(keys[i], keys[j])
  }

  predicate IsLeast(k: Bytes, keys: set<Bytes>) {
    k in keys && forall j | j in keys && j != k :: Less(k, j)
  }

  lemma {:induction false} LeastExists(keys: set<Bytes>) returns (k: Bytes)
    requires keys != {}
    ensures IsLeast(k, keys)
  {
    k :| k in keys;
    var rest := keys - {k};
    if rest == {} {
      assert keys == {k};
    } else {
      var k' := LeastExists(rest);
      LessTotal(k, k');
      forall j | j in keys && j != k && j != k' && Less(k, k') ensures Less(k, j) {
        assert j in rest;
        LessTransitive(k, k', j);
      }
      forall j | j in keys && j != k && j != k' ensures Less(k', j) {
        assert j in rest;
      }
      if Less(k', k) {
        k := k';
      }
    }
  }

  /** The iterator of a store: every key before the end, in ascending order. */
  method Iterate<V>(store: map<Bytes, V>, end: Option<Bytes>) returns (keys: seq<Bytes>)
    ensures Ascending(keys)
    ensures forall k :: k in keys <==> k in store && Before(k, end)
  {
    keys := [];
    var rest := set k | k in store && Before(k, end);
    while rest != {}
      invariant Ascending(keys)
      invariant forall k :: k in store && Before(k, end) <==> k in keys || k in rest
      invariant forall i, k | 0 <= i < |keys| && k in rest :: Less(keys[i], k)
      decreases rest
    {
      ghost var least := LeastExists(rest);
      var k :| k in rest && IsLeast(k, rest);
      assert IsLeast(k, rest);
      keys, rest := keys + [k], rest - {k};
    }
  }
}

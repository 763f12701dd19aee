/** Base 128 varints: their size, writing them into a buffer and reading them back. */
module Varint {
  import opened Basics

  datatype WireError =
    | ErrIntOverflow
    | ErrUnexpectedEOF
    | ErrInvalidLength
    | ErrUnexpectedEndOfGroup
    | ErrIllegalWireType
    | ErrEndGroup
    | ErrIllegalTag
    | ErrWrongWireType
    | ErrCoin

  /** The bytes x stand at position i of the data. */
  predicate At(data: Bytes, i: nat, x: Bytes) {
    i + |x| <= |data| && data[i..i + |x|] == x
  }

  lemma AtConcat(data: Bytes, i: nat, x: Bytes, y: Bytes)
    ensures At(data, i, x + y) <==> At(data, i, x) && At(data, i + |x|, y)
  {
    var n, m := |x|, |y|;
    if i + n + m <= |data| {
      var z := data[i..i + n + m];
      assert z[..n] == data[i..i + n] && z[n..] == data[i + n..i + n + m];
      assert z == z[..n] + z[n..];
      if z == x + y {
        assert z[..n] == x && z[n..] == y;
      }
    }
  }

  // ---- The encoding and its size ----------------------------------------------------------------

  /** Seven bits to a byte, low bits first; the high bit marks that more follow. */
  function Encode(v: nat): Bytes {
    if v < 128 then [v] else [v % 128 + 128] + Encode(v / 128)
  }

  /** The number of bits of x. */
  function Len64(x: nat): nat {
    if x == 0 then 0 else 1 + Len64(x / 2)
  }

  /** The size computed from the bit length of x with its lowest bit set. */
  function Sov(x: nat): nat {
    (Len64(if x % 2 == 0 then x + 1 else x) + 6) / 7
  }

  lemma ThreeBits(x: nat)
    requires 8 <= x
    ensures Len64(x) == 3 + Len64(x / 8)
  {
    assert Len64(x / 2) == 1 + Len64(x / 4);
    assert Len64(x / 4) == 1 + Len64(x / 8);
  }

  lemma SevenBits(x: nat)
    requires 128 <= x
    ensures Len64(x) == 7 + Len64(x / 128)
  {
    ThreeBits(x);
    ThreeBits(x / 8);
    assert x / 8 / 8 == x / 64 && x / 64 / 2 == x / 128;
  }

  lemma LowestBit(x: nat)
    requires 1 <= x
    ensures Len64(if x % 2 == 0 then x + 1 else x) == Len64(x)
  {
    assert x % 2 == 0 ==> (x + 1) / 2 == x / 2;
  }

  lemma {:induction false} FewBits(x: nat, n: nat)
    requires x < Pow2(n)
    ensures Len64(x) <= n
  {
    if x != 0 {
      FewBits(x / 2, n - 1);
    }
  }

  function Pow2(n: nat): nat {
    if n == 0 then 1 else 2 * Pow2(n - 1)
  }

  lemma PowersOfTwo()
    ensures Pow2(7) == 128 && Pow2(63) == TWO_63 && Pow2(64) == TWO_64
  {
    assert Pow2(7) == 128;
    Pow2Sum(7, 7);
    Pow2Sum(14, 14);
    Pow2Sum(28, 28);
    Pow2Sum(56, 7);
  }

  lemma {:induction false} Pow2Sum(a: nat, b: nat)
    ensures Pow2(a + b) == Pow2(a) * Pow2(b)
  {
    if a != 0 {
      Pow2Sum(a - 1, b);
    }
  }

  /** The bit formula counts the bytes of the encoding. */
  lemma {:induction false} SizeIsSov(v: nat)
    ensures |Encode(v)| == Sov(v) >= 1
  {
    if v < 128 {
      var w := if v % 2 == 0 then v + 1 else v;
      PowersOfTwo();
      FewBits(w, 7);
      assert Len64(w) >= 1;
    } else {
      SizeIsSov(v / 128);
      LowestBit(v);
      LowestBit(v / 128);
      SevenBits(v);
    }
  }

  // ---- Writing ----------------------------------------------------------------------------------

  lemma EncodeMore(v: nat)
    requires v >= 128
    ensures Encode(v) == [v % 128 + 128] + Encode(v / 128) && |Encode(v / 128)| >= 1
  {
  }

  lemma EncodeLast(v: nat)
    requires v < 128
    ensures Encode(v) == [v]
  {
  }

  /** The buffer is as before but for the bytes written from position base on. */
  ghost predicate Written(buf: array<byte>, before: Bytes, base: nat, written: Bytes)
    reads buf
  {
    && base + |written| <= |before|
    && buf[..] == before[..base] + written + before[base + |written|..]
  }

  lemma NothingWritten(buf: array<byte>, base: nat)
    requires base <= buf.Length
    ensures Written(buf, buf[..], base, [])
  {
  }

  method WriteByte(buf: array<byte>, i: nat, b: byte, ghost before: Bytes, ghost base: nat, ghost written: Bytes)
    requires Written(buf, before, base, written) && i == base + |written| < buf.Length
    modifies buf
    ensures Written(buf, before, base, written + [b])
  {
    buf[i] := b;
    assert buf[..] == (before[..base] + written + before[i..])[i := b];
  }

  /** Writes the varint so that it ends just before the offset. */
  method Put(buf: array<byte>, offset: nat, v: Uint64) returns (base: nat)
    requires Sov(v) <= offset <= buf.Length
    modifies buf
    ensures base == offset - Sov(v)
    ensures buf[..] == old(buf[..base]) + Encode(v) + old(buf[offset..])
  {
    hide Sov, Encode, Written;
    SizeIsSov(v);
    base := offset - Sov(v);
    PutFrom(buf, base, v);
    assert old(buf[..])[..base] == old(buf[..base]);
    assert old(buf[..])[offset..] == old(buf[offset..]);
  }

  /** The loop: seven bits at a time, from the start of the varint on. */
  method PutFrom(buf: array<byte>, base: nat, v: nat)
    requires base + |Encode(v)| <= buf.Length
    modifies buf
    ensures buf[..] == old(buf[..])[..base] + Encode(v) + old(buf[..])[base + |Encode(v)|..]
  {
    hide Encode, Written;
    var i, w := base, v;
    ghost var before, written: Bytes := buf[..], [];
    NothingWritten(buf, base);
    while w >= 128
      invariant i == base + |written| && Encode(v) == written + Encode(w)
      invariant Written(buf, before, base, written)
      decreases w
    {
      EncodeMore(w);
      WriteByte(buf, i, w % 128 + 128, before, base, written);
      written := written + [w % 128 + 128];
      w := w / 128;
      i := i + 1;
    }
    EncodeLast(w);
    WriteByte(buf, i, w, before, base, written);
    AllWritten(buf, before, base, Encode(v));
  }

  lemma AllWritten(buf: array<byte>, before: Bytes, base: nat, written: Bytes)
    requires Written(buf, before, base, written)
    ensures base + |written| <= |before|
    ensures buf[..] == before[..base] + written + before[base + |written|..]
  {
  }

  // ---- Reading ----------------------------------------------------------------------------------

  /** The varint at position i and the position after it, k bytes having been read before. An eleventh byte is an
      overflow. */
  function Scan(data: Bytes, i: nat, k: nat): Result<(nat, nat), WireError>
    decreases |data| - i
  {
    if k >= 10 then Err(ErrIntOverflow)
    else if i >= |data| then Err(ErrUnexpectedEOF)
    else if data[i] < 128 then Ok((data[i], i + 1))
    else
      match Scan(data, i + 1, k + 1)
      case Err(e) => Err(e)
      case Ok((high, next)) => Ok((data[i] % 128 + 128 * high, next))
  }

  /** The value read is reduced to 64 bits. */
  function Read(data: Bytes, i: nat): (r: Result<(Uint64, nat), WireError>)
    ensures r.Ok? ==> i < r.value.1 <= |data|
  {
    match Scan(data, i, 0)
    case Err(e) => Err(e)
    case Ok((v, next)) => ScanAdvances(data, i, 0); Ok((v % TWO_64, next))
  }

  lemma {:induction false} ScanAdvances(data: Bytes, i: nat, k: nat)
    ensures Scan(data, i, k).Ok? ==> i < Scan(data, i, k).value.1 <= |data|
    decreases |data| - i
  {
    if k < 10 && i < |data| && data[i] >= 128 {
      ScanAdvances(data, i + 1, k + 1);
    }
  }

  /** The decoding loop: bits are placed at growing shifts and cut off at 64. */
  method ReadLoop(data: Bytes, start: nat) returns (r: Result<(Uint64, nat), WireError>)
    ensures r == Read(data, start)
  {
    hide Scan, Placed, Read, Pow2;
    var i: nat, value: Uint64, shift := start, 0, 0;
    ghost var k := 0;
    PlacedFirst(data, start);
    while true
      invariant shift == 7 * k && k <= 10
      invariant Placed(value, shift, Scan(data, i, k)) == Read(data, start)
      decreases 10 - k
    {
      PlacedStep(value, data, i, k);
      if shift >= 64 {
        return Err(ErrIntOverflow);
      }
      if i >= |data| {
        return Err(ErrUnexpectedEOF);
      }
      var b := data[i];
      i := i + 1;
      value := (value + b % 128 * Pow2(shift)) % TWO_64;
      if b < 128 {
        return Ok((value, i));
      }
      shift, k := shift + 7, k + 1;
    }
  }

  /** What the loop still has to read, placed above the bits it has. */
  function Placed(value: Uint64, shift: nat, r: Result<(nat, nat), WireError>): Result<(Uint64, nat), WireError> {
    match r
    case Err(e) => Err(e)
    case Ok((v, next)) => Ok(((value + v * Pow2(shift)) % TWO_64, next))
  }

  lemma PlacedFirst(data: Bytes, i: nat)
    ensures Placed(0, 0, Scan(data, i, 0)) == Read(data, i)
  {
    hide Scan;
  }

  lemma ScanStep(data: Bytes, i: nat, k: nat)
    ensures k >= 10 ==> Scan(data, i, k) == Err(ErrIntOverflow)
    ensures k < 10 && i >= |data| ==> Scan(data, i, k) == Err(ErrUnexpectedEOF)
    ensures k < 10 && i < |data| && data[i] < 128 ==> Scan(data, i, k) == Ok((data[i], i + 1))
    ensures k < 10 && i < |data| && data[i] >= 128 ==>
              Scan(data, i, k) == match Scan(data, i + 1, k + 1)
                                  case Err(e) => Err(e)
                                  case Ok((high, next)) => Ok((data[i] % 128 + 128 * high, next))
  {
  }

  /** One byte more: it is either the last or below all that follow. */
  lemma PlacedStep(value: Uint64, data: Bytes, i: nat, k: nat)
    ensures Placed(value, 7 * k, Scan(data, i, k))
         == if k >= 10 then Err(ErrIntOverflow)
            else if i >= |data| then Err(ErrUnexpectedEOF)
            else
              var next := (value + data[i] % 128 * Pow2(7 * k)) % TWO_64;
              if data[i] < 128 then Ok((next, i + 1)) else Placed(next, 7 * k + 7, Scan(data, i + 1, k + 1))
  {
    hide Pow2, Scan;
    ScanStep(data, i, k);
    if k < 10 && i < |data| {
      if data[i] < 128 {
        assert data[i] % 128 == data[i];
      } else if Scan(data, i + 1, k + 1).Ok? {
        PlacedNext(value, 7 * k, data[i] % 128, Scan(data, i + 1, k + 1).value.0);
      }
    }
  }

  lemma PlacedNext(value: int, shift: nat, low: int, high: int)
    ensures (value + (low + 128 * high) * Pow2(shift)) % TWO_64
         == ((value + low * Pow2(shift)) % TWO_64 + high * Pow2(shift + 7)) % TWO_64
  {
    var p := Pow2(shift);
    PowersOfTwo();
    Pow2Sum(7, shift);
    Distribute(low, high, p);
    ModPlus(value + low * p, high * (128 * p));
  }

  lemma Distribute(low: int, high: int, p: int)
    ensures (low + 128 * high) * p == low * p + high * (128 * p)
  {
  }

  lemma ModPlus(a: int, c: int)
    ensures (a % TWO_64 + c) % TWO_64 == (a + c) % TWO_64
  {
  }

  // ---- Round trip -------------------------------------------------------------------------------

  lemma {:induction false} ScanEncode(data: Bytes, i: nat, k: nat, v: nat)
    requires At(data, i, Encode(v)) && k + |Encode(v)| <= 10
    ensures Scan(data, i, k) == Ok((v, i + |Encode(v)|))
    decreases v
  {
    assert data[i] == data[i..i + |Encode(v)|][0];
    if v >= 128 {
      AtConcat(data, i, [v % 128 + 128], Encode(v / 128));
      ScanEncode(data, i + 1, k + 1, v / 128);
    }
  }

  /** Every 64-bit number is read back from its encoding, wherever that stands. */
  lemma ReadEncode(data: Bytes, i: nat, v: Uint64)
    requires At(data, i, Encode(v))
    ensures Read(data, i) == Ok((v, i + |Encode(v)|))
  {
    hide Encode, Pow2, Len64, Scan;
    SizeIsSov(v);
    PowersOfTwo();
    FewBits(if v % 2 == 0 then v + 1 else v, 64);
    ScanEncode(data, i, 0, v);
  }

  // ---- What the bytes mean ----------------------------------------------------------------------

  /** The number that bytes stand for: the low seven bits of each, the first the least significant. */
  function Value(b: Bytes): nat {
    if b == [] then 0 else b[0] % 128 + 128 * Value(b[1..])
  }

  /** The encoding stands for the number, marks all bytes but the last with the high bit, and has no needless byte. */
  lemma {:induction false} EncodeMeans(v: nat)
    ensures var e := Encode(v);
            && |e| >= 1 && Value(e) == v && e[|e| - 1] < 128 && (|e| > 1 ==> e[|e| - 1] != 0)
            && forall i | 0 <= i < |e| - 1 :: 128 <= e[i]
  {
    if v >= 128 {
      EncodeMeans(v / 128);
      assert Encode(v)[1..] == Encode(v / 128);
    } else {
      assert Encode(v)[1..] == [];
    }
  }

  /** What is read does not depend on what follows. */
  lemma {:induction false} ScanLocal(data: Bytes, more: Bytes, i: nat, k: nat)
    requires Scan(data, i, k).Ok?
    ensures Scan(data + more, i, k) == Scan(data, i, k)
    decreases |data| - i
  {
    if data[i] >= 128 {
      ScanLocal(data, more, i + 1, k + 1);
    }
  }

  lemma ReadLocal(data: Bytes, more: Bytes, i: nat)
    requires Read(data, i).Ok?
    ensures Read(data + more, i) == Read(data, i)
  {
    hide Scan;
    ScanLocal(data, more, i, 0);
  }
}

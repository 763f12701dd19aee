/** Fields written into a buffer back to front, and their sizes. */
module WireWriter {
  import opened Basics
  import opened Varint
  import opened Wire

  // ---- Sizes ------------------------------------------------------------------------------------

  lemma ShortTag(num: int, wireType: nat)
    requires 1 <= num < 16 && wireType < 8
    ensures Tag(num, wireType) == [8 * num + wireType]
  {
  }

  lemma BytesFieldSize(num: int, b: Bytes)
    requires 1 <= num < 16 && |b| < TWO_63
    ensures |EncodeField(BytesField(num, b))| == 1 + |b| + Sov(|b|)
  {
    hide Encode, Sov;
    ShortTag(num, WIRE_BYTES);
    SizeIsSov(|b|);
  }

  lemma IntFieldSize(num: int, v: Uint64)
    requires 1 <= num < 16
    ensures |EncodeField(VarintField(num, v))| == 1 + Sov(v)
  {
    hide Encode, Sov;
    ShortTag(num, WIRE_VARINT);
    SizeIsSov(v);
  }

  function BytesSize(b: Bytes): nat {
    if |b| > 0 then 1 + |b| + Sov(|b|) else 0
  }

  function IntSize(v: Uint64): nat {
    if v != 0 then 1 + Sov(v) else 0
  }

  function SizeOf(fs: Fields): nat
    requires ValidFields(fs)
  {
    |EncodeFields(fs)|
  }

  // ---- Writing back to front --------------------------------------------------------------------

  /** From position i to its end the buffer holds the given fields. */
  ghost predicate Holds(buf: array<byte>, i: nat, fs: Fields)
    reads buf
  {
    ValidFields(fs) && i <= buf.Length && buf[i..] == EncodeFields(fs)
  }

  /** Before position i the buffer is as it was. */
  ghost predicate Untouched(buf: array<byte>, i: nat, original: Bytes)
    reads buf
  {
    i <= buf.Length == |original| && buf[..i] == original[..i]
  }

  lemma HoldsSize(buf: array<byte>, i: nat, fs: Fields)
    requires Holds(buf, i, fs)
    ensures i + SizeOf(fs) == buf.Length
  {
  }

  lemma Prepended(buf: array<byte>, before: Bytes, i: nat, start: nat, f: Field, rest: Fields)
    requires ValidField(f) && ValidFields(rest)
    requires start <= |before| && before[start..] == EncodeFields(rest)
    requires i + |EncodeField(f)| == start
    requires buf[..] == before[..i] + (EncodeField(f) + before[start..])
    ensures Holds(buf, i, MoreFields(f, rest)) && buf[..i] == before[..i]
  {
    hide EncodeField;
    var x := EncodeField(f) + before[start..];
    assert buf[i..] == buf[..][i..] == x;
    assert buf[..i] == buf[..][..i] == before[..i];
  }

  method PutBytes(buf: array<byte>, start: nat, num: int, b: Bytes, ghost rest: Fields, ghost original: Bytes)
    returns (i: nat)
    requires 1 <= num < 16 && |b| < TWO_63 && Holds(buf, start, rest) && Untouched(buf, start, original)
    requires 1 + |b| + Sov(|b|) <= start
    modifies buf
    ensures Holds(buf, i, MoreFields(BytesField(num, b), rest))
    ensures Untouched(buf, i, original)
  {
    hide Sov, Encode, EncodeFields, Holds;
    ghost var before := buf[..];
    HoldsTail(buf, start, rest);
    i := PutPayload(buf, start, b);
    i := i - 1;
    buf[i] := 8 * num + WIRE_BYTES;
    ShortTag(num, WIRE_BYTES);
    assert buf[..] == before[..i] + ([8 * num + WIRE_BYTES] + (Encode(|b|) + b) + before[start..]);
    Prepended(buf, before, i, start, BytesField(num, b), rest);
    assert before[..start][..i] == before[..i] && original[..start][..i] == original[..i];
  }

  /** Copies the bytes and writes their length before them. */
  method PutPayload(buf: array<byte>, start: nat, b: Bytes) returns (i: nat)
    requires |b| < TWO_63 && |b| + Sov(|b|) <= start <= buf.Length
    modifies buf
    ensures i + |Encode(|b|) + b| == start && i == start - |b| - Sov(|b|)
    ensures buf[..] == old(buf[..i]) + (Encode(|b|) + b) + old(buf[start..])
  {
    hide Sov, Encode;
    ghost var before := buf[..];
    i := start - |b|;
    Copy(buf, i, b);
    ghost var copied := buf[..];
    i := Put(buf, i, |b|);
    SizeIsSov(|b|);
    PayloadWritten(before, copied, i, start, Encode(|b|), b);
  }

  lemma HoldsTail(buf: array<byte>, i: nat, fs: Fields)
    requires Holds(buf, i, fs)
    ensures ValidFields(fs) && i <= |buf[..]| && buf[..][i..] == EncodeFields(fs)
  {
    assert buf[..][i..] == buf[i..];
  }

  method Copy(buf: array<byte>, i: nat, b: Bytes)
    requires i + |b| <= buf.Length
    modifies buf
    ensures buf[..] == old(buf[..i]) + b + old(buf[i + |b|..])
  {
    forall k | 0 <= k < |b| {
      buf[i + k] := b[k];
    }
  }

  lemma PayloadWritten(before: Bytes, copied: Bytes, i: nat, start: nat, length: Bytes, b: Bytes)
    requires start <= |before| && i + |length| + |b| == start
    requires copied == before[..start - |b|] + b + before[start..]
    ensures copied[..i] + length + copied[start - |b|..] == before[..i] + (length + b) + before[start..]
  {
  }

  method PutInt(buf: array<byte>, start: nat, num: int, v: Uint64, ghost rest: Fields, ghost original: Bytes)
    returns (i: nat)
    requires 1 <= num < 16 && Holds(buf, start, rest) && Untouched(buf, start, original)
    requires 1 + Sov(v) <= start
    modifies buf
    ensures Holds(buf, i, MoreFields(VarintField(num, v), rest))
    ensures Untouched(buf, i, original)
  {
    hide Sov, Encode, EncodeFields, Holds;
    ghost var before := buf[..];
    HoldsTail(buf, start, rest);
    i := Put(buf, start, v);
    SizeIsSov(v);
    i := i - 1;
    buf[i] := 8 * num + WIRE_VARINT;
    ShortTag(num, WIRE_VARINT);
    assert buf[..] == before[..i] + ([8 * num + WIRE_VARINT] + Encode(v) + before[start..]);
    Prepended(buf, before, i, start, VarintField(num, v), rest);
    assert before[..start][..i] == before[..i] && original[..start][..i] == original[..i];
  }
}

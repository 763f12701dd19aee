/** The wire format of an atomic swap: its size, writing it back to front into a buffer, and reading it. */
module SwapCodec {
  import opened Basics
  import opened SwapTypes
  import opened Varint
  import opened Wire

  /** The codec of coins, which belongs to another package. */
  datatype CoinCodec = CoinCodec(encode: Coin -> Bytes, decode: Bytes -> Option<Coin>)

  ghost predicate RoundTrips(codec: CoinCodec) {
    forall c: Coin :: codec.decode(codec.encode(c)) == Some(c)
  }

  const EMPTY := AtomicSwap([], [], 0, 0, [], [], [], [], 0, 0, false, 0)

  // ---- A swap as a list of fields ---------------------------------------------------------------

  function Opt(present: bool, f: Field, rest: Fields): Fields {
    if present then MoreFields(f, rest) else rest
  }

  function CoinFields(codec: CoinCodec, coins: seq<Coin>, rest: Fields): Fields {
    if coins == [] then rest
    else MoreFields(BytesField(1, codec.encode(coins[0])), CoinFields(codec, coins[1..], rest))
  }

  function BytesOf(m: AtomicSwap, num: int): Bytes
    requires IsBytesNumber(num)
  {
    if num == 2 then m.randomNumberHash
    else if num == 5 then m.sender
    else if num == 6 then m.recipient
    else if num == 7 then m.senderOtherChain
    else m.recipientOtherChain
  }

  /** Negative numbers are written as 64-bit words. */
  function IntOf(m: AtomicSwap, num: int): Uint64
    requires IsIntNumber(num)
  {
    if num == 3 then m.expireHeight
    else if num == 4 then ToUint64(m.timestamp)
    else if num == 9 then ToUint64(m.closedBlock)
    else if num == 10 then ToUint64(m.status)
    else if num == 11 then if m.crossChain then 1 else 0
    else ToUint64(m.direction)
  }

  /** The fields from a number on, in order. Those with the default value are left out. */
  function FieldsFrom(m: AtomicSwap, num: int): Fields
    requires 2 <= num <= 13
    decreases 13 - num
  {
    if num == 13 then NoFields
    else if IsBytesNumber(num) then
      Opt(BytesOf(m, num) != [], BytesField(num, BytesOf(m, num)), FieldsFrom(m, num + 1))
    else Opt(IntOf(m, num) != 0, VarintField(num, IntOf(m, num)), FieldsFrom(m, num + 1))
  }

  function FieldsOf(codec: CoinCodec, m: AtomicSwap): Fields {
    CoinFields(codec, m.amount, FieldsFrom(m, 2))
  }

  // ---- What a field means to a reader -----------------------------------------------------------

  predicate IsBytesNumber(num: int) {
    num == 2 || num == 5 || num == 6 || num == 7 || num == 8
  }

  predicate IsIntNumber(num: int) {
    num == 3 || num == 4 || num == 9 || num == 10 || num == 11 || num == 12
  }

  function SetBytes(m: AtomicSwap, num: int, b: Bytes): AtomicSwap {
    if num == 2 then m.(randomNumberHash := b)
    else if num == 5 then m.(sender := b)
    else if num == 6 then m.(recipient := b)
    else if num == 7 then m.(senderOtherChain := b)
    else m.(recipientOtherChain := b)
  }

  function SetInt(m: AtomicSwap, num: int, v: Uint64): AtomicSwap {
    if num == 3 then m.(expireHeight := v)
    else if num == 4 then m.(timestamp := ToInt64(v))
    else if num == 9 then m.(closedBlock := ToInt64(v))
    else if num == 10 then m.(status := ToInt32(v))
    else if num == 11 then m.(crossChain := v != 0)
    else m.(direction := ToInt32(v))
  }

  function AddCoin(codec: CoinCodec, m: AtomicSwap, b: Bytes): Result<AtomicSwap, WireError> {
    match codec.decode(b)
    case None => Err(ErrCoin)
    case Some(c) => Ok(m.(amount := m.amount + [c]))
  }

  /** A known field sets its member, a coin is appended, an unknown field is passed over. */
  function Merge(codec: CoinCodec, m: AtomicSwap, f: Field): Result<AtomicSwap, WireError> {
    if f.num == 1 then if f.BytesField? then AddCoin(codec, m, f.payload) else Err(ErrWrongWireType)
    else if IsBytesNumber(f.num) then
      if f.BytesField? then Ok(SetBytes(m, f.num, f.payload)) else Err(ErrWrongWireType)
    else if IsIntNumber(f.num) then
      if f.VarintField? then Ok(SetInt(m, f.num, f.value)) else Err(ErrWrongWireType)
    else Ok(m)
  }

  function MergeAll(codec: CoinCodec, m: AtomicSwap, fs: Fields): Result<AtomicSwap, WireError>
    decreases fs
  {
    match fs
    case NoFields => Ok(m)
    case MoreFields(head, tail) =>
      match Merge(codec, m, head)
      case Err(e) => Err(e)
      case Ok(next) => MergeAll(codec, next, tail)
  }

  // ---- Reading ----------------------------------------------------------------------------------

  /** Reads one field: the new message and the position after the field. */
  function Step(codec: CoinCodec, m: AtomicSwap, data: Bytes, i: nat): (r: Result<(AtomicSwap, nat), WireError>)
    requires i < |data|
    ensures r.Ok? ==> i < r.value.1 <= |data|
  {
    var (wire, j) :- Read(data, i);
    var num, wireType := ToInt32(wire / 8), wire % 8;
    if wireType == WIRE_END_GROUP then Err(ErrEndGroup)
    else if num <= 0 then Err(ErrIllegalTag)
    else if num == 1 then
      if wireType != WIRE_BYTES then Err(ErrWrongWireType)
      else
        var (from, to) :- Payload(data, j);
        var next :- AddCoin(codec, m, data[from..to]);
        Ok((next, to))
    else if IsBytesNumber(num) then
      if wireType != WIRE_BYTES then Err(ErrWrongWireType)
      else
        var (from, to) :- Payload(data, j);
        Ok((SetBytes(m, num, data[from..to]), to))
    else if IsIntNumber(num) then
      if wireType != WIRE_VARINT then Err(ErrWrongWireType)
      else
        var (v, next) :- Read(data, j);
        Ok((SetInt(m, num, v), next))
    else
      var next :- Unknown(data, i);
      Ok((m, next))
  }

  /** Reads fields from position i to the end of the data. */
  function Decode(codec: CoinCodec, m: AtomicSwap, data: Bytes, i: nat): Result<AtomicSwap, WireError>
    requires i <= |data|
    decreases |data| - i
  {
    if i == |data| then Ok(m)
    else
      match Step(codec, m, data, i)
      case Err(e) => Err(e)
      case Ok((next, j)) => Decode(codec, next, data, j)
  }

  // ---- Reading a list of fields -----------------------------------------------------------------

  /** Reading an encoded field is merging it, errors included. */
  lemma StepField(codec: CoinCodec, m: AtomicSwap, data: Bytes, i: nat, f: Field)
    requires |data| < TWO_63 && ValidField(f) && At(data, i, EncodeField(f)) && i < |data|
    ensures Step(codec, m, data, i)
         == match Merge(codec, m, f)
            case Err(e) => Err(e)
            case Ok(next) => Ok((next, i + |EncodeField(f)|))
  {
    hide Encode, Read, Tag, Payload, Unknown, SetBytes, SetInt, AddCoin;
    TagAt(data, i, f);
    assert ToInt32((8 * f.num + WireType(f)) / 8) == f.num && (8 * f.num + WireType(f)) % 8 == WireType(f);
    var j := i + |Tag(f.num, WireType(f))|;
    if f.num != 1 && !IsBytesNumber(f.num) && !IsIntNumber(f.num) {
      UnknownAt(data, i, f);
    } else if f.BytesField? {
      AtConcat(data, i, Tag(f.num, WIRE_BYTES), Encode(|f.payload|) + f.payload);
      PayloadAt(data, j, f.payload);
    } else if f.VarintField? {
      AtConcat(data, i, Tag(f.num, WIRE_VARINT), Encode(f.value));
      ReadEncode(data, j, f.value);
    }
  }

  /** Reading the encoding of any list of fields is merging them in order: unknown fields do not matter, a later
      value of a field replaces an earlier one, coins accumulate, and a field of the wrong type is an error. */
  lemma {:induction false} DecodeFields(codec: CoinCodec, m: AtomicSwap, data: Bytes, i: nat, fs: Fields)
    requires |data| < TWO_63 && ValidFields(fs) && At(data, i, EncodeFields(fs))
    requires i + |EncodeFields(fs)| == |data|
    ensures Decode(codec, m, data, i) == MergeAll(codec, m, fs)
    decreases fs
  {
    hide EncodeField, Step, Merge;
    if fs.MoreFields? {
      AtConcat(data, i, EncodeField(fs.head), EncodeFields(fs.tail));
      TagAt(data, i, fs.head);
      StepField(codec, m, data, i, fs.head);
      var next := Merge(codec, m, fs.head);
      if next.Ok? {
        DecodeFields(codec, next.value, data, i + |EncodeField(fs.head)|, fs.tail);
      }
    }
  }

  // ---- Round trip -------------------------------------------------------------------------------

  /** Sizes are below the 63 bits of a Go length. */
  predicate Fits(codec: CoinCodec, m: AtomicSwap) {
    && (forall i | 0 <= i < |m.amount| :: |codec.encode(m.amount[i])| < TWO_63)
    && |m.randomNumberHash| < TWO_63 && |m.sender| < TWO_63 && |m.recipient| < TWO_63
    && |m.senderOtherChain| < TWO_63 && |m.recipientOtherChain| < TWO_63
  }

  lemma {:induction false} ValidCoinFields(codec: CoinCodec, coins: seq<Coin>, rest: Fields)
    requires ValidFields(rest) && forall i | 0 <= i < |coins| :: |codec.encode(coins[i])| < TWO_63
    ensures ValidFields(CoinFields(codec, coins, rest))
  {
    if coins != [] {
      ValidCoinFields(codec, coins[1..], rest);
    }
  }

  lemma {:induction false} ValidFieldsFrom(codec: CoinCodec, m: AtomicSwap, num: int)
    requires Fits(codec, m) && 2 <= num <= 13
    ensures ValidFields(FieldsFrom(m, num))
    decreases 13 - num
  {
    hide ToUint64;
    if num < 13 {
      ValidFieldsFrom(codec, m, num + 1);
    }
  }

  lemma ValidFieldsOf(codec: CoinCodec, m: AtomicSwap)
    requires Fits(codec, m)
    ensures ValidFields(FieldsOf(codec, m))
  {
    ValidFieldsFrom(codec, m, 2);
    ValidCoinFields(codec, m.amount, FieldsFrom(m, 2));
  }

  /** The message after all fields below a number have been read. */
  function Partial(m: AtomicSwap, num: int): AtomicSwap {
    AtomicSwap(
      m.amount,
      if 2 < num then m.randomNumberHash else [],
      if 3 < num then m.expireHeight else 0,
      if 4 < num then m.timestamp else 0,
      if 5 < num then m.sender else [],
      if 6 < num then m.recipient else [],
      if 7 < num then m.senderOtherChain else [],
      if 8 < num then m.recipientOtherChain else [],
      if 9 < num then m.closedBlock else 0,
      if 10 < num then m.status else 0,
      11 < num && m.crossChain,
      if 12 < num then m.direction else 0)
  }

  lemma NextPartial(m: AtomicSwap, num: int)
    requires 2 <= num < 13
    ensures IsBytesNumber(num) ==> SetBytes(Partial(m, num), num, BytesOf(m, num)) == Partial(m, num + 1)
    ensures IsIntNumber(num) ==> SetInt(Partial(m, num), num, IntOf(m, num)) == Partial(m, num + 1)
  {
    hide ToInt64, ToInt32, ToUint64;
    SignedWord(m.timestamp);
    SignedWord(m.closedBlock);
    SignedHalf(m.status);
    SignedHalf(m.direction);
  }

  lemma SignedWord(x: Int64)
    ensures ToInt64(ToUint64(x)) == x
  {
  }

  lemma SignedHalf(x: Int32)
    ensures ToInt32(ToUint64(x)) == x
  {
  }

  lemma DefaultSkipped(m: AtomicSwap, num: int)
    requires 2 <= num < 13
    ensures IsBytesNumber(num) && BytesOf(m, num) == [] ==> Partial(m, num + 1) == Partial(m, num)
    ensures IsIntNumber(num) && IntOf(m, num) == 0 ==> Partial(m, num + 1) == Partial(m, num)
  {
  }

  lemma {:induction false} MergeFieldsFrom(codec: CoinCodec, m: AtomicSwap, num: int)
    requires 2 <= num <= 13
    ensures MergeAll(codec, Partial(m, num), FieldsFrom(m, num)) == Ok(m)
    decreases 13 - num
  {
    hide Partial, SetBytes, SetInt, BytesOf, IntOf;
    if num < 13 {
      MergeFieldsFrom(codec, m, num + 1);
      NextPartial(m, num);
      DefaultSkipped(m, num);
    } else {
      WholeMessage(m);
    }
  }

  lemma WholeMessage(m: AtomicSwap)
    ensures Partial(m, 13) == m && Partial(m, 2) == EMPTY.(amount := m.amount)
  {
  }

  lemma {:induction false} MergeCoins(codec: CoinCodec, m: AtomicSwap, coins: seq<Coin>, rest: Fields)
    requires RoundTrips(codec)
    ensures MergeAll(codec, m, CoinFields(codec, coins, rest)) == MergeAll(codec, m.(amount := m.amount + coins), rest)
    decreases coins
  {
    if coins == [] {
      assert m.amount + coins == m.amount;
    } else {
      var next := m.(amount := m.amount + [coins[0]]);
      MergeCoins(codec, next, coins[1..], rest);
      assert next.amount + coins[1..] == m.amount + coins;
    }
  }

  function Marshalled(codec: CoinCodec, m: AtomicSwap): Bytes
    requires Fits(codec, m)
  {
    ValidFieldsOf(codec, m);
    EncodeFields(FieldsOf(codec, m))
  }

  lemma DecodeWhole(codec: CoinCodec, m: AtomicSwap, fs: Fields)
    requires ValidFields(fs) && |EncodeFields(fs)| < TWO_63
    ensures Decode(codec, m, EncodeFields(fs), 0) == MergeAll(codec, m, fs)
  {
    hide EncodeFields, MergeAll, Decode;
    var data := EncodeFields(fs);
    assert data[0..|data|] == data;
    DecodeFields(codec, m, data, 0, fs);
  }

  lemma MergeFieldsOf(codec: CoinCodec, m: AtomicSwap)
    requires RoundTrips(codec)
    ensures MergeAll(codec, EMPTY, FieldsOf(codec, m)) == Ok(m)
  {
    hide MergeAll, Partial, RoundTrips;
    MergeCoins(codec, EMPTY, m.amount, FieldsFrom(m, 2));
    assert EMPTY.amount + m.amount == m.amount;
    WholeMessage(m);
    MergeFieldsFrom(codec, m, 2);
  }

  /** Every swap is read back from its encoding. */
  lemma RoundTrip(codec: CoinCodec, m: AtomicSwap)
    requires RoundTrips(codec) && Fits(codec, m) && |Marshalled(codec, m)| < TWO_63
    ensures Decode(codec, EMPTY, Marshalled(codec, m), 0) == Ok(m)
  {
    hide EncodeFields, MergeAll, Decode, RoundTrips;
    ValidFieldsOf(codec, m);
    DecodeWhole(codec, EMPTY, FieldsOf(codec, m));
    MergeFieldsOf(codec, m);
  }

  // ---- Other writers ----------------------------------------------------------------------------

  predicate IsKnown(num: int) {
    num == 1 || IsBytesNumber(num) || IsIntNumber(num)
  }

  /** The fields whose numbers a swap knows. */
  function Known(fs: Fields): Fields {
    match fs
    case NoFields => NoFields
    case MoreFields(head, tail) => Opt(IsKnown(head.num), head, Known(tail))
  }

  lemma {:induction false} UnknownIgnored(codec: CoinCodec, m: AtomicSwap, fs: Fields)
    ensures MergeAll(codec, m, fs) == MergeAll(codec, m, Known(fs))
    decreases fs
  {
    if fs.MoreFields? {
      var next := Merge(codec, m, fs.head);
      if next.Ok? {
        UnknownIgnored(codec, next.value, fs.tail);
      }
    }
  }

  /** A swap is read back however many fields of other numbers, groups included, stand between its own. */
  lemma RoundTripWithUnknown(codec: CoinCodec, m: AtomicSwap, fs: Fields)
    requires RoundTrips(codec) && Known(fs) == FieldsOf(codec, m)
    requires ValidFields(fs) && |EncodeFields(fs)| < TWO_63
    ensures Decode(codec, EMPTY, EncodeFields(fs), 0) == Ok(m)
  {
    hide EncodeFields, MergeAll, Decode, RoundTrips;
    DecodeWhole(codec, EMPTY, fs);
    UnknownIgnored(codec, EMPTY, fs);
    MergeFieldsOf(codec, m);
  }

  function Append(fs: Fields, gs: Fields): Fields {
    match fs
    case NoFields => gs
    case MoreFields(head, tail) => MoreFields(head, Append(tail, gs))
  }

  lemma {:induction false} EncodeAppend(fs: Fields, gs: Fields)
    requires ValidFields(fs) && ValidFields(gs)
    ensures ValidFields(Append(fs, gs)) && EncodeFields(Append(fs, gs)) == EncodeFields(fs) + EncodeFields(gs)
  {
    hide EncodeField;
    if fs.MoreFields? {
      EncodeAppend(fs.tail, gs);
    }
  }

  lemma {:induction false} MergeAppend(codec: CoinCodec, m: AtomicSwap, fs: Fields, gs: Fields)
    ensures MergeAll(codec, m, Append(fs, gs))
         == match MergeAll(codec, m, fs) case Err(e) => Err(e) case Ok(next) => MergeAll(codec, next, gs)
    decreases fs
  {
    hide Merge;
    if fs.MoreFields? {
      var next := Merge(codec, m, fs.head);
      if next.Ok? {
        MergeAppend(codec, next.value, fs.tail, gs);
      }
    }
  }

  /** Reading two encodings one after the other is reading the second into the result of the first. */
  lemma ConcatenationMerges(codec: CoinCodec, m: AtomicSwap, fs: Fields, gs: Fields)
    requires ValidFields(fs) && ValidFields(gs) && |EncodeFields(fs)| + |EncodeFields(gs)| < TWO_63
    ensures Decode(codec, m, EncodeFields(fs) + EncodeFields(gs), 0)
         == match Decode(codec, m, EncodeFields(fs), 0)
            case Err(e) => Err(e)
            case Ok(next) => Decode(codec, next, EncodeFields(gs), 0)
  {
    hide EncodeFields, MergeAll, Decode;
    EncodeAppend(fs, gs);
    DecodeWhole(codec, m, Append(fs, gs));
    DecodeWhole(codec, m, fs);
    MergeAppend(codec, m, fs, gs);
    var next := MergeAll(codec, m, fs);
    if next.Ok? {
      DecodeWhole(codec, next.value, gs);
    }
  }

  // ---- Bytes of a swap --------------------------------------------------------------------------

  function BytesPart(tag: byte, b: Bytes): Bytes {
    if b == [] then [] else [tag] + Encode(|b|) + b
  }

  function IntPart(tag: byte, v: nat): Bytes {
    if v == 0 then [] else [tag] + Encode(v)
  }

  function CoinParts(codec: CoinCodec, coins: seq<Coin>): Bytes {
    if coins == [] then []
    else [0x0a] + Encode(|codec.encode(coins[0])|) + codec.encode(coins[0]) + CoinParts(codec, coins[1..])
  }

  /** The bytes of a swap, tag by tag. Negative numbers are written as 64-bit words. */
  function SwapBytes(codec: CoinCodec, m: AtomicSwap): Bytes {
    CoinParts(codec, m.amount)
    + (BytesPart(0x12, m.randomNumberHash)
    + (IntPart(0x18, m.expireHeight)
    + (IntPart(0x20, m.timestamp % 0x1_0000_0000_0000_0000)
    + (BytesPart(0x2a, m.sender)
    + (BytesPart(0x32, m.recipient)
    + LateBytes(m))))))
  }

  function LateBytes(m: AtomicSwap): Bytes {
    BytesPart(0x3a, m.senderOtherChain)
    + (BytesPart(0x42, m.recipientOtherChain)
    + (IntPart(0x48, m.closedBlock % 0x1_0000_0000_0000_0000)
    + (IntPart(0x50, m.status % 0x1_0000_0000_0000_0000)
    + ((if m.crossChain then [0x58, 0x01] else [])
    + IntPart(0x60, m.direction % 0x1_0000_0000_0000_0000)))))
  }

  lemma FieldPart(codec: CoinCodec, m: AtomicSwap, num: int)
    requires Fits(codec, m) && 2 <= num < 13
    ensures ValidFields(FieldsFrom(m, num)) && ValidFields(FieldsFrom(m, num + 1))
    ensures EncodeFields(FieldsFrom(m, num))
         == (if IsBytesNumber(num) then BytesPart(8 * num + 2, BytesOf(m, num)) else IntPart(8 * num, IntOf(m, num)))
            + EncodeFields(FieldsFrom(m, num + 1))
  {
    hide EncodeField, BytesOf, IntOf;
    ValidFieldsFrom(codec, m, num);
    ValidFieldsFrom(codec, m, num + 1);
    if IsBytesNumber(num) {
      BytesFieldBytes(num, BytesOf(m, num));
    } else {
      IntFieldBytes(num, IntOf(m, num));
    }
  }

  lemma NoFieldsLeft(m: AtomicSwap)
    ensures FieldsFrom(m, 13) == NoFields && EncodeFields(NoFields) == []
  {
  }

  lemma CrossChainPart(m: AtomicSwap)
    ensures IntPart(0x58, IntOf(m, 11)) == if m.crossChain then [0x58, 0x01] else []
  {
  }

  lemma {:induction false} CoinBytes(codec: CoinCodec, coins: seq<Coin>, rest: Fields)
    requires ValidFields(rest) && forall i | 0 <= i < |coins| :: |codec.encode(coins[i])| < TWO_63
    ensures ValidFields(CoinFields(codec, coins, rest))
    ensures EncodeFields(CoinFields(codec, coins, rest)) == CoinParts(codec, coins) + EncodeFields(rest)
  {
    hide EncodeField, Encode;
    ValidCoinFields(codec, coins, rest);
    if coins != [] {
      CoinBytes(codec, coins[1..], rest);
      BytesFieldBytes(1, codec.encode(coins[0]));
    }
  }

  /** The encoding of every swap, byte for byte. */
  lemma MarshalledBytes(codec: CoinCodec, m: AtomicSwap)
    requires Fits(codec, m)
    ensures Marshalled(codec, m) == SwapBytes(codec, m)
  {
    hide FieldsFrom, EncodeFields, BytesPart, IntPart, CoinParts, Fits;
    FixedParts(codec, m);
    FitsCoins(codec, m);
    CoinBytes(codec, m.amount, FieldsFrom(m, 2));
  }

  lemma FitsCoins(codec: CoinCodec, m: AtomicSwap)
    requires Fits(codec, m)
    ensures forall i | 0 <= i < |m.amount| :: |codec.encode(m.amount[i])| < TWO_63
  {
  }

  lemma FixedParts(codec: CoinCodec, m: AtomicSwap)
    requires Fits(codec, m)
    ensures ValidFields(FieldsFrom(m, 2))
    ensures CoinParts(codec, m.amount) + EncodeFields(FieldsFrom(m, 2)) == SwapBytes(codec, m)
  {
    hide FieldsFrom, EncodeFields, BytesPart, IntPart, CoinParts, Fits, LateBytes;
    FieldPart(codec, m, 2);
    FieldPart(codec, m, 3);
    FieldPart(codec, m, 4);
    FieldPart(codec, m, 5);
    FieldPart(codec, m, 6);
    LateParts(codec, m);
  }

  lemma LateParts(codec: CoinCodec, m: AtomicSwap)
    requires Fits(codec, m)
    ensures ValidFields(FieldsFrom(m, 7)) && EncodeFields(FieldsFrom(m, 7)) == LateBytes(m)
  {
    hide FieldsFrom, EncodeFields, BytesPart, IntPart, Fits;
    FieldPart(codec, m, 7);
    FieldPart(codec, m, 8);
    FieldPart(codec, m, 9);
    FieldPart(codec, m, 10);
    FieldPart(codec, m, 11);
    FieldPart(codec, m, 12);
    CrossChainPart(m);
    NoFieldsLeft(m);
    var last := IntPart(0x60, IntOf(m, 12));
    assert last + [] == last;
  }

  // ---- What is refused --------------------------------------------------------------------------

  /** A field number that is zero or negative in 32 bits, or an end of a group, is refused. */
  lemma BadTagRefused(codec: CoinCodec, m: AtomicSwap, data: Bytes, i: nat, wire: Uint64)
    requires At(data, i, Encode(wire)) && i < |data|
    ensures wire % 8 == 4 ==> Step(codec, m, data, i) == Err(ErrEndGroup)
    ensures wire % 8 != 4 && (wire / 8 % 0x1_0000_0000 == 0 || wire / 8 % 0x1_0000_0000 >= 0x8000_0000) ==>
              Step(codec, m, data, i) == Err(ErrIllegalTag)
  {
    hide Read, Encode, Payload, Unknown;
    ReadEncode(data, i, wire);
  }

  lemma StepLocal(codec: CoinCodec, m: AtomicSwap, data: Bytes, more: Bytes, i: nat)
    requires i < |data| && Step(codec, m, data, i).Ok?
    ensures Step(codec, m, data + more, i) == Step(codec, m, data, i)
  {
    hide Read, Payload, Unknown, SetBytes, SetInt, AddCoin;
    ReadLocal(data, more, i);
    var (wire, j) := Read(data, i).value;
    var num := ToInt32(wire / 8);
    if num == 1 || IsBytesNumber(num) {
      PayloadLocal(data, more, j);
      var (from, to) := Payload(data, j).value;
      assert (data + more)[from..to] == data[from..to];
    } else if IsIntNumber(num) {
      ReadLocal(data, more, j);
    } else {
      UnknownLocal(data, more, i);
    }
  }

  /** A field that is cut short is refused, wherever the cut falls and whatever the field is. */
  lemma TruncatedFieldRefused(codec: CoinCodec, m: AtomicSwap, data: Bytes, more: Bytes, i: nat, f: Field)
    requires |data + more| < TWO_63 && ValidField(f) && At(data + more, i, EncodeField(f))
    requires i < |data| < i + |EncodeField(f)|
    ensures Step(codec, m, data, i).Err?
  {
    hide EncodeField, Step, Merge;
    if Step(codec, m, data, i).Ok? {
      StepLocal(codec, m, data, more, i);
      StepField(codec, m, data + more, i, f);
      StepAdvances(codec, m, data, i);
      assert false;
    }
  }

  lemma StepAdvances(codec: CoinCodec, m: AtomicSwap, data: Bytes, i: nat)
    requires i < |data| && Step(codec, m, data, i).Ok?
    ensures i < Step(codec, m, data, i).value.1 <= |data|
  {
  }
}

/** Fields on the wire and the skipper for fields that a message does not know, with nested groups. */
module Wire {
  import opened Basics
  import opened Varint

  const WIRE_VARINT := 0
  const WIRE_FIXED64 := 1
  const WIRE_BYTES := 2
  const WIRE_START_GROUP := 3
  const WIRE_END_GROUP := 4
  const WIRE_FIXED32 := 5

  // ---- Fields -----------------------------------------------------------------------------------

  datatype Field =
    | VarintField(num: int, value: Uint64)
    | Fixed64Field(num: int, eight: Bytes)
    | BytesField(num: int, payload: Bytes)
    | GroupField(num: int, fields: Fields)
    | Fixed32Field(num: int, four: Bytes)

  datatype Fields = NoFields | MoreFields(head: Field, tail: Fields)

  /** Field numbers have 29 bits. */
  predicate ValidNumber(num: int) {
    1 <= num < 0x2000_0000
  }

  function Tag(num: int, wireType: nat): Bytes
    requires ValidNumber(num) && wireType < 8
  {
    Encode(8 * num + wireType)
  }

  predicate ValidField(f: Field) {
    && ValidNumber(f.num)
    && match f
       case VarintField(_, _) => true
       case Fixed64Field(_, eight) => |eight| == 8
       case BytesField(_, payload) => |payload| < TWO_63
       case GroupField(_, fields) => ValidFields(fields)
       case Fixed32Field(_, four) => |four| == 4
  }

  predicate ValidFields(fs: Fields) {
    fs.MoreFields? ==> ValidField(fs.head) && ValidFields(fs.tail)
  }

  function EncodeField(f: Field): Bytes
    requires ValidField(f)
  {
    match f
    case VarintField(num, value) => Tag(num, WIRE_VARINT) + Encode(value)
    case Fixed64Field(num, eight) => Tag(num, WIRE_FIXED64) + eight
    case BytesField(num, payload) => Tag(num, WIRE_BYTES) + (Encode(|payload|) + payload)
    case GroupField(num, fields) => Tag(num, WIRE_START_GROUP) + (EncodeFields(fields) + Tag(num, WIRE_END_GROUP))
    case Fixed32Field(num, four) => Tag(num, WIRE_FIXED32) + four
  }

  function EncodeFields(fs: Fields): Bytes
    requires ValidFields(fs)
  {
    match fs
    case NoFields => []
    case MoreFields(head, tail) => EncodeField(head) + EncodeFields(tail)
  }

  // ---- The skipper ------------------------------------------------------------------------------

  /** Skips what follows a tag and gives the new position and depth. The position is not checked against the end of
      the data. */
  function SkipValue(data: Bytes, i: nat, wireType: nat, depth: nat): Result<(nat, nat), WireError> {
    if wireType == WIRE_VARINT then
      match Read(data, i)
      case Err(e) => Err(e)
      case Ok((_, next)) => Ok((next, depth))
    else if wireType == WIRE_FIXED64 then Ok((i + 8, depth))
    else if wireType == WIRE_BYTES then
      match Read(data, i)
      case Err(e) => Err(e)
      case Ok((v, next)) =>
        var length := ToInt64(v);
        if length < 0 then Err(ErrInvalidLength) else Ok((next + length, depth))
    else if wireType == WIRE_START_GROUP then Ok((i, depth + 1))
    else if wireType == WIRE_END_GROUP then if depth == 0 then Err(ErrUnexpectedEndOfGroup) else Ok((i, depth - 1))
    else if wireType == WIRE_FIXED32 then Ok((i + 4, depth))
    else Err(ErrIllegalWireType)
  }

  /** The position after the field at i, inside the given number of groups. A position beyond 63 bits is negative in
      the source. */
  function SkipFrom(data: Bytes, i: nat, depth: nat): Result<nat, WireError>
    decreases |data| - i
  {
    if i >= |data| then Err(ErrUnexpectedEOF)
    else
      match Read(data, i)
      case Err(e) => Err(e)
      case Ok((wire, j)) =>
        match SkipValue(data, j, wire % 8, depth)
        case Err(e) => Err(e)
        case Ok((next, d)) =>
          SkipValueAdvances(data, j, wire % 8, depth);
          if next >= TWO_63 then Err(ErrInvalidLength) else if d == 0 then Ok(next) else SkipFrom(data, next, d)
  }

  lemma SkipValueAdvances(data: Bytes, i: nat, wireType: nat, depth: nat)
    ensures var r := SkipValue(data, i, wireType, depth); r.Ok? ==> i <= r.value.0
  {
  }

  function Skip(data: Bytes): Result<nat, WireError> {
    SkipFrom(data, 0, 0)
  }

  /** A successful skip makes progress, so the loops that call it end. */
  lemma {:induction false} SkipAdvances(data: Bytes, i: nat, depth: nat)
    ensures SkipFrom(data, i, depth).Ok? ==> i < SkipFrom(data, i, depth).value < TWO_63
    decreases |data| - i
  {
    hide Read;
    if i < |data| && Read(data, i).Ok? {
      var (wire, j) := Read(data, i).value;
      SkipValueAdvances(data, j, wire % 8, depth);
      var r := SkipValue(data, j, wire % 8, depth);
      if r.Ok? {
        SkipAdvances(data, r.value.0, r.value.1);
      }
    }
  }

  method SkipLoop(data: Bytes) returns (r: Result<nat, WireError>)
    ensures r == Skip(data)
    ensures r.Ok? ==> 0 < r.value
  {
    hide Read, SkipValue;
    SkipAdvances(data, 0, 0);
    var i, depth := 0, 0;
    while i < |data|
      invariant 0 <= i && 0 <= depth
      invariant SkipFrom(data, i, depth) == Skip(data)
      decreases |data| - i
    {
      var tag := ReadLoop(data, i);
      if tag.Err? {
        return Err(tag.error);
      }
      var (wire, j) := tag.value;
      var value := SkipValueLoop(data, j, wire % 8, depth);
      SkipValueAdvances(data, j, wire % 8, depth);
      if value.Err? {
        return Err(value.error);
      }
      i, depth := value.value.0, value.value.1;
      if i >= TWO_63 {
        return Err(ErrInvalidLength);
      }
      if depth == 0 {
        return Ok(i);
      }
    }
    return Err(ErrUnexpectedEOF);
  }

  method SkipValueLoop(data: Bytes, start: nat, wireType: nat, nested: nat) returns (r: Result<(nat, nat), WireError>)
    ensures r == SkipValue(data, start, wireType, nested)
  {
    hide Read;
    var i, depth := start, nested;
    if wireType == WIRE_VARINT {
      var v := ReadLoop(data, i);
      if v.Err? {
        return Err(v.error);
      }
      i := v.value.1;
    } else if wireType == WIRE_FIXED64 {
      i := i + 8;
    } else if wireType == WIRE_BYTES {
      var v := ReadLoop(data, i);
      if v.Err? {
        return Err(v.error);
      }
      var length := ToInt64(v.value.0);
      if length < 0 {
        return Err(ErrInvalidLength);
      }
      i := v.value.1 + length;
    } else if wireType == WIRE_START_GROUP {
      depth := depth + 1;
    } else if wireType == WIRE_END_GROUP {
      if depth == 0 {
        return Err(ErrUnexpectedEndOfGroup);
      }
      depth := depth - 1;
    } else if wireType == WIRE_FIXED32 {
      i := i + 4;
    } else {
      return Err(ErrIllegalWireType);
    }
    return Ok((i, depth));
  }

  // ---- Skipping a field -------------------------------------------------------------------------

  lemma TagRead(data: Bytes, i: nat, num: int, wireType: nat)
    requires ValidNumber(num) && wireType < 8 && At(data, i, Tag(num, wireType))
    ensures Read(data, i) == Ok((8 * num + wireType, i + |Tag(num, wireType)|))
    ensures (8 * num + wireType) % 8 == wireType && (8 * num + wireType) / 8 == num
    ensures i < |data|
  {
    hide Encode, Read;
    SizeIsSov(8 * num + wireType);
    ReadEncode(data, i, 8 * num + wireType);
  }

  lemma PayloadRead(data: Bytes, i: nat, payload: Bytes)
    requires |payload| < TWO_63 && At(data, i, Encode(|payload|) + payload)
    ensures var j := i + |Encode(|payload|)|;
            && Read(data, i) == Ok((|payload|, j))
            && ToInt64(|payload|) == |payload|
            && At(data, j, payload)
  {
    hide Encode, Read;
    AtConcat(data, i, Encode(|payload|), payload);
    ReadEncode(data, i, |payload|);
  }

  /** The skipper passes over exactly one encoded field, however deeply its groups are nested. */
  lemma {:induction false} SkipOne(data: Bytes, i: nat, depth: nat, f: Field)
    requires |data| < TWO_63 && ValidField(f) && At(data, i, EncodeField(f))
    ensures var next := i + |EncodeField(f)|;
            SkipFrom(data, i, depth) == if depth == 0 then Ok(next) else SkipFrom(data, next, depth)
    decreases f
  {
    hide Encode, Read, Tag, SkipFrom;
    match f {
      case VarintField(num, value) =>
        AtConcat(data, i, Tag(num, WIRE_VARINT), Encode(value));
        ReadEncode(data, i + |Tag(num, WIRE_VARINT)|, value);
        SkipPlain(data, i, depth, num, WIRE_VARINT, Encode(value));
      case Fixed64Field(num, eight) =>
        SkipPlain(data, i, depth, num, WIRE_FIXED64, eight);
      case BytesField(num, payload) =>
        AtConcat(data, i, Tag(num, WIRE_BYTES), Encode(|payload|) + payload);
        PayloadRead(data, i + |Tag(num, WIRE_BYTES)|, payload);
        SkipPlain(data, i, depth, num, WIRE_BYTES, Encode(|payload|) + payload);
      case GroupField(num, fields) =>
        SkipGroup(data, i, depth, num, fields);
      case Fixed32Field(num, four) =>
        SkipPlain(data, i, depth, num, WIRE_FIXED32, four);
    }
  }

  lemma SkipTag(data: Bytes, i: nat, depth: nat, num: int, wireType: nat, next: nat, d: nat)
    requires ValidNumber(num) && wireType < 8 && At(data, i, Tag(num, wireType)) && next < TWO_63
    requires SkipValue(data, i + |Tag(num, wireType)|, wireType, depth) == Ok((next, d))
    ensures SkipFrom(data, i, depth) == if d == 0 then Ok(next) else SkipFrom(data, next, d)
  {
    hide Read, Tag, SkipValue;
    TagRead(data, i, num, wireType);
  }

  lemma SkipPlain(data: Bytes, i: nat, depth: nat, num: int, wireType: nat, value: Bytes)
    requires |data| < TWO_63 && ValidNumber(num) && wireType < 8 && At(data, i, Tag(num, wireType) + value)
    requires var j := i + |Tag(num, wireType)|; SkipValue(data, j, wireType, depth) == Ok((j + |value|, depth))
    ensures var next := i + |Tag(num, wireType) + value|;
            SkipFrom(data, i, depth) == if depth == 0 then Ok(next) else SkipFrom(data, next, depth)
  {
    hide SkipFrom, Tag, SkipValue;
    AtConcat(data, i, Tag(num, wireType), value);
    SkipTag(data, i, depth, num, wireType, i + |Tag(num, wireType) + value|, depth);
  }

  lemma {:induction false} SkipGroup(data: Bytes, i: nat, depth: nat, num: int, fields: Fields)
    requires |data| < TWO_63 && ValidNumber(num) && ValidFields(fields)
    requires At(data, i, EncodeField(GroupField(num, fields)))
    ensures var next := i + |EncodeField(GroupField(num, fields))|;
            SkipFrom(data, i, depth) == if depth == 0 then Ok(next) else SkipFrom(data, next, depth)
    decreases fields, 1
  {
    hide Encode, Read, Tag, EncodeFields, SkipFrom;
    var open, inner, close := Tag(num, WIRE_START_GROUP), EncodeFields(fields), Tag(num, WIRE_END_GROUP);
    AtConcat(data, i, open, inner + close);
    AtConcat(data, i + |open|, inner, close);
    var first, last := i + |open|, i + |open| + |inner|;
    SkipTag(data, i, depth, num, WIRE_START_GROUP, first, depth + 1);
    SkipAll(data, first, depth + 1, fields);
    SkipTag(data, last, depth + 1, num, WIRE_END_GROUP, last + |close|, depth);
  }

  lemma {:induction false} SkipAll(data: Bytes, i: nat, depth: nat, fs: Fields)
    requires |data| < TWO_63 && depth > 0 && ValidFields(fs) && At(data, i, EncodeFields(fs))
    ensures SkipFrom(data, i, depth) == SkipFrom(data, i + |EncodeFields(fs)|, depth)
    decreases fs, 0
  {
    hide SkipFrom;
    if fs.MoreFields? {
      AtConcat(data, i, EncodeField(fs.head), EncodeFields(fs.tail));
      SkipOne(data, i, depth, fs.head);
      SkipAll(data, i + |EncodeField(fs.head)|, depth, fs.tail);
    }
  }

  // ---- Reading the parts of a message ------------------------------------------------------------

  function WireType(f: Field): nat {
    match f
    case VarintField(_, _) => WIRE_VARINT
    case Fixed64Field(_, _) => WIRE_FIXED64
    case BytesField(_, _) => WIRE_BYTES
    case GroupField(_, _) => WIRE_START_GROUP
    case Fixed32Field(_, _) => WIRE_FIXED32
  }

  /** Where the payload of a length-delimited field begins and ends. */
  function Payload(data: Bytes, i: nat): (r: Result<(nat, nat), WireError>)
    ensures r.Ok? ==> i < r.value.0 <= r.value.1 <= |data|
  {
    match Read(data, i)
    case Err(e) => Err(e)
    case Ok((v, from)) =>
      var length := ToInt64(v);
      if length < 0 || from + length >= TWO_63 then Err(ErrInvalidLength)
      else if from + length > |data| then Err(ErrUnexpectedEOF)
      else Ok((from, from + length))
  }

  function Unknown(data: Bytes, i: nat): (r: Result<nat, WireError>)
    requires i <= |data|
    ensures r.Ok? ==> i < r.value <= |data|
  {
    match Skip(data[i..])
    case Err(e) => Err(e)
    case Ok(n) =>
      SkipAdvances(data[i..], 0, 0);
      if i + n >= TWO_63 then Err(ErrInvalidLength)
      else if i + n > |data| then Err(ErrUnexpectedEOF)
      else Ok(i + n)
  }

  /** Reads a field of bytes. */
  method ReadPayload(data: Bytes, start: nat) returns (r: Result<(nat, nat), WireError>)
    ensures r == Payload(data, start)
  {
    hide Read;
    var v := ReadLoop(data, start);
    if v.Err? {
      return Err(v.error);
    }
    var length := ToInt64(v.value.0);
    if length < 0 {
      return Err(ErrInvalidLength);
    }
    var postIndex := v.value.1 + length;
    if postIndex >= TWO_63 {
      return Err(ErrInvalidLength);
    }
    if postIndex > |data| {
      return Err(ErrUnexpectedEOF);
    }
    return Ok((v.value.1, postIndex));
  }

  /** Passes over a field whose number the message does not know. */
  method SkipUnknown(data: Bytes, start: nat) returns (r: Result<nat, WireError>)
    requires start <= |data|
    ensures r == Unknown(data, start)
  {
    hide Skip;
    var skipped := SkipLoop(data[start..]);
    if skipped.Err? {
      return Err(skipped.error);
    }
    if start + skipped.value >= TWO_63 {
      return Err(ErrInvalidLength);
    }
    if start + skipped.value > |data| {
      return Err(ErrUnexpectedEOF);
    }
    return Ok(start + skipped.value);
  }

  lemma PayloadAt(data: Bytes, i: nat, payload: Bytes)
    requires |data| < TWO_63 && At(data, i, Encode(|payload|) + payload)
    ensures var end := i + |Encode(|payload|) + payload|;
            && Payload(data, i) == Ok((end - |payload|, end))
            && data[end - |payload|..end] == payload
  {
    hide Encode, Read;
    PayloadRead(data, i, payload);
  }

  lemma UnknownAt(data: Bytes, i: nat, f: Field)
    requires |data| < TWO_63 && ValidField(f) && At(data, i, EncodeField(f))
    ensures Unknown(data, i) == Ok(i + |EncodeField(f)|)
  {
    hide EncodeField, SkipFrom;
    var rest, x := data[i..], EncodeField(f);
    assert rest[0..|x|] == data[i..i + |x|];
    SkipOne(rest, 0, 0, f);
  }

  lemma TagAt(data: Bytes, i: nat, f: Field)
    requires ValidField(f) && At(data, i, EncodeField(f))
    ensures At(data, i, Tag(f.num, WireType(f)))
    ensures Read(data, i) == Ok((8 * f.num + WireType(f), i + |Tag(f.num, WireType(f))|))
    ensures i < |data|
  {
    hide Encode, Read, Tag;
    var tag := Tag(f.num, WireType(f));
    match f {
      case VarintField(_, value) => AtConcat(data, i, tag, Encode(value));
      case Fixed64Field(_, eight) => AtConcat(data, i, tag, eight);
      case BytesField(_, payload) => AtConcat(data, i, tag, Encode(|payload|) + payload);
      case GroupField(num, fields) => AtConcat(data, i, tag, EncodeFields(fields) + Tag(num, WIRE_END_GROUP));
      case Fixed32Field(_, four) => AtConcat(data, i, tag, four);
    }
    TagRead(data, i, f.num, WireType(f));
  }

  // ---- Bytes of fields --------------------------------------------------------------------------

  /** The bytes of every kind of field: the number and a wire type from 0 to 5 in one varint, then the value. */
  lemma FieldLayout(f: Field)
    requires ValidField(f)
    ensures EncodeField(f) ==
              match f
              case VarintField(num, value) => Encode(8 * num) + Encode(value)
              case Fixed64Field(num, eight) => Encode(8 * num + 1) + eight
              case BytesField(num, payload) => Encode(8 * num + 2) + Encode(|payload|) + payload
              case GroupField(num, fields) => Encode(8 * num + 3) + EncodeFields(fields) + Encode(8 * num + 4)
              case Fixed32Field(num, four) => Encode(8 * num + 5) + four
    ensures f.Fixed64Field? ==> |f.eight| == 8
    ensures f.Fixed32Field? ==> |f.four| == 4
  {
    hide Encode;
  }

  lemma BytesFieldBytes(num: int, b: Bytes)
    requires 1 <= num < 16 && |b| < TWO_63
    ensures EncodeField(BytesField(num, b)) == [8 * num + 2] + Encode(|b|) + b
  {
    FieldLayout(BytesField(num, b));
    assert Encode(8 * num + 2) == [8 * num + 2];
  }

  lemma IntFieldBytes(num: int, v: Uint64)
    requires 1 <= num < 16
    ensures EncodeField(VarintField(num, v)) == [8 * num] + Encode(v)
  {
    FieldLayout(VarintField(num, v));
    assert Encode(8 * num) == [8 * num];
  }

  // ---- What is read does not depend on what follows ---------------------------------------------

  lemma SkipValueLocal(data: Bytes, more: Bytes, i: nat, wireType: nat, depth: nat)
    requires SkipValue(data, i, wireType, depth).Ok?
    ensures SkipValue(data + more, i, wireType, depth) == SkipValue(data, i, wireType, depth)
  {
    hide Read;
    if wireType == WIRE_VARINT || wireType == WIRE_BYTES {
      ReadLocal(data, more, i);
    }
  }

  lemma {:induction false} SkipLocal(data: Bytes, more: Bytes, i: nat, depth: nat)
    requires SkipFrom(data, i, depth).Ok?
    ensures SkipFrom(data + more, i, depth) == SkipFrom(data, i, depth)
    decreases |data| - i
  {
    hide Read, SkipValue;
    ReadLocal(data, more, i);
    var (wire, j) := Read(data, i).value;
    SkipValueLocal(data, more, j, wire % 8, depth);
    SkipValueAdvances(data, j, wire % 8, depth);
    var (next, d) := SkipValue(data, j, wire % 8, depth).value;
    if d != 0 {
      SkipLocal(data, more, next, d);
    }
  }

  lemma PayloadLocal(data: Bytes, more: Bytes, i: nat)
    requires Payload(data, i).Ok?
    ensures Payload(data + more, i) == Payload(data, i)
  {
    hide Read;
    ReadLocal(data, more, i);
  }

  lemma UnknownLocal(data: Bytes, more: Bytes, i: nat)
    requires i <= |data| && Unknown(data, i).Ok?
    ensures Unknown(data + more, i) == Unknown(data, i)
  {
    hide SkipFrom;
    assert (data + more)[i..] == data[i..] + more;
    SkipLocal(data[i..], more, 0, 0);
  }
}

/** The wire format of a VRF public key, a message with one field of bytes. */
module KeyCodec {
  import opened Basics
  import opened Varint
  import opened Wire
  import opened WireWriter

  function FieldsOf(key: Bytes): Fields {
    if key == [] then NoFields else MoreFields(BytesField(1, key), NoFields)
  }

  /** A later key replaces an earlier one; fields with other numbers are passed over. */
  function MergeAll(key: Bytes, fs: Fields): Result<Bytes, WireError>
    decreases fs
  {
    match fs
    case NoFields => Ok(key)
    case MoreFields(head, tail) =>
      if head.num != 1 then MergeAll(key, tail)
      else if head.BytesField? then MergeAll(head.payload, tail)
      else Err(ErrWrongWireType)
  }

  function Step(key: Bytes, data: Bytes, i: nat): (r: Result<(Bytes, nat), WireError>)
    requires i < |data|
    ensures r.Ok? ==> i < r.value.1 <= |data|
  {
    var (wire, j) :- Read(data, i);
    var num, wireType := ToInt32(wire / 8), wire % 8;
    if wireType == WIRE_END_GROUP then Err(ErrEndGroup)
    else if num <= 0 then Err(ErrIllegalTag)
    else if num == 1 then
      if wireType != WIRE_BYTES then Err(ErrWrongWireType)
      else
        var (from, to) :- Payload(data, j);
        Ok((data[from..to], to))
    else
      var next :- Unknown(data, i);
      Ok((key, next))
  }

  function Decode(key: Bytes, data: Bytes, i: nat): Result<Bytes, WireError>
    requires i <= |data|
    decreases |data| - i
  {
    if i == |data| then Ok(key)
    else
      match Step(key, data, i)
      case Err(e) => Err(e)
      case Ok((next, j)) => Decode(next, data, j)
  }

  lemma StepField(key: Bytes, data: Bytes, i: nat, f: Field)
    requires |data| < TWO_63 && ValidField(f) && At(data, i, EncodeField(f)) && i < |data|
    ensures Step(key, data, i)
         == if f.num != 1 then Ok((key, i + |EncodeField(f)|))
            else if f.BytesField? then Ok((f.payload, i + |EncodeField(f)|))
            else Err(ErrWrongWireType)
  {
    hide Encode, Read, Tag, Payload, Unknown;
    TagAt(data, i, f);
    assert ToInt32((8 * f.num + WireType(f)) / 8) == f.num && (8 * f.num + WireType(f)) % 8 == WireType(f);
    if f.num != 1 {
      UnknownAt(data, i, f);
    } else if f.BytesField? {
      AtConcat(data, i, Tag(1, WIRE_BYTES), Encode(|f.payload|) + f.payload);
      PayloadAt(data, i + |Tag(1, WIRE_BYTES)|, f.payload);
    }
  }

  /** Reading the encoding of any list of fields is merging them in order. */
  lemma {:induction false} DecodeFields(key: Bytes, data: Bytes, i: nat, fs: Fields)
    requires |data| < TWO_63 && ValidFields(fs) && At(data, i, EncodeFields(fs))
    requires i + |EncodeFields(fs)| == |data|
    ensures Decode(key, data, i) == MergeAll(key, fs)
    decreases fs
  {
    hide EncodeField, Step;
    if fs.MoreFields? {
      AtConcat(data, i, EncodeField(fs.head), EncodeFields(fs.tail));
      TagAt(data, i, fs.head);
      StepField(key, data, i, fs.head);
      var next := Step(key, data, i);
      if next.Ok? {
        DecodeFields(next.value.0, data, next.value.1, fs.tail);
      }
    }
  }

  function Marshalled(key: Bytes): Bytes
    requires |key| < TWO_63
  {
    ValidFieldsOf(key);
    EncodeFields(FieldsOf(key))
  }

  lemma ValidFieldsOf(key: Bytes)
    requires |key| < TWO_63
    ensures ValidFields(FieldsOf(key))
    ensures EncodeFields(FieldsOf(key)) == if key == [] then [] else EncodeField(BytesField(1, key))
  {
    hide EncodeField;
    assert ValidFields(NoFields) && EncodeFields(NoFields) == [];
  }

  /** Every key is read back from its encoding, the empty one too. */
  lemma RoundTrip(key: Bytes)
    requires |key| < TWO_63 && |Marshalled(key)| < TWO_63
    ensures Decode([], Marshalled(key), 0) == Ok(key)
  {
    hide EncodeFields, Decode;
    var data := Marshalled(key);
    assert data[0..|data|] == data;
    DecodeFields([], data, 0, FieldsOf(key));
  }

  class PubKey {
    var key: Bytes

    constructor (k: Bytes)
      ensures key == k
    {
      key := k;
    }

    method Size() returns (n: nat)
      requires |key| < TWO_63
      ensures n == |Marshalled(key)|
    {
      hide EncodeField, Sov;
      BytesFieldSize(1, key);
      ValidFieldsOf(key);
      n := 0;
      if |key| > 0 {
        n := n + 1 + |key| + Sov(|key|);
      }
    }

    method Marshal() returns (data: array<byte>)
      requires |key| < TWO_63
      ensures data[..] == Marshalled(key)
    {
      hide EncodeField, Sov;
      var size := Size();
      data := new byte[size];
      if |key| > 0 {
        BytesFieldSize(1, key);
        var i := PutBytes(data, size, 1, key, NoFields, data[..]);
        HoldsSize(data, i, FieldsOf(key));
        assert data[..] == data[i..];
      }
    }

    method Unmarshal(data: Bytes) returns (err: Option<WireError>)
      modifies this
      ensures match Decode(old(key), data, 0)
              case Ok(k) => err == None && key == k
              case Err(e) => err == Some(e)
    {
      hide Read, Payload, Unknown;
      var i: nat := 0;
      while i < |data|
        invariant i <= |data|
        invariant Decode(key, data, i) == Decode(old(key), data, 0)
        decreases |data| - i
      {
        var tag := ReadLoop(data, i);
        if tag.Err? {
          return Some(tag.error);
        }
        var (wire, j) := tag.value;
        var fieldNum, wireType := ToInt32(wire / 8), wire % 8;
        if wireType == WIRE_END_GROUP {
          return Some(ErrEndGroup);
        }
        if fieldNum <= 0 {
          return Some(ErrIllegalTag);
        }
        if fieldNum == 1 {
          if wireType != WIRE_BYTES {
            return Some(ErrWrongWireType);
          }
          var payload := ReadPayload(data, j);
          if payload.Err? {
            return Some(payload.error);
          }
          key := data[payload.value.0..payload.value.1];
          i := payload.value.1;
        } else {
          var next := SkipUnknown(data, i);
          if next.Err? {
            return Some(next.error);
          }
          i := next.value;
        }
      }
      return None;
    }
  }

  /** The encoding of every key, byte for byte. */
  lemma MarshalledBytes(key: Bytes)
    requires |key| < TWO_63
    ensures Marshalled(key) == if key == [] then [] else [0x0a] + Encode(|key|) + key
  {
    hide Encode, EncodeField, EncodeFields;
    ValidFieldsOf(key);
    BytesFieldBytes(1, key);
  }

  /** A field number that is zero or negative in 32 bits, or an end of a group, is refused. */
  lemma BadTagRefused(key: Bytes, data: Bytes, i: nat, wire: Uint64)
    requires At(data, i, Encode(wire)) && i < |data|
    ensures wire % 8 == 4 ==> Step(key, data, i) == Err(ErrEndGroup)
    ensures wire % 8 != 4 && (wire / 8 % 0x1_0000_0000 == 0 || wire / 8 % 0x1_0000_0000 >= 0x8000_0000) ==>
              Step(key, data, i) == Err(ErrIllegalTag)
  {
    hide Read, Encode, Payload, Unknown;
    ReadEncode(data, i, wire);
  }
}

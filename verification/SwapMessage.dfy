/** The generated methods of the swap message: Size, Marshal and Unmarshal. */
module SwapMessage {
  import opened Basics
  import opened SwapTypes
  import opened Varint
  import opened Wire
  import opened WireWriter
  import opened SwapCodec

  // ---- Sizes ------------------------------------------------------------------------------------

  lemma SizeFrom(codec: CoinCodec, m: AtomicSwap, num: int)
    requires Fits(codec, m) && 2 <= num < 13
    ensures ValidFields(FieldsFrom(m, num)) && ValidFields(FieldsFrom(m, num + 1))
    ensures SizeOf(FieldsFrom(m, num))
         == SizeOf(FieldsFrom(m, num + 1))
            + if IsBytesNumber(num) then BytesSize(BytesOf(m, num)) else IntSize(IntOf(m, num))
  {
    hide EncodeField, Sov;
    ValidFieldsFrom(codec, m, num);
    ValidFieldsFrom(codec, m, num + 1);
    if IsBytesNumber(num) {
      BytesFieldSize(num, BytesOf(m, num));
    } else {
      IntFieldSize(num, IntOf(m, num));
    }
  }

  /** The sizes of all fields but the coins. */
  function FixedSize(m: AtomicSwap): nat {
    BytesSize(m.randomNumberHash) + IntSize(m.expireHeight) + IntSize(ToUint64(m.timestamp)) + BytesSize(m.sender)
    + BytesSize(m.recipient) + BytesSize(m.senderOtherChain) + BytesSize(m.recipientOtherChain)
    + IntSize(ToUint64(m.closedBlock)) + IntSize(ToUint64(m.status)) + (if m.crossChain then 2 else 0)
    + IntSize(ToUint64(m.direction))
  }

  lemma FixedSizes(codec: CoinCodec, m: AtomicSwap)
    requires Fits(codec, m)
    ensures ValidFields(FieldsFrom(m, 2)) && SizeOf(FieldsFrom(m, 2)) == FixedSize(m)
  {
    hide SizeOf, FieldsFrom, BytesSize, IntSize, ToUint64, Fits;
    SizeFrom(codec, m, 2);
    SizeFrom(codec, m, 3);
    SizeFrom(codec, m, 4);
    SizeFrom(codec, m, 5);
    SizeFrom(codec, m, 6);
    SizeFrom(codec, m, 7);
    SizeFrom(codec, m, 8);
    SizeFrom(codec, m, 9);
    SizeFrom(codec, m, 10);
    SizeFrom(codec, m, 11);
    SizeFrom(codec, m, 12);
    NoneLeft(m);
  }

  lemma NoneLeft(m: AtomicSwap)
    ensures FieldsFrom(m, 13) == NoFields && SizeOf(NoFields) == 0
    ensures IntSize(0) == 0 && IntSize(1) == 2
  {
  }

  lemma CoinsSize(codec: CoinCodec, coins: seq<Coin>, rest: Fields)
    requires coins != [] && ValidFields(rest)
    requires forall i | 0 <= i < |coins| :: |codec.encode(coins[i])| < TWO_63
    ensures ValidFields(CoinFields(codec, coins, rest)) && ValidFields(CoinFields(codec, coins[1..], rest))
    ensures SizeOf(CoinFields(codec, coins, rest))
         == 1 + |codec.encode(coins[0])| + Sov(|codec.encode(coins[0])|) + SizeOf(CoinFields(codec, coins[1..], rest))
  {
    hide EncodeField, Sov;
    ValidCoinFields(codec, coins, rest);
    ValidCoinFields(codec, coins[1..], rest);
    BytesFieldSize(1, codec.encode(coins[0]));
  }

  // ---- Writing back to front --------------------------------------------------------------------

  /** Writes a field of bytes unless it is empty. */
  method PutBytesOf(codec: CoinCodec, buf: array<byte>, start: nat, num: int, b: Bytes, ghost m: AtomicSwap,
                    ghost original: Bytes)
    returns (i: nat)
    requires Fits(codec, m) && IsBytesNumber(num) && b == BytesOf(m, num)
    requires Holds(buf, start, FieldsFrom(m, num + 1)) && Untouched(buf, start, original)
    requires BytesSize(b) <= start
    modifies buf
    ensures Holds(buf, i, FieldsFrom(m, num))
    ensures Untouched(buf, i, original)
  {
    hide Sov, Holds, Untouched;
    i := start;
    if |b| > 0 {
      i := PutBytes(buf, i, num, b, FieldsFrom(m, num + 1), original);
    }
  }

  /** Writes a number unless it is zero. */
  method PutIntOf(buf: array<byte>, start: nat, num: int, v: Uint64, ghost m: AtomicSwap, ghost original: Bytes)
    returns (i: nat)
    requires IsIntNumber(num) && v == IntOf(m, num)
    requires Holds(buf, start, FieldsFrom(m, num + 1)) && Untouched(buf, start, original)
    requires IntSize(v) <= start
    modifies buf
    ensures Holds(buf, i, FieldsFrom(m, num))
    ensures Untouched(buf, i, original)
  {
    hide Sov, Holds, IntOf, Untouched;
    i := start;
    if v != 0 {
      i := PutInt(buf, i, num, v, FieldsFrom(m, num + 1), original);
    }
  }

  /** There is room for the field before those that are written. */
  lemma RoomBefore(codec: CoinCodec, m: AtomicSwap, buf: array<byte>, i: nat, num: int)
    requires Fits(codec, m) && 2 <= num < 13
    requires Holds(buf, i, FieldsFrom(m, num + 1)) && |Marshalled(codec, m)| <= buf.Length
    ensures (if IsBytesNumber(num) then BytesSize(BytesOf(m, num)) else IntSize(IntOf(m, num))) <= i
  {
    hide FieldsFrom, Holds, BytesSize, IntSize, Marshalled;
    HoldsSize(buf, i, FieldsFrom(m, num + 1));
    SizeFrom(codec, m, num);
    PartWithinWhole(codec, m, num);
  }

  lemma {:induction false} FewerFieldsShorter(codec: CoinCodec, m: AtomicSwap, num: int)
    requires Fits(codec, m) && 2 <= num <= 13
    ensures ValidFields(FieldsFrom(m, num)) && ValidFields(FieldsFrom(m, 2))
    ensures SizeOf(FieldsFrom(m, num)) <= SizeOf(FieldsFrom(m, 2))
  {
    hide FieldsFrom, SizeOf;
    ValidFieldsFrom(codec, m, num);
    if num > 2 {
      FewerFieldsShorter(codec, m, num - 1);
      SizeFrom(codec, m, num - 1);
    }
  }

  lemma {:induction false} CoinsLonger(codec: CoinCodec, coins: seq<Coin>, rest: Fields)
    requires ValidFields(rest) && forall i | 0 <= i < |coins| :: |codec.encode(coins[i])| < TWO_63
    ensures ValidFields(CoinFields(codec, coins, rest))
    ensures SizeOf(rest) <= SizeOf(CoinFields(codec, coins, rest))
  {
    hide SizeOf;
    ValidCoinFields(codec, coins, rest);
    if coins != [] {
      CoinsSize(codec, coins, rest);
      CoinsLonger(codec, coins[1..], rest);
    }
  }

  lemma PartWithinWhole(codec: CoinCodec, m: AtomicSwap, num: int)
    requires Fits(codec, m) && 2 <= num <= 13
    ensures ValidFields(FieldsFrom(m, num)) && SizeOf(FieldsFrom(m, num)) <= |Marshalled(codec, m)|
  {
    hide FieldsFrom;
    FewerFieldsShorter(codec, m, num);
    CoinsLonger(codec, m.amount, FieldsFrom(m, 2));
  }

  // ---- The message ------------------------------------------------------------------------------

  class Message {
    var swap: AtomicSwap

    constructor (m: AtomicSwap)
      ensures swap == m
    {
      swap := m;
    }

    method Size(codec: CoinCodec) returns (n: nat)
      requires Fits(codec, swap)
      ensures n == |Marshalled(codec, swap)|
    {
      hide SizeOf, BytesSize, IntSize, Sov, FieldsFrom;
      ghost var rest := FieldsFrom(swap, 2);
      FixedSizes(codec, swap);
      ValidFieldsOf(codec, swap);
      n := 0;
      assert swap.amount[0..] == swap.amount;
      for i := 0 to |swap.amount|
        invariant ValidFields(CoinFields(codec, swap.amount[i..], rest))
        invariant n + SizeOf(CoinFields(codec, swap.amount[i..], rest)) == SizeOf(FieldsOf(codec, swap))
      {
        CoinsSize(codec, swap.amount[i..], rest);
        assert swap.amount[i..][1..] == swap.amount[i + 1..];
        var l := |codec.encode(swap.amount[i])|;
        n := n + 1 + l + Sov(l);
      }
      n := n + FixedSize(swap);
      WholeSize(codec, swap);
    }

    /** Writes all fields but the coins, the last first. */
    method MarshalFixed(codec: CoinCodec, buf: array<byte>) returns (i: nat)
      requires Fits(codec, swap) && |Marshalled(codec, swap)| <= buf.Length
      modifies buf
      ensures Holds(buf, i, FieldsFrom(swap, 2)) && Untouched(buf, i, old(buf[..]))
    {
      hide Holds, Untouched, FieldsFrom, BytesSize, IntSize, ToUint64, Fits, Marshalled;
      ghost var original := buf[..];
      i := buf.Length;
      HoldsNone(buf, swap);
      RoomBefore(codec, swap, buf, i, 12);
      i := PutIntOf(buf, i, 12, ToUint64(swap.direction), swap, original);
      RoomBefore(codec, swap, buf, i, 11);
      i := PutIntOf(buf, i, 11, if swap.crossChain then 1 else 0, swap, original);
      RoomBefore(codec, swap, buf, i, 10);
      i := PutIntOf(buf, i, 10, ToUint64(swap.status), swap, original);
      RoomBefore(codec, swap, buf, i, 9);
      i := PutIntOf(buf, i, 9, ToUint64(swap.closedBlock), swap, original);
      RoomBefore(codec, swap, buf, i, 8);
      i := PutBytesOf(codec, buf, i, 8, swap.recipientOtherChain, swap, original);
      RoomBefore(codec, swap, buf, i, 7);
      i := PutBytesOf(codec, buf, i, 7, swap.senderOtherChain, swap, original);
      RoomBefore(codec, swap, buf, i, 6);
      i := PutBytesOf(codec, buf, i, 6, swap.recipient, swap, original);
      RoomBefore(codec, swap, buf, i, 5);
      i := PutBytesOf(codec, buf, i, 5, swap.sender, swap, original);
      RoomBefore(codec, swap, buf, i, 4);
      i := PutIntOf(buf, i, 4, ToUint64(swap.timestamp), swap, original);
      RoomBefore(codec, swap, buf, i, 3);
      i := PutIntOf(buf, i, 3, swap.expireHeight, swap, original);
      RoomBefore(codec, swap, buf, i, 2);
      i := PutBytesOf(codec, buf, i, 2, swap.randomNumberHash, swap, original);
    }

    /** Writes the swap at the end of the buffer, the last field first, and touches nothing before it. */
    method MarshalToSizedBuffer(codec: CoinCodec, buf: array<byte>) returns (n: nat)
      requires Fits(codec, swap) && |Marshalled(codec, swap)| <= buf.Length
      modifies buf
      ensures n == |Marshalled(codec, swap)|
      ensures buf[..] == old(buf[..buf.Length - n]) + Marshalled(codec, swap)
    {
      hide Holds, FieldsFrom, Sov, EncodeFields;
      ghost var original := buf[..];
      var i: nat := MarshalFixed(codec, buf);
      ghost var rest := FieldsFrom(swap, 2);
      assert swap.amount[|swap.amount|..] == [];
      for k := |swap.amount| downto 0
        invariant Holds(buf, i, CoinFields(codec, swap.amount[k..], rest)) && Untouched(buf, i, original)
      {
        ghost var coins := swap.amount[k..];
        assert coins[0] == swap.amount[k] && coins[1..] == swap.amount[k + 1..];
        RoomForCoin(codec, swap, buf, i, k);
        i := PutBytes(buf, i, 1, codec.encode(swap.amount[k]), CoinFields(codec, coins[1..], rest), original);
      }
      assert swap.amount[0..] == swap.amount;
      n := buf.Length - i;
      HoldsTail(buf, i, FieldsOf(codec, swap));
      assert buf[..] == buf[..i] + buf[..][i..];
    }

    method Marshal(codec: CoinCodec) returns (data: array<byte>)
      requires Fits(codec, swap)
      ensures data[..] == Marshalled(codec, swap)
    {
      hide Fits, Marshalled;
      var size := Size(codec);
      data := new byte[size];
      var n := MarshalToSizedBuffer(codec, data);
    }

    /** Reads one field into the message. */
    method ReadField(codec: CoinCodec, data: Bytes, start: nat) returns (r: Result<nat, WireError>)
      requires start < |data|
      modifies this
      ensures match Step(codec, old(swap), data, start)
              case Ok((m, i)) => r == Ok(i) && swap == m
              case Err(e) => r == Err(e)
    {
      hide Read, Payload, Unknown;
      var tag := ReadLoop(data, start);
      if tag.Err? {
        return Err(tag.error);
      }
      var (wire, i) := tag.value;
      var fieldNum, wireType := ToInt32(wire / 8), wire % 8;
      if wireType == WIRE_END_GROUP {
        return Err(ErrEndGroup);
      }
      if fieldNum <= 0 {
        return Err(ErrIllegalTag);
      }
      if fieldNum == 1 || IsBytesNumber(fieldNum) {
        if wireType != WIRE_BYTES {
          return Err(ErrWrongWireType);
        }
        var payload := ReadPayload(data, i);
        if payload.Err? {
          return Err(payload.error);
        }
        var (from, to) := payload.value;
        if fieldNum == 1 {
          var coin := codec.decode(data[from..to]);
          if coin.None? {
            return Err(ErrCoin);
          }
          swap := swap.(amount := swap.amount + [coin.value]);
        } else {
          swap := SetBytes(swap, fieldNum, data[from..to]);
        }
        return Ok(to);
      }
      if IsIntNumber(fieldNum) {
        if wireType != WIRE_VARINT {
          return Err(ErrWrongWireType);
        }
        var v := ReadLoop(data, i);
        if v.Err? {
          return Err(v.error);
        }
        swap := SetInt(swap, fieldNum, v.value.0);
        return Ok(v.value.1);
      }
      r := SkipUnknown(data, start);
    }

    method Unmarshal(codec: CoinCodec, data: Bytes) returns (err: Option<WireError>)
      modifies this
      ensures match Decode(codec, old(swap), data, 0)
              case Ok(m) => err == None && swap == m
              case Err(e) => err == Some(e)
    {
      hide Step;
      var i := 0;
      while i < |data|
        invariant 0 <= i <= |data|
        invariant Decode(codec, swap, data, i) == Decode(codec, old(swap), data, 0)
        decreases |data| - i
      {
        var next := ReadField(codec, data, i);
        if next.Err? {
          return Some(next.error);
        }
        i := next.value;
      }
      return None;
    }
  }

  lemma HoldsNone(buf: array<byte>, m: AtomicSwap)
    ensures Holds(buf, buf.Length, FieldsFrom(m, 13)) && Untouched(buf, buf.Length, buf[..])
  {
  }

  lemma WholeSize(codec: CoinCodec, m: AtomicSwap)
    requires Fits(codec, m)
    ensures ValidFields(FieldsOf(codec, m)) && SizeOf(FieldsOf(codec, m)) == |Marshalled(codec, m)|
  {
    ValidFieldsOf(codec, m);
  }

  lemma RoomForCoin(codec: CoinCodec, m: AtomicSwap, buf: array<byte>, i: nat, k: nat)
    requires Fits(codec, m) && k < |m.amount| && |Marshalled(codec, m)| <= buf.Length
    requires Holds(buf, i, CoinFields(codec, m.amount[k + 1..], FieldsFrom(m, 2)))
    ensures var l := |codec.encode(m.amount[k])|; 1 + l + Sov(l) <= i
  {
    hide Holds, FieldsFrom, SizeOf, Sov;
    var coins, rest := m.amount[k..], FieldsFrom(m, 2);
    ValidFieldsFrom(codec, m, 2);
    assert coins[1..] == m.amount[k + 1..];
    CoinsSize(codec, coins, rest);
    HoldsSize(buf, i, CoinFields(codec, coins[1..], rest));
    FewerCoinsShorter(codec, m.amount, k, rest);
    WholeSize(codec, m);
  }

  lemma {:induction false} FewerCoinsShorter(codec: CoinCodec, coins: seq<Coin>, k: nat, rest: Fields)
    requires k <= |coins| && ValidFields(rest)
    requires forall i | 0 <= i < |coins| :: |codec.encode(coins[i])| < TWO_63
    ensures ValidFields(CoinFields(codec, coins, rest)) && ValidFields(CoinFields(codec, coins[k..], rest))
    ensures SizeOf(CoinFields(codec, coins[k..], rest)) <= SizeOf(CoinFields(codec, coins, rest))
    decreases k
  {
    hide SizeOf;
    ValidCoinFields(codec, coins, rest);
    if k == 0 {
      assert coins[0..] == coins;
    } else {
      CoinsSize(codec, coins, rest);
      FewerCoinsShorter(codec, coins[1..], k - 1, rest);
      assert coins[1..][k - 1..] == coins[k..];
    }
  }
}

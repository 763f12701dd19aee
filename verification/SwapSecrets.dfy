/** What hashes commit to: IDs to hash, sender and address, random number hashes to number and time, and a claim to
    the secret. Nothing is assumed of the hash function; a failure always yields two inputs of one hash. */
module SwapSecrets {
  import opened Basics
  import opened SwapTypes
  import opened SwapSpec
  import opened SwapInvariant
  import opened ByteKeys

  ghost predicate Collision(env: Env, x: Bytes, y: Bytes) {
    x != y && env.sum(x) == env.sum(y)
  }

  // ---- Hashed bytes -----------------------------------------------------------------------------

  /** A random number hash is that of 40 bytes: the number, cut or padded, and the time. */
  lemma RandomHashInput(env: Env, r: Bytes, timestamp: Int64) returns (x: Bytes)
    ensures |x| == 40 && CalculateRandomHash(env, r, timestamp) == env.sum(x)
    ensures forall i | 0 <= i < 32 :: x[i] == if i < |r| then r[i] else 0
    ensures x[32..] == BigEndian(timestamp % 0x1_0000_0000_0000_0000, 8)
  {
    x := PadRandomNumber(r) + BigEndian64(ToUint64(timestamp));
  }

  lemma SameTime(t: Int64, t': Int64)
    requires BigEndian64(ToUint64(t)) == BigEndian64(ToUint64(t'))
    ensures t == t'
  {
    Uint64Range(ToUint64(t));
    Uint64Range(ToUint64(t'));
    BigEndianOrder(ToUint64(t), ToUint64(t'), 8);
  }

  /** Two numbers, or two times, have one random number hash only by a collision. */
  lemma RandomHashCollides(env: Env, r: Bytes, t: Int64, r': Bytes, t': Int64) returns (x: Bytes, y: Bytes)
    requires PadRandomNumber(r) != PadRandomNumber(r') || t != t'
    requires CalculateRandomHash(env, r, t) == CalculateRandomHash(env, r', t')
    ensures Collision(env, x, y)
  {
    hide PadRandomNumber;
    var p, p' := PadRandomNumber(r), PadRandomNumber(r');
    x, y := p + BigEndian64(ToUint64(t)), p' + BigEndian64(ToUint64(t'));
    if x == y {
      assert p == x[..32] == y[..32] == p';
      assert BigEndian64(ToUint64(t)) == x[32..] == y[32..] == BigEndian64(ToUint64(t'));
      SameTime(t, t');
    }
  }

  /** An ID is the hash of the random number hash, the sender and the lower-cased address, in this order. */
  lemma SwapIDInput(env: Env, hash: Bytes, sender: Address, other: Bytes) returns (x: Bytes)
    ensures CalculateSwapID(env, hash, sender, other) == env.sum(x)
    ensures |x| == |hash| + |sender| + |env.lower(other)|
    ensures x[..|hash|] == hash && x[|hash|..|hash| + |sender|] == sender && x[|hash| + |sender|..] == env.lower(other)
  {
    x := hash + sender + env.lower(other);
  }

  /** Swaps that differ in hash, sender or lower-cased address have one ID only by a collision. Hashes, and senders,
      are of one length. */
  lemma SwapIDCollides(env: Env, hash: Bytes, sender: Address, other: Bytes, hash': Bytes, sender': Address, other': Bytes)
    returns (x: Bytes, y: Bytes)
    requires |hash| == |hash'| && |sender| == |sender'|
    requires hash != hash' || sender != sender' || env.lower(other) != env.lower(other')
    requires CalculateSwapID(env, hash, sender, other) == CalculateSwapID(env, hash', sender', other')
    ensures Collision(env, x, y)
  {
    x := SwapIDInput(env, hash, sender, other);
    y := SwapIDInput(env, hash', sender', other');
  }

  /** The lengths matter: a shorter sender and a longer address can be the same bytes, whatever the hash function. */
  lemma SwapIDAmbiguous(env: Env, hash: Bytes)
    requires env.lower([]) == [] && env.lower([2]) == [2]
    ensures CalculateSwapID(env, hash, [1, 2], []) == CalculateSwapID(env, hash, [1], [2])
  {
    assert hash + [1, 2] + [] == hash + [1] + [2];
  }

  // ---- Claims -----------------------------------------------------------------------------------

  lemma SameSuffix(x: Bytes, y: Bytes, z: Bytes)
    requires x + z == y + z
    ensures x == y
  {
    assert |x| == |y|;
    assert x == (x + z)[..|x|] == (y + z)[..|y|] == y;
  }

  /** A number that hashes, with the swap's timestamp, to the swap's random number hash unlocks the swap. */
  lemma SecretUnlocks(env: Env, sw: AtomicSwap, r: Bytes)
    requires CalculateRandomHash(env, r, sw.timestamp) == sw.randomNumberHash
    ensures SecretMatches(env, sw, r)
  {
  }

  /** A number that hashes to anything else unlocks it only by a collision, which can be read off the swap. */
  lemma WrongHashCollides(env: Env, sw: AtomicSwap, r: Bytes) returns (x: Bytes, y: Bytes)
    requires SecretMatches(env, sw, r) && CalculateRandomHash(env, r, sw.timestamp) != sw.randomNumberHash
    ensures Collision(env, x, y)
  {
    var h, suffix := CalculateRandomHash(env, r, sw.timestamp), sw.sender + env.lower(sw.senderOtherChain);
    x, y := h + suffix, sw.randomNumberHash + suffix;
    assert x == h + sw.sender + env.lower(sw.senderOtherChain);
    assert y == sw.randomNumberHash + sw.sender + env.lower(sw.senderOtherChain);
    if x == y {
      SameSuffix(h, sw.randomNumberHash, suffix);
    }
  }

  /** The hash lock: whoever claims a swap with a number other than its secret has found two inputs of one hash.
      Numbers are compared as the hash sees them, cut or padded to 32 bytes. */
  lemma WrongSecretCollides(s: State, id: SwapID, secret: Bytes, r: Bytes) returns (x: Bytes, y: Bytes)
    requires SingleCoins(s.swaps) && Claim(s, id, r).Ok?
    requires s.swaps[id].randomNumberHash == CalculateRandomHash(s.env, secret, s.swaps[id].timestamp)
    requires PadRandomNumber(r) != PadRandomNumber(secret)
    ensures Collision(s.env, x, y)
  {
    hide PadRandomNumber, CalculateRandomHash, CalculateSwapID, ClaimIncoming, ClaimOutgoing;
    var sw := s.swaps[id];
    if CalculateRandomHash(s.env, r, sw.timestamp) == sw.randomNumberHash {
      x, y := RandomHashCollides(s.env, r, sw.timestamp, secret, sw.timestamp);
    } else {
      x, y := WrongHashCollides(s.env, sw, r);
    }
  }
}

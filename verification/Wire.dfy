/**
 Big-endian streams. A writer puts its bytes in front of whatever is written after it, and a
 reader hands back what it read together with the rest, so that codecs compose field by field.
 */
module Wire {
  import opened Basics
  import opened Arithmetic

  /** The outcome of reading from a stream: a value and the unread rest, or an I/O error. */
  datatype Read<+T> = Fail | Got(value: T, rest: Bytes) {
    predicate IsFailure() { Fail? }
    function PropagateFailure<U>(): Read<U> requires Fail? { Fail }
    function Extract(): (T, Bytes) requires Got? { (value, rest) }
  }

  /** A list read so far, in front of the list that is still to be read. */
  ghost function Prepend<T>(xs: seq<T>, r: Read<seq<T>>): Read<seq<T>>
  {
    if r.Fail? then Fail else Got(xs + r.value, r.rest)
  }

  function Pow256(n: nat): (p: nat)
    ensures p > 0
  {
    if n == 0 then 1 else 256 * Pow256(n - 1)
  }

  lemma Pow256Values()
    ensures Pow256(1) == 256 && Pow256(2) == U16 && Pow256(4) == U32
    ensures Pow256(8) == U64 && Pow256(16) == U128
  {
    assert Pow256(4) == 256 * 256 * Pow256(2);
    assert Pow256(6) == 256 * 256 * Pow256(4);
    assert Pow256(8) == 256 * 256 * Pow256(6);
    assert Pow256(10) == 256 * 256 * Pow256(8);
    assert Pow256(12) == 256 * 256 * Pow256(10);
    assert Pow256(14) == 256 * 256 * Pow256(12);
    assert Pow256(16) == 256 * 256 * Pow256(14);
  }

  /** The low-order `width` bytes of n, most significant first. */
  function BE(n: nat, width: nat): (b: Bytes)
    ensures |b| == width
    decreases width
  {
    if width == 0 then [] else BE(n / 256, width - 1) + [n % 256]
  }

  /** big.Int.SetBytes. */
  function FromBE(b: Bytes): nat
  {
    if b == [] then 0 else FromBE(b[..|b| - 1]) * 256 + b[|b| - 1]
  }

  lemma {:induction false} FromBEBound(b: Bytes)
    ensures FromBE(b) < Pow256(|b|)
  {
    if b != [] {
      FromBEBound(b[..|b| - 1]);
    }
  }

  lemma {:induction false} BERoundTrip(n: nat, width: nat)
    requires n < Pow256(width)
    ensures FromBE(BE(n, width)) == n
    decreases width
  {
    if width > 0 {
      BERoundTrip(n / 256, width - 1);
      assert BE(n, width)[..width - 1] == BE(n / 256, width - 1);
    }
  }

  lemma {:induction false} FromBERoundTrip(b: Bytes)
    ensures BE(FromBE(b), |b|) == b
  {
    if b != [] {
      FromBERoundTrip(b[..|b| - 1]);
      assert b == b[..|b| - 1] + [b[|b| - 1]];
    }
  }

  /** Byte i of a number in `width` bytes counts powers of 256 from the left. */
  lemma {:induction false} BigEndian(n: nat, width: nat, i: nat)
    requires i < width
    ensures BE(n, width)[i] == n / Pow256(width - 1 - i) % 256
    decreases width
  {
    if i < width - 1 {
      BigEndian(n / 256, width - 1, i);
      DivDiv(n, Pow256(width - 2 - i));
    }
  }

  lemma DivDiv(n: nat, b: nat)
    requires b > 0
    ensures n / 256 / b == n / (256 * b)
  {
    var m := n / 256;
    var q, r := m / b, m % b;
    assert m == b * q + r;
    Distribute(256, b * q, r);
    assert 256 * (b * q) == 256 * b * q;
    QuotientUnique(n, 256 * b, q, 256 * r + n % 256);
  }

  function ReadFull(data: Bytes, n: nat): Read<Bytes>
  {
    if |data| < n then Fail else Got(data[..n], data[n..])
  }

  function ReadUint(data: Bytes, width: nat): (r: Read<nat>)
    ensures r.Got? ==> r.value < Pow256(width)
  {
    if |data| < width then Fail else
      FromBEBound(data[..width]);
      Got(FromBE(data[..width]), data[width..])
  }

  function PutUint(n: nat, width: nat, rest: Bytes): (r: Bytes)
    requires n < Pow256(width)
    ensures ReadUint(r, width) == Got(n, rest)
    ensures |r| == width + |rest|
  {
    BERoundTrip(n, width);
    var r := BE(n, width) + rest;
    assert r[..width] == BE(n, width) && r[width..] == rest;
    r
  }

  /** Writes a fixed-size array such as a hash or an address. */
  function PutBytes(b: Bytes, rest: Bytes): (r: Bytes)
    ensures ReadFull(r, |b|) == Got(b, rest)
    ensures |r| == |b| + |rest|
  {
    var r := b + rest;
    assert r[..|b|] == b && r[|b|..] == rest;
    r
  }

  function PutU8(n: byte, rest: Bytes): (r: Bytes)
    ensures ReadU8(r) == Got(n, rest) && |r| == 1 + |rest|
  { Pow256Values(); PutUint(n, 1, rest) }

  function PutU16(n: u16, rest: Bytes): (r: Bytes)
    ensures ReadU16(r) == Got(n, rest) && |r| == 2 + |rest|
  { Pow256Values(); PutUint(n, 2, rest) }

  function PutU32(n: u32, rest: Bytes): (r: Bytes)
    ensures ReadU32(r) == Got(n, rest) && |r| == 4 + |rest|
  { Pow256Values(); PutUint(n, 4, rest) }

  function PutU64(n: u64, rest: Bytes): (r: Bytes)
    ensures ReadU64(r) == Got(n, rest) && |r| == 8 + |rest|
  { Pow256Values(); PutUint(n, 8, rest) }

  /** A 128-bit amount, left-padded to 16 bytes. */
  function PutAmount(n: Amount, rest: Bytes): (r: Bytes)
    ensures ReadAmount(r) == Got(n, rest) && |r| == 16 + |rest|
  { Pow256Values(); PutUint(n, 16, rest) }

  function ReadU8(data: Bytes): Read<byte> { Pow256Values(); ReadUint(data, 1) }
  function ReadU16(data: Bytes): Read<u16> { Pow256Values(); ReadUint(data, 2) }
  function ReadU32(data: Bytes): Read<u32> { Pow256Values(); ReadUint(data, 4) }
  function ReadU64(data: Bytes): Read<u64> { Pow256Values(); ReadUint(data, 8) }
  function ReadAmount(data: Bytes): Read<Amount> { Pow256Values(); ReadUint(data, 16) }

  function ReadHash(data: Bytes): Read<Hash> {
    if |data| < 32 then Fail else Got(data[..32], data[32..])
  }

  function ReadAddress(data: Bytes): Read<Address> {
    if |data| < 20 then Fail else Got(data[..20], data[20..])
  }

  const MAX_VAR_BYTES: nat := 1024 * 1024

  /** writeVarBytes, for data within the limit it enforces. */
  function PutVarBytes(b: Bytes, rest: Bytes): (r: Bytes)
    requires |b| <= MAX_VAR_BYTES
    ensures ReadVarBytes(r) == Got(b, rest)
    ensures |r| == 4 + |b| + |rest|
  {
    PutU32(|b|, PutBytes(b, rest))
  }

  /** readVarBytes. */
  function ReadVarBytes(data: Bytes): (r: Read<Bytes>)
    ensures r.Got? ==> |r.value| <= MAX_VAR_BYTES
  {
    var (n, data) :- ReadU32(data);
    if n > MAX_VAR_BYTES then Fail else ReadFull(data, n)
  }

  // ----- writing by appending -----

  lemma UintStep(n: nat, width: nat, t: Bytes, rest: Bytes)
    requires n < Pow256(width)
    ensures PutUint(n, width, t + rest) == PutUint(n, width, t) + rest
  {
    hide BE;
    assert BE(n, width) + (t + rest) == (BE(n, width) + t) + rest;
  }

  lemma U8Step(n: byte, t: Bytes, rest: Bytes)
    ensures PutU8(n, t + rest) == PutU8(n, t) + rest
  {
    hide PutUint;
    Pow256Values();
    UintStep(n, 1, t, rest);
  }

  lemma U16Step(n: u16, t: Bytes, rest: Bytes)
    ensures PutU16(n, t + rest) == PutU16(n, t) + rest
  {
    hide PutUint;
    Pow256Values();
    UintStep(n, 2, t, rest);
  }

  lemma U32Step(n: u32, t: Bytes, rest: Bytes)
    ensures PutU32(n, t + rest) == PutU32(n, t) + rest
  {
    hide PutUint;
    Pow256Values();
    UintStep(n, 4, t, rest);
  }

  lemma U64Step(n: u64, t: Bytes, rest: Bytes)
    ensures PutU64(n, t + rest) == PutU64(n, t) + rest
  {
    hide PutUint;
    Pow256Values();
    UintStep(n, 8, t, rest);
  }

  lemma BytesStep(b: Bytes, t: Bytes, rest: Bytes)
    ensures PutBytes(b, t + rest) == PutBytes(b, t) + rest
  {
    assert b + (t + rest) == (b + t) + rest;
  }

  lemma VarBytesStep(b: Bytes, t: Bytes, rest: Bytes)
    requires |b| <= MAX_VAR_BYTES
    ensures PutVarBytes(b, t + rest) == PutVarBytes(b, t) + rest
  {
    hide PutU32, PutBytes;
    BytesStep(b, t, rest);
    U32Step(|b|, PutBytes(b, t), rest);
  }
}

/** Base58 and Base58Check, and the addresses written with them. */
module Base58 {
  import opened Basics
  import opened Wire

  /** A Unicode code point: Go ranges over a string rune by rune. */
  type Rune = x: int | 0 <= x < 0x11_0000
  type Text = seq<Rune>

  const ONE: Rune := 49

  /** The alphabet: digits without 0, capitals without I and O, small letters without l. */
  function Letter(d: nat): (c: byte)
    requires d < 58
    ensures c == ONE <==> d == 0
  {
    if d < 9 then 49 + d
    else if d < 17 then 65 + (d - 9)
    else if d < 22 then 74 + (d - 17)
    else if d < 33 then 80 + (d - 22)
    else if d < 44 then 97 + (d - 33)
    else 109 + (d - 44)
  }

  lemma DigitsAndCapitals(d: nat)
    requires d < 33
    ensures d < 9 ==> Letter(d) == ("123456789"[d]) as int
    ensures 9 <= d < 17 ==> Letter(d) == ("ABCDEFGH"[d - 9]) as int
    ensures 17 <= d < 22 ==> Letter(d) == ("JKLMN"[d - 17]) as int
    ensures 22 <= d < 33 ==> Letter(d) == ("PQRSTUVWXYZ"[d - 22]) as int
  {
  }

  lemma SmallLetters(d: nat)
    requires 33 <= d < 58
    ensures d < 44 ==> Letter(d) == ("abcdefghijk"[d - 33]) as int
    ensures 44 <= d ==> Letter(d) == ("mnopqrstuvwxyz"[d - 44]) as int
  {
  }

  lemma LettersDiffer(d: nat, e: nat)
    requires d < 58 && e < 58 && Letter(d) == Letter(e)
    ensures d == e
  {
  }

  /** bytes.IndexByte over the alphabet. */
  method IndexByte(c: byte) returns (i: int)
    ensures i == Index(c)
  {
    i := 0;
    while i < 58
      invariant 0 <= i <= 58
      invariant forall j :: 0 <= j < i ==> Letter(j) != c
    {
      if Letter(i) == c {
        IndexOfLetter(i);
        return;
      }
      i := i + 1;
    }
    i := -1;
  }

  ghost function Index(c: byte): (i: int)
    ensures -1 <= i < 58
  {
    if exists d :: 0 <= d < 58 && Letter(d) == c then var d :| 0 <= d < 58 && Letter(d) == c; d else -1
  }

  lemma IndexOfLetter(d: nat)
    requires d < 58
    ensures Index(Letter(d)) == d
  {
    forall e | 0 <= e < 58 && Letter(e) == Letter(d) ensures e == d { LettersDiffer(d, e); }
  }

  // ----- numbers -----

  /** big.Int.Bytes: no leading zeros. */
  function MinBE(n: nat): Bytes
  {
    if n == 0 then [] else MinBE(n / 256) + [n % 256]
  }

  function Digits(n: nat): (ds: seq<nat>)
    ensures forall i :: 0 <= i < |ds| ==> ds[i] < 58
    ensures n > 0 ==> ds != [] && ds[0] > 0
  {
    if n == 0 then [] else Digits(n / 58) + [n % 58]
  }

  function Letters(ds: seq<nat>): (s: seq<byte>)
    requires forall i :: 0 <= i < |ds| ==> ds[i] < 58
    ensures |s| == |ds| && forall i :: 0 <= i < |s| ==> s[i] == Letter(ds[i])
  {
    seq(|ds|, i requires 0 <= i < |ds| => Letter(ds[i]))
  }

  function Leading(s: seq<int>, x: int): (z: nat)
    ensures z <= |s| && (z < |s| ==> s[z] != x)
    ensures forall i :: 0 <= i < z ==> s[i] == x
  {
    if s != [] && s[0] == x then 1 + Leading(s[1..], x) else 0
  }

  /** The number a text stands for; characters outside the alphabet are skipped. */
  ghost function Number(s: Text): nat
  {
    if s == [] then 0 else
      var d := Index(s[|s| - 1] % 256);
      if d < 0 then Number(s[..|s| - 1]) else Number(s[..|s| - 1]) * 58 + d
  }

  // ----- encoding and decoding -----

  function Encoded(data: Bytes): Bytes
  {
    var s := Repeat(ONE, Leading(data, 0)) + Letters(Digits(FromBE(data)));
    if s == [] then [ONE] else s
  }

  ghost function Decoded(s: Text): Bytes
  {
    Repeat(0, Leading(s, ONE)) + MinBE(Number(s))
  }

  /** Least significant letter first, as the division loop produces them. */
  function Backwards(n: nat): seq<byte>
  {
    if n == 0 then [] else [Letter(n % 58)] + Backwards(n / 58)
  }

  function Reversed(s: seq<byte>): (r: seq<byte>)
    ensures |r| == |s| && forall i :: 0 <= i < |s| ==> r[i] == s[|s| - 1 - i]
  {
    seq(|s|, i requires 0 <= i < |s| => s[|s| - 1 - i])
  }

  lemma {:induction false} BackwardsReversed(n: nat)
    ensures Reversed(Backwards(n)) == Letters(Digits(n))
  {
    if n > 0 {
      BackwardsReversed(n / 58);
      assert Reversed(Backwards(n)) == Reversed(Backwards(n / 58)) + [Letter(n % 58)];
    }
  }

  method CountLeading(s: seq<int>, x: int) returns (zeros: nat)
    ensures zeros == Leading(s, x)
  {
    zeros := 0;
    while zeros < |s| && s[zeros] == x
      invariant zeros <= |s| && Leading(s, x) == zeros + Leading(s[zeros..], x)
    {
      zeros := zeros + 1;
    }
  }

  method Base58Encode(data: Bytes) returns (s: Text)
    ensures s == Encoded(data)
  {
    var zeros := CountLeading(data, 0);
    var num := FromBE(data);
    var result: seq<byte> := [];
    while num > 0
      invariant result + Backwards(num) == Backwards(FromBE(data))
    {
      result := result + [Letter(num % 58)];
      num := num / 58;
    }
    assert result + [] == result;
    result := ReverseLetters(result);
    BackwardsReversed(FromBE(data));
    s := PrependAll(ONE, zeros, result);
    if s == [] { s := [ONE]; }
  }

  /** Puts the letters in a buffer and reverses it there. */
  method ReverseLetters(s: seq<byte>) returns (r: seq<byte>)
    ensures r == Reversed(s)
  {
    var a := new byte[|s|](i requires 0 <= i < |s| => s[i]);
    assert a[..] == s;
    ReverseInPlace(a);
    r := a[..];
  }

  method ReverseInPlace(a: array<byte>)
    modifies a
    ensures a[..] == Reversed(old(a[..]))
  {
    var i, j := 0, a.Length - 1;
    while i < j
      invariant 0 <= i <= a.Length && j == a.Length - 1 - i && i <= j + 1
      invariant forall k :: 0 <= k < i ==> a[k] == old(a[a.Length - 1 - k]) && a[a.Length - 1 - k] == old(a[k])
      invariant forall k :: i <= k <= j ==> a[k] == old(a[k])
    {
      a[i], a[j] := a[j], a[i];
      i, j := i + 1, j - 1;
    }
  }

  method PrependAll(x: int, n: nat, s: seq<int>) returns (r: seq<int>)
    ensures r == Repeat(x, n) + s
  {
    r := s;
    for i := 0 to n
      invariant r == Repeat(x, i) + s
    {
      r := [x] + r;
    }
  }

  method Base58Decode(s: Text) returns (data: Bytes)
    ensures data == Decoded(s)
  {
    var zeros := CountLeading(s, ONE);
    var num: nat := 0;
    for i := 0 to |s|
      invariant num == Number(s[..i])
    {
      assert s[..i + 1][..i] == s[..i];
      var d := IndexByte(s[i] % 256);
      if d != -1 {
        num := num * 58 + d;
      }
    }
    assert s[..|s|] == s;
    var tail := MinBE(num);
    data := PrependAll(0, zeros, tail);
  }

  // ----- the round trip -----

  /** Without a leading zero, a byte string is the minimal form of its value. */
  lemma {:induction false} FromMinBE(n: nat)
    ensures FromBE(MinBE(n)) == n
  {
    if n > 0 {
      FromMinBE(n / 256);
      assert MinBE(n)[..|MinBE(n)| - 1] == MinBE(n / 256);
    }
  }

  lemma {:induction false} MinBELength(n: nat, k: nat)
    requires n < Pow256(k)
    ensures |MinBE(n)| <= k
    decreases k
  {
    if n > 0 {
      MinBELength(n / 256, k - 1);
    }
  }

  lemma {:induction false} MinBEInverts(b: Bytes)
    requires b != [] ==> b[0] != 0
    ensures MinBE(FromBE(b)) == b
    ensures b != [] ==> FromBE(b) > 0
  {
    if b != [] {
      var init, last := b[..|b| - 1], b[|b| - 1];
      MinBEInverts(init);
      assert b == init + [last];
      var n := FromBE(b);
      assert n / 256 == FromBE(init) && n % 256 == last;
    }
  }

  lemma {:induction false} LeadingZerosVanish(z: nat, b: Bytes)
    ensures FromBE(Repeat(0, z) + b) == FromBE(b)
    decreases |b|, z
  {
    var s := Repeat(0, z) + b;
    if b != [] {
      var init := b[..|b| - 1];
      assert s[..|s| - 1] == Repeat(0, z) + init;
      LeadingZerosVanish(z, init);
    } else if z > 0 {
      assert s[..|s| - 1] == Repeat(0, z - 1) + [];
      LeadingZerosVanish(z - 1, []);
    }
  }

  lemma {:induction false} NumberOfDigits(n: nat)
    ensures Number(Letters(Digits(n))) == n
  {
    hide Letter, Index;
    if n > 0 {
      var s := Letters(Digits(n));
      assert s[..|s| - 1] == Letters(Digits(n / 58));
      assert s[|s| - 1] == Letter(n % 58);
      NumberOfDigits(n / 58);
      IndexOfLetter(n % 58);
      assert s[|s| - 1] % 256 == Letter(n % 58);
    }
  }

  lemma {:induction false} LeadingOnesVanish(z: nat, s: Text)
    ensures Number(Repeat(ONE, z) + s) == Number(s)
    decreases |s|, z
  {
    var t: Text := Repeat(ONE, z) + s;
    if s != [] {
      var init := s[..|s| - 1];
      assert t[..|t| - 1] == Repeat(ONE, z) + init;
      LeadingOnesVanish(z, init);
    } else if z > 0 {
      assert t[..|t| - 1] == Repeat(ONE, z - 1) + [];
      LeadingOnesVanish(z - 1, []);
      assert Letter(0) == ONE;
      IndexOfLetter(0);
    }
  }

  lemma {:induction false} LeadingCounts(x: int, z: nat, s: seq<int>)
    requires s != [] ==> s[0] != x
    ensures Leading(Repeat(x, z) + s, x) == z
  {
    var t := Repeat(x, z) + s;
    if z > 0 {
      assert t[1..] == Repeat(x, z - 1) + s;
      LeadingCounts(x, z - 1, s);
    } else {
      assert t == s;
    }
  }

  /** Decoding undoes encoding for every byte string but the empty one, which comes back as a zero byte. */
  lemma Base58RoundTrip(data: Bytes)
    ensures Decoded(Encoded(data)) == data <==> data != []
    ensures data == [] ==> Decoded(Encoded(data)) == [0]
  {
    hide Number, FromBE, Leading, Letters, Digits;
    var z := Leading(data, 0);
    var tail := data[z..];
    assert data == Repeat(0, z) + tail;
    LeadingZerosVanish(z, tail);
    MinBEInverts(tail);
    var n := FromBE(data);
    var letters: Text := Letters(Digits(n));
    NumberOfDigits(n);
    if tail == [] { ZeroHasNoDigits(); }
    LeadingCounts(ONE, z, letters);
    LeadingOnesVanish(z, letters);
    if data == [] {
      EmptyEncodes();
    }
  }

  lemma ZeroHasNoDigits()
    ensures FromBE([]) == 0 && Letters(Digits(0)) == [] && MinBE(0) == []
  {
  }

  lemma EmptyEncodes()
    ensures Decoded([ONE]) == [0] && Encoded([]) == [ONE]
  {
    hide Letter, Index;
    assert [ONE] == Repeat(ONE, 1) + [];
    LeadingCounts(ONE, 1, []);
    LeadingOnesVanish(1, []);
  }

  // ----- addresses -----

  function Checksum(data: Bytes, hash: Bytes -> Hash): (c: Bytes)
    ensures |c| == 4
  {
    hash(hash(data))[..4]
  }

  /** Address.String: version byte 0. */
  function AddressText(a: Address, hash: Bytes -> Hash): Bytes
  {
    var data := [0] + a;
    Encoded(data + Checksum(data, hash))
  }

  ghost function CheckDecoded(s: Text, hash: Bytes -> Hash): Option<Bytes>
  {
    var data := Decoded(s);
    if |data| < 5 then None else
      var payload := data[..|data| - 4];
      if data[|data| - 4..] != Checksum(payload, hash) then None else Some(payload)
  }

  ghost function Parsed(s: Text, hash: Bytes -> Hash): Option<Address>
  {
    var payload := CheckDecoded(s, hash);
    if s == [] || payload.None? || |payload.value| != 21 then None else Some(payload.value[1..])
  }

  method ParseAddress(s: Text, hash: Bytes -> Hash) returns (r: Option<Address>)
    ensures r == Parsed(s, hash)
  {
    hide Decoded;
    if s == [] { return None; }
    var data := Base58Decode(s);
    if |data| < 5 { return None; }
    var payload, checksum := data[..|data| - 4], data[|data| - 4..];
    if checksum != Checksum(payload, hash) { return None; }
    if |payload| != 21 { return None; }
    r := Some(payload[1..]);
  }

  /** Address text is 25 bytes in Base58: a zero, the address, and the first four bytes of their double hash. */
  lemma AddressChecksum(a: Address, hash: Bytes -> Hash)
    ensures var data := Decoded(AddressText(a, hash));
            && |data| == 25 && data[0] == 0 && data[1..21] == a
            && data[21..] == hash(hash([0] + a))[..4]
  {
    hide Decoded, Encoded;
    Base58RoundTrip(([0] + a) + hash(hash([0] + a))[..4]);
  }

  /** Text is an address exactly when it decodes to 21 bytes and the four bytes their double hash starts with. */
  lemma ParsedExactly(s: Text, hash: Bytes -> Hash, a: Address)
    ensures Parsed(s, hash) == Some(a) <==>
              var data := Decoded(s);
              s != [] && |data| == 25 && data[1..21] == a && data[21..] == hash(hash(data[..21]))[..4]
  {
    hide Decoded;
    var data := Decoded(s);
    if |data| == 25 {
      assert data[..21][1..] == data[1..21];
    }
  }

  /** Every address is read back from its text. */
  lemma AddressRoundTrip(a: Address, hash: Bytes -> Hash)
    ensures Parsed(AddressText(a, hash), hash) == Some(a)
  {
    hide Decoded;
    var payload: Bytes := [0] + a;
    var data := payload + Checksum(payload, hash);
    Base58RoundTrip(data);
    assert data[..|data| - 4] == payload && data[|data| - 4..] == Checksum(payload, hash);
    assert payload[1..] == a;
    assert Encoded(data) != [];
  }
}

/** Machine integers, byte strings and the fixed-size identifiers the chain is built from. */
module Basics {

  datatype Option<+T> = None | Some(value: T)

  const U16: int := 0x1_0000
  const U32: int := 0x1_0000_0000
  const U64: int := 0x1_0000_0000_0000_0000
  const U128: int := 0x1_0000_0000_0000_0000_0000_0000_0000_0000

  type byte = x: int | 0 <= x < 256
  type u16 = x: int | 0 <= x < U16
  type u32 = x: int | 0 <= x < U32
  type u64 = x: int | 0 <= x < U64

  /** types.Amount: a non-negative integer of at most 128 bits. */
  type Amount = x: int | 0 <= x < U128

  type Bytes = seq<byte>
  type Address = b: Bytes | |b| == 20 witness seq(20, _ => 0)
  type Hash = b: Bytes | |b| == 32 witness seq(32, _ => 0)
  type PubKey = b: Bytes | |b| == 32 witness seq(32, _ => 0)

  function Repeat(x: int, n: nat): (s: seq<int>)
    ensures |s| == n && forall i :: 0 <= i < n ==> s[i] == x
  {
    seq(n, _ => x)
  }

  function Zeros(n: nat): (b: Bytes)
    ensures |b| == n && forall i :: 0 <= i < n ==> b[i] == 0
  {
    seq(n, _ => 0)
  }

  const ZERO_HASH: Hash := Zeros(32)
  const ZERO_ADDRESS: Address := Zeros(20)
  const ZERO_KEY: PubKey := Zeros(32)

  /** What a Go uint64 holds after an arithmetic result x. */
  function Wrap64(x: int): (r: u64)
    ensures 0 <= x < U64 ==> r == x
  {
    x % U64
  }

  /** Wrapping a running sum at every step is wrapping it once. */
  lemma WrapAdd(a: int, b: int)
    ensures Wrap64(Wrap64(a) + b) == Wrap64(a + b)
    ensures Wrap64(a - Wrap64(b)) == Wrap64(a - b)
  {
    ModShift(a % U64 + b, a / U64);
    ModShift(a - b % U64, -(b / U64));
  }

  lemma ModShift(x: int, k: int)
    ensures (x + U64 * k) % U64 == x % U64
  {
    var y := x + U64 * k;
    var d := y / U64 - x / U64 - k;
    assert y % U64 - x % U64 == -U64 * d;
  }

  function Wrap32(x: int): (r: u32)
    ensures 0 <= x < U32 ==> r == x
  {
    x % U32
  }

  /** bytes.Compare(a, b) < 0, and the order of Go strings. */
  predicate Less(a: Bytes, b: Bytes)
  {
    |b| > 0 && (|a| == 0 || a[0] < b[0] || (a[0] == b[0] && Less(a[1..], b[1..])))
  }

  /** a and b agree up to n, where a ends or has the smaller byte. */
  ghost predicate SmallerAt(a: Bytes, b: Bytes, n: nat)
  {
    n <= |a| && n < |b| && a[..n] == b[..n] && (n == |a| || a[n] < b[n])
  }

  /** Lexicographic order: a proper prefix comes first, and otherwise the first byte that differs decides. */
  lemma {:induction false} LessExactly(a: Bytes, b: Bytes)
    ensures Less(a, b) <==> exists n :: SmallerAt(a, b, n)
  {
    if |a| > 0 && |b| > 0 && a[0] == b[0] {
      LessExactly(a[1..], b[1..]);
      if n: nat :| SmallerAt(a[1..], b[1..], n) {
        assert a[..n + 1] == [a[0]] + a[1..][..n] && b[..n + 1] == [b[0]] + b[1..][..n];
        assert SmallerAt(a, b, n + 1);
      }
      if n: nat :| SmallerAt(a, b, n) {
        assert a[1..][..n - 1] == a[..n][1..] && b[1..][..n - 1] == b[..n][1..];
        assert SmallerAt(a[1..], b[1..], n - 1);
      }
    } else {
      assert Less(a, b) ==> SmallerAt(a, b, 0);
      if n: nat :| SmallerAt(a, b, n) {
        assert n > 0 ==> a[..n][0] == b[..n][0];
      }
    }
  }

  lemma {:induction false} LessIrreflexive(a: Bytes)
    ensures !Less(a, a)
  {
    if |a| > 0 {
      LessIrreflexive(a[1..]);
    }
  }

  lemma {:induction false} LessTransitive(a: Bytes, b: Bytes, c: Bytes)
    requires Less(a, b) && Less(b, c)
    ensures Less(a, c)
  {
    if |a| > 0 && a[0] == b[0] == c[0] {
      LessTransitive(a[1..], b[1..], c[1..]);
    }
  }

  lemma {:induction false} LessTotal(a: Bytes, b: Bytes)
    ensures a == b || Less(a, b) || Less(b, a)
  {
    if |a| > 0 && |b| > 0 && a[0] == b[0] {
      LessTotal(a[1..], b[1..]);
      assert a == [a[0]] + a[1..] && b == [b[0]] + b[1..];
    }
  }
}

/**
 Go's sort.Slice, and the listing of a finite set in ascending order.

 A Go map is ranged over in no particular order. Every place that turns a map into a list
 sorts it afterwards; this module shows that the sorted list is then unique.
 */
module Sorting {
  import opened Basics

  /** The demand sort.Slice puts on its comparator. */
  ghost predicate StrictWeak<T(!new)>(lt: (T, T) -> bool)
  {
    && (forall x :: !lt(x, x))
    && (forall x, y, z :: lt(x, y) && lt(y, z) ==> lt(x, z))
    && (forall x, y, z :: !lt(x, y) && !lt(y, z) ==> !lt(x, z))
  }

  /** Different members of S are never tied under lt. */
  ghost predicate TotalOn<T(!new)>(S: set<T>, lt: (T, T) -> bool)
  {
    forall x, y :: x in S && y in S && x != y ==> lt(x, y) || lt(y, x)
  }

  /** What sort.Slice promises of its result. */
  ghost predicate Sorted<T>(s: seq<T>, lt: (T, T) -> bool)
  {
    forall i, j :: 0 <= i < j < |s| ==> !lt(s[j], s[i])
  }

  ghost predicate Ascending<T>(s: seq<T>, lt: (T, T) -> bool)
  {
    forall i, j :: 0 <= i < j < |s| ==> lt(s[i], s[j])
  }

  /** s lists exactly the members of S, in strictly ascending order. */
  ghost predicate Lists<T(!new)>(s: seq<T>, S: set<T>, lt: (T, T) -> bool)
  {
    && Ascending(s, lt)
    && (forall x :: x in s <==> x in S)
  }

  /** sort.Slice: ties may land either way, so only the documented promise is exposed. */
  method SortSlice<T(!new, ==)>(s: seq<T>, lt: (T, T) -> bool) returns (r: seq<T>)
    requires StrictWeak(lt)
    ensures multiset(r) == multiset(s)
    ensures Sorted(r, lt)
  {
    r := [];
    for n := 0 to |s|
      invariant multiset(r) == multiset(s[..n])
      invariant Sorted(r, lt)
    {
      assert s[..n + 1] == s[..n] + [s[n]];
      r := InsertSorted(s[n], r, lt);
    }
    assert s[..|s|] == s;
  }

  method InsertSorted<T(!new, ==)>(x: T, s: seq<T>, lt: (T, T) -> bool) returns (r: seq<T>)
    requires StrictWeak(lt) && Sorted(s, lt)
    ensures multiset(r) == multiset(s) + multiset{x}
    ensures Sorted(r, lt)
  {
    var k := |s|;
    while k > 0 && lt(x, s[k - 1])
      invariant 0 <= k <= |s|
      invariant forall i :: k <= i < |s| ==> lt(x, s[i])
    {
      k := k - 1;
    }
    InsertKeepsSorted(x, s, k, lt);
    assert s == s[..k] + s[k..];
    r := s[..k] + [x] + s[k..];
  }

  lemma InsertKeepsSorted<T(!new)>(x: T, s: seq<T>, k: nat, lt: (T, T) -> bool)
    requires StrictWeak(lt) && Sorted(s, lt) && k <= |s|
    requires forall i :: k <= i < |s| ==> lt(x, s[i])
    requires k > 0 ==> !lt(x, s[k - 1])
    ensures Sorted(s[..k] + [x] + s[k..], lt)
  {
    var r := s[..k] + [x] + s[k..];
    forall i, j | 0 <= i < j < |r| ensures !lt(r[j], r[i]) {
      var a := if i < k then i else i - 1;
      var b := if j < k then j else j - 1;
      if i == k {
        assert r[j] == s[b] && lt(x, s[b]);
      } else if j == k {
        assert r[i] == s[i] && (i < k - 1 ==> !lt(s[k - 1], s[i]));
      } else {
        assert r[i] == s[a] && r[j] == s[b] && a < b;
      }
    }
  }

  /** Two ascending lists of the same members are the same list. */
  lemma {:induction false} AscendingUnique<T(!new)>(a: seq<T>, b: seq<T>, lt: (T, T) -> bool)
    requires StrictWeak(lt) && Ascending(a, lt) && Ascending(b, lt)
    requires forall x :: x in a <==> x in b
    ensures a == b
  {
    assert b != [] ==> b[0] in a;
    if a != [] {
      assert a[0] in b;
      assert b[0] in a;
      assert a[0] == b[0];
      forall x ensures x in a[1..] <==> x in b[1..] {
        AscendingTail(a, x, lt);
        AscendingTail(b, x, lt);
      }
      AscendingUnique(a[1..], b[1..], lt);
      assert a == [a[0]] + a[1..] && b == [b[0]] + b[1..];
    }
  }

  lemma AscendingTail<T(!new)>(a: seq<T>, x: T, lt: (T, T) -> bool)
    requires StrictWeak(lt) && Ascending(a, lt) && a != []
    ensures x in a[1..] <==> x in a && x != a[0]
  {
    assert a == [a[0]] + a[1..];
    if x in a[1..] {
      var k :| 0 <= k < |a[1..]| && a[1..][k] == x;
      assert lt(a[0], a[k + 1]);
    }
  }

  /** The ascending listing of a finite set. */
  ghost function Listing<T(!new)>(S: set<T>, lt: (T, T) -> bool): (s: seq<T>)
    requires StrictWeak(lt) && TotalOn(S, lt)
    ensures Lists(s, S, lt)
  {
    ListingExists(S, lt);
    var s :| Lists(s, S, lt);
    s
  }

  lemma {:induction false} ListingExists<T(!new)>(S: set<T>, lt: (T, T) -> bool)
    requires StrictWeak(lt) && TotalOn(S, lt)
    ensures exists s: seq<T> :: Lists(s, S, lt)
  {
    if S == {} {
      assert Lists<T>([], S, lt);
    } else {
      var x :| x in S;
      ListingExists(S - {x}, lt);
      var s :| Lists(s, S - {x}, lt);
      var k := Place(x, s, lt);
      InsertLists(x, s, k, S - {x}, lt);
      assert S == S - {x} + {x};
    }
  }

  lemma InsertLists<T(!new)>(x: T, s: seq<T>, k: nat, S: set<T>, lt: (T, T) -> bool)
    requires StrictWeak(lt) && Lists(s, S, lt) && k <= |s|
    requires forall i :: 0 <= i < k ==> lt(s[i], x)
    requires forall i :: k <= i < |s| ==> lt(x, s[i])
    ensures Lists(s[..k] + [x] + s[k..], S + {x}, lt)
  {
    var r := s[..k] + [x] + s[k..];
    assert s == s[..k] + s[k..];
    assert forall y :: y in r <==> y in s || y == x;
    forall i, j | 0 <= i < j < |r| ensures lt(r[i], r[j]) {
      var a := if i < k then i else i - 1;
      var b := if j <= k then j else j - 1;
      assert i != k ==> r[i] == s[a];
      assert j != k ==> r[j] == s[b];
    }
  }

  ghost function Place<T(!new)>(x: T, s: seq<T>, lt: (T, T) -> bool): (k: nat)
    requires StrictWeak(lt) && Ascending(s, lt)
    requires forall i :: 0 <= i < |s| ==> lt(x, s[i]) || lt(s[i], x)
    ensures k <= |s|
    ensures forall i :: 0 <= i < k ==> lt(s[i], x)
    ensures forall i :: k <= i < |s| ==> lt(x, s[i])
  {
    if s == [] || lt(x, s[0]) then 0 else
      assert forall i :: 0 < i < |s| ==> s[i] == s[1..][i - 1];
      1 + Place(x, s[1..], lt)
  }

  /** Whatever order a map was ranged over in, sorting what was collected gives the listing. */
  lemma SortedIsListing<T(!new)>(r: seq<T>, S: set<T>, lt: (T, T) -> bool)
    requires StrictWeak(lt) && TotalOn(S, lt)
    requires multiset(r) == multiset(S) && Sorted(r, lt)
    ensures Lists(r, S, lt)
    ensures r == Listing(S, lt)
  {
    forall x ensures x in r <==> x in S {
      assert x in r <==> x in multiset(r);
    }
    forall i, j | 0 <= i < j < |r| ensures lt(r[i], r[j]) {
      CountTwice(r, i, j);
      assert multiset(r)[r[i]] <= 1;
      assert r[i] in S && r[j] in S;
    }
    AscendingUnique(r, Listing(S, lt), lt);
  }

  ghost predicate Distinct<T>(s: seq<T>)
  {
    forall i, j :: 0 <= i < j < |s| ==> s[i] != s[j]
  }

  /** A list of the members of S without repeats, in any order, has the multiset of S. */
  lemma {:induction false} DistinctMultiset<T(!new)>(s: seq<T>, S: set<T>)
    requires Distinct(s) && forall x :: x in s <==> x in S
    ensures multiset(s) == multiset(S)
  {
    if s != [] {
      var init, last := s[..|s| - 1], s[|s| - 1];
      assert s == init + [last];
      forall x ensures x in init <==> x in S - {last} {
        assert x in s <==> x in init || x == last;
      }
      DistinctMultiset(init, S - {last});
      assert multiset(S) == multiset(S - {last}) + multiset{last};
    }
  }

  /** Ranging over a Go map: every key comes up once, in an order no one may rely on. */
  method RangeKeys<K(!new, ==)>(keys: set<K>) returns (order: seq<K>)
    ensures Distinct(order)
    ensures forall k :: k in order <==> k in keys
    ensures |order| == |keys|
  {
    order := [];
    var left := keys;
    while left != {}
      invariant left <= keys
      invariant Distinct(order)
      invariant forall k :: k in order <==> k in keys - left
      invariant |order| == |keys - left|
      decreases |left|
    {
      var k :| k in left;
      assert keys - (left - {k}) == (keys - left) + {k};
      order := order + [k];
      left := left - {k};
    }
    assert keys - left == keys;
  }

  lemma CountTwice<T>(r: seq<T>, i: nat, j: nat)
    requires i < j < |r|
    ensures r[i] == r[j] ==> multiset(r)[r[i]] >= 2
  {
    assert r == r[..j] + [r[j]] + r[j + 1..];
    assert multiset(r) == multiset(r[..j]) + multiset{r[j]} + multiset(r[j + 1..]);
    assert r[i] == r[..j][i];
  }

  // ----- comparators -----

  lemma LessIsStrictWeak()
    ensures StrictWeak(Less)
    ensures forall S: set<Bytes> :: TotalOn(S, Less)
  {
    forall x: Bytes ensures !Less(x, x) { LessIrreflexive(x); }
    forall x: Bytes, y: Bytes, z: Bytes | Less(x, y) && Less(y, z) ensures Less(x, z) {
      LessTransitive(x, y, z);
    }
    forall x: Bytes, y: Bytes, z: Bytes | !Less(x, y) && !Less(y, z) ensures !Less(x, z) {
      LessNegTransitive(x, y, z);
    }
    forall S: set<Bytes>, x, y | x in S && y in S && x != y ensures Less(x, y) || Less(y, x) {
      LessTotal(x, y);
    }
  }

  lemma LessNegTransitive(x: Bytes, y: Bytes, z: Bytes)
    requires !Less(x, y) && !Less(y, z)
    ensures !Less(x, z)
  {
    LessTotal(x, y);
    LessTotal(y, z);
    if Less(x, z) {
      if x != y {
        LessTransitive(y, x, z);
      }
    }
  }
}

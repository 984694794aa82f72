/**
 The state root: a tree over account records and key-value entries, inserted in sorted order.

 The tree itself is a function of the sequence of insertions. What is shown here is that all three
 places that build it insert one and the same sequence, whatever order Go maps are ranged over.
 */
module Roots {
  import opened Basics
  import opened Sorting
  import opened Wire
  import opened Accounts
  import opened StateStore

  type Entry = (Bytes, Bytes)
  type Tree = seq<Entry> -> Hash

  function With(keys: seq<Bytes>, m: map<Bytes, Bytes>): (r: seq<Entry>)
    requires forall k :: k in keys ==> k in m
    ensures |r| == |keys| && forall i :: 0 <= i < |keys| ==> r[i] == (keys[i], m[keys[i]])
  {
    if keys == [] then [] else
      assert keys == keys[..|keys| - 1] + [keys[|keys| - 1]];
      With(keys[..|keys| - 1], m) + [(keys[|keys| - 1], m[keys[|keys| - 1]])]
  }

  /** r lists `keys` in ascending byte order. */
  ghost predicate KeyList(r: seq<Bytes>, keys: set<Bytes>)
  {
    && (forall i, j :: 0 <= i < j < |r| ==> Less(r[i], r[j]))
    && (forall k :: k in r <==> k in keys)
  }

  lemma LessTotalOn(keys: set<Bytes>)
    ensures TotalOn(keys, Less)
  {
    hide Less;
    forall x, y | x in keys && y in keys && x != y ensures Less(x, y) || Less(y, x) {
      LessTotal(x, y);
    }
  }

  lemma KeyListExists(keys: set<Bytes>)
    ensures exists r :: KeyList(r, keys)
  {
    hide StrictWeak, TotalOn, Less;
    LessIsStrictWeak();
    LessTotalOn(keys);
    ListingExists(keys, Less);
    var r :| Lists(r, keys, Less);
    assert KeyList(r, keys);
  }

  lemma KeyListUnique(a: seq<Bytes>, b: seq<Bytes>, keys: set<Bytes>)
    requires KeyList(a, keys) && KeyList(b, keys)
    ensures a == b
  {
    hide StrictWeak, TotalOn, Less;
    LessIsStrictWeak();
    AscendingUnique(a, b, Less);
  }

  /** The keys of a map in ascending byte order. */
  ghost function SortedKeys(keys: set<Bytes>): (r: seq<Bytes>)
    ensures KeyList(r, keys)
  {
    KeyListExists(keys);
    var r :| KeyList(r, keys); r
  }

  /** The entries of a map in ascending key order. */
  ghost function Pairs(m: map<Bytes, Bytes>): seq<Entry>
  {
    With(SortedKeys(m.Keys), m)
  }

  function Encoded(accounts: map<Address, Account>): map<Bytes, Bytes>
  {
    map a: Address | a in accounts :: PutAccount(accounts[a], [])
  }

  /** The one sequence of insertions for given contents: accounts by address, then entries by key. */
  ghost function Canonical(c: Contents): seq<Entry>
  {
    Pairs(Encoded(c.accounts)) + Pairs(c.kv)
  }

  method RangeSorted(keys: set<Bytes>) returns (r: seq<Bytes>)
    ensures r == SortedKeys(keys)
  {
    hide StrictWeak, TotalOn, Less, Sorted;
    var order := RangeKeys(keys);
    LessIsStrictWeak();
    r := SortSlice(order, Less);
    DistinctMultiset(order, keys);
    LessTotalOn(keys);
    SortedIsListing(r, keys, Less);
    KeyListUnique(r, SortedKeys(keys), keys);
  }

  method InsertAccounts(accounts: map<Address, Account>) returns (inserted: seq<Entry>)
    ensures inserted == Pairs(Encoded(accounts))
  {
    hide Encoded, PutAccount, SortedKeys, Less;
    EncodedKeys(accounts);
    var addrs := RangeSorted(accounts.Keys);
    ghost var m := Encoded(accounts);
    inserted := [];
    for i := 0 to |addrs|
      invariant inserted == With(addrs[..i], m)
    {
      assert addrs[i] in accounts.Keys;
      assert addrs[..i + 1][..i] == addrs[..i];
      var addr: Address := addrs[i];
      EncodedAt(accounts, addr);
      inserted := inserted + [(addr, PutAccount(accounts[addr], []))];
    }
    assert addrs[..|addrs|] == addrs;
  }

  method InsertEntries(kv: map<Bytes, Bytes>) returns (inserted: seq<Entry>)
    ensures inserted == Pairs(kv)
  {
    hide SortedKeys, Less;
    var keys := RangeSorted(kv.Keys);
    inserted := [];
    for i := 0 to |keys|
      invariant inserted == With(keys[..i], kv)
    {
      assert keys[..i + 1][..i] == keys[..i];
      inserted := inserted + [(keys[i], kv[keys[i]])];
    }
    assert keys[..|keys|] == keys;
  }

  /** The insertion loops, over maps ranged in any order. */
  method Insertions(accounts: map<Address, Account>, kv: map<Bytes, Bytes>) returns (inserted: seq<Entry>)
    ensures inserted == Canonical(Contents(accounts, kv))
  {
    var first := InsertAccounts(accounts);
    var second := InsertEntries(kv);
    inserted := first + second;
  }

  lemma EncodedKeys(accounts: map<Address, Account>)
    ensures Encoded(accounts).Keys == accounts.Keys
  {
  }

  lemma EncodedAt(accounts: map<Address, Account>, a: Address)
    requires a in accounts
    ensures a in Encoded(accounts) && Encoded(accounts)[a] == PutAccount(accounts[a], [])
  {
  }

  /** InMemoryState.Commit: the root depends on the contents and on nothing else. */
  method CommitMemory(s: InMemoryState, tree: Tree) returns (root: Hash)
    ensures root == tree(Canonical(s.View()))
  {
    var records := map a: Address | a in s.accounts :: s.accounts[a].record;
    assert records == Records(s.accounts);
    var inserted := Insertions(records, s.kvstore);
    root := tree(inserted);
  }
}

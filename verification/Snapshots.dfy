/** Taking, writing and reading state images: the source's loops. */
module Snapshots {
  import opened Basics
  import opened Sorting
  import opened Wire
  import opened Accounts
  import opened StateStore
  import opened Roots
  import opened Images

  predicate ByKey(a: Entry, b: Entry)
  {
    Less(a.0, b.0)
  }

  lemma ByKeyIsStrictWeak()
    ensures StrictWeak(ByKey)
  {
    hide Less;
    forall x: Entry ensures !ByKey(x, x) { LessIrreflexive(x.0); }
    forall x: Entry, y: Entry, z: Entry | ByKey(x, y) && ByKey(y, z) ensures ByKey(x, z) {
      LessTransitive(x.0, y.0, z.0);
    }
    forall x: Entry, y: Entry, z: Entry | !ByKey(x, y) && !ByKey(y, z) ensures !ByKey(x, z) {
      LessNegTransitive(x.0, y.0, z.0);
    }
  }

  ghost predicate DistinctKeys(es: seq<Entry>)
  {
    forall i, j :: 0 <= i < j < |es| ==> es[i].0 != es[j].0
  }

  ghost function EntrySet(es: seq<Entry>): set<Entry>
  {
    set e | e in es
  }

  lemma KeyedTotalOn(es: seq<Entry>)
    requires DistinctKeys(es)
    ensures TotalOn(EntrySet(es), ByKey) && multiset(es) == multiset(EntrySet(es))
  {
    hide Less;
    forall x, y | x in EntrySet(es) && y in EntrySet(es) && x != y ensures ByKey(x, y) || ByKey(y, x) {
      LessTotal(x.0, y.0);
    }
    DistinctMultiset(es, EntrySet(es));
  }

  /** With distinct keys there is only one way to sort. */
  lemma SortUnique(es: seq<Entry>, r: seq<Entry>, sorted: seq<Entry>)
    requires DistinctKeys(es) && multiset(r) == multiset(es) && Sorted(r, ByKey)
    requires Ascending(sorted, ByKey) && forall e :: e in sorted <==> e in es
    ensures r == sorted
  {
    hide StrictWeak, TotalOn, Sorted, DistinctKeys, Ascending, ByKey;
    ByKeyIsStrictWeak();
    KeyedTotalOn(es);
    SortedIsListing(r, EntrySet(es), ByKey);
    AscendingUnique(r, sorted, ByKey);
  }

  lemma PairsAscend(m: map<Bytes, Bytes>)
    ensures Ascending(Pairs(m), ByKey)
    ensures forall e :: e in Pairs(m) <==> e.0 in m && m[e.0] == e.1
    ensures |Pairs(m)| == |m|
  {
    hide Less;
    var keys := SortedKeys(m.Keys);
    forall e ensures e in Pairs(m) <==> e.0 in m && m[e.0] == e.1 {
      if e.0 in m && m[e.0] == e.1 {
        var i :| 0 <= i < |keys| && keys[i] == e.0;
        assert Pairs(m)[i] == e;
      }
    }
    KeyCount(keys, m.Keys);
  }

  lemma KeyCount(r: seq<Bytes>, keys: set<Bytes>)
    requires KeyList(r, keys)
    ensures |r| == |keys|
  {
    hide Less;
    forall i, j | 0 <= i < j < |r| ensures r[i] != r[j] {
      LessIrreflexive(r[i]);
    }
    DistinctMultiset(r, keys);
    assert |multiset(r)| == |r|;
  }

  /** Entries collected in map order, then sorted by key. */
  method Collect(m: map<Bytes, Bytes>) returns (es: seq<Entry>)
    ensures es == Pairs(m)
  {
    hide StrictWeak, Sorted, Less, Ascending, ByKey;
    var order := RangeKeys(m.Keys);
    es := [];
    for i := 0 to |order|
      invariant es == With(order[..i], m)
    {
      assert order[..i + 1][..i] == order[..i];
      es := es + [(order[i], m[order[i]])];
    }
    assert order[..|order|] == order;
    ghost var found := es;
    ByKeyIsStrictWeak();
    es := SortSlice(es, ByKey);
    PairsAscend(m);
    SameEntries(order, m, found);
    SortUnique(found, es, Pairs(m));
  }

  lemma SameEntries(order: seq<Bytes>, m: map<Bytes, Bytes>, found: seq<Entry>)
    requires Distinct(order) && forall k :: k in order <==> k in m.Keys
    requires found == With(order, m)
    ensures DistinctKeys(found)
    ensures forall e :: e in found <==> e.0 in m && m[e.0] == e.1
  {
    forall e ensures e in found <==> e.0 in m && m[e.0] == e.1 {
      if e.0 in m && m[e.0] == e.1 {
        var i :| 0 <= i < |order| && order[i] == e.0;
        assert found[i] == e;
      }
    }
  }

  /** The image of given contents under a given root. */
  ghost function ImageOf(c: Contents, root: Hash, height: u64, epoch: u64, setHash: Hash, timestamp: u64): Image
  {
    Image(height, epoch, root, setHash, timestamp, Pairs(Encoded(c.accounts)), Pairs(c.kv))
  }

  /** CreateSnapshot, from the contents and the root of the last commit. */
  method CreateSnapshot(c: Contents, root: Hash, height: u64, epoch: u64, setHash: Hash, timestamp: u64) returns (i: Image)
    ensures i == ImageOf(c, root, height, epoch, setHash, timestamp)
  {
    hide Pairs, Encoded;
    var accounts := Collect(Encoded(c.accounts));
    var kvs := Collect(c.kv);
    i := Image(height, epoch, root, setHash, timestamp, accounts, kvs);
  }

  // ----- writing -----

  method WriteEntries(kind: Kind, es: seq<Entry>, buf: Bytes) returns (r: Bytes)
    ensures r == buf + PutEntries(kind, es, [])
  {
    hide PutEntry;
    r := buf;
    for i := 0 to |es|
      invariant r == buf + PutEntries(kind, es[..i], [])
    {
      PutEntriesMore(kind, es[..i], es[i]);
      assert es[..i + 1] == es[..i] + [es[i]];
      r := r + PutEntry(kind, es[i], []);
    }
    assert es[..|es|] == es;
  }

  /** The lists of an image, each sorted by key. */
  ghost predicate SortedForm(i: Image, s: Image)
  {
    && s == i.(accounts := s.accounts, kvs := s.kvs)
    && multiset(s.accounts) == multiset(i.accounts) && Sorted(s.accounts, ByKey)
    && multiset(s.kvs) == multiset(i.kvs) && Sorted(s.kvs, ByKey)
  }

  /** data is the serialized form of some sorting of i. */
  ghost predicate SerializesAs(i: Image, s: Image, data: Bytes, hash: Bytes -> Hash)
  {
    SortedForm(i, s) && |s.accounts| < U64 && |s.kvs| < U64 && data == Serialized(s, hash)
  }

  /** SerializeSnapshot sorts copies of both lists, writes them and adds a checksum. */
  method SerializeSnapshot(i: Image, hash: Bytes -> Hash) returns (data: Bytes)
    requires |i.accounts| < U64 && |i.kvs| < U64
    ensures exists s :: SerializesAs(i, s, data, hash)
    ensures Ascending(i.accounts, ByKey) && Ascending(i.kvs, ByKey) ==> data == Serialized(i, hash)
  {
    hide StrictWeak, Sorted, ByKey, PutHeader, PutEntries, Ascending;
    ByKeyIsStrictWeak();
    var accounts := SortSlice(i.accounts, ByKey);
    var kvs := SortSlice(i.kvs, ByKey);
    assert |accounts| == |multiset(i.accounts)| == |i.accounts| && |kvs| == |multiset(i.kvs)| == |i.kvs|;
    ghost var sorted := i.(accounts := accounts, kvs := kvs);
    var buf := PutHeader(HeaderOf(i), []);
    buf := WriteEntries(AccountKind, accounts, buf);
    buf := WriteEntries(KVKind, kvs, buf);
    PutHeaderAppends(HeaderOf(i), Entries(sorted));
    PutEntriesAppends(AccountKind, accounts, PutEntries(KVKind, kvs, []));
    assert buf == Body(sorted);
    data := buf + hash(buf);
    assert SerializesAs(i, sorted, data, hash);
    if Ascending(i.accounts, ByKey) && Ascending(i.kvs, ByKey) {
      AscendingSortsToItself(i, sorted);
    }
  }

  lemma AscendingSortsToItself(i: Image, s: Image)
    requires SortedForm(i, s) && Ascending(i.accounts, ByKey) && Ascending(i.kvs, ByKey)
    ensures s == i
  {
    hide Sorted, Less;
    AscendingKeys(i.accounts);
    AscendingKeys(i.kvs);
    SortUnique(i.accounts, s.accounts, i.accounts);
    SortUnique(i.kvs, s.kvs, i.kvs);
  }

  lemma AscendingKeys(es: seq<Entry>)
    requires Ascending(es, ByKey)
    ensures DistinctKeys(es) && Climbs(es, None)
  {
    hide Less;
    forall a, b | 0 <= a < b < |es| ensures es[a].0 != es[b].0 {
      LessIrreflexive(es[a].0);
    }
  }

  // ----- reading -----

  lemma EntryMoves(es: seq<Entry>, e: Entry, others: Read<seq<Entry>>)
    ensures Prepend(es, Prepend([e], others)) == Prepend(es + [e], others)
  {
    if others.Got? {
      assert es + ([e] + others.value) == (es + [e]) + others.value;
    }
  }

  /** One entry read is one entry fewer to read. */
  lemma ReadOn(kind: Kind, data: Bytes, n: nat, prev: Option<Bytes>)
    requires n > 0 && ReadEntry(kind, data).Got? && Above(prev, ReadEntry(kind, data).value.0)
    ensures var one := ReadEntry(kind, data);
            ReadEntries(kind, data, n, prev) == Prepend([one.value], ReadEntries(kind, one.rest, n - 1, Some(one.value.0)))
  {
    hide ReadEntry, Above;
  }

  method ParseEntries(kind: Kind, data: Bytes, n: u64) returns (r: Read<seq<Entry>>)
    ensures r == ReadEntries(kind, data, n, None)
  {
    hide ReadEntry, Less, Above;
    var es: seq<Entry>, rest, prev: Option<Bytes>, i := [], data, None, 0;
    ghost var all := ReadEntries(kind, data, n, None);
    assert all.Got? ==> es + all.value == all.value;
    while i < n
      invariant 0 <= i <= n
      invariant all == Prepend(es, ReadEntries(kind, rest, n - i, prev))
    {
      var one := ReadEntry(kind, rest);
      if one.Fail? { return Fail; }
      var e := one.value;
      if !Above(prev, e.0) { return Fail; }
      ReadOn(kind, rest, n - i, prev);
      EntryMoves(es, e, ReadEntries(kind, one.rest, n - i - 1, Some(e.0)));
      es, rest, prev, i := es + [e], one.rest, Some(e.0), i + 1;
    }
    assert es + [] == es;
    r := Got(es, rest);
  }

  method DeserializeSnapshot(data: Bytes, hash: Bytes -> Hash) returns (r: Option<Image>)
    ensures r == Deserialized(data, hash)
  {
    hide ReadHeader, ReadEntries;
    if |data| < 176 { return None; }
    var body, checksum := data[..|data| - 32], data[|data| - 32..];
    var h := ReadHeader(body);
    if h.Fail? || hash(body) != checksum { return None; }
    var accounts := ParseEntries(AccountKind, h.rest, h.value.accounts);
    if accounts.Fail? { return None; }
    var kvs := ParseEntries(KVKind, accounts.rest, h.value.kvs);
    if kvs.Fail? { return None; }
    r := Some(Image(h.value.height, h.value.epoch, h.value.stateRoot, h.value.setHash, h.value.timestamp,
                    accounts.value, kvs.value));
  }
}

/** Restoring a persistent store from an image, and the whole way from one node's state to another's. */
module FastSync {
  import opened Basics
  import opened Sorting
  import opened Wire
  import opened Accounts
  import opened StateStore
  import opened Roots
  import opened Images
  import opened Snapshots
  import opened Chunks

  // ----- loading -----

  function LoadAccounts(es: seq<Entry>): Option<map<Address, Account>>
    requires forall i :: 0 <= i < |es| ==> |es[i].0| == 20
  {
    if es == [] then Some(map[]) else
      var m := LoadAccounts(es[..|es| - 1]);
      var e := es[|es| - 1];
      var acc := ReadAccount(e.1);
      if m.None? || acc.Fail? then None else Some(m.value[e.0 := acc.value])
  }

  function LoadKVs(es: seq<Entry>): map<Bytes, Bytes>
  {
    if es == [] then map[] else LoadKVs(es[..|es| - 1])[es[|es| - 1].0 := es[|es| - 1].1]
  }

  ghost function KeySet(es: seq<Entry>): set<Bytes>
  {
    set i | 0 <= i < |es| :: es[i].0
  }

  lemma KeySetLast(es: seq<Entry>)
    requires es != []
    ensures KeySet(es) == KeySet(es[..|es| - 1]) + {es[|es| - 1].0}
  {
    var init := es[..|es| - 1];
    forall k | k in KeySet(es) ensures k in KeySet(init) + {es[|es| - 1].0} {
      var i :| 0 <= i < |es| && es[i].0 == k;
      assert i < |init| ==> init[i].0 == k;
    }
    forall k | k in KeySet(init) ensures k in KeySet(es) {
      var i :| 0 <= i < |init| && init[i].0 == k;
      assert es[i].0 == k;
    }
  }

  /** Loading entries that all agree with a map gives that map on their keys. */
  lemma {:induction false} LoadedKVs(es: seq<Entry>, m: map<Bytes, Bytes>)
    requires forall i :: 0 <= i < |es| ==> es[i].0 in m && m[es[i].0] == es[i].1
    ensures LoadKVs(es).Keys == KeySet(es)
    ensures forall k :: k in LoadKVs(es) ==> k in m && LoadKVs(es)[k] == m[k]
  {
    hide KeySet;
    if es != [] {
      LoadedKVs(es[..|es| - 1], m);
      KeySetLast(es);
    } else {
      NoKeys();
    }
  }

  lemma NoKeys()
    ensures KeySet([]) == {}
  {
  }

  lemma PairKeys(m: map<Bytes, Bytes>)
    ensures KeySet(Pairs(m)) == m.Keys
  {
    hide Less;
    PairsAscend(m);
    var es := Pairs(m);
    forall k | k in m ensures k in KeySet(es) {
      assert (k, m[k]) in es;
      var i :| 0 <= i < |es| && es[i] == (k, m[k]);
    }
    forall k | k in KeySet(es) ensures k in m {
      var i :| 0 <= i < |es| && es[i].0 == k;
      assert es[i] in es;
    }
  }

  lemma KVsComeBack(kv: map<Bytes, Bytes>)
    ensures LoadKVs(Pairs(kv)) == kv
  {
    hide Less, LoadKVs, Pairs, KeySet;
    PairsAscend(kv);
    PairKeys(kv);
    LoadedKVs(Pairs(kv), kv);
  }

  /** The entry decodes to the account that the map has under its key. */
  ghost predicate Decodes(e: Entry, accounts: map<Address, Account>)
  {
    && |e.0| == 20
    && (var a: Address := e.0; a in accounts && ReadAccount(e.1).Got? && ReadAccount(e.1).value == accounts[a])
  }

  lemma {:induction false} LoadedAccounts(es: seq<Entry>, accounts: map<Address, Account>)
    requires forall i :: 0 <= i < |es| ==> |es[i].0| == 20 && Decodes(es[i], accounts)
    ensures LoadAccounts(es).Some?
    ensures var m := LoadAccounts(es).value;
            && (forall a: Address :: a in m <==> a in KeySet(es))
            && (forall a: Address :: a in m ==> a in accounts && m[a] == accounts[a])
  {
    hide KeySet, ReadAccount;
    if es != [] {
      LoadedAccounts(es[..|es| - 1], accounts);
      KeySetLast(es);
    } else {
      NoKeys();
    }
  }

  lemma PairsFitAccounts(accounts: map<Address, Account>)
    ensures AllFit(AccountKind, Pairs(Encoded(accounts)))
  {
    hide Less, PutAccount;
    var keys := SortedKeys(Encoded(accounts).Keys);
    forall i | 0 <= i < |keys| ensures EntryFits(AccountKind, Pairs(Encoded(accounts))[i]) {
      assert keys[i] in Encoded(accounts);
    }
  }

  lemma PairsDecode(accounts: map<Address, Account>)
    ensures forall i :: 0 <= i < |Pairs(Encoded(accounts))| ==> Decodes(Pairs(Encoded(accounts))[i], accounts)
  {
    hide Less, PutAccount, ReadAccount, Pairs;
    var m := Encoded(accounts);
    PairsAscend(m);
    forall i | 0 <= i < |Pairs(m)| ensures Decodes(Pairs(m)[i], accounts) {
      assert Pairs(m)[i] in Pairs(m);
      var a: Address := Pairs(m)[i].0;
      AccountRoundTrip(accounts[a], []);
    }
  }

  lemma AccountsComeBack(accounts: map<Address, Account>)
    ensures forall i :: 0 <= i < |Pairs(Encoded(accounts))| ==> |Pairs(Encoded(accounts))[i].0| == 20
    ensures LoadAccounts(Pairs(Encoded(accounts))) == Some(accounts)
  {
    hide Less, LoadAccounts, Encoded, Pairs, KeySet, ReadAccount;
    PairsDecode(accounts);
    PairKeys(Encoded(accounts));
    EncodedKeys(accounts);
    var es := Pairs(Encoded(accounts));
    LoadedAccounts(es, accounts);
    var m := LoadAccounts(es).value;
    assert forall a: Address :: a in m <==> a in accounts;
    assert m == accounts;
  }

  // ----- the persistent store -----

  /** What RestoreFromSnapshot would load from an image, if its accounts decode. */
  function Loaded(i: Image): Option<Contents>
  {
    if !(forall k :: 0 <= k < |i.accounts| ==> |i.accounts[k].0| == 20) then None else
      var accounts := LoadAccounts(i.accounts);
      if accounts.None? then None else Some(Contents(accounts.value, LoadKVs(i.kvs)))
  }

  /** The image the data restores to, if every check passes. */
  ghost function Restorable(data: Bytes, expected: Hash, hash: Bytes -> Hash, tree: Tree): Option<Image>
  {
    var i := Deserialized(data, hash);
    if expected != ZERO_HASH && hash(data) != expected then None
    else if i.None? || i.value.stateRoot == ZERO_HASH || Loaded(i.value).None? then None
    else if tree(Canonical(Loaded(i.value).value)) != i.value.stateRoot then None
    else i
  }

  /** The data passes the checks that are made before anything is overwritten. */
  ghost predicate Admitted(data: Bytes, expected: Hash, hash: Bytes -> Hash)
  {
    && (expected == ZERO_HASH || hash(data) == expected)
    && var i := Deserialized(data, hash); i.Some? && i.value.stateRoot != ZERO_HASH
  }

  /** The accounts before the first one that does not decode. */
  ghost predicate LoadedUntil(es: seq<Entry>, n: nat, cache: map<Address, Account>)
  {
    && n < |es| && ReadAccount(es[n].1).Fail?
    && (forall i :: 0 <= i < n ==> |es[i].0| == 20) && LoadAccounts(es[..n]) == Some(cache)
  }

  class PersistentState {
    var cache: map<Address, Account>
    var kvstore: map<Bytes, Bytes>
    var root: Hash

    constructor ()
      ensures cache == map[] && kvstore == map[] && root == ZERO_HASH
    {
      cache, kvstore, root := map[], map[], ZERO_HASH;
    }

    ghost function View(): Contents
      reads this
    {
      Contents(cache, kvstore)
    }

    /** The root of a commit, which changes nothing else. */
    method Commit(tree: Tree) returns (r: Hash)
      modifies this
      ensures View() == old(View()) && r == root == tree(Canonical(View()))
    {
      var inserted := Insertions(cache, kvstore);
      root := tree(inserted);
      r := root;
    }

    /**
     RestoreFromSnapshot, up to the database write. A failed restore never touches the root. It keeps
     the contents if the data was not admitted; otherwise they are already those of the image, as far
     as its accounts decode.
     */
    method Restore(data: Bytes, expected: Hash, hash: Bytes -> Hash, tree: Tree) returns (ok: bool)
      modifies this
      ensures ok <==> Restorable(data, expected, hash, tree).Some?
      ensures ok ==> var i := Restorable(data, expected, hash, tree).value;
                     Loaded(i) == Some(View()) && root == i.stateRoot == tree(Canonical(View()))
      ensures ok && expected != ZERO_HASH ==> hash(data) == expected
      ensures !ok ==> root == old(root)
      ensures !Admitted(data, expected, hash) ==> !ok && View() == old(View())
      ensures Admitted(data, expected, hash) ==>
                var i := Deserialized(data, hash).value;
                if Loaded(i).Some? then View() == Loaded(i).value
                else kvstore == map[] && exists n :: LoadedUntil(i.accounts, n, cache)
    {
      hide Canonical, Deserialized, LoadKVs, ReadAccount;
      if expected != ZERO_HASH && hash(data) != expected { return false; }
      var image := DeserializeSnapshot(data, hash);
      if image.None? { return false; }
      var i := image.value;
      if i.stateRoot == ZERO_HASH { return false; }
      DeserializedKeys(data, hash);
      cache, kvstore := map[], map[];
      var done := LoadCache(i.accounts);
      if !done { return false; }
      LoadStore(i.kvs);
      var inserted := Insertions(cache, kvstore);
      if tree(inserted) != i.stateRoot { return false; }
      root := i.stateRoot;
      ok := true;
    }

    method LoadCache(es: seq<Entry>) returns (ok: bool)
      requires cache == map[] && forall i :: 0 <= i < |es| ==> |es[i].0| == 20
      modifies this`cache
      ensures ok <==> LoadAccounts(es).Some?
      ensures ok ==> LoadAccounts(es) == Some(cache)
      ensures !ok ==> exists n :: LoadedUntil(es, n, cache)
    {
      hide ReadAccount;
      for n := 0 to |es|
        invariant LoadAccounts(es[..n]) == Some(cache)
      {
        assert es[..n + 1][..n] == es[..n];
        var acc := ReadAccount(es[n].1);
        if acc.Fail? {
          LoadStops(es, n);
          assert LoadedUntil(es, n, cache);
          return false;
        }
        cache := cache[es[n].0 := acc.value];
      }
      assert es[..|es|] == es;
      ok := true;
    }

    method LoadStore(es: seq<Entry>)
      requires kvstore == map[]
      modifies this`kvstore
      ensures kvstore == LoadKVs(es)
    {
      for n := 0 to |es|
        invariant kvstore == LoadKVs(es[..n])
      {
        assert es[..n + 1][..n] == es[..n];
        kvstore := kvstore[es[n].0 := es[n].1];
      }
      assert es[..|es|] == es;
    }
  }

  lemma DeserializedKeys(data: Bytes, hash: Bytes -> Hash)
    ensures var i := Deserialized(data, hash);
            i.Some? ==> forall k :: 0 <= k < |i.value.accounts| ==> |i.value.accounts[k].0| == 20
  {
    hide ReadHeader, ReadEntries;
    var h := ReadHeader(data[..if |data| < 176 then 0 else |data| - 32]);
    if h.Got? {
      ReadEntriesFit(AccountKind, h.rest, h.value.accounts, None);
    }
  }

  /** An account that does not decode spoils the whole list. */
  lemma {:induction false} LoadStops(es: seq<Entry>, n: nat)
    requires n < |es| && ReadAccount(es[n].1).Fail?
    requires forall i :: 0 <= i < |es| ==> |es[i].0| == 20
    ensures LoadAccounts(es).None?
    decreases |es|
  {
    hide ReadAccount;
    if n < |es| - 1 {
      LoadStops(es[..|es| - 1], n);
    }
  }

  // ----- the whole way -----

  /** Every entry of the store is within the limits of an image. */
  ghost predicate Portable(kv: map<Bytes, Bytes>)
  {
    forall k :: k in kv ==> |k| <= MAX_KEY && |kv[k]| <= MAX_VALUE
  }

  ghost predicate Addressable(c: Contents)
  {
    && |c.accounts| < U64 && |c.kv| < U64
    && forall k :: k in c.kv ==> |k| < U32 && |c.kv[k]| < U32
  }

  ghost predicate Cuttable(len: nat, size: u64)
  {
    size > 0 && len + size - 1 < U64 && (len + size - 1) / size <= 0xFFFF_FFFF
  }

  lemma ImageFacts(c: Contents, root: Hash, height: u64, epoch: u64, setHash: Hash, timestamp: u64)
    requires Addressable(c)
    ensures var i := ImageOf(c, root, height, epoch, setHash, timestamp);
            && |i.accounts| < U64 && |i.kvs| < U64
            && Ascending(i.accounts, ByKey) && Ascending(i.kvs, ByKey) && WellOrdered(i)
            && AllFit(AccountKind, i.accounts) && Countable(i.kvs)
            && (AllFit(KVKind, i.kvs) <==> Portable(c.kv))
            && Loaded(i) == Some(c)
  {
    hide Less, ByKey, Encoded, Pairs, LoadAccounts, LoadKVs, Climbs, Ascending;
    PairsAscend(Encoded(c.accounts));
    PairsAscend(c.kv);
    EncodedCount(c.accounts);
    AscendingKeys(Pairs(Encoded(c.accounts)));
    AscendingKeys(Pairs(c.kv));
    PairsFitAccounts(c.accounts);
    PortablePairs(c.kv);
    AccountsComeBack(c.accounts);
    KVsComeBack(c.kv);
  }

  lemma EncodedCount(accounts: map<Address, Account>)
    ensures |Encoded(accounts)| == |accounts|
  {
    hide Encoded;
    EncodedKeys(accounts);
    assert |Encoded(accounts).Keys| == |Encoded(accounts)| && |accounts.Keys| == |accounts|;
  }

  lemma PortablePairs(kv: map<Bytes, Bytes>)
    ensures AllFit(KVKind, Pairs(kv)) <==> Portable(kv)
    ensures (forall k :: k in kv ==> |k| < U32 && |kv[k]| < U32) ==> Countable(Pairs(kv))
  {
    hide Pairs, Ascending;
    PairsAscend(kv);
    var es := Pairs(kv);
    if AllFit(KVKind, es) {
      forall k | k in kv ensures |k| <= MAX_KEY && |kv[k]| <= MAX_VALUE {
        assert (k, kv[k]) in es;
      }
    }
    forall i | 0 <= i < |es| ensures es[i].0 in kv && kv[es[i].0] == es[i].1 {
      assert es[i] in es;
    }
  }

  /** What a node says about the block its image belongs to. */
  datatype Label = Label(height: u64, epoch: u64, setHash: Hash, timestamp: u64)

  ghost function Rooted(c: Contents, b: Label, tree: Tree): Image
  {
    ImageOf(c, tree(Canonical(c)), b.height, b.epoch, b.setHash, b.timestamp)
  }

  /** The serialized image of committed contents. */
  ghost function ImageBytes(c: Contents, b: Label, hash: Bytes -> Hash, tree: Tree): (data: Bytes)
    requires Addressable(c)
    ensures |data| > 0
  {
    ImageFacts(c, tree(Canonical(c)), b.height, b.epoch, b.setHash, b.timestamp);
    Serialized(Rooted(c, b, tree), hash)
  }

  /** It restores exactly when its root is not zero and its entries are within the limits. */
  lemma ImageRestores(c: Contents, b: Label, hash: Bytes -> Hash, tree: Tree)
    requires Addressable(c)
    ensures var data := ImageBytes(c, b, hash, tree);
            Restorable(data, hash(data), hash, tree) ==
            if tree(Canonical(c)) != ZERO_HASH && Portable(c.kv) then Some(Rooted(c, b, tree)) else None
    ensures Loaded(Rooted(c, b, tree)) == Some(c)
  {
    hide Less, ByKey, Encoded, Pairs, Canonical, Climbs, Ascending, Serialized, Deserialized, Loaded, AllFit, Portable;
    var i := Rooted(c, b, tree);
    ImageFacts(c, tree(Canonical(c)), b.height, b.epoch, b.setHash, b.timestamp);
    ImageRoundTrip(i, hash);
    if !Portable(c.kv) {
      ImageRefused(i, hash);
    }
  }

  /** Commit, create and serialize. */
  method Export(c: Contents, b: Label, hash: Bytes -> Hash, tree: Tree) returns (data: Bytes)
    requires Addressable(c)
    ensures data == ImageBytes(c, b, hash, tree)
  {
    hide Canonical, Serialized, Pairs, Ascending, AllFit, WellOrdered, Loaded, SerializesAs;
    var inserted := Insertions(c.accounts, c.kv);
    var i := CreateSnapshot(c, tree(inserted), b.height, b.epoch, b.setHash, b.timestamp);
    ImageFacts(c, tree(inserted), b.height, b.epoch, b.setHash, b.timestamp);
    data := SerializeSnapshot(i, hash);
  }

  /**
   Commit, create, serialize, cut, shuffle, put together and restore: the other node ends up with
   the same accounts, the same entries and the same root. It succeeds exactly when the committed
   root is not zero, every entry is within the limits, and the image can be cut at that size.
   */
  method SyncNode(c: Contents, to: PersistentState, b: Label, size: u64, shuffle: seq<Chunk> -> seq<Chunk>,
                  hash: Bytes -> Hash, tree: Tree) returns (ok: bool)
    requires Addressable(c) && |ImageBytes(c, b, hash, tree)| <= MAX_LEN
    requires forall cs :: multiset(shuffle(cs)) == multiset(cs)
    modifies to
    ensures ok <==> && tree(Canonical(c)) != ZERO_HASH && Portable(c.kv)
                    && Cuttable(|ImageBytes(c, b, hash, tree)|, size)
    ensures ok ==> to.View() == c && to.root == tree(Canonical(c))
  {
    hide Canonical, ImageBytes, Restorable, Portable, Loaded, Rooted, Cuttable;
    var data := Export(c, b, hash, tree);
    ImageRestores(c, b, hash, tree);
    var received := Transmit(data, size, shuffle, hash);
    if received.None? { return false; }
    ok := to.Restore(received.value, hash(data), hash, tree);
  }

  lemma CountMatters(len: u64, size: u64)
    requires size > 0 && len > 0
    ensures Cuttable(len, size) <==> TotalChunks(len, size) <= 0xFFFF_FFFF && len + size - 1 < U64
  {
  }

  /** Cutting, shuffling and putting together. */
  method Transmit(data: Bytes, size: u64, shuffle: seq<Chunk> -> seq<Chunk>, hash: Bytes -> Hash) returns (r: Option<Bytes>)
    requires 0 < |data| <= MAX_LEN
    requires forall cs :: multiset(shuffle(cs)) == multiset(cs)
    ensures r == if Cuttable(|data|, size) then Some(data) else None
  {
    hide Pieces, Complete, Data, Joined;
    if size > 0 { CountMatters(|data|, size); }
    var chunks := ChunkSnapshot(data, size, hash);
    if chunks.None? { return None; }
    CutIsComplete(data, size, hash);
    var shuffled := shuffle(chunks.value);
    if |data| + size - 1 >= U64 {
      forall cs | multiset(cs) == multiset(shuffled) ensures !Complete(cs, hash) {
        OverflowNeverComplete(data, size, hash, cs);
      }
    }
    r := ReassembleSnapshot(shuffled, hash);
  }
}

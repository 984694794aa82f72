/** What the insertions behind a state root say about the contents, and when they determine them. */
module RootEntries {
  import opened Basics
  import opened Sorting
  import opened Wire
  import opened Accounts
  import opened StateStore
  import opened Roots

  ghost predicate Rising(s: seq<Entry>)
  {
    forall i, j :: 0 <= i < j < |s| ==> Less(s[i].0, s[j].0)
  }

  /** s lists the entries of m, by ascending key. */
  ghost predicate EntryList(s: seq<Entry>, m: map<Bytes, Bytes>)
  {
    && Rising(s)
    && forall k, v :: (k, v) in s <==> k in m && m[k] == v
  }

  lemma PairsList(m: map<Bytes, Bytes>)
    ensures EntryList(Pairs(m), m) && |Pairs(m)| == |m|
  {
    hide Less;
    var keys, s := SortedKeys(m.Keys), Pairs(m);
    forall k, v ensures (k, v) in s <==> k in m && m[k] == v {
      if k in m && m[k] == v {
        var i :| 0 <= i < |keys| && keys[i] == k;
        assert s[i] == (k, v);
      }
    }
    KeysOnce(keys, m.Keys);
    assert |m| == |m.Keys|;
  }

  lemma {:induction false} KeysOnce(keys: seq<Bytes>, all: set<Bytes>)
    requires KeyList(keys, all)
    ensures |keys| == |all|
  {
    hide Less;
    if keys != [] {
      var init, last := keys[..|keys| - 1], keys[|keys| - 1];
      assert keys == init + [last];
      LessIsStrictWeak();
      assert last !in init by {
        forall i | 0 <= i < |init| ensures init[i] != last { assert Less(keys[i], last); }
      }
      forall k ensures k in init <==> k in all - {last} {
        assert k in keys <==> k in init || k == last;
      }
      KeysOnce(init, all - {last});
    }
  }

  /** There is only one such list. */
  lemma ListIsPairs(s: seq<Entry>, m: map<Bytes, Bytes>)
    requires EntryList(s, m)
    ensures s == Pairs(m)
  {
    hide Less;
    var keys := seq(|s|, i requires 0 <= i < |s| => s[i].0);
    forall k ensures k in keys <==> k in m.Keys {
      if k in m {
        assert (k, m[k]) in s;
        var i :| 0 <= i < |s| && s[i] == (k, m[k]);
        assert keys[i] == k;
      }
      if k in keys {
        var i :| 0 <= i < |s| && keys[i] == k;
        assert s[i] in s && s[i] == (k, s[i].1);
      }
    }
    KeyListUnique(keys, SortedKeys(m.Keys), m.Keys);
    forall i | 0 <= i < |s| ensures s[i] == Pairs(m)[i] {
      assert s[i] in s && s[i] == (keys[i], s[i].1);
    }
  }

  lemma PairsInjective(m: map<Bytes, Bytes>, n: map<Bytes, Bytes>)
    requires Pairs(m) == Pairs(n)
    ensures m == n
  {
    hide Pairs, Rising;
    PairsList(m);
    PairsList(n);
    forall k ensures k in m <==> k in n {
      if k in m { assert (k, m[k]) in Pairs(m); }
      if k in n { assert (k, n[k]) in Pairs(n); }
    }
    forall k | k in m ensures m[k] == n[k] {
      assert (k, m[k]) in Pairs(n);
    }
  }

  lemma EncodedInjective(a: map<Address, Account>, b: map<Address, Account>)
    requires Encoded(a) == Encoded(b)
    ensures a == b
  {
    hide PutAccount, ReadAccount;
    EncodedKeys(a);
    EncodedKeys(b);
    forall x | x in a ensures a[x] == b[x] {
      EncodedAt(a, x);
      EncodedAt(b, x);
      AccountRoundTrip(a[x], []);
      AccountRoundTrip(b[x], []);
    }
  }

  /** The number of insertions, their order and their members. */
  lemma CanonicalHolds(c: Contents)
    ensures var s, n := Canonical(c), |c.accounts|;
            && |s| == n + |c.kv|
            && EntryList(s[..n], Encoded(c.accounts)) && EntryList(s[n..], c.kv)
  {
    hide Pairs, EntryList, Encoded;
    PairsList(Encoded(c.accounts));
    PairsList(c.kv);
    EncodedKeys(c.accounts);
    assert |Encoded(c.accounts)| == |Encoded(c.accounts).Keys| == |c.accounts.Keys|;
  }

  /** Exactly the accounts in binary form under their addresses, and the entries, are inserted. */
  lemma CanonicalMembers(c: Contents, k: Bytes, v: Bytes)
    ensures (k, v) in Canonical(c) <==>
              || (k in c.accounts.Keys && v == PutAccount(c.accounts[k], []))
              || (k in c.kv && v == c.kv[k])
  {
    hide Less, Pairs, Rising, PutAccount;
    PairsList(Encoded(c.accounts));
    PairsList(c.kv);
  }

  // ----- when they determine the contents -----

  /** No entry could be taken for an account: none is 144 bytes long under a key of 20. */
  ghost predicate NoAccountShapes(c: Contents)
  {
    forall k :: k in c.kv && |k| == 20 ==> |c.kv[k]| != 144
  }

  lemma AccountAt(c: Contents, i: nat)
    requires i < |c.accounts|
    ensures i < |Canonical(c)| && Canonical(c)[i].0 in c.accounts.Keys
    ensures Canonical(c)[i].1 == PutAccount(c.accounts[Canonical(c)[i].0], [])
  {
    hide Less, Canonical, Rising, PutAccount;
    CanonicalHolds(c);
    var s := Canonical(c)[..|c.accounts|];
    assert s[i] in s && s[i] == (s[i].0, s[i].1);
  }

  lemma EntryAt(c: Contents, i: nat)
    requires |c.accounts| <= i < |Canonical(c)|
    ensures Canonical(c)[i].0 in c.kv && c.kv[Canonical(c)[i].0] == Canonical(c)[i].1
  {
    hide Less, Canonical, Rising, PutAccount;
    CanonicalHolds(c);
    var s := Canonical(c)[|c.accounts|..];
    var e := s[i - |c.accounts|];
    assert e in s && e == (e.0, e.1);
  }

  /** With as many accounts on both sides, the insertions tell the contents. */
  lemma SameSplit(c: Contents, d: Contents)
    requires Canonical(c) == Canonical(d) && |c.accounts| == |d.accounts|
    ensures c == d
  {
    hide EntryList, Pairs, Encoded;
    var s, n := Canonical(c), |c.accounts|;
    CanonicalHolds(c);
    CanonicalHolds(d);
    ListIsPairs(s[..n], Encoded(c.accounts));
    ListIsPairs(s[..n], Encoded(d.accounts));
    ListIsPairs(s[n..], c.kv);
    ListIsPairs(s[n..], d.kv);
    PairsInjective(Encoded(c.accounts), Encoded(d.accounts));
    PairsInjective(c.kv, d.kv);
    EncodedInjective(c.accounts, d.accounts);
  }

  /** So it does where no entry looks like an account, */
  lemma CanonicalInjective(c: Contents, d: Contents)
    requires Canonical(c) == Canonical(d) && NoAccountShapes(c) && NoAccountShapes(d)
    ensures c == d
  {
    hide Canonical;
    CanonicalHolds(c);
    CanonicalHolds(d);
    if |c.accounts| < |d.accounts| {
      EntryAt(c, |c.accounts|);
      AccountAt(d, |c.accounts|);
    } else if |d.accounts| < |c.accounts| {
      EntryAt(d, |d.accounts|);
      AccountAt(c, |d.accounts|);
    }
    SameSplit(c, d);
  }

  /** and a root that two such contents share is a collision of the tree. */
  lemma RootTells(c: Contents, d: Contents, tree: Tree)
    requires tree(Canonical(c)) == tree(Canonical(d)) ==> Canonical(c) == Canonical(d)
    requires NoAccountShapes(c) && NoAccountShapes(d)
    ensures tree(Canonical(c)) == tree(Canonical(d)) <==> c == d
  {
    hide Canonical;
    if tree(Canonical(c)) == tree(Canonical(d)) {
      CanonicalInjective(c, d);
    }
  }

  lemma RisingWithin(s: seq<Entry>, lo: nat, hi: nat)
    requires lo <= hi <= |s| && Rising(s[lo..hi])
    ensures forall i, j :: lo <= i < j < hi ==> Less(s[i].0, s[j].0)
  {
    hide Less;
    forall i, j | lo <= i < j < hi ensures Less(s[i].0, s[j].0) {
      assert s[lo..hi][i - lo] == s[i] && s[lo..hi][j - lo] == s[j];
    }
  }

  /** Accounts are inserted in order, and so are entries. */
  lemma BothRise(c: Contents)
    ensures var s, n := Canonical(c), |c.accounts|;
            && |s| == n + |c.kv|
            && (forall i, j :: 0 <= i < j < n ==> Less(s[i].0, s[j].0))
            && (forall i, j :: n <= i < j < |s| ==> Less(s[i].0, s[j].0))
  {
    hide Less, Canonical, Rising;
    CanonicalHolds(c);
    var s, n := Canonical(c), |c.accounts|;
    assert s[0..n] == s[..n] && s[n..|s|] == s[n..];
    RisingWithin(s, 0, n);
    RisingWithin(s, n, |s|);
  }

  lemma KeyAt(c: Contents, k: Bytes)
    ensures |Canonical(c)| == |c.accounts| + |c.kv|
    ensures k in c.accounts.Keys <==> exists i :: 0 <= i < |c.accounts| && Canonical(c)[i].0 == k
    ensures k in c.kv <==> exists i :: |c.accounts| <= i < |Canonical(c)| && Canonical(c)[i].0 == k
  {
    hide Canonical, Rising, PutAccount;
    CanonicalHolds(c);
    var s, n := Canonical(c), |c.accounts|;
    if k in c.accounts.Keys {
      EncodedAt(c.accounts, k);
      assert (k, Encoded(c.accounts)[k]) in s[..n];
      var i :| 0 <= i < |s[..n]| && s[..n][i] == (k, Encoded(c.accounts)[k]);
      assert s[i].0 == k;
    }
    if i :| 0 <= i < n && s[i].0 == k {
      assert s[..n][i] in s[..n] && s[..n][i] == (k, s[i].1);
    }
    if k in c.kv {
      assert (k, c.kv[k]) in s[n..];
      var i :| 0 <= i < |s[n..]| && s[n..][i] == (k, c.kv[k]);
      assert s[n + i].0 == k;
    }
    if i :| n <= i < |s| && s[i].0 == k {
      EntryAt(c, i);
    }
  }

  /** Nothing below goes past k, and nothing above comes before it. */
  ghost predicate Border(k: Bytes, below: set<Bytes>, above: set<Bytes>)
  {
    && (forall b :: b in below ==> b == k || Less(b, k))
    && (forall a :: a in above ==> a == k || Less(k, a))
  }

  /** The last account is inserted before every entry, or the first entry is shaped as an account after every one. */
  ghost predicate Ambiguous(c: Contents)
  {
    exists k :: Border(k, c.accounts.Keys, c.kv.Keys) && Crosses(c, k)
  }

  ghost predicate Crosses(c: Contents, k: Bytes)
  {
    || (k in c.accounts.Keys && k !in c.kv)
    || (k !in c.accounts.Keys && k in c.kv && |k| == 20 && |c.kv[k]| == 144)
  }

  /** The last account handed over to the entries. */
  ghost function HandedOver(c: Contents, k: Address): Contents
    requires k in c.accounts
  {
    Contents(c.accounts - {k}, c.kv[k := PutAccount(c.accounts[k], [])])
  }

  lemma LastAccount(c: Contents, k: Address)
    requires k in c.accounts && Border(k, c.accounts.Keys, c.kv.Keys)
    ensures c.accounts != map[] && |c.accounts| <= |Canonical(c)|
    ensures Canonical(c)[|c.accounts| - 1] == (k, PutAccount(c.accounts[k], []))
  {
    hide Less, PutAccount, Canonical;
    BothRise(c);
    KeyAt(c, k);
    var s, n := Canonical(c), |c.accounts|;
    AccountAt(c, n - 1);
    LessIsStrictWeak();
    var last := s[n - 1].0;
    assert last in c.accounts.Keys;
  }

  lemma OneLess(s: seq<Entry>, m: map<Bytes, Bytes>)
    requires EntryList(s, m) && s != []
    ensures EntryList(s[..|s| - 1], m - {s[|s| - 1].0})
  {
    hide Less;
    LessIsStrictWeak();
    var init, last := s[..|s| - 1], s[|s| - 1];
    assert s == init + [last] && (last.0, last.1) in s;
    forall k, v ensures (k, v) in init <==> k in m - {last.0} && m[k] == v {
      assert (k, v) in s <==> (k, v) in init || (k, v) == last;
      if (k, v) in init {
        var i :| 0 <= i < |init| && init[i] == (k, v);
        assert Less(s[i].0, last.0);
      }
    }
  }

  lemma OneMore(e: Entry, s: seq<Entry>, m: map<Bytes, Bytes>)
    requires EntryList(s, m) && e.0 !in m && forall k :: k in m ==> Less(e.0, k)
    ensures EntryList([e] + s, m[e.0 := e.1])
  {
    hide Less;
    var t, n := [e] + s, m[e.0 := e.1];
    forall i, j | 0 <= i < j < |t| ensures Less(t[i].0, t[j].0) {
      assert s[j - 1] in s && s[j - 1] == (s[j - 1].0, s[j - 1].1);
    }
    forall k, v ensures (k, v) in t <==> k in n && n[k] == v {
      assert (k, v) in t <==> (k, v) == e || (k, v) in s;
    }
  }

  lemma FewerAccounts(accounts: map<Address, Account>, k: Address, s: seq<Entry>)
    requires EntryList(s, Encoded(accounts)) && s != [] && s[|s| - 1].0 == k
    ensures s[..|s| - 1] == Pairs(Encoded(accounts - {k}))
  {
    hide EntryList, Pairs, PutAccount;
    OneLess(s, Encoded(accounts));
    assert Encoded(accounts) - {k} == Encoded(accounts - {k});
    ListIsPairs(s[..|s| - 1], Encoded(accounts - {k}));
  }

  lemma MoreEntries(e: Entry, s: seq<Entry>, m: map<Bytes, Bytes>)
    requires EntryList(s, m) && e.0 !in m && forall k :: k in m ==> Less(e.0, k)
    ensures [e] + s == Pairs(m[e.0 := e.1])
  {
    hide EntryList, Pairs, Less;
    OneMore(e, s, m);
    ListIsPairs([e] + s, m[e.0 := e.1]);
  }

  /** Handing the last account over changes the contents and no insertion. */
  lemma HandOver(c: Contents, k: Address)
    requires k in c.accounts && k !in c.kv && Border(k, c.accounts.Keys, c.kv.Keys)
    ensures HandedOver(c, k) != c && Canonical(HandedOver(c, k)) == Canonical(c)
  {
    hide Less, PutAccount, Pairs, Border, EntryList, Encoded;
    LastAccount(c, k);
    CanonicalHolds(c);
    var s, n := Canonical(c), |c.accounts|;
    FewerAccounts(c.accounts, k, s[..n]);
    assert s[..n][..n - 1] == s[..n - 1];
    NextUp(c, k);
    MoreEntries(s[n - 1], s[n..], c.kv);
    assert s == s[..n - 1] + ([s[n - 1]] + s[n..]);
  }

  /** A single account is inserted as the entry that holds its binary form is. */
  lemma LoneAccount(a: Address, acc: Account)
    ensures Canonical(Contents(map[a := acc], map[])) == Canonical(Contents(map[], map[a := PutAccount(acc, [])]))
  {
    hide Less, PutAccount, Canonical;
    var c := Contents(map[a := acc], map[]);
    HandOver(c, a);
    assert HandedOver(c, a) == Contents(map[], map[a := PutAccount(acc, [])]);
  }

  lemma NextUp(c: Contents, k: Bytes)
    requires k !in c.kv && Border(k, c.accounts.Keys, c.kv.Keys)
    ensures forall j :: j in c.kv ==> Less(k, j)
  {
  }

  /** Different contents are inserted alike exactly when the border between accounts and entries can move. */
  lemma AmbiguousExactly(c: Contents)
    ensures Ambiguous(c) <==> exists d :: d != c && Canonical(d) == Canonical(c)
  {
    hide Less, Canonical, Border, PutAccount;
    if Ambiguous(c) {
      var k :| Border(k, c.accounts.Keys, c.kv.Keys) && Crosses(c, k);
      if k in c.accounts.Keys {
        HandOver(c, k);
      } else {
        TakeOver(c, k);
      }
    }
    if d :| d != c && Canonical(d) == Canonical(c) {
      TwinCrosses(c, d);
    }
  }

  /** The other way: the first entry becomes the last account. */
  lemma TakeOver(c: Contents, k: Address)
    requires k !in c.accounts && k in c.kv && |c.kv[k]| == 144 && Border(k, c.accounts.Keys, c.kv.Keys)
    ensures exists d :: d != c && Canonical(d) == Canonical(c)
  {
    hide Less, Canonical, PutAccount, ReadAccount;
    AccountShaped(c.kv[k]);
    var d := Contents(c.accounts[k := ReadAccount(c.kv[k]).value], c.kv - {k});
    assert HandedOver(d, k) == c;
    HandOver(d, k);
  }

  /** An insertion with all accounts before it and all entries after it, other than itself, is a border. */
  lemma BorderAt(c: Contents, p: nat)
    requires p < |Canonical(c)| && |c.accounts| <= |Canonical(c)|
    requires forall i :: 0 <= i < |c.accounts| && i != p ==> Less(Canonical(c)[i].0, Canonical(c)[p].0)
    requires forall j :: |c.accounts| <= j < |Canonical(c)| && j != p ==> Less(Canonical(c)[p].0, Canonical(c)[j].0)
    ensures Border(Canonical(c)[p].0, c.accounts.Keys, c.kv.Keys)
    ensures !(Canonical(c)[p].0 in c.accounts.Keys && Canonical(c)[p].0 in c.kv)
  {
    hide Less, Canonical;
    var s, k := Canonical(c), Canonical(c)[p].0;
    LessIsStrictWeak();
    forall b | b in c.accounts.Keys ensures b == k || Less(b, k) { KeyAt(c, b); }
    forall a | a in c.kv ensures a == k || Less(k, a) { KeyAt(c, a); }
    KeyAt(c, k);
  }

  lemma TwinCrosses(c: Contents, d: Contents)
    requires d != c && Canonical(d) == Canonical(c)
    ensures Ambiguous(c)
  {
    hide Less, Canonical, Border;
    var n, m := |c.accounts|, |d.accounts|;
    if m == n {
      SameSplit(c, d);
      assert false;
    }
    BothRise(c);
    BothRise(d);
    var p := if m < n then n - 1 else n;
    var k := Canonical(c)[p].0;
    BorderAt(c, p);
    KeyAt(c, k);
    if n < m {
      EntryAt(c, n);
      AccountAt(d, n);
    }
    assert Crosses(c, k);
  }
}

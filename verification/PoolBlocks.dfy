/** Blocks built from what the mempool lists: which block it is, and exactly when it executes. */
module PoolBlocks {
  import opened Basics
  import opened Sorting
  import opened Accounts
  import opened StateStore
  import opened Transactions
  import opened Registrations
  import opened Blocks
  import opened Funding
  import opened Mempool

  // ----- one transaction per sender and nonce -----

  ghost predicate OneNonceEach(S: set<Transaction>)
  {
    forall x, y :: x in S && y in S && x.sender == y.sender && x.nonce == y.nonce ==> x == y
  }

  lemma LiveOneNonceEach(txs: map<Hash, Pending>, nextNonce: map<Address, u64>, log: seq<Transaction>, ttl: int, now: int)
    requires Tracked(nextNonce, log) && Logged(txs, log)
    ensures OneNonceEach(Live(txs, ttl, now))
  {
    hide Expired, Consecutive;
    forall x, y | x in Live(txs, ttl, now) && y in Live(txs, ttl, now) && x.sender == y.sender && x.nonce == y.nonce ensures x == y {
      OneAcceptedPerNonce(log, x, y);
    }
  }

  lemma BySenderTotal(S: set<Transaction>)
    requires OneNonceEach(S)
    ensures StrictWeak(BySender) && TotalOn(S, BySender)
  {
    hide Less;
    BySenderIsStrictWeak();
    forall x, y | x in S && y in S && x != y ensures BySender(x, y) || BySender(y, x) {
      LessTotal(x.sender, y.sender);
    }
  }

  /** Then there is only one way to sort. */
  lemma SortedOnce(S: set<Transaction>, a: seq<Transaction>, b: seq<Transaction>)
    requires OneNonceEach(S) && multiset(a) == multiset(S) == multiset(b) && Sorted(a, BySender) && Sorted(b, BySender)
    ensures a == b
  {
    hide StrictWeak, TotalOn, OneNonceEach, BySender, Sorted;
    BySenderTotal(S);
    SortedIsListing(a, S, BySender);
    SortedIsListing(b, S, BySender);
  }

  // ----- readiness without an order -----

  /** The transactions of tx's sender in S that come before it. */
  ghost function Earlier(S: set<Transaction>, tx: Transaction): set<Transaction>
  {
    set t | t in S && t.sender == tx.sender && t.nonce < tx.nonce
  }

  /** What a self-paid block of the transactions in S asks of tx. */
  ghost predicate Fit(c: Contents, S: set<Transaction>, tx: Transaction, env: Env)
  {
    && ValidTx(tx, env) && tx.sender in c.accounts
    && env.verify(c.accounts[tx.sender].publicKey, tx.intentID, tx.signature)
    && tx.nonce == c.accounts[tx.sender].nonce + |Earlier(S, tx)| + 1
    && (IsRegistration(tx) ==> FitEntry(c, S, tx, env))
  }

  /** A good message for a slot that is free and that no other registration in S is for. */
  ghost predicate FitEntry(c: Contents, S: set<Transaction>, tx: Transaction, env: Env)
  {
    var m := ReadRegistration(tx.payload);
    && m.Got? && m.value.address == tx.sender && m.value.stake >= 100000 && m.value.commission <= 10000
    && Slot(m.value, env) !in c.kv
    && forall t :: t in S && t != tx ==> !FillsSlot(t, Slot(m.value, env), env)
  }

  ghost function SentSet(b: seq<Transaction>, n: nat, a: Address): set<Transaction>
    requires n <= |b|
  {
    set j | 0 <= j < n && b[j].sender == a :: b[j]
  }

  lemma {:induction false} SentCounts(b: seq<Transaction>, n: nat, a: Address)
    requires n <= |b| && Distinct(b)
    ensures SentBy(b, n, a) == |SentSet(b, n, a)|
  {
    hide SentSet;
    SentNone(b, a);
    if n > 0 {
      SentCounts(b, n - 1, a);
      SentMore(b, n, a);
    }
  }

  lemma SentNone(b: seq<Transaction>, a: Address)
    ensures SentSet(b, 0, a) == {}
  {
  }

  lemma SentMore(b: seq<Transaction>, n: nat, a: Address)
    requires 0 < n <= |b| && Distinct(b)
    ensures b[n - 1] !in SentSet(b, n - 1, a)
    ensures SentSet(b, n, a) == if b[n - 1].sender == a then SentSet(b, n - 1, a) + {b[n - 1]} else SentSet(b, n - 1, a)
  {
  }

  /** b lists S, each member once. */
  ghost predicate Arranges(b: seq<Transaction>, S: set<Transaction>)
  {
    Distinct(b) && forall x :: x in b <==> x in S
  }

  lemma SortedRank(b: seq<Transaction>, S: set<Transaction>, i: nat)
    requires Arranges(b, S) && Sorted(b, BySender) && OneNonceEach(S) && i < |b|
    ensures SentBy(b, i, b[i].sender) == |Earlier(S, b[i])|
  {
    hide SentBy, Less;
    var tx := b[i];
    SentCounts(b, i, tx.sender);
    forall t | t in Earlier(S, tx) ensures t in SentSet(b, i, tx.sender) {
      var k :| 0 <= k < |b| && b[k] == t;
      assert k > i ==> !BySender(b[k], b[i]);
    }
    forall t | t in SentSet(b, i, tx.sender) ensures t in Earlier(S, tx) {
      var j :| 0 <= j < i && b[j] == t;
      assert !BySender(b[i], b[j]) && b[j] != b[i] && b[j] in b && b[i] in b;
    }
    assert SentSet(b, i, tx.sender) == Earlier(S, tx);
  }

  lemma AllEnter(c: Contents, b: seq<Transaction>, S: set<Transaction>, env: Env)
    requires Arranges(b, S)
    ensures (forall i :: 0 <= i < |b| && IsRegistration(b[i]) ==> CanEnter(c, b, i, env)) <==>
            (forall tx :: tx in S && IsRegistration(tx) ==> FitEntry(c, S, tx, env))
  {
    hide ReadRegistration, Slot;
    if forall i :: 0 <= i < |b| && IsRegistration(b[i]) ==> CanEnter(c, b, i, env) {
      forall tx | tx in S && IsRegistration(tx) ensures FitEntry(c, S, tx, env) {
        var i :| 0 <= i < |b| && b[i] == tx;
        EntersAlone(c, b, S, i, env);
      }
    }
    if forall tx :: tx in S && IsRegistration(tx) ==> FitEntry(c, S, tx, env) {
      forall i | 0 <= i < |b| && IsRegistration(b[i]) ensures CanEnter(c, b, i, env) {
        assert b[i] in b && FitEntry(c, S, b[i], env);
        forall j | 0 <= j < i ensures !FillsSlot(b[j], Slot(ReadRegistration(b[i].payload).value, env), env) {
          assert b[j] in b && b[j] != b[i];
        }
      }
    }
  }

  lemma EntersAlone(c: Contents, b: seq<Transaction>, S: set<Transaction>, i: nat, env: Env)
    requires Arranges(b, S) && i < |b| && IsRegistration(b[i])
    requires forall k :: 0 <= k < |b| && IsRegistration(b[k]) ==> CanEnter(c, b, k, env)
    ensures FitEntry(c, S, b[i], env)
  {
    hide ReadRegistration, Slot;
    assert CanEnter(c, b, i, env);
    var slot := Slot(ReadRegistration(b[i].payload).value, env);
    forall t | t in S && t != b[i] ensures !FillsSlot(t, slot, env) {
      var k :| 0 <= k < |b| && b[k] == t;
      assert IsRegistration(b[k]) ==> CanEnter(c, b, k, env);
      assert FillsSlot(b[i], slot, env);
      assert i < k ==> Fills(b, k, slot, env);
      assert k < i ==> !FillsSlot(b[k], slot, env);
    }
  }

  /** Sorted, every transaction is ready exactly when every one fits. */
  lemma ReadyIsFit(c: Contents, b: seq<Transaction>, S: set<Transaction>, env: Env)
    requires Arranges(b, S) && Sorted(b, BySender) && OneNonceEach(S)
    ensures (forall i :: 0 <= i < |b| ==> Ready(c, b, i, env)) <==> (forall tx :: tx in S ==> Fit(c, S, tx, env))
  {
    hide Sorted, OneNonceEach, SentBy, Earlier, CanEnter, FitEntry, ValidTx;
    AllEnter(c, b, S, env);
    forall i | 0 <= i < |b| { SortedRank(b, S, i); }
    if forall i :: 0 <= i < |b| ==> Ready(c, b, i, env) {
      forall i | 0 <= i < |b| && IsRegistration(b[i]) ensures CanEnter(c, b, i, env) {
        assert Ready(c, b, i, env);
      }
      forall tx | tx in S ensures Fit(c, S, tx, env) {
        var i :| 0 <= i < |b| && b[i] == tx;
        assert Ready(c, b, i, env);
      }
    }
    if forall tx :: tx in S ==> Fit(c, S, tx, env) {
      forall tx | tx in S && IsRegistration(tx) ensures FitEntry(c, S, tx, env) {
        assert Fit(c, S, tx, env);
      }
      forall i | 0 <= i < |b| ensures Ready(c, b, i, env) {
        assert b[i] in b && Fit(c, S, b[i], env);
      }
    }
  }

  // ----- the block of a pool -----

  ghost function Members(b: seq<Transaction>): set<Transaction>
  {
    set tx | tx in b
  }

  /** b is a block that a mempool with these live transactions can give. */
  ghost predicate BodyOf(live: set<Transaction>, maxTxs: nat, b: seq<Transaction>)
  {
    exists r: seq<Transaction> :: Lists(r, live, ByFee) && multiset(b) == multiset(Selected(r, maxTxs)) && Sorted(b, BySender)
  }

  lemma SelectedFacts(live: set<Transaction>, r: seq<Transaction>, maxTxs: nat, b: seq<Transaction>)
    requires Lists(r, live, ByFee) && multiset(b) == multiset(Selected(r, maxTxs)) && OneNonceEach(live)
    ensures multiset(b) == multiset(Members(Selected(r, maxTxs))) && Members(b) == Members(Selected(r, maxTxs))
    ensures Arranges(b, Members(b)) && OneNonceEach(Members(b))
  {
    hide Less;
    var s := Selected(r, maxTxs);
    ByFeeIsStrictWeak();
    forall i, j | 0 <= i < j < |s| ensures s[i] != s[j] {
      assert s[i] == r[i] && s[j] == r[j];
    }
    DistinctMultiset(s, Members(s));
    forall x ensures x in b <==> x in s {
      assert x in multiset(b) <==> x in multiset(s);
    }
    DistinctByMultiset(b, Members(s));
    forall x | x in s ensures x in live {
      assert x in r;
    }
  }

  lemma SeenTwice(b: seq<Transaction>, i: nat, j: nat)
    requires i < j < |b| && b[i] == b[j]
    ensures multiset(b)[b[i]] >= 2
  {
    var x := b[i];
    assert b == b[..i] + [x] + b[i + 1..j] + [x] + b[j + 1..];
  }

  lemma DistinctByMultiset(b: seq<Transaction>, S: set<Transaction>)
    requires multiset(b) == multiset(S)
    ensures Distinct(b)
  {
    forall i, j | 0 <= i < j < |b| ensures b[i] != b[j] {
      if b[i] == b[j] {
        SeenTwice(b, i, j);
        assert false;
      }
    }
  }

  /** Equal live transactions give one block, however many are cut off. */
  lemma OneBodyPerPool(live: set<Transaction>, maxTxs: nat, a: seq<Transaction>, b: seq<Transaction>)
    requires OneNonceEach(live) && BodyOf(live, maxTxs, a) && BodyOf(live, maxTxs, b)
    ensures a == b
  {
    hide OneNonceEach, Less, ByFee, BySender, Sorted, StrictWeak;
    var r: seq<Transaction> :| Lists(r, live, ByFee) && multiset(a) == multiset(Selected(r, maxTxs)) && Sorted(a, BySender);
    var s: seq<Transaction> :| Lists(s, live, ByFee) && multiset(b) == multiset(Selected(s, maxTxs)) && Sorted(b, BySender);
    ByFeeIsStrictWeak();
    AscendingUnique(r, s, ByFee);
    SelectedFacts(live, r, maxTxs, a);
    SelectedFacts(live, r, maxTxs, b);
    SortedOnce(Members(a), a, b);
  }

  /**
   Listing the pool and building from the list. The body is the only one that pools with these live
   transactions can give. If every sender can pay beforehand, it executes exactly when there is room
   for its registrations and every one of its transactions fits.
   */
  method BuildFromPool(pool: Pool, db: InMemoryState, maxTxs: nat, env: Env, now: int)
    returns (ok: bool, body: seq<Transaction>, fees: u64)
    requires pool.Valid() && db.Valid() && Unshared(db.accounts)
    modifies pool, db, db.accounts.Values
    ensures pool.Valid() && db.Valid() && Unshared(db.accounts)
    ensures var live := old(Live(pool.txs, pool.ttl, now));
            && OneNonceEach(live) && BodyOf(live, maxTxs, body) && KeepsBest(live, maxTxs, body) && forall b | BodyOf(live, maxTxs, b) :: b == body
    ensures var x := RunAll(old(db.View()), body, |body|, env);
            ok == x.error.None? && db.View() == x.contents && (ok ==> fees == Wrap64(Fees(body)))
    ensures old(SelfPaid(db.View().accounts, body)) ==>
              (ok <==> old(Roomy(db.View(), body)) && forall tx | tx in body :: old(Fit(db.View(), Members(body), tx, env)))
  {
    hide RunAll, SelfPaid, Roomy, Fit, Records, Live, Tracked, Logged, Indexed, Sorted, BySender, ByFee, OneNonceEach, BodyOf, Wrap64, Fees,
         Ascending, InSequence, Traced, Finished, KeepsBest;
    ghost var live, c := Live(pool.txs, pool.ttl, now), db.View();
    LiveOneNonceEach(pool.txs, pool.nextNonce, pool.accepted, pool.ttl, now);
    var pending := pool.PendingTxs(now);
    ghost var trace;
    ok, body, fees, trace := BuildBody(db, pending, maxTxs, env);
    IsBody(live, maxTxs, pending, body);
    CutKeepsBest(live, maxTxs, pending, body);
    forall b | BodyOf(live, maxTxs, b) ensures b == body {
      OneBodyPerPool(live, maxTxs, b, body);
    }
    if SelfPaid(c.accounts, body) {
      FitsExactly(c, live, pending, maxTxs, body, env);
    }
  }

  /** Whatever is kept is better than whatever is cut, and nothing is cut while there is room. */
  ghost predicate KeepsBest(live: set<Transaction>, maxTxs: nat, b: seq<Transaction>)
  {
    && (forall x, y :: x in b && y in live && y !in b ==> Better(x, y))
    && (forall x :: x in b ==> x in live)
    && |b| == if |live| > maxTxs then maxTxs else |live|
  }

  lemma CutKeepsBest(live: set<Transaction>, maxTxs: nat, r: seq<Transaction>, b: seq<Transaction>)
    requires Lists(r, live, ByFee) && multiset(b) == multiset(Selected(r, maxTxs))
    ensures KeepsBest(live, maxTxs, b)
  {
    hide ByFee, Better, StrictWeak;
    var s := Selected(r, maxTxs);
    assert |b| == |multiset(b)| == |multiset(s)| == |s|;
    forall x ensures x in b <==> x in s {
      assert x in multiset(b) <==> x in multiset(s);
    }
    ByFeeIsStrictWeak();
    ListingSize(r, live);
    BetterFirst(r, live);
    forall x, y | x in b && y in live && y !in b ensures Better(x, y) {
      var i :| 0 <= i < |s| && s[i] == x;
      var j :| 0 <= j < |r| && r[j] == y;
      assert s == r[..|s|];
    }
    forall x | x in b ensures x in live {
      assert x in s;
    }
  }

  lemma ListingSize(r: seq<Transaction>, live: set<Transaction>)
    requires Lists(r, live, ByFee)
    ensures |r| == |live|
  {
    hide ByFee;
    ByFeeIsStrictWeak();
    DistinctMultiset(r, live);
    assert |r| == |multiset(r)| == |multiset(live)| == |live|;
  }

  lemma IsBody(live: set<Transaction>, maxTxs: nat, r: seq<Transaction>, b: seq<Transaction>)
    requires Lists(r, live, ByFee) && multiset(b) == multiset(Selected(r, maxTxs)) && Sorted(b, BySender)
    ensures BodyOf(live, maxTxs, b)
  {
  }

  lemma FitsExactly(c: Contents, live: set<Transaction>, r: seq<Transaction>, maxTxs: nat, b: seq<Transaction>, env: Env)
    requires Lists(r, live, ByFee) && multiset(b) == multiset(Selected(r, maxTxs)) && Sorted(b, BySender) && OneNonceEach(live)
    requires SelfPaid(c.accounts, b)
    ensures RunAll(c, b, |b|, env).error.None? <==> Roomy(c, b) && forall tx | tx in b :: Fit(c, Members(b), tx, env)
  {
    hide RunAll, SelfPaid, Roomy, Fit, Ready, Sorted, BySender, ByFee, OneNonceEach, Lists;
    SelectedFacts(live, r, maxTxs, b);
    ReadyIsFit(c, b, Members(b), env);
    ExecutesExactly(c, b, env);
  }

  // ----- what a pool does not look at -----

  /** From a sender whose nonce is tracked, signature and balance are not looked at. */
  lemma TrackedUnchecked(pool: Pool, tx: Transaction, accounts: map<Address, Account>, others: map<Address, Account>, e: PoolEnv,
                         verify: (PubKey, Hash, Bytes) -> bool)
    requires NextNonce(pool.nextNonce, tx.sender) != 0
    ensures pool.Refusal(tx, accounts, e) == pool.Refusal(tx, others, e.(env := e.env.(verify := verify)))
  {
    hide ReadRegistration;
  }

  lemma VerifiedInBlock(c: Contents, txs: seq<Transaction>, i: nat, env: Env)
    requires i < |txs| && txs[i].sender in c.accounts && RunAll(c, txs, |txs|, env).error.None?
    ensures env.verify(c.accounts[txs[i].sender].publicKey, txs[i].intentID, txs[i].signature)
  {
    hide ApplyAny, SpentBy;
    RunPrefix(c, txs, i + 1, |txs|, env);
    RunPrefix(c, txs, i, i + 1, env);
    Passed(RunAll(c, txs, i, env).contents, txs[i], env);
    RunKeeps(c, txs, i, env, txs[i].sender);
  }

  /** A transaction that its sender's key does not verify stops every block it is in. */
  lemma UnverifiedStops(c: Contents, txs: seq<Transaction>, i: nat, env: Env)
    requires i < |txs| && txs[i].sender in c.accounts
    requires !env.verify(c.accounts[txs[i].sender].publicKey, txs[i].intentID, txs[i].signature)
    ensures RunAll(c, txs, |txs|, env).error.Some?
  {
    hide RunAll;
    if RunAll(c, txs, |txs|, env).error.None? {
      VerifiedInBlock(c, txs, i, env);
    }
  }
}

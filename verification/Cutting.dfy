/** When the block BuildBlock produces depends on the order in which the mempool lists its transactions. */
module Cutting {
  import opened Basics
  import opened Sorting
  import opened Wire
  import opened Accounts
  import opened StateStore
  import opened Transactions
  import opened Registrations
  import opened Blocks
  import opened Funding

  /** The mempool lists the pending transactions in this order, and the block builds with this body. */
  ghost predicate Builds(c: Contents, pending: seq<Transaction>, maxTxs: nat, env: Env,
                         order: seq<Transaction>, body: seq<Transaction>)
  {
    && multiset(order) == multiset(pending)
    && multiset(body) == multiset(Selected(order, maxTxs)) && Sorted(body, BySender)
    && RunAll(c, body, |body|, env).error.None?
  }

  ghost predicate OneBodyForAll(c: Contents, pending: seq<Transaction>, maxTxs: nat, env: Env)
  {
    forall o1, b1, o2, b2 ::
      Builds(c, pending, maxTxs, env, o1, b1) && Builds(c, pending, maxTxs, env, o2, b2) ==> b1 == b2
  }

  ghost predicate OneSender(txs: seq<Transaction>)
  {
    forall x, y | x in txs && y in txs :: x.sender == y.sender
  }

  // ----- the orders do not matter -----

  lemma SameSize<T>(s: seq<T>, t: seq<T>)
    requires multiset(s) == multiset(t)
    ensures |s| == |t| && forall x :: x in s <==> x in t
  {
    assert |s| == |multiset(s)| == |multiset(t)| == |t|;
    forall x ensures x in s <==> x in t {
      assert x in multiset(s) <==> x in multiset(t);
    }
  }

  lemma {:induction false} SentByOne(txs: seq<Transaction>, n: nat, a: Address)
    requires n <= |txs| && forall i :: 0 <= i < n ==> txs[i].sender == a
    ensures SentBy(txs, n, a) == n
  {
    if n > 0 { SentByOne(txs, n - 1, a); }
  }

  lemma BodyFacts(c: Contents, pending: seq<Transaction>, maxTxs: nat, env: Env,
                  order: seq<Transaction>, body: seq<Transaction>)
    requires Builds(c, pending, maxTxs, env, order, body)
    ensures |body| == if |pending| > maxTxs then maxTxs else |pending|
    ensures forall x :: x in body ==> x in pending
  {
    hide RunAll, Sorted;
    SameSize(order, pending);
    SameSize(body, Selected(order, maxTxs));
  }

  /** One sender: a body is that sender's next transactions, and each nonce is pending once. */
  lemma OneSenderOneBody(c: Contents, pending: seq<Transaction>, sorted: seq<Transaction>, maxTxs: nat, env: Env,
                         o1: seq<Transaction>, b1: seq<Transaction>, o2: seq<Transaction>, b2: seq<Transaction>)
    requires multiset(sorted) == multiset(pending) && RunAll(c, sorted, |sorted|, env).error.None?
    requires OneSender(pending)
    requires Builds(c, pending, maxTxs, env, o1, b1) && Builds(c, pending, maxTxs, env, o2, b2)
    ensures b1 == b2
  {
    hide RunAll, Sorted, Selected, SentBy, NonceAt;
    BodyFacts(c, pending, maxTxs, env, o1, b1);
    BodyFacts(c, pending, maxTxs, env, o2, b2);
    SameSize(sorted, pending);
    forall k | 0 <= k < |b1| ensures b1[k] == b2[k] {
      var x, y := b1[k], b2[k];
      assert x in pending && y in pending;
      NonceByPlace(c, pending, b1, env, k);
      NonceByPlace(c, pending, b2, env, k);
      var i :| 0 <= i < |sorted| && sorted[i] == x;
      var j :| 0 <= j < |sorted| && sorted[j] == y;
      NonceByPlace(c, pending, sorted, env, i);
      NonceByPlace(c, pending, sorted, env, j);
    }
  }

  lemma NonceByPlace(c: Contents, pending: seq<Transaction>, txs: seq<Transaction>, env: Env, k: nat)
    requires k < |txs| && RunAll(c, txs, |txs|, env).error.None?
    requires OneSender(pending) && forall x :: x in txs ==> x in pending
    ensures txs[k].nonce == NonceAt(c.accounts, txs[k].sender) + k + 1
  {
    hide RunAll, NonceAt;
    ConsecutiveNonces(c, txs, env);
    forall i | 0 <= i < k ensures txs[i].sender == txs[k].sender {
      assert txs[i] in pending && txs[k] in pending;
    }
    SentByOne(txs, k, txs[k].sender);
  }

  predicate NothingToChoose(pending: seq<Transaction>, maxTxs: nat)
  {
    maxTxs == 0 || |pending| <= maxTxs || forall i | 0 <= i < |pending| :: pending[i].sender == pending[0].sender
  }

  /**
   If all pending transactions together execute when sorted, then every order that builds gives the
   same body as long as no transaction fits, all fit, or they have one sender. Incoming transfers
   may pay for them.
   */
  lemma OrderIrrelevant(c: Contents, pending: seq<Transaction>, sorted: seq<Transaction>, maxTxs: nat, env: Env)
    requires Sorted(sorted, BySender) && multiset(sorted) == multiset(pending)
    requires RunAll(c, sorted, |sorted|, env).error.None?
    requires NothingToChoose(pending, maxTxs)
    ensures OneBodyForAll(c, pending, maxTxs, env)
  {
    forall o1, b1, o2, b2 |
      Builds(c, pending, maxTxs, env, o1, b1) && Builds(c, pending, maxTxs, env, o2, b2)
      ensures b1 == b2
    {
      hide RunAll, Sorted;
      BodyFacts(c, pending, maxTxs, env, o1, b1);
      BodyFacts(c, pending, maxTxs, env, o2, b2);
      if maxTxs == 0 {
      } else if |pending| <= maxTxs {
        SameSize(o1, pending);
        SameSize(o2, pending);
        ConsecutiveNonces(c, b1, env);
        OneBody(c.accounts, b1, b2);
      } else {
        OneSenderOneBody(c, pending, sorted, maxTxs, env, o1, b1, o2, b2);
      }
    }
  }

  // ----- leaving out a stretch -----

  function Without(txs: seq<Transaction>, p: nat, q: nat, e: nat): seq<Transaction>
    requires p <= q <= e <= |txs|
  {
    txs[..p] + txs[q..e]
  }

  /** None of the kept transactions after the gap has a sender in the gap. */
  ghost predicate Apart(txs: seq<Transaction>, p: nat, q: nat, e: nat)
    requires p <= q <= e <= |txs|
  {
    forall i, j | p <= i < q <= j < e :: txs[i].sender != txs[j].sender
  }

  lemma {:induction false} SentSame(s: seq<Transaction>, t: seq<Transaction>, n: nat, a: Address)
    requires n <= |s| && n <= |t| && s[..n] == t[..n]
    ensures SentBy(s, n, a) == SentBy(t, n, a) && SpentBy(s, n, a) == SpentBy(t, n, a) && Staked(s, n) == Staked(t, n)
  {
    hide Cost, StakeOf;
    if n > 0 {
      assert s[..n - 1] == s[..n][..n - 1] && t[..n - 1] == t[..n][..n - 1];
      assert s[n - 1] == s[..n][n - 1] && t[n - 1] == t[..n][n - 1];
      SentSame(s, t, n - 1, a);
    }
  }

  lemma {:induction false} SentAcross(txs: seq<Transaction>, p: nat, q: nat, a: Address)
    requires p <= q <= |txs| && forall i :: p <= i < q ==> txs[i].sender != a
    ensures SentBy(txs, q, a) == SentBy(txs, p, a)
    decreases q
  {
    if p < q { SentAcross(txs, p, q - 1, a); }
  }

  lemma {:induction false} SentAfter(txs: seq<Transaction>, p: nat, q: nat, e: nat, k: nat, a: Address)
    requires p <= q <= e <= |txs| && q + k <= e && forall i :: p <= i < q ==> txs[i].sender != a
    ensures SentBy(Without(txs, p, q, e), p + k, a) == SentBy(txs, q + k, a)
    decreases k
  {
    var t := Without(txs, p, q, e);
    if k == 0 {
      SentSame(txs, t, p, a);
      SentAcross(txs, p, q, a);
    } else {
      SentAfter(txs, p, q, e, k - 1, a);
    }
  }

  lemma {:induction false} SpentLess(txs: seq<Transaction>, p: nat, q: nat, e: nat, k: nat, a: Address)
    requires p <= q <= e <= |txs| && q + k <= e
    ensures SpentBy(Without(txs, p, q, e), p + k, a) <= SpentBy(txs, q + k, a)
    ensures Staked(Without(txs, p, q, e), p + k) <= Staked(txs, q + k)
    decreases k
  {
    hide Cost, StakeOf;
    var t := Without(txs, p, q, e);
    if k == 0 {
      SentSame(txs, t, p, a);
      SpentByGrows(txs, p, q, a);
      StakedGrows(txs, p, q);
    } else {
      SpentLess(txs, p, q, e, k - 1, a);
    }
  }

  lemma WithoutSelfPaid(accounts: map<Address, Account>, txs: seq<Transaction>, p: nat, q: nat, e: nat)
    requires p <= q <= e <= |txs| && SelfPaid(accounts, txs)
    ensures SelfPaid(accounts, Without(txs, p, q, e))
  {
    hide SpentBy, Held, BalanceAt;
    var t := Without(txs, p, q, e);
    forall a: Address ensures SpentBy(t, |t|, a) <= BalanceAt(accounts, a) {
      SpentLess(txs, p, q, e, e - q, a);
      SpentByGrows(txs, e, |txs|, a);
    }
  }

  /** Where the i-th transaction of the kept part was. */
  function Place(p: nat, q: nat, i: nat): nat
    requires p <= q
  {
    if i < p then i else q + (i - p)
  }

  lemma WithoutRoomy(c: Contents, txs: seq<Transaction>, p: nat, q: nat, e: nat)
    requires p <= q <= e <= |txs| && Roomy(c, txs)
    ensures Roomy(c, Without(txs, p, q, e))
  {
    hide Staked, BondedTotal, EpochKey, CountKey, Readable, IsRegistration;
    var t := Without(txs, p, q, e);
    if Registers(t, |t|) {
      var j :| 0 <= j < |t| && IsRegistration(t[j]);
      assert t[j] == txs[Place(p, q, j)];
      SpentLess(txs, p, q, e, e - q, ZERO_ADDRESS);
      StakedGrows(txs, e, |txs|);
    }
  }

  lemma WithoutFills(txs: seq<Transaction>, p: nat, q: nat, e: nat, i: nat, slot: Bytes, env: Env)
    requires p <= q <= e <= |txs| && i < p + (e - q) && Fills(Without(txs, p, q, e), i, slot, env)
    ensures Place(p, q, i) < |txs| && Fills(txs, Place(p, q, i), slot, env)
  {
    hide FillsSlot;
    var t := Without(txs, p, q, e);
    var j :| 0 <= j < i && FillsSlot(t[j], slot, env);
    assert t[j] == txs[Place(p, q, j)] && Place(p, q, j) < Place(p, q, i);
  }

  lemma WithoutEnters(c: Contents, txs: seq<Transaction>, p: nat, q: nat, e: nat, env: Env, i: nat)
    requires p <= q <= e <= |txs| && i < p + (e - q) && CanEnter(c, txs, Place(p, q, i), env)
    ensures CanEnter(c, Without(txs, p, q, e), i, env)
  {
    hide Fills, ReadRegistration, Slot;
    var t := Without(txs, p, q, e);
    assert t[i] == txs[Place(p, q, i)];
    var slot := Slot(ReadRegistration(t[i].payload).value, env);
    if Fills(t, i, slot, env) {
      WithoutFills(txs, p, q, e, i, slot, env);
      assert false;
    }
  }

  lemma WithoutReady(c: Contents, txs: seq<Transaction>, p: nat, q: nat, e: nat, env: Env, i: nat)
    requires p <= q <= e <= |txs| && Apart(txs, p, q, e) && i < p + (e - q)
    requires forall j :: 0 <= j < |txs| ==> Ready(c, txs, j, env)
    ensures Ready(c, Without(txs, p, q, e), i, env)
  {
    hide SentBy, ValidTx, CanEnter;
    var t := Without(txs, p, q, e);
    assert Ready(c, txs, Place(p, q, i), env) && t[i] == txs[Place(p, q, i)];
    if IsRegistration(t[i]) {
      WithoutEnters(c, txs, p, q, e, env, i);
    }
    if i < p {
      assert txs[..i] == t[..i];
      SentSame(txs, t, i, t[i].sender);
    } else {
      SentAfter(txs, p, q, e, i - p, t[i].sender);
    }
  }

  /** Leaving out a stretch none of whose senders come after leaves a list that still executes. */
  lemma WithoutExecutes(c: Contents, txs: seq<Transaction>, p: nat, q: nat, e: nat, env: Env)
    requires p <= q <= e <= |txs| && Apart(txs, p, q, e)
    requires SelfPaid(c.accounts, txs) && RunAll(c, txs, |txs|, env).error.None?
    ensures var t := Without(txs, p, q, e); RunAll(c, t, |t|, env).error.None?
  {
    hide SelfPaid, Ready, RunAll, Apart, Roomy;
    ExecutesExactly(c, txs, env);
    var t := Without(txs, p, q, e);
    forall i | 0 <= i < |t| ensures Ready(c, t, i, env) {
      WithoutReady(c, txs, p, q, e, env, i);
    }
    WithoutSelfPaid(c.accounts, txs, p, q, e);
    WithoutRoomy(c, txs, p, q, e);
    ExecutesExactly(c, t, env);
  }

  lemma WithoutSorted(txs: seq<Transaction>, p: nat, q: nat, e: nat)
    requires p <= q <= e <= |txs| && Sorted(txs, BySender)
    ensures Sorted(Without(txs, p, q, e), BySender)
  {
    hide BySender;
    var t := Without(txs, p, q, e);
    forall i, j | 0 <= i < j < |t| ensures !BySender(t[j], t[i]) {
      var j' := if j < p then j else q + (j - p);
      var i' := if i < p then i else q + (i - p);
      assert t[j] == txs[j'] && t[i] == txs[i'];
    }
  }

  lemma WithoutFirst(txs: seq<Transaction>, p: nat, q: nat, e: nat)
    requires p <= q <= e <= |txs|
    ensures var t := Without(txs, p, q, e);
            var order := t + txs[p..q] + txs[e..];
            multiset(order) == multiset(txs) && Selected(order, p + (e - q)) == t
  {
    var a, b, c, d := txs[..p], txs[p..q], txs[q..e], txs[e..];
    assert txs == a + b + c + d;
    var order := Without(txs, p, q, e) + b + d;
    assert order[..p + (e - q)] == a + c;
  }

  /** The kept part is what an order that lists it first selects. */
  lemma WithoutBuilds(c: Contents, pending: seq<Transaction>, txs: seq<Transaction>, env: Env,
                      p: nat, q: nat, e: nat)
    requires p <= q <= e <= |txs| && Apart(txs, p, q, e) && p + (e - q) <= |txs|
    requires Sorted(txs, BySender) && multiset(txs) == multiset(pending)
    requires SelfPaid(c.accounts, txs) && RunAll(c, txs, |txs|, env).error.None?
    ensures Builds(c, pending, p + (e - q), env, Without(txs, p, q, e) + txs[p..q] + txs[e..], Without(txs, p, q, e))
  {
    hide SelfPaid, RunAll, Apart, Sorted, Without;
    WithoutExecutes(c, txs, p, q, e, env);
    WithoutSorted(txs, p, q, e);
    WithoutFirst(txs, p, q, e);
  }

  // ----- the orders matter -----

  /** The end of the run of transactions from the same sender that starts at i. */
  function RunEnd(txs: seq<Transaction>, i: nat, a: Address): (k: nat)
    requires i <= |txs|
    ensures i <= k <= |txs| && forall j :: i <= j < k ==> txs[j].sender == a
    ensures k < |txs| ==> txs[k].sender != a
    decreases |txs| - i
  {
    if i == |txs| || txs[i].sender != a then i else RunEnd(txs, i + 1, a)
  }

  /** The start of the run of transactions from the same sender that ends before i. */
  function RunStart(txs: seq<Transaction>, i: nat, a: Address): (r: nat)
    requires i <= |txs|
    ensures r <= i && forall j :: r <= j < i ==> txs[j].sender == a
    ensures r > 0 ==> txs[r - 1].sender != a
  {
    if i == 0 || txs[i - 1].sender != a then i else RunStart(txs, i - 1, a)
  }

  /** Where to leave out a stretch so that maxTxs transactions stay, and not the first maxTxs. */
  lemma GapExists(txs: seq<Transaction>, m: nat) returns (p: nat, q: nat, e: nat)
    requires 0 < m < |txs| && exists i | 0 <= i < |txs| :: txs[i].sender != txs[0].sender
    ensures p < q < e <= |txs| && p + (e - q) == m && Apart(txs, p, q, e) && txs[q].sender != txs[p].sender
  {
    var a := txs[m - 1].sender;
    var k := RunEnd(txs, m, a);
    if k < |txs| {
      p, q, e := m - 1, k, k + 1;
    } else {
      var r := RunStart(txs, |txs|, a);
      assert 0 < r < m;
      p, q, e := r - 1, r, m + 1;
    }
  }

  lemma TwoBodies(c: Contents, pending: seq<Transaction>, sorted: seq<Transaction>, maxTxs: nat, env: Env)
    requires Sorted(sorted, BySender) && multiset(sorted) == multiset(pending)
    requires SelfPaid(c.accounts, sorted) && RunAll(c, sorted, |sorted|, env).error.None?
    requires 0 < maxTxs < |sorted| && exists i | 0 <= i < |sorted| :: sorted[i].sender != sorted[0].sender
    ensures !OneBodyForAll(c, pending, maxTxs, env)
  {
    hide Sorted, SelfPaid, RunAll, Builds, Without, Apart;
    var p, q, e := GapExists(sorted, maxTxs);
    ApartNowhere(sorted, maxTxs);
    WithoutBuilds(c, pending, sorted, env, p, q, e);
    WithoutBuilds(c, pending, sorted, env, maxTxs, maxTxs, maxTxs);
    PartsDiffer(sorted, p, q, e);
  }

  lemma ApartNowhere(txs: seq<Transaction>, m: nat)
    requires m <= |txs|
    ensures Apart(txs, m, m, m)
  {
  }

  lemma PartsDiffer(txs: seq<Transaction>, p: nat, q: nat, e: nat)
    requires p < q < e <= |txs| && txs[q].sender != txs[p].sender
    ensures var m := p + (e - q); Without(txs, p, q, e) != Without(txs, m, m, m)
  {
    var m := p + (e - q);
    var t, first := Without(txs, p, q, e), Without(txs, m, m, m);
    assert t[p] == txs[q] && first[p] == txs[p];
  }

  /**
   When all pending transactions together execute and every sender pays from its own balance, every
   order that builds gives the same body exactly when there is nothing to choose.
   */
  lemma OrderMattersExactly(c: Contents, pending: seq<Transaction>, sorted: seq<Transaction>, maxTxs: nat, env: Env)
    requires Sorted(sorted, BySender) && multiset(sorted) == multiset(pending)
    requires SelfPaid(c.accounts, sorted) && RunAll(c, sorted, |sorted|, env).error.None?
    ensures OneBodyForAll(c, pending, maxTxs, env) <==> NothingToChoose(pending, maxTxs)
  {
    hide Sorted, SelfPaid, RunAll, OneBodyForAll;
    if NothingToChoose(pending, maxTxs) {
      OrderIrrelevant(c, pending, sorted, maxTxs, env);
    } else {
      SameSize(sorted, pending);
      var i :| 0 <= i < |pending| && pending[i].sender != pending[0].sender;
      assert pending[i] in sorted && pending[0] in sorted;
      TwoBodies(c, pending, sorted, maxTxs, env);
    }
  }

  // ----- the smallest case -----

  const ALICE: Address := Repeat(1, 20)
  const BOB: Address := Repeat(2, 20)

  function Plain(sender: Address): Transaction
  {
    Transaction(1, 1, ZERO_HASH, sender, 1, [], [], 5, 0, 0, [1], TX_STANDARD)
  }

  /** Two senders, room for one transaction: either order builds, with its own body. */
  lemma RoomForOne()
    ensures var accounts := map[ALICE := NewAccount(ALICE, ZERO_KEY).(balance := 9), BOB := NewAccount(BOB, ZERO_KEY).(balance := 9)];
            var env := Env((k, h, s) => true, t => true, b => ZERO_HASH);
            var pending := [Plain(ALICE), Plain(BOB)];
            && Builds(Contents(accounts, map[]), pending, 1, env, pending, [Plain(ALICE)])
            && Builds(Contents(accounts, map[]), pending, 1, env, [Plain(BOB), Plain(ALICE)], [Plain(BOB)])
            && [Plain(ALICE)] != [Plain(BOB)]
  {
    var accounts := map[ALICE := NewAccount(ALICE, ZERO_KEY).(balance := 9), BOB := NewAccount(BOB, ZERO_KEY).(balance := 9)];
    var env := Env((k, h, s) => true, t => true, b => ZERO_HASH);
    var pending := [Plain(ALICE), Plain(BOB)];
    assert ALICE[0] != BOB[0];
    assert TxRefusal(accounts, Plain(ALICE), env).None? && TxRefusal(accounts, Plain(BOB), env).None?;
    assert pending[..1] == [Plain(ALICE)];
    assert [Plain(BOB), Plain(ALICE)][..1] == [Plain(BOB)];
    assert multiset([Plain(BOB), Plain(ALICE)]) == multiset(pending);
  }
}

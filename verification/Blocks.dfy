/** Building a block body from the mempool and executing it, on the builder and on every validator. */
module Blocks {
  import opened Basics
  import opened Sorting
  import opened Wire
  import opened Accounts
  import opened StateStore
  import opened Transactions
  import opened Registrations
  import opened Applier

  predicate BySender(a: Transaction, b: Transaction)
  {
    if a.sender != b.sender then Less(a.sender, b.sender) else a.nonce < b.nonce
  }

  lemma BySenderIsStrictWeak()
    ensures StrictWeak(BySender)
  {
    hide Less;
    forall x: Transaction, y: Transaction, z: Transaction | BySender(x, y) && BySender(y, z) ensures BySender(x, z) {
      BySenderTransitive(x, y, z);
    }
    forall x: Transaction, y: Transaction, z: Transaction | !BySender(x, y) && !BySender(y, z) ensures !BySender(x, z) {
      BySenderNegTransitive(x, y, z);
    }
  }

  lemma BySenderTransitive(x: Transaction, y: Transaction, z: Transaction)
    requires BySender(x, y) && BySender(y, z)
    ensures BySender(x, z)
  {
    hide Less;
    LessIrreflexive(x.sender);
    if x.sender != y.sender && y.sender != z.sender {
      LessTransitive(x.sender, y.sender, z.sender);
    }
  }

  lemma BySenderNegTransitive(x: Transaction, y: Transaction, z: Transaction)
    requires !BySender(x, y) && !BySender(y, z)
    ensures !BySender(x, z)
  {
    hide Less;
    LessTotal(x.sender, y.sender);
    LessTotal(y.sender, z.sender);
    LessIrreflexive(x.sender);
    if x.sender != z.sender {
      NotLess(x.sender, y.sender);
      NotLess(y.sender, z.sender);
      LessNegTransitive(x.sender, y.sender, z.sender);
    }
  }

  lemma NotLess(a: Bytes, b: Bytes)
    ensures a == b ==> !Less(a, b)
  {
    LessIrreflexive(a);
  }

  // ----- nonces -----

  function NonceAt(accounts: map<Address, Account>, a: Address): u64
  {
    if a in accounts then accounts[a].nonce else 0
  }

  /** How many of the first n transactions a sent. */
  function SentBy(txs: seq<Transaction>, n: nat, a: Address): nat
    requires n <= |txs|
  {
    if n == 0 then 0 else SentBy(txs, n - 1, a) + if txs[n - 1].sender == a then 1 else 0
  }

  lemma ApplyAnyNonces(c: Contents, tx: Transaction, env: Env, a: Address)
    requires ApplyAny(c, tx, env).refusal.None?
    ensures NonceAt(ApplyAny(c, tx, env).contents.accounts, a) == NonceAt(c.accounts, a) + if a == tx.sender then 1 else 0
    ensures tx.nonce == NonceAt(c.accounts, tx.sender) + 1
  {
    hide FromBE, TransferAmount, ReadRegistration, EntriesAfter;
  }

  /** In a block that executes, the nonce each account has reached counts the transactions it sent. */
  lemma {:induction false} RunNonces(c: Contents, txs: seq<Transaction>, n: nat, env: Env, a: Address)
    requires n <= |txs| && RunAll(c, txs, n, env).error.None?
    ensures NonceAt(RunAll(c, txs, n, env).contents.accounts, a) == NonceAt(c.accounts, a) + SentBy(txs, n, a)
  {
    hide ApplyAny, NonceAt;
    if n > 0 {
      RunNonces(c, txs, n - 1, env, a);
      ApplyAnyNonces(RunAll(c, txs, n - 1, env).contents, txs[n - 1], env, a);
    }
  }

  lemma {:induction false} RunPrefix(c: Contents, txs: seq<Transaction>, n: nat, m: nat, env: Env)
    requires n <= m <= |txs| && RunAll(c, txs, m, env).error.None?
    ensures RunAll(c, txs, n, env).error.None?
    decreases m
  {
    hide ApplyAny;
    if n < m { RunPrefix(c, txs, n, m - 1, env); }
  }

  /** Each sender's nonces run consecutively from its account nonce + 1. */
  ghost predicate InSequence(accounts: map<Address, Account>, txs: seq<Transaction>)
  {
    forall i :: 0 <= i < |txs| ==> txs[i].nonce == NonceAt(accounts, txs[i].sender) + SentBy(txs, i, txs[i].sender) + 1
  }

  lemma ConsecutiveNonces(c: Contents, txs: seq<Transaction>, env: Env)
    requires RunAll(c, txs, |txs|, env).error.None?
    ensures InSequence(c.accounts, txs)
  {
    hide ApplyAny, NonceAt, SentBy;
    forall i | 0 <= i < |txs| ensures txs[i].nonce == NonceAt(c.accounts, txs[i].sender) + SentBy(txs, i, txs[i].sender) + 1 {
      RunPrefix(c, txs, i + 1, |txs|, env);
      RunPrefix(c, txs, i, i + 1, env);
      var a := txs[i].sender;
      RunNonces(c, txs, i, env, a);
      ApplyAnyNonces(RunAll(c, txs, i, env).contents, txs[i], env, a);
    }
  }

  lemma {:induction false} SentByGrows(txs: seq<Transaction>, i: nat, j: nat, a: Address)
    requires i < j <= |txs| && txs[i].sender == a
    ensures SentBy(txs, i, a) < SentBy(txs, j, a)
    decreases j
  {
    if i + 1 < j { SentByGrows(txs, i, j - 1, a); }
  }

  /** Senders never fall in byte order, and nonces of one sender rise. */
  ghost predicate Increasing(txs: seq<Transaction>)
  {
    forall i, j :: 0 <= i < j < |txs| ==>
      Less(txs[i].sender, txs[j].sender) || (txs[i].sender == txs[j].sender && txs[i].nonce < txs[j].nonce)
  }

  /** A sorted body with consecutive nonces is strictly increasing by sender and nonce. */
  lemma StrictlyIncreasing(accounts: map<Address, Account>, txs: seq<Transaction>)
    requires Sorted(txs, BySender) && InSequence(accounts, txs)
    ensures Ascending(txs, BySender) && Increasing(txs)
  {
    hide Less, NonceAt, SentBy;
    forall i, j | 0 <= i < j < |txs| ensures BySender(txs[i], txs[j]) {
      assert !BySender(txs[j], txs[i]);
      if txs[i].sender == txs[j].sender {
        SentByGrows(txs, i, j, txs[i].sender);
      } else {
        LessTotal(txs[i].sender, txs[j].sender);
      }
    }
  }

  /** Two ways of sorting the same transactions: if one has consecutive nonces, they are the same body. */
  lemma OneBody(accounts: map<Address, Account>, s: seq<Transaction>, t: seq<Transaction>)
    requires Sorted(s, BySender) && Sorted(t, BySender) && multiset(s) == multiset(t) && InSequence(accounts, s)
    ensures s == t
  {
    hide BySender, StrictWeak, InSequence, Sorted, TotalOn;
    StrictlyIncreasing(accounts, s);
    BySenderIsStrictWeak();
    var S := set x | x in s;
    AscendingDistinct(s, S);
    SortedIsListing(t, S, BySender);
    AscendingUnique(s, t, BySender);
  }

  lemma AscendingDistinct(s: seq<Transaction>, S: set<Transaction>)
    requires Ascending(s, BySender) && S == set x | x in s
    ensures multiset(s) == multiset(S) && TotalOn(S, BySender)
  {
    hide BySender;
    forall i, j | 0 <= i < j < |s| ensures s[i] != s[j] {
      NotBefore(s[i], s[j]);
    }
    DistinctMultiset(s, S);
    forall x, y | x in S && y in S && x != y ensures BySender(x, y) || BySender(y, x) {
      var i :| 0 <= i < |s| && s[i] == x;
      var j :| 0 <= j < |s| && s[j] == y;
    }
  }

  lemma NotBefore(x: Transaction, y: Transaction)
    ensures BySender(x, y) ==> x != y
  {
    LessIrreflexive(x.sender);
  }

  // ----- the source's loops -----

  /** Which object is stored under which address, and what the store holds. */
  datatype Stage = Stage(objects: Objects, contents: Contents)

  /** The stages of a block: each transaction in turn has its effect, and a refusal is the last one. */
  ghost predicate Traced(trace: seq<Stage>, txs: seq<Transaction>, env: Env)
  {
    && 0 < |trace| <= |txs| + 1
    && forall i | 0 <= i < |trace| - 1 ::
         && StepOf(trace[i], trace[i + 1], txs[i], env)
         && (i < |trace| - 2 ==> ApplyAny(trace[i].contents, txs[i], env).refusal.None?)
  }

  ghost predicate StepOf(s: Stage, t: Stage, tx: Transaction, env: Env)
  {
    && Effect(s.objects, s.contents, t.objects, t.contents.accounts, tx, env)
    && t.contents.kv == ApplyAny(s.contents, tx, env).contents.kv
  }

  /** The whole body was applied. */
  ghost predicate Finished(trace: seq<Stage>, txs: seq<Transaction>, env: Env)
  {
    && |trace| == |txs| + 1
    && (txs != [] ==> ApplyAny(trace[|txs| - 1].contents, txs[|txs| - 1], env).refusal.None?)
  }

  lemma TraceMore(trace: seq<Stage>, next: Stage, txs: seq<Transaction>, env: Env)
    requires Traced(trace, txs, env) && |trace| <= |txs| && StepOf(trace[|trace| - 1], next, txs[|trace| - 1], env)
    requires |trace| > 1 ==> ApplyAny(trace[|trace| - 2].contents, txs[|trace| - 2], env).refusal.None?
    ensures Traced(trace + [next], txs, env)
  {
    hide StepOf, ApplyAny;
    var more := trace + [next];
    forall i | 0 <= i < |more| - 1 ensures StepOf(more[i], more[i + 1], txs[i], env) {
      assert more[i] == trace[i];
      if i < |trace| - 1 { assert more[i + 1] == trace[i + 1]; }
    }
    forall i | 0 <= i < |more| - 2 ensures ApplyAny(more[i].contents, txs[i], env).refusal.None? {
      assert more[i] == trace[i];
    }
  }

  /**
   Executes the transactions in order, adding up the fees; stops at the first refusal. Each of them has
   its effect on the objects, which addresses may share. When every address has an object of its own,
   the contents are those of RunAll.
   */
  method ExecuteBody(db: InMemoryState, txs: seq<Transaction>, env: Env) returns (ok: bool, fees: u64, ghost trace: seq<Stage>)
    requires db.Valid()
    modifies db, db.accounts.Values
    ensures db.Valid() && db.saved == old(db.saved) && db.kept == old(db.kept)
    ensures fresh(db.accounts.Values - old(db.accounts.Values))
    ensures Traced(trace, txs, env) && trace[0] == old(Stage(db.accounts, db.View()))
    ensures trace[|trace| - 1] == Stage(db.accounts, db.View()) && (ok <==> Finished(trace, txs, env))
    ensures ok ==> fees == Wrap64(Fees(txs))
    ensures old(Unshared(db.accounts)) ==>
              var x := RunAll(old(db.View()), txs, |txs|, env);
              Unshared(db.accounts) && ok == x.error.None? && db.View() == x.contents
  {
    hide ApplyAny, Effect, Records, Wrap64, Traced, Underway, Unshared, RunAll, Fees, Finished;
    fees := 0;
    ghost var before, apart := db.View(), Unshared(db.accounts);
    trace := [Stage(db.accounts, db.View())];
    FirstStage(trace[0], txs, env);
    NoFees();
    RunNone(before, txs, env);
    for i := 0 to |txs|
      invariant db.Valid() && db.saved == old(db.saved) && db.kept == old(db.kept)
      invariant fresh(db.accounts.Values - old(db.accounts.Values))
      invariant Underway(trace, txs, env, i) && trace[0] == Stage(old(db.accounts), before) && trace[i] == Stage(db.accounts, db.View())
      invariant apart ==> Unshared(db.accounts) && RunAll(before, txs, i, env) == BlockRun(db.View(), i, None)
      invariant fees == Wrap64(Fees(txs[..i]))
    {
      var refusal := ApplyTransaction(db, txs[i], env);
      ghost var next := Stage(db.accounts, db.View());
      UnderwayMore(trace, next, txs, env, i);
      trace := trace + [next];
      if apart { RunOne(before, txs, i, env); }
      if refusal.Some? { return false, 0, trace; }
      FeesMore(txs, i);
      fees := Wrap64(fees + txs[i].maxFee);
    }
    assert txs[..|txs|] == txs;
    UnderwayDone(trace, txs, env);
    ok := true;
  }

  /** The first i transactions have been applied. */
  ghost predicate Underway(trace: seq<Stage>, txs: seq<Transaction>, env: Env, i: nat)
    ensures Underway(trace, txs, env, i) ==> |trace| == i + 1
  {
    && |trace| == i + 1 && i <= |txs| && Traced(trace, txs, env)
    && (i > 0 ==> ApplyAny(trace[i - 1].contents, txs[i - 1], env).refusal.None?)
  }

  lemma FirstStage(s: Stage, txs: seq<Transaction>, env: Env)
    ensures Underway([s], txs, env, 0)
  {
  }

  lemma UnderwayMore(trace: seq<Stage>, next: Stage, txs: seq<Transaction>, env: Env, i: nat)
    requires Underway(trace, txs, env, i) && i < |txs| && StepOf(trace[i], next, txs[i], env)
    ensures Traced(trace + [next], txs, env) && (trace + [next])[0] == trace[0]
    ensures if ApplyAny(trace[i].contents, txs[i], env).refusal.None? then Underway(trace + [next], txs, env, i + 1)
            else !Finished(trace + [next], txs, env)
  {
    hide StepOf, ApplyAny;
    TraceMore(trace, next, txs, env);
    assert (trace + [next])[i] == trace[i];
  }

  lemma UnderwayDone(trace: seq<Stage>, txs: seq<Transaction>, env: Env)
    requires Underway(trace, txs, env, |txs|)
    ensures Traced(trace, txs, env) && Finished(trace, txs, env)
  {
    hide ApplyAny;
  }

  lemma RunNone(c: Contents, txs: seq<Transaction>, env: Env)
    ensures RunAll(c, txs, 0, env) == BlockRun(c, 0, None)
  {
  }

  lemma RunOne(c: Contents, txs: seq<Transaction>, i: nat, env: Env)
    requires i < |txs| && RunAll(c, txs, i, env).error.None?
    ensures var r := ApplyAny(RunAll(c, txs, i, env).contents, txs[i], env);
            if r.refusal.None? then RunAll(c, txs, i + 1, env) == BlockRun(r.contents, i + 1, None)
            else RunAll(c, txs, |txs|, env) == BlockRun(r.contents, i, r.refusal)
  {
    hide ApplyAny;
    if ApplyAny(RunAll(c, txs, i, env).contents, txs[i], env).refusal.Some? {
      RunStops(c, txs, i + 1, |txs|, env);
    }
  }

  lemma FeesMore(txs: seq<Transaction>, i: nat)
    requires i < |txs|
    ensures Wrap64(Wrap64(Fees(txs[..i])) + txs[i].maxFee) == Wrap64(Fees(txs[..i + 1]))
  {
    hide Wrap64;
    assert txs[..i + 1][..i] == txs[..i];
    WrapAdd(Fees(txs[..i]), txs[i].maxFee);
  }

  function Selected(pending: seq<Transaction>, maxTxs: nat): seq<Transaction>
  {
    if |pending| > maxTxs then pending[..maxTxs] else pending
  }

  /** The selection and execution part of BuildBlock: cut to maxTxs, sort, execute. */
  method BuildBody(db: InMemoryState, pending: seq<Transaction>, maxTxs: nat, env: Env)
    returns (ok: bool, body: seq<Transaction>, fees: u64, ghost trace: seq<Stage>)
    requires db.Valid()
    modifies db, db.accounts.Values
    ensures db.Valid() && db.saved == old(db.saved) && db.kept == old(db.kept)
    ensures fresh(db.accounts.Values - old(db.accounts.Values))
    ensures multiset(body) == multiset(Selected(pending, maxTxs)) && Sorted(body, BySender)
    ensures Traced(trace, body, env) && trace[0] == old(Stage(db.accounts, db.View()))
    ensures trace[|trace| - 1] == Stage(db.accounts, db.View()) && (ok <==> Finished(trace, body, env))
    ensures ok ==> fees == Wrap64(Fees(body))
    ensures old(Unshared(db.accounts)) ==>
              var x := RunAll(old(db.View()), body, |body|, env);
              && Unshared(db.accounts) && ok == x.error.None? && db.View() == x.contents
              && (ok ==> Ascending(body, BySender) && Increasing(body) && InSequence(old(db.View()).accounts, body))
  {
    hide StrictWeak, Sorted, Less, Records, RunAll, Fees, BySender, Ascending, Increasing, InSequence, Wrap64, Traced, Finished;
    BySenderIsStrictWeak();
    body := SortSlice(Selected(pending, maxTxs), BySender);
    ghost var before, apart := db.View(), Unshared(db.accounts);
    ok, fees, trace := ExecuteBody(db, body, env);
    if ok && apart {
      ConsecutiveNonces(before, body, env);
      StrictlyIncreasing(before.accounts, body);
    }
  }
}

/** A block from building to validation: execution, fee distribution and state root on both sides. */
module Agreement {
  import opened Basics
  import opened Sorting
  import opened Accounts
  import opened StateStore
  import opened Transactions
  import opened Registrations
  import opened Applier
  import opened Blocks
  import opened Roots
  import Economy
  import Rewards

  datatype Payment = Payment(to: Address, amount: u64)

  /** Whom DistributeRewards pays what, given the store after execution and the block's fees; None is its error. */
  type Shares = (Contents, u64) -> Option<seq<Payment>>

  function Tos(ps: seq<Payment>): (s: seq<Address>)
    ensures |s| == |ps| && forall i :: 0 <= i < |s| ==> s[i] == ps[i].to
  {
    seq(|ps|, i requires 0 <= i < |ps| => ps[i].to)
  }

  function Amounts(ps: seq<Payment>): (s: seq<u64>)
    ensures |s| == |ps| && forall i :: 0 <= i < |s| ==> s[i] == ps[i].amount
  {
    seq(|ps|, i requires 0 <= i < |ps| => ps[i].amount)
  }

  /** The store after the fees have been shared out, if nothing goes wrong. */
  function Finalized(c: Contents, fees: u64, shares: Shares): Option<Contents>
  {
    var ps := shares(c, fees);
    if ps.None? then None else
      var r := Economy.CreditAll(c.accounts, Tos(ps.value), Amounts(ps.value), |ps.value|);
      if r.ok then Some(Contents(r.accounts, c.kv)) else None
  }

  /** The store after a block with this body, if it executes and its fees are shared out. */
  function BlockResult(c: Contents, body: seq<Transaction>, env: Env, shares: Shares): Option<Contents>
  {
    var x := RunAll(c, body, |body|, env);
    if x.error.Some? then None else Finalized(x.contents, Wrap64(Fees(body)), shares)
  }

  // ----- paying in place -----

  lemma CreditedRecords(m: Objects, before: map<Address, Account>, a: Address, had: Account, amount: u64)
    requires had == if a in before then before[a] else NewAccount(a, ZERO_KEY)
    requires m.Keys == if had.balance + amount < U128 then before.Keys + {a} else before.Keys
    requires forall b :: b in m && b != a ==> m[b].record == before[b]
    requires a in m ==> m[a].record == if had.balance + amount < U128 then had.(balance := had.balance + amount) else had
    ensures var paid := Economy.Credit(before, a, amount);
            (paid.Some? <==> had.balance + amount < U128) && Records(m) == if paid.Some? then paid.value else before
  {
    hide Records;
    var paid := Economy.Credit(before, a, amount);
    RecordsAre(m, if paid.Some? then paid.value else before);
  }

  method CreditObject(db: InMemoryState, a: Address, amount: u64) returns (ok: bool)
    requires db.Valid() && Unshared(db.accounts)
    modifies db, db.accounts.Values
    ensures db.Valid() && Unshared(db.accounts) && db.kvstore == old(db.kvstore)
    ensures db.saved == old(db.saved) && db.kept == old(db.kept) && fresh(db.accounts.Values - old(db.accounts.Values))
    ensures var paid := Economy.Credit(old(db.View().accounts), a, amount);
            && ok == paid.Some? && db.View().accounts == if ok then paid.value else old(db.View().accounts)
  {
    hide Records, Economy.Credit;
    RecordsOf(db.accounts);
    ghost var before, was := db.View().accounts, db.accounts;
    var acc := Fetch(db, a);
    ghost var had := acc.record;
    forall b | b in was ensures was[b] in was.Values && (was[b] == acc ==> b == a) {}
    ok := acc.AddBalance(amount);
    if ok {
      db.SetAccount(a, acc);
      NewStaysApart(was, db.accounts);
    }
    CreditedRecords(db.accounts, before, a, had, amount);
  }

  method PayOut(db: InMemoryState, ps: seq<Payment>) returns (ok: bool)
    requires db.Valid() && Unshared(db.accounts)
    modifies db, db.accounts.Values
    ensures db.Valid() && Unshared(db.accounts) && db.kvstore == old(db.kvstore)
    ensures db.saved == old(db.saved) && db.kept == old(db.kept) && fresh(db.accounts.Values - old(db.accounts.Values))
    ensures Economy.Credited(db.View().accounts, ok) ==
            Economy.CreditAll(old(db.View().accounts), Tos(ps), Amounts(ps), |ps|)
  {
    hide Records, Economy.Credit;
    ghost var before, tos, amounts := db.View().accounts, Tos(ps), Amounts(ps);
    for i := 0 to |ps|
      invariant db.Valid() && Unshared(db.accounts) && db.kvstore == old(db.kvstore)
      invariant db.saved == old(db.saved) && db.kept == old(db.kept) && fresh(db.accounts.Values - old(db.accounts.Values))
      invariant Economy.CreditAll(before, tos, amounts, i) == Economy.Credited(db.View().accounts, true)
    {
      if ps[i].amount != 0 {
        ok := CreditObject(db, ps[i].to, ps[i].amount);
        if !ok {
          Economy.PaymentStops(before, tos, amounts, i + 1, |ps|);
          return;
        }
      }
    }
    ok := true;
  }

  method Finalize(db: InMemoryState, fees: u64, shares: Shares) returns (ok: bool)
    requires db.Valid() && Unshared(db.accounts)
    modifies db, db.accounts.Values
    ensures db.Valid() && Unshared(db.accounts) && db.saved == old(db.saved) && db.kept == old(db.kept)
    ensures fresh(db.accounts.Values - old(db.accounts.Values))
    ensures ok <==> Finalized(old(db.View()), fees, shares).Some?
    ensures ok ==> db.View() == Finalized(old(db.View()), fees, shares).value
  {
    hide Economy.CreditAll;
    var records := map a: Address | a in db.accounts :: db.accounts[a].record;
    assert records == Records(db.accounts);
    hide Records;
    var ps := shares(Contents(records, db.kvstore), fees);
    if ps.None? { return false; }
    ok := PayOut(db, ps.value);
  }

  // ----- the two sides -----

  /** What the header says about the body: its fees and the state root. */
  datatype Candidate = Candidate(body: seq<Transaction>, fees: u64, root: Hash)

  /** The checks of ValidateBlock that concern execution. */
  ghost predicate Holds(c: Contents, block: Candidate, env: Env, shares: Shares, tree: Tree)
  {
    var r := BlockResult(c, block.body, env, shares);
    r.Some? && block.fees == Wrap64(Fees(block.body)) && block.root == tree(Canonical(r.value))
  }

  /** Fees and root are settled by the body: a validator accepts one candidate per body and store. */
  lemma OneCandidate(c: Contents, a: Candidate, b: Candidate, env: Env, shares: Shares, tree: Tree)
    requires Holds(c, a, env, shares, tree) && Holds(c, b, env, shares, tree) && a.body == b.body
    ensures a == b
  {
    hide BlockResult, Canonical, Fees, Wrap64;
  }

  /** Sharing out the fees pays each account what is due to it, and leaves the entries alone. */
  lemma FinalizedPays(c: Contents, fees: u64, shares: Shares)
    requires shares(c, fees).Some? && Held(c.accounts) + Rewards.SumOf(Amounts(shares(c, fees).value)) < U128
    ensures var ps, r := shares(c, fees).value, Finalized(c, fees, shares);
            && r.Some? && r.value.kv == c.kv
            && forall a: Address :: BalanceAt(r.value.accounts, a) == BalanceAt(c.accounts, a) + Economy.DueTo(Tos(ps), Amounts(ps), |ps|, a)
  {
    hide Held, BalanceAt, Economy.CreditAll, Economy.DueTo;
    var ps := shares(c, fees).value;
    assert Amounts(ps)[..|ps|] == Amounts(ps);
    Economy.CreditAllPays(c.accounts, Tos(ps), Amounts(ps), |ps|);
  }

  /** BuildBlock from the pending list on. */
  method Build(db: InMemoryState, pending: seq<Transaction>, maxTxs: nat, env: Env, shares: Shares, tree: Tree)
    returns (ghost body: seq<Transaction>, r: Option<Candidate>)
    requires db.Valid() && Unshared(db.accounts)
    modifies db, db.accounts.Values
    ensures db.Valid() && Unshared(db.accounts) && db.saved == old(db.saved) && db.kept == old(db.kept)
    ensures fresh(db.accounts.Values - old(db.accounts.Values))
    ensures multiset(body) == multiset(Selected(pending, maxTxs)) && Sorted(body, BySender)
    ensures r.Some? <==> BlockResult(old(db.View()), body, env, shares).Some?
    ensures r.Some? ==>
              && r.value.body == body && db.View() == BlockResult(old(db.View()), body, env, shares).value
              && Holds(old(db.View()), r.value, env, shares, tree) && InSequence(old(db.View()).accounts, body)
  {
    hide Sorted, BySender, Ascending, Records, RunAll, Fees, Wrap64, Finalized, Canonical, InSequence, Traced, Finished;
    var ok, txs, fees, trace := BuildBody(db, pending, maxTxs, env);
    body := txs;
    if !ok { return body, None; }
    ok := Finalize(db, fees, shares);
    if !ok { return body, None; }
    var root := CommitMemory(db, tree);
    r := Some(Candidate(txs, fees, root));
  }

  /** ValidateBlock from the execution of the body on. */
  method Validate(db: InMemoryState, block: Candidate, env: Env, shares: Shares, tree: Tree) returns (ok: bool)
    requires db.Valid() && Unshared(db.accounts)
    modifies db, db.accounts.Values
    ensures db.Valid() && Unshared(db.accounts) && db.saved == old(db.saved) && db.kept == old(db.kept)
    ensures ok <==> Holds(old(db.View()), block, env, shares, tree)
    ensures ok ==> db.View() == BlockResult(old(db.View()), block.body, env, shares).value
  {
    hide Records, RunAll, Fees, Wrap64, Finalized, Canonical, Traced, Finished;
    var fees;
    ghost var trace;
    ok, fees, trace := ExecuteBody(db, block.body, env);
    if !ok { return; }
    ok := Finalize(db, fees, shares);
    if !ok { return; }
    var root := CommitMemory(db, tree);
    ok := root == block.root && fees == block.fees;
  }

  /**
   A block that was built is accepted by every validator that starts from equal contents, and both end
   with equal contents. If nothing is cut off, every order in which the mempool could have listed the
   same transactions gives the same body.
   */
  method BuildThenValidate(builder: InMemoryState, validator: InMemoryState, pending: seq<Transaction>, other: seq<Transaction>,
                           maxTxs: nat, env: Env, shares: Shares, tree: Tree)
    returns (ghost body: seq<Transaction>, r: Option<Candidate>, accepted: bool)
    requires builder.Valid() && validator.Valid() && Unshared(builder.accounts) && Unshared(validator.accounts)
    requires builder != validator && builder.accounts.Values !! validator.accounts.Values
    requires builder.accounts.Values !! validator.kept && validator.accounts.Values !! builder.kept
    requires builder.View() == validator.View()
    modifies builder, builder.accounts.Values, validator, validator.accounts.Values
    ensures multiset(body) == multiset(Selected(pending, maxTxs)) && Sorted(body, BySender)
    ensures r.Some? <==> BlockResult(old(builder.View()), body, env, shares).Some?
    ensures r.Some? ==>
              && accepted && r.value.body == body && Holds(old(builder.View()), r.value, env, shares, tree)
              && builder.View() == validator.View() == BlockResult(old(builder.View()), body, env, shares).value
    ensures r.Some? && |pending| <= maxTxs && multiset(other) == multiset(pending) ==>
              forall b | multiset(b) == multiset(Selected(other, maxTxs)) && Sorted(b, BySender) :: b == body
  {
    hide Sorted, BySender, Records, RunAll, BlockResult, Holds, Canonical, InSequence;
    ghost var before := builder.View();
    accepted := false;
    body, r := Build(builder, pending, maxTxs, env, shares, tree);
    if r.None? { return; }
    accepted := Validate(validator, r.value, env, shares, tree);
    forall b | multiset(b) == multiset(body) && Sorted(b, BySender) ensures b == body {
      OneBody(before.accounts, body, b);
    }
    if |pending| <= maxTxs && multiset(other) == multiset(pending) {
      assert |other| == |multiset(other)| == |multiset(pending)| == |pending|;
    }
  }
}

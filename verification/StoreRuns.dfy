/** The staking store driven operation by operation: its histories are the runs of the ledger. */
module StoreRuns {
  import opened Basics
  import opened Accounts
  import opened Transactions
  import opened Ledger
  import opened Registry
  import opened Epochs
  import opened Economy
  import opened Slashing
  import opened Flows
  import opened Runs
  import opened StakingState

  /** The transactions of a block, one by one, and then its fees. */
  method RunTransfers(s: StakingStore, txs: seq<Transaction>, env: Env) returns (e: Option<Error>)
    requires Inv(s.View())
    modifies s`accounts
    ensures Filed(s.validators) && Outcome(s.View(), e) == RunBlock(old(s.View()), txs, env)
  {
    hide Consistent, TxRefusal, ApplyTx, FinalizeBlock, Filed, Fees;
    InvIsFiled(s.View());
    var ok, fees := ApplyAll(s, txs, env);
    if !ok { return Some(TxRejected); }
    e := s.FinalizeBlock(fees);
  }

  method ApplyAll(s: StakingStore, txs: seq<Transaction>, env: Env) returns (ok: bool, fees: u64)
    modifies s`accounts
    ensures var x := ExecuteAll(old(s.accounts), txs, |txs|, env);
            && s.accounts == x.accounts && ok == x.error.None? && (ok ==> fees == Wrap64(Fees(txs)))
  {
    hide TxRefusal, ApplyTx, Wrap64;
    ghost var before := s.accounts;
    fees := 0;
    NoFees();
    for i := 0 to |txs|
      invariant ExecuteAll(before, txs, i, env) == Execution(s.accounts, i, None)
      invariant fees == Wrap64(Fees(txs[..i]))
    {
      if TxRefusal(s.accounts, txs[i], env).Some? {
        Refused(before, txs, i + 1, |txs|, env);
        return false, 0;
      }
      s.accounts := ApplyTx(s.accounts, txs[i], env);
      assert txs[..i + 1][..i] == txs[..i];
      WrapAdd(Fees(txs[..i]), txs[i].maxFee);
      fees := Wrap64(fees + txs[i].maxFee);
    }
    assert txs[..|txs|] == txs;
    ok := true;
  }

  /** Any operation of a run, carried out on the store. */
  method Do(s: StakingStore, op: Op, w: World) returns (e: Option<Error>)
    requires Inv(s.View())
    modifies s
    ensures Outcome(s.View(), e) == Perform(old(s.View()), op, w)
  {
    hide Inv, RegisterValidator, Bond, StartUnstake, ApplySlash, ProcessEvidence, BeginBlock, RunBlock, KeepsRules, KeepsRulesIf, Outcome;
    match op
    case Register(id, key, operator, stake, commission) =>
      e := s.RegisterValidator(id, key, operator, stake, commission, s.epoch);
    case Delegate(from, id, amount) =>
      e := s.Bond(from, id, amount);
    case Unstake(id, at) =>
      e := s.StartUnstake(id, at);
    case Punish(id, percent, jailEpochs) =>
      e := s.ApplySlash(id, percent, jailEpochs);
    case Report(ev, at) =>
      e := s.ProcessEvidence(ev, at, w.hash);
    case Begin(height) =>
      var current, setHash;
      e, current, setHash := s.BeginBlock(height, w.hash);
    case Transfers(txs) =>
      e := RunTransfers(s, txs, w.env);
  }

  // ----- whole histories -----

  /** The ledgers a history goes through. */
  ghost function RunOf(l: Ledger, ops: seq<Op>, w: World): (ls: seq<Ledger>)
    ensures |ls| == |ops| + 1
  {
    if ops == [] then [l] else
      var init := RunOf(l, ops[..|ops| - 1], w);
      var last := init[|ops| - 1];
      init + [if Inv(last) then Perform(last, ops[|ops| - 1], w).ledger else last]
  }

  lemma {:induction false} RunOfIsRun(l: Ledger, ops: seq<Op>, w: World)
    ensures IsRun(RunOf(l, ops, w), ops, w) && RunOf(l, ops, w)[0] == l
  {
    hide Inv, Perform;
    if ops != [] {
      RunOfIsRun(l, ops[..|ops| - 1], w);
    }
  }

  lemma NextLedger(ls: seq<Ledger>, ops: seq<Op>, w: World, i: nat)
    requires FittingRun(ls, ops, w) && i < |ops|
    ensures Inv(ls[i]) && ls[i + 1] == Perform(ls[i], ops[i], w).ledger
  {
    hide Inv, Perform, Fits, SnapshotsOK;
    RunKeepsInv(ls, ops, w, i);
  }

  /**
   Any sequence of operations, carried out on the store one after the other, goes through the ledgers
   of a run and reports each step's error. As long as all tokens fit in 64 bits the registry stays
   consistent and tokens change by exactly what enters, is minted and is burned.
   */
  method Drive(s: StakingStore, ops: seq<Op>, w: World) returns (errors: seq<Option<Error>>)
    requires FittingRun(RunOf(s.View(), ops, w), ops, w)
    modifies s
    ensures var ls := RunOf(old(s.View()), ops, w);
            && IsRun(ls, ops, w) && s.View() == ls[|ops|] && |errors| == |ops|
            && Inv(s.View())
            && (forall i | 0 <= i < |ops| :: Inv(ls[i]) && Outcome(ls[i + 1], errors[i]) == Perform(ls[i], ops[i], w))
            && (forall i | 0 <= i < |ops| :: Filed(ls[i].validators))
            && var t := Tallied(ls, ops, w, |ops|);
               Circulating(s.View()) + t.burned == Circulating(ls[0]) + t.entered + t.minted
  {
    hide Inv, Perform, Fits, SnapshotsOK, Filed, Tallied, Circulating, RunOf, Outcome;
    ghost var ls := RunOf(s.View(), ops, w);
    RunOfIsRun(s.View(), ops, w);
    errors := [];
    for i := 0 to |ops|
      invariant s.View() == ls[i] && |errors| == i
      invariant forall j | 0 <= j < i :: Inv(ls[j]) && Outcome(ls[j + 1], errors[j]) == Perform(ls[j], ops[j], w)
    {
      NextLedger(ls, ops, w, i);
      var e := Do(s, ops[i], w);
      OutcomeLedger(s.View(), e);
      errors := errors + [e];
    }
    RunKeepsInv(ls, ops, w, |ops|);
    SupplyLaw(ls, ops, w, |ops|);
  }

  lemma OutcomeLedger(l: Ledger, e: Option<Error>)
    ensures Outcome(l, e).ledger == l
  {
  }
}

/** What a snapshot's hash says about its members, over whole runs. */
module SetHashes {
  import opened Basics
  import opened Validators
  import opened Accounts
  import opened Transactions
  import opened Votes
  import opened Ledger
  import opened Registry
  import opened Epochs
  import opened Rewards
  import opened Economy
  import opened Slashing
  import opened Flows
  import opened Runs

  // ----- one list of validators per hash -----

  lemma PutValidatorsInjective(a: seq<Validator>, b: seq<Validator>)
    requires PutValidators(a, []) == PutValidators(b, [])
    ensures a == b
  {
    hide PutValidators, ReadValidators;
    assert 143 * |a| == |PutValidators(a, [])| == 143 * |b|;
    ValidatorsRoundTrip(a, []);
    ValidatorsRoundTrip(b, []);
  }

  /** The hash keeps these two lists apart: no collision, and the hash that stands for no validators is not met. */
  ghost predicate Separates(hash: Bytes -> Hash, a: seq<Validator>, b: seq<Validator>)
  {
    && (hash(PutValidators(a, [])) == hash(PutValidators(b, [])) ==> PutValidators(a, []) == PutValidators(b, []))
    && hash(PutValidators(a, [])) != ZERO_HASH && hash(PutValidators(b, [])) != ZERO_HASH
  }

  lemma SetHashInjective(a: seq<Validator>, b: seq<Validator>, hash: Bytes -> Hash)
    requires Separates(hash, a, b) && SetHash(a, hash) == SetHash(b, hash)
    ensures a == b
  {
    hide PutValidators;
    if a != [] && b != [] {
      PutValidatorsInjective(a, b);
    }
  }

  // ----- over runs -----

  ghost predicate Hashed(snapshots: map<u64, Snapshot>, hash: Bytes -> Hash)
  {
    forall e :: e in snapshots ==> snapshots[e].setHash == SetHash(snapshots[e].validators, hash)
  }

  /** A snapshot is new only for the epoch just reached, and then it holds its active validators. */
  ghost predicate Froze(l: Ledger, l': Ledger, hash: Bytes -> Hash)
  {
    forall e :: e in l'.snapshots && !(e in l.snapshots && l'.snapshots[e] == l.snapshots[e]) ==>
      e == l'.epoch && Filed(l'.validators) && l'.snapshots[e] == Frozen(l', e, hash)
  }

  lemma BeginFreezes(l: Ledger, height: u64, hash: Bytes -> Hash)
    requires Inv(l) && SnapshotsOK(l.snapshots) && Fits(l, Begin(height))
    ensures Froze(l, BeginBlock(l, height, hash).ledger, hash)
  {
    hide Inv, SnapshotsOK, CloseEpoch, ActiveList, SetHash, TotalPower, Filed, IsEpochBoundary, Transitioned, MintedBy, Circulating;
    CloseKeepsFiled(l, height);
    if IsEpochBoundary(l.blocksPerEpoch, height) {
      CloseFlow(l, height);
    }
  }

  lemma StepFreezes(ls: seq<Ledger>, ops: seq<Op>, w: World, i: nat)
    requires FittingRun(ls, ops, w) && i < |ops|
    ensures Froze(ls[i], ls[i + 1], w.hash)
  {
    hide Inv, SnapshotsOK, Fits, Frozen, BeginBlock, Filed, FollowsTable, Circulating, Extends, Moved, GainedBy, BurnedBy;
    StepAt(ls, ops, w, i);
    if ops[i].Begin? {
      BeginFreezes(ls[i], ops[i].height, w.hash);
    }
  }

  lemma FreezingHashes(l: Ledger, l': Ledger, hash: Bytes -> Hash)
    requires Froze(l, l', hash) && Hashed(l.snapshots, hash)
    ensures Hashed(l'.snapshots, hash)
  {
    hide SetHash, ActiveList, TotalPower, Filed;
  }

  /** Every snapshot of a run carries the hash of its own members. */
  lemma {:induction false} RunHashes(ls: seq<Ledger>, ops: seq<Op>, w: World, n: nat)
    requires FittingRun(ls, ops, w) && n <= |ops| && Hashed(ls[0].snapshots, w.hash)
    ensures Hashed(ls[n].snapshots, w.hash)
  {
    hide Starts, Fits, Perform, Inv, SetHash, Froze, Hashed;
    if n > 0 {
      RunHashes(ls, ops, w, n - 1);
      StepFreezes(ls, ops, w, n - 1);
      FreezingHashes(ls[n - 1], ls[n], w.hash);
    }
  }

  /** So, unless their encodings collide, two epochs of a run show one hash exactly when they have the same members. */
  lemma HashTellsMembers(ls: seq<Ledger>, ops: seq<Op>, w: World, i: nat, j: nat, d: u64, e: u64)
    requires FittingRun(ls, ops, w) && i <= |ops| && j <= |ops| && Hashed(ls[0].snapshots, w.hash)
    requires d in ls[i].snapshots && e in ls[j].snapshots
    requires Separates(w.hash, ls[i].snapshots[d].validators, ls[j].snapshots[e].validators)
    ensures ls[i].snapshots[d].setHash == ls[j].snapshots[e].setHash <==>
            ls[i].snapshots[d].validators == ls[j].snapshots[e].validators
  {
    hide Starts, Fits, Perform, Inv, SetHash, Separates;
    RunHashes(ls, ops, w, i);
    RunHashes(ls, ops, w, j);
    var a, b := ls[i].snapshots[d], ls[j].snapshots[e];
    if a.setHash == b.setHash {
      SetHashInjective(a.validators, b.validators, w.hash);
    }
  }

  // ----- the latest snapshot -----

  /** No snapshot is of a later epoch, and there is one of this epoch unless there is none at all. */
  ghost predicate Latest(l: Ledger)
  {
    && (forall e :: e in l.snapshots ==> e <= l.latestSnapshot)
    && (l.latestSnapshot in l.snapshots || (l.latestSnapshot == 0 && l.snapshots == map[]))
  }

  lemma CloseKeepsLatest(l: Ledger, height: u64)
    requires Inv(l)
    ensures var m := CloseEpoch(l, height).ledger; m.snapshots == l.snapshots && m.latestSnapshot == l.latestSnapshot
  {
    hide Consistent, IssueEpochTokens, DistributeValidatorRewards, ProcessEpochTransition, FollowsTable, EpochAtHeight,
         AllPayable, AllAtEpoch, PaidBack, HalfWay;
    var e := EpochAtHeight(l.blocksPerEpoch, height);
    var s := IssueEpochTokens(l, e);
    IssueFrame(l, e);
    RewardFrame(s.ledger, e);
    TransitionMeaning(DistributeValidatorRewards(s.ledger, e).ledger, height);
  }

  lemma BeginKeepsLatest(l: Ledger, height: u64, hash: Bytes -> Hash)
    requires Inv(l) && Latest(l)
    ensures Latest(BeginBlock(l, height, hash).ledger)
  {
    hide Inv, CloseEpoch, Filed, IsEpochBoundary, Latest, CreateSnapshot, FollowsTable;
    CloseKeepsFiled(l, height);
    CloseKeepsLatest(l, height);
    var m := if height > 0 && IsEpochBoundary(l.blocksPerEpoch, height) then CloseEpoch(l, height).ledger else l;
    SameLatest(l, m);
    CreateKeepsLatest(m, hash);
  }

  lemma CreateKeepsLatest(l: Ledger, hash: Bytes -> Hash)
    requires Filed(l.validators) && Latest(l)
    ensures Latest(CreateSnapshot(l, l.epoch, hash))
  {
    hide Filed, Frozen;
  }

  lemma StakingKeepsLatest(l: Ledger, op: Op)
    requires op.Register? || op.Delegate? || op.Unstake?
    ensures StakingStep(l, op).ledger.latestSnapshot == l.latestSnapshot
  {
    hide Wrap64, Repowered;
  }

  lemma SlashingKeepsLatest(l: Ledger, id: Address, percent: u64, jailEpochs: u64)
    ensures ApplySlash(l, id, percent, jailEpochs).ledger.latestSnapshot == l.latestSnapshot
  {
    hide Wrap64, Repowered, SlashAmount;
  }

  lemma FinalizeKeepsLatest(l: Ledger, fees: u64)
    requires Filed(l.validators)
    ensures FinalizeBlock(l, fees).ledger.latestSnapshot == l.latestSnapshot
  {
    hide Filed, ActiveList, CreditAll, FeesPaid, FeeShare, TotalPower, Payouts, OperatorAddresses, Wrap64;
  }

  lemma BlockKeepsLatest(l: Ledger, txs: seq<Transaction>, env: Env)
    requires Filed(l.validators)
    ensures RunBlock(l, txs, env).ledger.latestSnapshot == l.latestSnapshot
  {
    hide Filed, ActiveList, ExecuteAll, FinalizeBlock, FeesPaid, Fees, Wrap64;
    var x := ExecuteAll(l.accounts, txs, |txs|, env);
    FinalizeKeepsLatest(l.(accounts := x.accounts), Wrap64(Fees(txs)));
  }

  lemma OthersKeepLatest(l: Ledger, op: Op, w: World)
    requires Inv(l) && !op.Begin?
    ensures Perform(l, op, w).ledger.latestSnapshot == l.latestSnapshot
  {
    hide Inv, StakingStep, ApplySlash, RunBlock, CheckDoubleSign, EvidenceHash, Percent;
    InvIsFiled(l);
    match op
    case Punish(id, percent, jailEpochs) => SlashingKeepsLatest(l, id, percent, jailEpochs);
    case Report(e, _) => SlashingKeepsLatest(l, e.voteA.validator, Percent(e, l.slashParams), l.slashParams.jailEpochs);
    case Transfers(txs) => BlockKeepsLatest(l, txs, w.env);
    case _ => StakingKeepsLatest(l, op);
  }

  /** Over any run the recorded latest snapshot is the one of the last epoch that has one. */
  lemma {:induction false} RunKeepsLatest(ls: seq<Ledger>, ops: seq<Op>, w: World, n: nat)
    requires FittingRun(ls, ops, w) && n <= |ops| && Latest(ls[0])
    ensures Latest(ls[n])
  {
    hide Inv, SnapshotsOK, Fits, BeginBlock, Latest, Filed, FollowsTable, Circulating, Extends, Moved, GainedBy, BurnedBy;
    if n > 0 {
      RunKeepsLatest(ls, ops, w, n - 1);
      var l, op := ls[n - 1], ops[n - 1];
      StepAt(ls, ops, w, n - 1);
      if op.Begin? {
        BeginKeepsLatest(l, op.height, w.hash);
      } else {
        OthersKeepLatest(l, op, w);
        SameLatest(l, ls[n]);
      }
    }
  }

  lemma SameLatest(l: Ledger, l': Ledger)
    requires Latest(l) && l'.snapshots == l.snapshots && l'.latestSnapshot == l.latestSnapshot
    ensures Latest(l')
  {
  }
}

/** The epoch machine over whole runs: BeginBlock for heights 1, 2, 3, ... between any other operations. */
module EpochRuns {
  import opened Basics
  import opened Accounts
  import opened Validators
  import opened Rewards
  import opened Transactions
  import opened Votes
  import opened Arithmetic
  import opened Ledger
  import opened Registry
  import opened Epochs
  import opened Economy
  import opened Slashing
  import opened Flows
  import opened Runs

  /** How many blocks the first n operations began. */
  function Begins(ops: seq<Op>, n: nat): nat
    requires n <= |ops|
  {
    if n == 0 then 0 else Begins(ops, n - 1) + if ops[n - 1].Begin? then 1 else 0
  }

  ghost predicate InOrder(ops: seq<Op>)
  {
    forall i | 0 <= i < |ops| && ops[i].Begin? :: ops[i].height == Begins(ops, i) + 1
  }

  /** The first n operations of the run began their blocks without an error. */
  ghost predicate Opened(ls: seq<Ledger>, ops: seq<Op>, w: World, n: nat)
    requires n <= |ops| <= |ls|
  {
    forall i | 0 <= i < n && ops[i].Begin? && Inv(ls[i]) :: BeginBlock(ls[i], ops[i].height, w.hash).Done?
  }

  /** A block in order never meets the epoch-mismatch error, and leaves the epoch at height / blocksPerEpoch. */
  lemma BeginInOrder(l: Ledger, height: u64, w: World)
    requires Starts(l) && Fits(l, Begin(height)) && height > 0 && l.epoch == (height - 1) / l.blocksPerEpoch
    ensures var s := BeginBlock(l, height, w.hash);
            && (s.Failed? ==> s.error != EpochMismatch)
            && (s.Done? ==>
                  && s.ledger.epoch == height / l.blocksPerEpoch
                  && s.ledger.snapshots.Keys == l.snapshots.Keys + {s.ledger.epoch})
  {
    hide Inv, CloseEpoch, MintedBy, BeginBlock, SnapshotsOK, Circulating, IsEpochBoundary;
    BeginShape(l, height, w);
    if IsEpochBoundary(l.blocksPerEpoch, height) {
      CloseInOrder(l, height);
    } else {
      SameEpoch(l.blocksPerEpoch, height);
    }
  }

  lemma BeginShape(l: Ledger, height: u64, w: World)
    requires Inv(l) && height > 0
    ensures var s := BeginBlock(l, height, w.hash);
            var m := if IsEpochBoundary(l.blocksPerEpoch, height) then CloseEpoch(l, height) else Done(l);
            if m.Failed? then s == m else
              && s.Done? && s.ledger.epoch == m.ledger.epoch
              && s.ledger.snapshots.Keys == m.ledger.snapshots.Keys + {m.ledger.epoch}
  {
    hide Inv, CloseEpoch, CreateSnapshot, IsEpochBoundary, Filed;
    CloseKeepsFiled(l, height);
    var m := if IsEpochBoundary(l.blocksPerEpoch, height) then CloseEpoch(l, height) else Done(l);
    SnapshotAdds(m.ledger, w.hash);
  }

  lemma SnapshotAdds(l: Ledger, hash: Bytes -> Hash)
    requires Filed(l.validators)
    ensures var l' := CreateSnapshot(l, l.epoch, hash);
            l'.epoch == l.epoch && l'.snapshots.Keys == l.snapshots.Keys + {l.epoch}
  {
    hide Frozen;
  }

  lemma SameEpoch(b: pos64, height: u64)
    requires height > 0 && !IsEpochBoundary(b, height)
    ensures height / b == (height - 1) / b
  {
    HeightSteps(height, b);
  }

  lemma NextEpoch(b: pos64, height: u64)
    requires IsEpochBoundary(b, height)
    ensures height / b == (height - 1) / b + 1 == EpochAtHeight(b, height)
    ensures height / b < U64
  {
    HeightSteps(height, b);
    QuotientSmall(height, b);
  }

  lemma CloseInOrder(l: Ledger, height: u64)
    requires Starts(l) && Fits(l, Begin(height)) && IsEpochBoundary(l.blocksPerEpoch, height)
    requires l.epoch == (height - 1) / l.blocksPerEpoch
    ensures var s := CloseEpoch(l, height);
            && s.ledger.snapshots == l.snapshots
            && (if s.Done? then s.ledger.epoch == height / l.blocksPerEpoch else s.error != EpochMismatch)
  {
    hide Inv, CloseEpoch, AllAtEpoch, HalfWay, MintedBy, SnapshotsOK, FollowsTable, Circulating, IsEpochBoundary, EpochAtHeight;
    NextEpoch(l.blocksPerEpoch, height);
    CloseFlow(l, height);
  }

  /** The epochs that have a snapshot once `begun` blocks have begun: those of blocks 1 to `begun`. */
  ghost predicate Snapshotted(snapshots: map<u64, Snapshot>, begun: nat, b: pos64)
  {
    forall e: u64 :: e in snapshots <==> begun > 0 && 1 / b <= e <= begun / b
  }

  lemma SnapshotNext(snapshots: map<u64, Snapshot>, later: map<u64, Snapshot>, height: u64, b: pos64)
    requires height > 0 && Snapshotted(snapshots, height - 1, b)
    requires height / b < U64 && later.Keys == snapshots.Keys + {height / b}
    ensures Snapshotted(later, height, b)
  {
    HeightSteps(height, b);
    QuotientSmall(height, b);
    assert 1 / b <= height / b by { DivMonotone(1, height, b); }
    forall e: u64 ensures e in later <==> 1 / b <= e <= height / b {
      assert e in later.Keys <==> e in snapshots.Keys || e == height / b;
    }
  }

  /** The ledger a transition starts from: tokens issued, rewards paid. */
  function Rewarded(l: Ledger, height: u64): Ledger
  {
    var completed := EpochAtHeight(l.blocksPerEpoch, height);
    DistributeValidatorRewards(IssueEpochTokens(l, completed).ledger, completed).ledger
  }

  /** The pool that closing the epoch pays out: this epoch's cut if anything is issued, else what is on file. */
  function PoolAtClose(l: Ledger, height: u64): u64
  {
    var completed := EpochAtHeight(l.blocksPerEpoch, height);
    RewardPool(if Issuance(l) == 0 then l else l.(pools := l.pools[completed := ValidatorCut(Issuance(l))]), completed)
  }

  /** What closing the epoch pays a out of that pool. */
  ghost function RewardTo(l: Ledger, height: u64, a: Address): nat
  {
    var pool := PoolAtClose(l, height);
    if pool == 0 then 0 else
      var snap := l.snapshots[Wrap64(EpochAtHeight(l.blocksPerEpoch, height) - 1)];
      DueTo(RewardAddresses(snap.validators), Payouts(pool, snap.validators, snap.totalPower), |snap.validators|, a)
  }

  /** a has an account, or closing the epoch gives it one: as the treasury, or by a reward. */
  ghost predicate HasOrGetsAccount(l: Ledger, height: u64, a: Address)
  {
    || a in l.accounts
    || (a == TREASURY && TreasuryCut(Issuance(l)) > 0)
    || RewardTo(l, height, a) > 0
  }

  /** Everyone whose stake is due for release will have an operator account to take it. */
  ghost predicate DueHaveAccounts(l: Ledger, height: u64)
  {
    forall id | id in l.validators && ReleaseDue(l.validators[id], Wrap64(l.epoch + 1)) ::
      HasOrGetsAccount(l, height, l.validators[id].operator)
  }

  lemma IssueOpens(l: Ledger, completed: u64, a: Address)
    requires IssueEpochTokens(l, completed).Done?
    ensures a in IssueEpochTokens(l, completed).ledger.accounts <==>
            a in l.accounts || (a == TREASURY && TreasuryCut(Issuance(l)) > 0)
    ensures RewardPool(IssueEpochTokens(l, completed).ledger, completed) ==
            RewardPool(if Issuance(l) == 0 then l else l.(pools := l.pools[completed := ValidatorCut(Issuance(l))]), completed)
  {
    hide Issuance, ValidatorCut, Wrap64;
    NothingCut();
  }

  lemma NothingCut()
    ensures TreasuryCut(0) == 0
  {
  }

  lemma RewardOpens(l: Ledger, completed: u64, a: Address)
    requires DistributeValidatorRewards(l, completed).Done?
    ensures a in DistributeValidatorRewards(l, completed).ledger.accounts <==>
            || a in l.accounts
            || (RewardPool(l, completed) > 0 &&
                var snap := l.snapshots[Wrap64(completed - 1)];
                DueTo(RewardAddresses(snap.validators), Payouts(RewardPool(l, completed), snap.validators, snap.totalPower),
                      |snap.validators|, a) > 0)
  {
    hide CreditAll, Payouts, RewardAddresses, DueTo;
    var pool := RewardPool(l, completed);
    if pool > 0 {
      var snap := l.snapshots[Wrap64(completed - 1)];
      CreditAllOpens(l.accounts, RewardAddresses(snap.validators), Payouts(pool, snap.validators, snap.totalPower),
                     |snap.validators|, a);
    }
  }

  /** Issuing and rewarding succeed, change only accounts and figures, and leave the total within 64 bits. */
  lemma RewardedFacts(l: Ledger, height: u64)
    requires Starts(l) && Fits(l, Begin(height)) && IsEpochBoundary(l.blocksPerEpoch, height)
    ensures var m := Rewarded(l, height);
            && CloseEpoch(l, height) == ProcessEpochTransition(m, height)
            && Inv(m) && Circulating(m) < U64
            && m.validators == l.validators && m.epoch == l.epoch && m.blocksPerEpoch == l.blocksPerEpoch
            && IssueEpochTokens(l, EpochAtHeight(l.blocksPerEpoch, height)).Done?
            && DistributeValidatorRewards(IssueEpochTokens(l, EpochAtHeight(l.blocksPerEpoch, height)).ledger,
                                          EpochAtHeight(l.blocksPerEpoch, height)).Done?
  {
    hide Consistent, Held, IssueEpochTokens, DistributeValidatorRewards, ProcessEpochTransition, Issuance, TreasuryCut,
         ValidatorCut, RewardPool, EpochAtHeight, IsEpochBoundary;
    var e := EpochAtHeight(l.blocksPerEpoch, height);
    IssueFlow(l, e);
    IssueFrame(l, e);
    var l1 := IssueEpochTokens(l, e).ledger;
    RewardFlow(l1, e);
    RewardFrame(l1, e);
  }

  lemma RewardedAccounts(l: Ledger, height: u64, a: Address)
    requires Starts(l) && Fits(l, Begin(height)) && IsEpochBoundary(l.blocksPerEpoch, height)
    ensures a in Rewarded(l, height).accounts <==> HasOrGetsAccount(l, height, a)
  {
    hide Inv, SnapshotsOK, Fits, IssueEpochTokens, DistributeValidatorRewards, IsEpochBoundary, EpochAtHeight, Issuance,
         TreasuryCut, ValidatorCut, RewardPool, DueTo, Payouts, RewardAddresses, CloseEpoch, ProcessEpochTransition;
    RewardedFacts(l, height);
    var completed := EpochAtHeight(l.blocksPerEpoch, height);
    IssueFrame(l, completed);
    IssueOpens(l, completed, a);
    RewardOpens(IssueEpochTokens(l, completed).ledger, completed, a);
  }

  /** While all tokens fit in 64 bits, only a missing account stands in the way of a release. */
  lemma PayableMeansAccounts(m: Ledger, next: u64)
    requires Inv(m) && Circulating(m) < U64
    ensures AllPayable(m, m.validators.Keys, next) <==>
            forall id | id in m.validators && ReleaseDue(m.validators[id], next) :: m.validators[id].operator in m.accounts
  {
    hide Inv, Held;
    forall id | id in m.validators && ReleaseDue(m.validators[id], next)
      ensures Payable(m, id, next) <==> m.validators[id].operator in m.accounts
    {
      StakeWithinTotal(m, id);
      var a := m.validators[id].operator;
      if a in m.accounts { HeldAfterWrite(m.accounts, a, m.accounts[a]); }
    }
    assert forall id :: id in m.validators ==> (Payable(m, id, next) <==>
             (ReleaseDue(m.validators[id], next) ==> m.validators[id].operator in m.accounts));
  }

  /** A block in order begins exactly unless it closes an epoch and someone due for release has no account. */
  lemma BeginExactly(l: Ledger, height: u64, w: World)
    requires Starts(l) && Fits(l, Begin(height)) && height > 0 && l.epoch == (height - 1) / l.blocksPerEpoch
    ensures BeginBlock(l, height, w.hash).Done? <==>
            (IsEpochBoundary(l.blocksPerEpoch, height) ==> DueHaveAccounts(l, height))
  {
    hide Inv, CloseEpoch, MintedBy, BeginBlock, SnapshotsOK, Circulating, IsEpochBoundary, EpochAtHeight, Rewarded, AllPayable,
         ProcessEpochTransition, OnlyTransitioned, FollowsTable, HalfWay, AllAtEpoch, PaidBack, ReleaseDue, HasOrGetsAccount,
         IssueEpochTokens, DistributeValidatorRewards;
    BeginShape(l, height, w);
    if IsEpochBoundary(l.blocksPerEpoch, height) {
      RewardedFacts(l, height);
      var m := Rewarded(l, height);
      TransitionMeaning(m, height);
      NextEpoch(l.blocksPerEpoch, height);
      PayableMeansAccounts(m, Wrap64(l.epoch + 1));
      forall id | id in l.validators { RewardedAccounts(l, height, l.validators[id].operator); }
    }
  }

  /** One validator, unstaked from the first epoch on, whose operator has no account. */
  ghost function Unpayable(l: Ledger): Ledger
  {
    var l1 := RegisterValidator(l, FIRST, FIRST_KEY, SECOND, MINIMUM_STAKE, 0, 0).ledger;
    StartUnstake(ActivateValidator(l1, FIRST, 0).ledger, FIRST, 1).ledger
  }

  ghost predicate NothingOnFile(l: Ledger)
  {
    && NobodyRegistered(l) && l.accounts == map[] && l.snapshots == map[] && l.pools == map[]
    && l.supply.total == 0 && l.epoch == 0 && l.blocksPerEpoch == 1
  }

  lemma UnpayableFacts(l: Ledger)
    requires NothingOnFile(l)
    ensures var m := Unpayable(l);
            && Inv(m) && m.totalBonded == MINIMUM_STAKE && FIRST in m.validators && m.validators[FIRST].operator == SECOND
            && ReleaseDue(m.validators[FIRST], 1)
            && m.accounts == map[] && m.snapshots == map[] && m.supply.total == 0 && m.epoch == 0 && m.blocksPerEpoch == 1
  {
    hide Inv;
    NobodyKeepsInv(l);
    TwoNames();
    RegisterKeepsInv(l, FIRST, FIRST_KEY, SECOND, MINIMUM_STAKE, 0, 0);
    var l1 := RegisterValidator(l, FIRST, FIRST_KEY, SECOND, MINIMUM_STAKE, 0, 0).ledger;
    ActivateKeepsInv(l1, FIRST, 0);
    StartUnstakeKeepsInv(ActivateValidator(l1, FIRST, 0).ledger, FIRST, 1);
  }

  /** On that ledger, with one block per epoch and no supply, the first block fails to begin. */
  lemma BeginCanFail(l: Ledger, w: World)
    requires NothingOnFile(l)
    ensures Inv(Unpayable(l)) && BeginBlock(Unpayable(l), 1, w.hash).Failed?
  {
    hide Inv, Unpayable, BeginBlock, DueTo;
    UnpayableFacts(l);
    var m := Unpayable(l);
    IssuanceBound(m.supply.total, m.blocksPerEpoch);
    NothingHeld();
    BeginExactly(m, 1, w);
    NotTheTreasury();
    assert !HasOrGetsAccount(m, 1, m.validators[FIRST].operator);
  }

  lemma NothingHeld()
    ensures Held(map[]) == 0
  {
    assert Balances(map[]) == map[];
  }

  lemma NotTheTreasury()
    ensures SECOND != TREASURY
  {
    assert SECOND[0] != TREASURY[0];
  }

  /** At each of the first n operations that closes an epoch, everyone due for release has an account. */
  ghost predicate AccountsReady(ls: seq<Ledger>, ops: seq<Op>, n: nat)
    requires n <= |ops| <= |ls|
  {
    forall i | 0 <= i < n && ops[i].Begin? && IsEpochBoundary(ls[i].blocksPerEpoch, ops[i].height) ::
      DueHaveAccounts(ls[i], ops[i].height)
  }

  /** Where the machine is once the first n operations have begun their blocks without an error. */
  ghost predicate OnSchedule(l: Ledger, begun: nat, b: pos64)
  {
    l.blocksPerEpoch == b && l.epoch == begun / b && Snapshotted(l.snapshots, begun, b)
  }

  lemma {:induction false} OpenedOnSchedule(ls: seq<Ledger>, ops: seq<Op>, w: World, n: nat)
    requires FittingRun(ls, ops, w) && InOrder(ops) && n <= |ops| && Opened(ls, ops, w, n)
    requires ls[0].epoch == 0 && ls[0].snapshots == map[]
    ensures OnSchedule(ls[n], Begins(ops, n), ls[0].blocksPerEpoch)
  {
    hide Inv, Moved, Perform, Fits, SnapshotsOK, Filed, BeginBlock, Snapshotted, GainedBy, BurnedBy, Flowed;
    if n == 0 {
      NothingSeen(ls[0].blocksPerEpoch);
    } else {
      OpenedOnSchedule(ls, ops, w, n - 1);
      StepAt(ls, ops, w, n - 1);
      var l, op, b := ls[n - 1], ops[n - 1], ls[0].blocksPerEpoch;
      FlowedFrame(l, ls[n], op, GainedBy(l, op), BurnedBy(l, op, w));
      if op.Begin? {
        BeginInOrder(l, op.height, w);
        BeginIsStep(l, op.height, w);
        SnapshotNext(l.snapshots, ls[n].snapshots, op.height, b);
      }
    }
  }

  /** In a run in order every block begins exactly when the accounts are there. */
  lemma {:induction false} OpenedExactly(ls: seq<Ledger>, ops: seq<Op>, w: World, n: nat)
    requires FittingRun(ls, ops, w) && InOrder(ops) && n <= |ops|
    requires ls[0].epoch == 0 && ls[0].snapshots == map[]
    ensures Opened(ls, ops, w, n) <==> AccountsReady(ls, ops, n)
  {
    hide Inv, Moved, Perform, Fits, SnapshotsOK, BeginBlock, Snapshotted, DueHaveAccounts, IsEpochBoundary;
    if n > 0 {
      OpenedExactly(ls, ops, w, n - 1);
      if Opened(ls, ops, w, n - 1) && ops[n - 1].Begin? {
        OpenedOnSchedule(ls, ops, w, n - 1);
        RunKeepsInv(ls, ops, w, n - 1);
        BeginExactly(ls[n - 1], ops[n - 1].height, w);
      }
    }
  }

  /**
   With blocks in order, an empty start and an account for everyone due for release, no block fails
   to begin, the stored epoch is height / blocksPerEpoch after every operation, and exactly the
   epochs so far have a snapshot.
   */
  lemma EpochMachine(ls: seq<Ledger>, ops: seq<Op>, w: World, n: nat)
    requires FittingRun(ls, ops, w) && InOrder(ops) && n <= |ops| && AccountsReady(ls, ops, n)
    requires ls[0].epoch == 0 && ls[0].snapshots == map[]
    ensures Opened(ls, ops, w, n)
    ensures ls[n].blocksPerEpoch == ls[0].blocksPerEpoch
    ensures ls[n].epoch == Begins(ops, n) / ls[0].blocksPerEpoch
    ensures Snapshotted(ls[n].snapshots, Begins(ops, n), ls[0].blocksPerEpoch)
  {
    hide FittingRun, InOrder, Opened, AccountsReady, Snapshotted;
    OpenedExactly(ls, ops, w, n);
    OpenedOnSchedule(ls, ops, w, n);
  }

  lemma NothingSeen(b: pos64)
    ensures 0 / b == 0 && Snapshotted(map[], 0, b)
  {
  }

  lemma FlowedFrame(l: Ledger, l': Ledger, op: Op, gained: nat, burned: nat)
    requires Flowed(l, l', op, gained, burned)
    ensures l'.blocksPerEpoch == l.blocksPerEpoch && Extends(l.snapshots, l'.snapshots)
    ensures !op.Begin? ==> l'.epoch == l.epoch && l'.snapshots == l.snapshots
    ensures forall h :: h in l.processed ==> h in l'.processed
  {
  }

  lemma BeginIsStep(l: Ledger, height: u64, w: World)
    requires Inv(l)
    ensures Perform(l, Begin(height), w) == BeginBlock(l, height, w.hash)
  {
    hide Inv, BeginBlock;
  }

  /** The first block of a run in order that fails to begin does not fail over its epoch. */
  lemma NeverMismatched(ls: seq<Ledger>, ops: seq<Op>, w: World, n: nat)
    requires FittingRun(ls, ops, w) && InOrder(ops) && n < |ops| && Opened(ls, ops, w, n)
    requires ls[0].epoch == 0 && ls[0].snapshots == map[] && ops[n].Begin?
    ensures Inv(ls[n])
    ensures var s := BeginBlock(ls[n], ops[n].height, w.hash); s.Failed? ==> s.error != EpochMismatch
  {
    hide Inv, Perform, Fits, SnapshotsOK, BeginBlock, Snapshotted;
    OpenedOnSchedule(ls, ops, w, n);
    RunKeepsInv(ls, ops, w, n);
    BeginInOrder(ls[n], ops[n].height, w);
  }

  /** A snapshot, once taken, is never rewritten. */
  lemma {:induction false} SnapshotsFrozen(ls: seq<Ledger>, ops: seq<Op>, w: World, i: nat, j: nat)
    requires FittingRun(ls, ops, w) && i <= j <= |ops|
    ensures Extends(ls[i].snapshots, ls[j].snapshots)
    decreases j - i
  {
    hide Starts, Fits, Inv, Moved, Perform, Filed, Flowed, GainedBy, BurnedBy;
    if i < j {
      SnapshotsFrozen(ls, ops, w, i, j - 1);
      StepAt(ls, ops, w, j - 1);
      var l, op := ls[j - 1], ops[j - 1];
      FlowedFrame(l, ls[j], op, GainedBy(l, op), BurnedBy(l, op, w));
    }
  }

  /** The set hash BeginBlock returns with its new ledger. */
  function BlockSetHash(l: Ledger): Hash
    requires l.epoch in l.snapshots
  {
    l.snapshots[l.epoch].setHash
  }

  /** Blocks of one epoch all return the same set hash, whatever happens to the live set in between. */
  lemma OneSetHashPerEpoch(ls: seq<Ledger>, ops: seq<Op>, w: World, i: nat, j: nat)
    requires FittingRun(ls, ops, w) && i <= j < |ops|
    requires ops[i].Begin? && ops[j].Begin? && ops[i].height > 0 && ops[j].height > 0
    requires Inv(ls[i]) && Inv(ls[j])
    requires BeginBlock(ls[i], ops[i].height, w.hash).Done? && BeginBlock(ls[j], ops[j].height, w.hash).Done?
    requires ls[i + 1].epoch == ls[j + 1].epoch
    ensures ls[i + 1].epoch in ls[i + 1].snapshots && ls[j + 1].epoch in ls[j + 1].snapshots
    ensures BlockSetHash(ls[i + 1]) == BlockSetHash(ls[j + 1])
  {
    hide Inv, Perform, Fits, SnapshotsOK, BeginBlock, CloseEpoch;
    BeginShape(ls[i], ops[i].height, w);
    BeginShape(ls[j], ops[j].height, w);
    BeginIsStep(ls[i], ops[i].height, w);
    BeginIsStep(ls[j], ops[j].height, w);
    SnapshotsFrozen(ls, ops, w, i + 1, j + 1);
  }
}

/** When validators join, sit out and leave, over whole runs. */
module Lifecycle {
  import opened Basics
  import opened Validators
  import opened Transactions
  import opened Votes
  import opened Ledger
  import opened Registry
  import opened Epochs
  import opened Economy
  import opened Slashing
  import opened Flows
  import opened Runs

  /** The step moved the ledger into the next epoch. */
  ghost predicate NewEpoch(l: Ledger, l': Ledger)
  {
    l'.epoch == Wrap64(l.epoch + 1)
  }

  /** Everyone waiting waits for the next epoch. */
  ghost predicate PendingNext(l: Ledger)
  {
    forall id | id in l.validators && l.validators[id].status == Pending ::
      l.validators[id].activationEpoch == Wrap64(l.epoch + 1)
  }

  lemma NextDiffers(e: u64)
    ensures Wrap64(e + 1) != e
  {
  }

  lemma {:induction false} RunKeepsPendingNext(ls: seq<Ledger>, ops: seq<Op>, w: World, n: nat)
    requires FittingRun(ls, ops, w) && n <= |ops| && PendingNext(ls[0])
    ensures PendingNext(ls[n])
  {
    hide Starts, Fits, Perform, Flowed, Filed, GainedBy, BurnedBy, Wrap64;
    if n > 0 {
      RunKeepsPendingNext(ls, ops, w, n - 1);
      StepAt(ls, ops, w, n - 1);
    }
  }

  /** Every pending validator becomes active at the very next transition. */
  lemma PendingActivates(ls: seq<Ledger>, ops: seq<Op>, w: World, i: nat, id: Address)
    requires FittingRun(ls, ops, w) && i < |ops| && PendingNext(ls[0]) && NewEpoch(ls[i], ls[i + 1])
    requires id in ls[i].validators && ls[i].validators[id].status == Pending
    ensures id in ls[i + 1].validators && ls[i + 1].validators[id].status == Active
  {
    hide Starts, Fits, Perform, Flowed, Filed, GainedBy, BurnedBy, Wrap64;
    RunKeepsPendingNext(ls, ops, w, i);
    StepAt(ls, ops, w, i);
    NextDiffers(ls[i].epoch);
  }

  /** Jailed until epoch u, or on the way out. */
  ghost predicate OutUntil(vals: Records, id: Address, u: u64)
  {
    && id in vals
    && (Leaving(vals[id]) || (vals[id].status == Jailed && vals[id].jailedUntil == u))
  }

  lemma StepKeepsOut(l: Ledger, l': Ledger, closing: bool, id: Address, u: u64)
    requires Moved(l, l', closing) && OutUntil(l.validators, id, u) && (NewEpoch(l, l') ==> l'.epoch < u)
    ensures OutUntil(l'.validators, id, u)
  {
    hide Wrap64;
  }

  lemma {:induction false} RunKeepsOut(ls: seq<Ledger>, ops: seq<Op>, w: World, i: nat, j: nat, id: Address, u: u64)
    requires FittingRun(ls, ops, w) && i <= j <= |ops| && OutUntil(ls[i].validators, id, u)
    requires forall k | i < k <= j :: ls[k].epoch < u
    ensures OutUntil(ls[j].validators, id, u)
    decreases j - i
  {
    hide Starts, Fits, Perform, Flowed, Filed, GainedBy, BurnedBy, Wrap64, Moved, OutUntil;
    if i < j {
      RunKeepsOut(ls, ops, w, i, j - 1, id, u);
      StepAt(ls, ops, w, j - 1);
      StepKeepsOut(ls[j - 1], ls[j], Closes(ls[j - 1], ops[j - 1]), id, u);
    }
  }

  lemma SlashJails(l: Ledger, id: Address, percent: u64, jailEpochs: u64)
    requires Inv(l) && id in l.validators && l.validators[id].status == Active
    requires percent <= 10000 && SlashAmount(percent, l.validators[id].bonded) > 0
    ensures OutUntil(ApplySlash(l, id, percent, jailEpochs).ledger.validators, id, Wrap64(l.epoch + jailEpochs))
  {
    hide Consistent, SlashAmount, Wrap64;
    InvFiled(l, id);
    SlashAmountBound(percent, l.validators[id].bonded);
    StakeWithinTotal(l, id);
  }

  /** Who is slashed, for how much and how long. */
  datatype Sentence = Sentence(id: Address, percent: u64, jailEpochs: u64)

  /** The sentence takes something from a validator that is active. */
  ghost predicate Bites(l: Ledger, s: Sentence)
  {
    && s.id in l.validators && l.validators[s.id].status == Active
    && s.percent <= 10000 && SlashAmount(s.percent, l.validators[s.id].bonded) > 0
  }

  /** The operation passes this sentence: directly, or through new and valid evidence. */
  ghost predicate Sentences(l: Ledger, op: Op, w: World, s: Sentence)
  {
    match op
    case Punish(id, percent, jailEpochs) => s == Sentence(id, percent, jailEpochs)
    case Report(e, _) =>
      && CheckDoubleSign(e).None? && EvidenceHash(e, w.hash) !in l.processed
      && s == Sentence(e.voteA.validator, Percent(e, l.slashParams), l.slashParams.jailEpochs)
    case _ => false
  }

  lemma SentenceJails(l: Ledger, op: Op, w: World, s: Sentence)
    requires Inv(l) && Sentences(l, op, w, s) && Bites(l, s)
    ensures OutUntil(Perform(l, op, w).ledger.validators, s.id, Wrap64(l.epoch + s.jailEpochs))
  {
    hide Inv, SlashAmount, ApplySlash, CheckDoubleSign, EvidenceHash, Percent, OutUntil, Wrap64;
    SlashJails(l, s.id, s.percent, s.jailEpochs);
    SlashDocks(l, s.id, s.percent, s.jailEpochs);
  }

  ghost predicate Absent(l: Ledger, id: Address, hash: Bytes -> Hash)
    requires Filed(l.validators)
  {
    && (forall v | v in ActiveList(l.validators) :: v.consensusID != id)
    && (forall v | v in Frozen(l, l.epoch, hash).validators :: v.consensusID != id)
  }

  lemma OutIsAbsent(l: Ledger, id: Address, u: u64, hash: Bytes -> Hash)
    requires Filed(l.validators) && OutUntil(l.validators, id, u)
    ensures Absent(l, id, hash)
  {
    hide ActiveList, Filed, TotalPower, SetHash, Wrap64;
    ActiveListFacts(l.validators);
    var active := ActiveList(l.validators);
    forall v | v in active ensures v.consensusID != id {
      assert v == l.validators[v.consensusID] && v.status == Active;
    }
  }

  /** Operation i passes a sentence that bites, and up to operation j the run stays before the end of its term. */
  ghost predicate InJail(ls: seq<Ledger>, ops: seq<Op>, w: World, i: nat, j: nat, s: Sentence)
  {
    && i < j <= |ops| < |ls| && Sentences(ls[i], ops[i], w, s) && Bites(ls[i], s)
    && ls[i].epoch + s.jailEpochs < U64 && forall k | i < k <= j :: ls[k].epoch < ls[i].epoch + s.jailEpochs
  }

  lemma StaysOut(ls: seq<Ledger>, ops: seq<Op>, w: World, i: nat, j: nat, s: Sentence)
    requires FittingRun(ls, ops, w) && InJail(ls, ops, w, i, j, s)
    ensures OutUntil(ls[j].validators, s.id, Wrap64(ls[i].epoch + s.jailEpochs))
  {
    hide Inv, SnapshotsOK, Fits, Flowed, Filed, GainedBy, BurnedBy, Moved, Perform, Sentences, Bites, OutUntil;
    StepAt(ls, ops, w, i);
    SentenceJails(ls[i], ops[i], w, s);
    RunKeepsOut(ls, ops, w, i + 1, j, s.id, Wrap64(ls[i].epoch + s.jailEpochs));
  }

  /**
   A validator slashed while active by anything at all in epoch e, directly or through evidence, is in
   no active set, and so in no new snapshot, for as long as the run stays before epoch e + jailEpochs.
   */
  lemma SlashedStaysOut(ls: seq<Ledger>, ops: seq<Op>, w: World, i: nat, j: nat, s: Sentence)
    requires FittingRun(ls, ops, w) && InJail(ls, ops, w, i, j, s)
    ensures Filed(ls[j].validators) && Absent(ls[j], s.id, w.hash)
  {
    hide Inv, SnapshotsOK, Fits, Filed, Absent, Sentences, Bites, OutUntil, Perform;
    StaysOut(ls, ops, w, i, j, s);
    RunKeepsInv(ls, ops, w, j);
    InvIsFiled(ls[j]);
    OutIsAbsent(ls[j], s.id, Wrap64(ls[i].epoch + s.jailEpochs), w.hash);
  }

  /** The transition into the epoch a validator is jailed until lets it out. */
  lemma JailEnds(ls: seq<Ledger>, ops: seq<Op>, w: World, i: nat, id: Address)
    requires FittingRun(ls, ops, w) && i < |ops| && NewEpoch(ls[i], ls[i + 1])
    requires id in ls[i].validators && ls[i].validators[id].status == Jailed
    ensures id in ls[i + 1].validators
    ensures ls[i + 1].validators[id].status == Active <==> ls[i].validators[id].jailedUntil <= ls[i + 1].epoch
  {
    hide Starts, Fits, Perform, Flowed, Filed, GainedBy, BurnedBy, Wrap64;
    StepAt(ls, ops, w, i);
    NextDiffers(ls[i].epoch);
  }

  ghost predicate NoneOverdue(l: Ledger)
  {
    forall id | id in l.validators && l.validators[id].status == Unstaking :: l.validators[id].unstakeEpoch > l.epoch
  }

  /** No unstaking validator survives a transition at or past its unstake epoch. */
  lemma UnstakedLeave(ls: seq<Ledger>, ops: seq<Op>, w: World, i: nat)
    requires FittingRun(ls, ops, w) && i < |ops| && NewEpoch(ls[i], ls[i + 1])
    ensures NoneOverdue(ls[i + 1])
  {
    hide Starts, Fits, Perform, Flowed, Filed, GainedBy, BurnedBy, Wrap64;
    StepAt(ls, ops, w, i);
    NextDiffers(ls[i].epoch);
  }

  /** Registered, and unstaking for epoch `at`. */
  ghost predicate WaitsFor(vals: Records, id: Address, at: u64)
  {
    id in vals && vals[id].status == Unstaking && vals[id].unstakeEpoch == at
  }

  lemma StepKeepsWaiting(l: Ledger, l': Ledger, closing: bool, id: Address, at: u64)
    requires Moved(l, l', closing) && WaitsFor(l.validators, id, at) && (closing ==> Wrap64(l.epoch + 1) < at)
    ensures WaitsFor(l'.validators, id, at)
  {
    hide Wrap64;
  }

  /** Whoever unstakes for an epoch stays registered until a block closes the epoch before it. */
  lemma {:induction false} UnstakingStays(ls: seq<Ledger>, ops: seq<Op>, w: World, i: nat, j: nat, id: Address, at: u64)
    requires FittingRun(ls, ops, w) && i <= j <= |ops| && WaitsFor(ls[i].validators, id, at)
    requires forall k | i <= k < j && Closes(ls[k], ops[k]) :: Wrap64(ls[k].epoch + 1) < at
    ensures WaitsFor(ls[j].validators, id, at)
    decreases j - i
  {
    hide Starts, Fits, Perform, Flowed, Filed, GainedBy, BurnedBy, Wrap64, Moved, WaitsFor, Closes;
    if i < j {
      UnstakingStays(ls, ops, w, i, j - 1, id, at);
      StepAt(ls, ops, w, j - 1);
      StepKeepsWaiting(ls[j - 1], ls[j], Closes(ls[j - 1], ops[j - 1]), id, at);
    }
  }

  /** An accepted request to unstake for epoch `at` is kept as asked: no earlier transition lets the validator go. */
  lemma UnstakeHonoured(ls: seq<Ledger>, ops: seq<Op>, w: World, i: nat, j: nat, id: Address, at: u64)
    requires FittingRun(ls, ops, w) && i < j <= |ops| && ops[i] == Unstake(id, at) && StartUnstake(ls[i], id, at).Done?
    requires forall k | i < k < j && Closes(ls[k], ops[k]) :: Wrap64(ls[k].epoch + 1) < at
    ensures WaitsFor(ls[j].validators, id, at)
  {
    hide Inv, SnapshotsOK, Fits, Flowed, Filed, GainedBy, BurnedBy, Wrap64, Moved, WaitsFor, Closes, StartUnstake;
    StepAt(ls, ops, w, i);
    RequestWaits(ls[i], id, at);
    UnstakingStays(ls, ops, w, i + 1, j, id, at);
  }

  lemma RequestWaits(l: Ledger, id: Address, at: u64)
    requires Inv(l) && StartUnstake(l, id, at).Done?
    ensures WaitsFor(StartUnstake(l, id, at).ledger.validators, id, at)
  {
    hide Consistent;
    InvFiled(l, id);
  }

  // ----- evidence -----

  lemma {:induction false} MarksStay(ls: seq<Ledger>, ops: seq<Op>, w: World, i: nat, j: nat, h: Hash)
    requires FittingRun(ls, ops, w) && i <= j <= |ops| && h in ls[i].processed
    ensures h in ls[j].processed
    decreases j - i
  {
    hide Starts, Fits, Perform, Filed, GainedBy, BurnedBy, Moved, Inv, SnapshotsOK, Extends, FollowsTable;
    if i < j {
      MarksStay(ls, ops, w, i, j - 1, h);
      StepAt(ls, ops, w, j - 1);
    }
  }

  /** Evidence that was carried out is refused, without any effect, for the rest of the run. */
  lemma EvidenceOnce(ls: seq<Ledger>, ops: seq<Op>, w: World, i: nat, j: nat, e: DoubleSign, at: u64)
    requires FittingRun(ls, ops, w) && i < j <= |ops| && ops[i] == Report(e, at)
    requires ProcessEvidence(ls[i], e, at, w.hash).Done?
    ensures forall later: u64 :: ProcessEvidence(ls[j], e, later, w.hash) == Failed(ls[j], DuplicateEvidence)
  {
    hide Starts, Fits, Inv, Filed, GainedBy, BurnedBy, Moved, Flowed, ApplySlash, CheckDoubleSign, EvidenceHash;
    StepAt(ls, ops, w, i);
    MarksStay(ls, ops, w, i + 1, j, EvidenceHash(e, w.hash));
  }
}

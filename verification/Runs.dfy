/** Whole runs of the ledger: any operations, in any order, whether each one succeeds or stops half way. */
module Runs {
  import opened Basics
  import opened Validators
  import opened Accounts
  import opened Transactions
  import opened Votes
  import opened Ledger
  import opened Registry
  import opened Epochs
  import opened Economy
  import opened Slashing
  import opened Flows

  // ----- how one step moves validators -----

  predicate Leaving(v: Validator) { v.status == Unstaking || v.status == Removed }

  /** Still unstaking, for the same epoch. */
  predicate StillWaits(v: Validator, v': Validator) { v'.status == Unstaking && v'.unstakeEpoch == v.unstakeEpoch }

  /**
   Within an epoch: newcomers wait for the next one, and nobody comes back. Only a transition that stops
   half way removes anyone, and only those due by then.
   */
  ghost predicate Reshaped(vals: Records, vals': Records, epoch: u64, closing: bool)
  {
    && vals.Keys <= vals'.Keys
    && (forall id | id in vals' && vals'[id].status == Pending ::
          if id in vals then vals[id].status == Pending && vals'[id].activationEpoch == vals[id].activationEpoch
          else vals'[id].activationEpoch == Wrap64(epoch + 1))
    && (forall id | id in vals && vals[id].status == Jailed ::
          Leaving(vals'[id]) || (vals'[id].status == Jailed && vals'[id].jailedUntil == vals[id].jailedUntil))
    && (forall id | id in vals && Leaving(vals[id]) :: Leaving(vals'[id]))
    && (forall id | id in vals && vals[id].status == Unstaking ::
          StillWaits(vals[id], vals'[id]) || (closing && vals[id].unstakeEpoch <= Wrap64(epoch + 1)))
  }

  ghost predicate Moved(l: Ledger, l': Ledger, closing: bool)
  {
    || (l'.epoch == l.epoch && Reshaped(l.validators, l'.validators, l.epoch, closing))
    || (closing && l'.epoch == Wrap64(l.epoch + 1) && l'.validators == AllAtEpoch(l.validators, l'.epoch))
  }

  lemma HalfWayReshapes(vals: Records, vals': Records, epoch: u64)
    requires HalfWay(vals, vals', Wrap64(epoch + 1))
    ensures Reshaped(vals, vals', epoch, true)
  {
  }

  lemma SameReshapes(vals: Records, epoch: u64, closing: bool)
    ensures Reshaped(vals, vals, epoch, closing)
  {
  }

  lemma StoreReshapes(vals: Records, v: Validator, epoch: u64)
    requires v.consensusID in vals
    requires var was := vals[v.consensusID];
             && (v.status == was.status || (IsValidTransition(was.status, v.status) && v.status != Active && v.status != Pending))
             && v.activationEpoch == was.activationEpoch && (was.status == Unstaking ==> StillWaits(was, v))
             && (was.status == Jailed ==> v.jailedUntil == was.jailedUntil)
    ensures Reshaped(vals, vals[v.consensusID := Repowered(v)], epoch, false)
  {
  }

  lemma NewcomerReshapes(vals: Records, v: Validator, epoch: u64)
    requires v.consensusID !in vals && v.status == Pending && v.activationEpoch == Wrap64(epoch + 1)
    ensures Reshaped(vals, vals[v.consensusID := v], epoch, false)
  {
  }

  lemma RegisterReshapes(l: Ledger, op: Op)
    requires op.Register?
    ensures Reshaped(l.validators, StakingStep(l, op).ledger.validators, l.epoch, false)
  {
    hide Reshaped, Wrap64;
    SameReshapes(l.validators, l.epoch, false);
    if op.id !in l.validators {
      NewcomerReshapes(l.validators, Registered(op.id, op.key, op.operator, op.stake, op.commission, l.epoch), l.epoch);
    }
  }

  lemma BondReshapes(l: Ledger, from: Address, id: Address, amount: Amount)
    requires Inv(l)
    ensures Reshaped(l.validators, Bond(l, from, id, amount).ledger.validators, l.epoch, false)
  {
    hide Consistent, Reshaped, Repowered;
    SameReshapes(l.validators, l.epoch, false);
    if id in l.validators && l.validators[id].bonded + amount < U128 {
      InvFiled(l, id);
      StoreReshapes(l.validators, l.validators[id].(bonded := l.validators[id].bonded + amount), l.epoch);
    }
  }

  lemma UnstakeReshapes(l: Ledger, id: Address, at: u64)
    requires Inv(l)
    ensures Reshaped(l.validators, StartUnstake(l, id, at).ledger.validators, l.epoch, false)
  {
    hide Consistent, Reshaped, Repowered;
    SameReshapes(l.validators, l.epoch, false);
    if id in l.validators && IsValidTransition(l.validators[id].status, Unstaking) {
      InvFiled(l, id);
      StoreReshapes(l.validators, l.validators[id].(status := Unstaking, unstakeEpoch := at), l.epoch);
    }
  }

  lemma SlashReshapes(l: Ledger, id: Address, percent: u64, jailEpochs: u64)
    requires Inv(l)
    ensures Reshaped(l.validators, ApplySlash(l, id, percent, jailEpochs).ledger.validators, l.epoch, false)
  {
    hide Inv, Reshaped, Repowered, SlashAmount, Wrap64, ApplySlash;
    SameReshapes(l.validators, l.epoch, false);
    if !(id in l.validators && l.validators[id].status != Removed && percent <= 10000) {
      SlashRefused(l, id, percent, jailEpochs);
    } else {
      SlashOutcome(l, id, percent, jailEpochs);
      StoreReshapes(l.validators, SlashedRecord(l, id, SlashAmount(percent, l.validators[id].bonded), jailEpochs), l.epoch);
    }
  }

  lemma BeginMoves(l: Ledger, height: u64, w: World)
    requires Inv(l) && SnapshotsOK(l.snapshots) && Fits(l, Begin(height))
    ensures Moved(l, BeginBlock(l, height, w.hash).ledger, IsEpochBoundary(l.blocksPerEpoch, height))
  {
    hide Consistent, Held, CloseEpoch, Reshaped, HalfWay, AllAtEpoch, EpochAtHeight, MintedBy, Frozen;
    SameReshapes(l.validators, l.epoch, IsEpochBoundary(l.blocksPerEpoch, height));
    if IsEpochBoundary(l.blocksPerEpoch, height) {
      CloseFlow(l, height);
      var s := CloseEpoch(l, height);
      if s.Failed? {
        HalfWayReshapes(l.validators, s.ledger.validators, l.epoch);
      }
    }
  }

  lemma StepMoves(l: Ledger, op: Op, w: World)
    requires Inv(l) && SnapshotsOK(l.snapshots) && Fits(l, op)
    ensures Moved(l, Perform(l, op, w).ledger, Closes(l, op))
  {
    hide Inv, Held, SnapshotsOK, Reshaped, RegisterValidator, ApplySlash, BeginBlock, RunBlock, Bond, StartUnstake,
         MintedBy, AllAtEpoch, CheckDoubleSign, EvidenceHash;
    SameReshapes(l.validators, l.epoch, Closes(l, op));
    StepFlow(l, op, w);
    match op
    case Register(_, _, _, _, _) => RegisterReshapes(l, op);
    case Delegate(from, id, amount) => BondReshapes(l, from, id, amount);
    case Unstake(id, at) => UnstakeReshapes(l, id, at);
    case Punish(id, percent, jailEpochs) => SlashReshapes(l, id, percent, jailEpochs);
    case Report(e, _) => SlashReshapes(l, e.voteA.validator, Percent(e, l.slashParams), l.slashParams.jailEpochs);
    case Begin(height) => BeginMoves(l, height, w);
    case Transfers(txs) =>
      InvIsFiled(l);
      BlockFlow(l, txs, w);
  }

  // ----- runs -----

  /** ls[i + 1] is the ledger that operation i leaves behind. */
  ghost predicate IsRun(ls: seq<Ledger>, ops: seq<Op>, w: World)
  {
    && |ls| == |ops| + 1
    && forall i | 0 <= i < |ops| && Inv(ls[i]) :: ls[i + 1] == Perform(ls[i], ops[i], w).ledger
  }

  ghost predicate Starts(l: Ledger)
  {
    Inv(l) && SnapshotsOK(l.snapshots)
  }

  /** A run from a consistent ledger whose tokens always fit in 64 bits. */
  ghost predicate FittingRun(ls: seq<Ledger>, ops: seq<Op>, w: World)
  {
    && IsRun(ls, ops, w) && Starts(ls[0])
    && forall i | 0 <= i < |ops| :: Fits(ls[i], ops[i])
  }

  /** Every ledger of a run satisfies the registry invariant and holds snapshots with true totals. */
  lemma {:induction false} RunKeepsInv(ls: seq<Ledger>, ops: seq<Op>, w: World, k: nat)
    requires FittingRun(ls, ops, w) && k <= |ops|
    ensures Starts(ls[k])
  {
    hide Inv, SnapshotsOK, Fits, Perform, FollowsTable, Extends;
    if k > 0 {
      RunKeepsInv(ls, ops, w, k - 1);
      StepFlow(ls[k - 1], ops[k - 1], w);
    }
  }

  lemma StepAt(ls: seq<Ledger>, ops: seq<Op>, w: World, i: nat)
    requires FittingRun(ls, ops, w) && i < |ops|
    ensures Starts(ls[i]) && Filed(ls[i].validators)
    ensures ls[i + 1] == Perform(ls[i], ops[i], w).ledger
    ensures Flowed(ls[i], ls[i + 1], ops[i], GainedBy(ls[i], ops[i]), BurnedBy(ls[i], ops[i], w))
    ensures Moved(ls[i], ls[i + 1], Closes(ls[i], ops[i]))
  {
    hide Inv, SnapshotsOK, Fits, Perform, Flowed, Moved, Filed, GainedBy, BurnedBy;
    RunKeepsInv(ls, ops, w, i);
    StepFlow(ls[i], ops[i], w);
    StepMoves(ls[i], ops[i], w);
  }

  lemma RunFiled(ls: seq<Ledger>, ops: seq<Op>, w: World)
    requires FittingRun(ls, ops, w)
    ensures forall i | 0 <= i < |ops| :: Filed(ls[i].validators)
  {
    hide Filed, Inv, Flowed, Moved, Perform, Fits, Starts;
    forall i | 0 <= i < |ops| ensures Filed(ls[i].validators) {
      StepAt(ls, ops, w, i);
    }
  }

  // ----- the supply law -----

  lemma FlowedFigures(l: Ledger, l': Ledger, op: Op, gained: nat, burned: nat)
    requires Flowed(l, l', op, gained, burned)
    ensures Circulating(l') + burned == Circulating(l) + gained
    ensures l'.supply.total == Wrap64(l.supply.total + IssuedBy(l, op))
    ensures l'.supply.issued == Wrap64(l.supply.issued + IssuedBy(l, op))
    ensures l'.pools == PoolsAfter(l, op) && l'.blocksPerEpoch == l.blocksPerEpoch
  {
  }

  datatype Tally = Tally(entered: nat, minted: nat, burned: nat, issued: nat)

  /** What the first n operations brought in, minted, burned and booked as issued. */
  ghost function Tallied(ls: seq<Ledger>, ops: seq<Op>, w: World, n: nat): Tally
    requires n <= |ops| <= |ls| && forall i | 0 <= i < |ops| :: Filed(ls[i].validators)
  {
    if n == 0 then Tally(0, 0, 0, 0) else
      var t, l, op := Tallied(ls, ops, w, n - 1), ls[n - 1], ops[n - 1];
      Tally(t.entered + Entered(l, op), t.minted + MintedBy(l, op), t.burned + BurnedBy(l, op, w), t.issued + IssuedBy(l, op))
  }

  /**
   Tokens in accounts and in stake change by exactly what registrations bring in, what epochs mint
   and what slashing and fees burn; and the supply that was not issued stays what it was.
   */
  lemma {:induction false} SupplyLaw(ls: seq<Ledger>, ops: seq<Op>, w: World, n: nat)
    requires FittingRun(ls, ops, w) && n <= |ops|
    ensures forall i | 0 <= i < |ops| :: Filed(ls[i].validators)
    ensures var t := Tallied(ls, ops, w, n);
            && Circulating(ls[n]) + t.burned == Circulating(ls[0]) + t.entered + t.minted
            && ls[n].supply.issued == Wrap64(ls[0].supply.issued + t.issued)
            && ls[n].supply.total == Wrap64(ls[0].supply.total + t.issued)
  {
    hide Inv, Moved, Filed, Perform, Fits, Circulating, Entered, MintedBy, BurnedBy, IssuedBy, Starts, Flowed, Wrap64;
    RunFiled(ls, ops, w);
    if n > 0 {
      SupplyLaw(ls, ops, w, n - 1);
      StepAt(ls, ops, w, n - 1);
      var t, l, op := Tallied(ls, ops, w, n - 1), ls[n - 1], ops[n - 1];
      FlowedFigures(l, ls[n], op, GainedBy(l, op), BurnedBy(l, op, w));
      WrapAdd(ls[0].supply.issued + t.issued, IssuedBy(l, op));
      WrapAdd(ls[0].supply.total + t.issued, IssuedBy(l, op));
    }
  }

  /** TotalSupply - IssuedSupply, in the store's arithmetic, never changes. */
  lemma UnissuedConstant(ls: seq<Ledger>, ops: seq<Op>, w: World, n: nat)
    requires FittingRun(ls, ops, w) && n <= |ops|
    ensures Wrap64(ls[n].supply.total - ls[n].supply.issued) == Wrap64(ls[0].supply.total - ls[0].supply.issued)
  {
    hide Inv, Filed, Perform, Fits, Circulating, Starts, Tallied, Wrap64;
    SupplyLaw(ls, ops, w, n);
    var t, a, b := Tallied(ls, ops, w, n).issued, ls[0].supply.total, ls[0].supply.issued;
    var later: int := Wrap64(b + t);
    WrapAdd(a + t, -later);
    WrapAdd(a + t, b + t);
  }

  /** No pool is on file that was not issued: without issuance every pool is empty. */
  ghost predicate PoolsCovered(l: Ledger)
  {
    Issuance(l) == 0 ==> forall e :: e in l.pools ==> l.pools[e] == 0
  }

  lemma StepMintsWithinIssued(l: Ledger, op: Op)
    requires PoolsCovered(l) && Fits(l, op)
    ensures MintedBy(l, op) <= IssuedBy(l, op)
  {
    hide Issuance, EpochAtHeight, IsEpochBoundary, TreasuryCut, ValidatorCut, IssueEpochTokens, Held;
    if Closes(l, op) {
      IssueFlow(l, EpochAtHeight(l.blocksPerEpoch, op.height));
      CutsWithinIssuance(Issuance(l));
    }
  }

  /** While the supply figure does not wrap, issuance cannot dry up, so pools stay covered. */
  lemma StepCoversPools(l: Ledger, l': Ledger, op: Op)
    requires PoolsCovered(l) && l.supply.total + IssuedBy(l, op) < U64
    requires l'.supply.total == Wrap64(l.supply.total + IssuedBy(l, op))
    requires l'.pools == PoolsAfter(l, op) && l'.blocksPerEpoch == l.blocksPerEpoch
    ensures PoolsCovered(l')
  {
    hide PerEpochIssuance, EpochAtHeight, IsEpochBoundary, ValidatorCut;
    IssuanceMonotone(l.supply.total, l'.supply.total, l.blocksPerEpoch);
  }

  /** Over a run, no more is minted than is booked as issued. */
  lemma {:induction false} MintedWithinIssued(ls: seq<Ledger>, ops: seq<Op>, w: World, n: nat)
    requires FittingRun(ls, ops, w) && n <= |ops| && PoolsCovered(ls[0])
    requires forall i | 0 <= i < n :: ls[i].supply.total + IssuedBy(ls[i], ops[i]) < U64
    ensures forall i | 0 <= i < |ops| :: Filed(ls[i].validators)
    ensures Tallied(ls, ops, w, n).minted <= Tallied(ls, ops, w, n).issued && PoolsCovered(ls[n])
  {
    hide Inv, Moved, Filed, Perform, Fits, Starts, Flowed, PoolsCovered, PoolsAfter, Entered, MintedBy, BurnedBy, IssuedBy, Wrap64;
    RunFiled(ls, ops, w);
    if n > 0 {
      MintedWithinIssued(ls, ops, w, n - 1);
      StepAt(ls, ops, w, n - 1);
      var l, op := ls[n - 1], ops[n - 1];
      FlowedFigures(l, ls[n], op, GainedBy(l, op), BurnedBy(l, op, w));
      StepMintsWithinIssued(l, op);
      StepCoversPools(l, ls[n], op);
    }
  }

  /** While neither supply figure wraps, what a run mints is within the growth of the issued supply. */
  lemma MintedWithinBooked(ls: seq<Ledger>, ops: seq<Op>, w: World, n: nat)
    requires FittingRun(ls, ops, w) && n <= |ops| && PoolsCovered(ls[0])
    requires forall i | 0 <= i < n :: ls[i].supply.total + IssuedBy(ls[i], ops[i]) < U64
    ensures forall i | 0 <= i < |ops| :: Filed(ls[i].validators)
    ensures ls[0].supply.issued + Tallied(ls, ops, w, n).issued < U64 ==>
              Tallied(ls, ops, w, n).minted <= ls[n].supply.issued - ls[0].supply.issued
  {
    hide Inv, Filed, Perform, Fits, Starts, PoolsCovered, IssuedBy, Tallied, Circulating;
    MintedWithinIssued(ls, ops, w, n);
    SupplyLaw(ls, ops, w, n);
  }

  /** A chain without validators, with any accounts and any supply. */
  function Genesis(accounts: map<Address, Account>, blocksPerEpoch: pos64, total: u64, params: SlashParams): Ledger
  {
    Ledger(accounts, map[], map[], map[], map[], 0, 0, 0, blocksPerEpoch, map[], 0, Supply(total, 0, 0), map[], map[],
           params, map[])
  }

  /** Everything the run theorems ask of a first ledger holds of a new chain. */
  lemma GenesisStarts(accounts: map<Address, Account>, blocksPerEpoch: pos64, total: u64, params: SlashParams)
    ensures var l := Genesis(accounts, blocksPerEpoch, total, params);
            && Starts(l) && PoolsCovered(l) && l.epoch == 0 && l.snapshots == map[] && Circulating(l) == Held(accounts)
  {
    var none: Records := map[];
    assert Stakes(none) == map[] && Keys(none) == map[] && Operators(none) == map[];
  }
}

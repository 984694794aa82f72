/** Where tokens come from and where they go, operation by operation. */
module Flows {
  import opened Basics
  import opened Arithmetic
  import opened MapSum
  import opened Sorting
  import opened Votes
  import opened Validators
  import opened Accounts
  import opened Transactions
  import opened Rewards
  import opened Ledger
  import opened Registry
  import opened Epochs
  import opened Economy
  import opened Slashing

  /** Hashing, signature checks and the clock, fixed for a run. */
  datatype World = World(hash: Bytes -> Hash, env: Env)

  datatype Op =
    | Register(id: Address, key: PubKey, operator: Address, stake: Amount, commission: u16)
    | Delegate(from: Address, id: Address, amount: Amount)
    | Unstake(id: Address, at: u64)
    | Punish(id: Address, percent: u64, jailEpochs: u64)
    | Report(evidence: DoubleSign, at: u64)
    | Begin(height: u64)
    | Transfers(txs: seq<Transaction>)

  ghost function RunBlock(l: Ledger, txs: seq<Transaction>, env: Env): Step
    requires Filed(l.validators)
  {
    var x := ExecuteAll(l.accounts, txs, |txs|, env);
    if x.error.Some? then Failed(l.(accounts := x.accounts), TxRejected)
    else FinalizeBlock(l.(accounts := x.accounts), Wrap64(Fees(txs)))
  }

  /** Registration passes the stored epoch. */
  function StakingStep(l: Ledger, op: Op): Step
    requires op.Register? || op.Delegate? || op.Unstake?
  {
    match op
    case Register(id, key, operator, stake, commission) => RegisterValidator(l, id, key, operator, stake, commission, l.epoch)
    case Delegate(from, id, amount) => Bond(l, from, id, amount)
    case Unstake(id, at) => StartUnstake(l, id, at)
  }

  ghost function Perform(l: Ledger, op: Op, w: World): Step
    requires Inv(l)
  {
    InvIsFiled(l);
    match op
    case Register(_, _, _, _, _) => StakingStep(l, op)
    case Delegate(_, _, _) => StakingStep(l, op)
    case Unstake(_, _) => StakingStep(l, op)
    case Punish(id, percent, jailEpochs) => ApplySlash(l, id, percent, jailEpochs)
    case Report(e, at) => ProcessEvidence(l, e, at, w.hash)
    case Begin(height) => BeginBlock(l, height, w.hash)
    case Transfers(txs) => RunBlock(l, txs, w.env)
  }

  // ----- what each operation brings in and takes out -----

  /** Stake that a registration brings in from outside the accounts. */
  ghost function Entered(l: Ledger, op: Op): nat
  {
    if op.Register? && RegisterValidator(l, op.id, op.key, op.operator, op.stake, op.commission, l.epoch).Done?
    then op.stake else 0
  }

  predicate Closes(l: Ledger, op: Op)
  {
    op.Begin? && IsEpochBoundary(l.blocksPerEpoch, op.height)
  }

  function IssuedBy(l: Ledger, op: Op): nat
  {
    if Closes(l, op) then Issuance(l) else 0
  }

  /** The treasury's cut and the reward pool that is paid out. */
  function MintedBy(l: Ledger, op: Op): nat
  {
    if !Closes(l, op) then 0 else
      var e := EpochAtHeight(l.blocksPerEpoch, op.height);
      TreasuryCut(Issuance(l)) + RewardPool(IssueEpochTokens(l, e).ledger, e)
  }

  ghost function SlashedFrom(l: Ledger, id: Address, percent: u64): nat
  {
    if id in l.validators && l.validators[id].status != Removed && percent <= 10000
    then SlashAmount(percent, l.validators[id].bonded) else 0
  }

  ghost function ReportBurn(l: Ledger, e: DoubleSign, hash: Bytes -> Hash): nat
  {
    if CheckDoubleSign(e).None? && EvidenceHash(e, hash) !in l.processed
    then SlashedFrom(l, e.voteA.validator, Percent(e, l.slashParams)) else 0
  }

  /** The fees of a block that do not go to validators. */
  ghost function FeeBurn(l: Ledger, txs: seq<Transaction>, env: Env): nat
    requires Filed(l.validators)
  {
    var x := ExecuteAll(l.accounts, txs, |txs|, env);
    if x.error.Some? then Fees(txs[..x.applied]) else
      WrapBound(Fees(txs));
      ShareWithinFees(Wrap64(Fees(txs)));
      Fees(txs) - FeesPaid(l, Wrap64(Fees(txs)))
  }

  ghost function BurnedBy(l: Ledger, op: Op, w: World): nat
    requires Filed(l.validators)
  {
    match op
    case Punish(id, percent, _) => SlashedFrom(l, id, percent)
    case Report(e, _) => ReportBurn(l, e, w.hash)
    case Transfers(txs) => FeeBurn(l, txs, w.env)
    case _ => 0
  }

  lemma ShareWithinFees(fees: u64)
    ensures FeeShare(fees) <= fees
  {
    WrapBound(fees * 70);
  }

  /** The validators' share is 70% exactly when the 64-bit product does not wrap. */
  lemma FeeShareExact(fees: u64)
    ensures FeeShare(fees) == fees * 70 / 100 <==> fees * 70 < U64
  {
    WrapBound(fees * 70);
    if fees * 70 >= U64 {
      QuotientGap(Wrap64(fees * 70), fees * 70, 100);
    }
  }

  /** Of fees of 2^63 the validators get nothing. */
  lemma FeeShareWraps()
    ensures FeeShare(0x8000_0000_0000_0000) == 0
  {
  }

  // ----- snapshots carry true totals -----

  ghost predicate SnapshotsOK(snapshots: map<u64, Snapshot>)
  {
    forall e :: e in snapshots ==> WellFormed(snapshots[e]) && Ordered(snapshots[e].validators)
  }

  /** Distinct validators cannot have more power between them than there is stake. */
  lemma {:induction false} PowerWithinStakes(vals: seq<Validator>, stakes: map<Address, nat>)
    requires DistinctIDs(vals)
    requires forall i :: 0 <= i < |vals| ==> vals[i].consensusID in stakes && vals[i].power <= stakes[vals[i].consensusID]
    ensures TotalPower(vals) <= Sum(stakes)
  {
    hide Sum;
    if vals != [] {
      var init, last := vals[..|vals| - 1], vals[|vals| - 1];
      SumDelete(stakes, last.consensusID);
      PowerWithinStakes(init, stakes - {last.consensusID});
    }
  }

  lemma ActiveListFacts(vals: Records)
    requires Filed(vals)
    ensures var active := ActiveList(vals);
            && (forall v :: v in active <==> v.consensusID in vals && v == vals[v.consensusID] && v.status == Active)
            && DistinctIDs(active)
  {
    ActiveTotal(vals);
    var active := ActiveList(vals);
    ListingExists(ActiveSet(vals), ByPower);
    assert Lists(active, ActiveSet(vals), ByPower);
  }

  /** The active set's power never exceeds the bonded total. */
  lemma ActivePower(l: Ledger)
    requires Inv(l)
    ensures Filed(l.validators) && TotalPower(ActiveList(l.validators)) <= l.totalBonded
  {
    hide Sum, Enumerates, Inverse, ActiveList;
    InvIsFiled(l);
    ActiveListFacts(l.validators);
    var active := ActiveList(l.validators);
    forall i | 0 <= i < |active|
      ensures active[i].consensusID in Stakes(l.validators) && active[i].power <= Stakes(l.validators)[active[i].consensusID]
    {
      assert active[i] in active;
      LowFacts(active[i].bonded);
    }
    PowerWithinStakes(active, Stakes(l.validators));
  }

  // ----- rewards and fees are fair -----

  lemma OrderedFair(amount: u64, vals: seq<Validator>, total: u64)
    requires Ordered(vals) && vals != [] && total > 0 && total == TotalPower(vals) && NoOverflow(amount, vals)
    ensures Fair(amount, vals, total, Payouts(amount, vals, total))
  {
    hide Fair, Less, Payouts, NoOverflow;
    PayoutsFair(amount, vals, total);
  }

  /**
   Between two account maps each account gains exactly what `payees` are due: the whole amount is
   paid, and while products fit it is paid fairly.
   */
  ghost predicate PaidFairly(before: map<Address, Account>, after: map<Address, Account>, payees: seq<Address>,
                             amount: u64, vals: seq<Validator>, total: u64)
    requires total > 0 && vals != [] && |payees| == |vals|
  {
    var paid := Payouts(amount, vals, total);
    && SumOf(paid) == amount
    && (forall a: Address :: BalanceAt(after, a) == BalanceAt(before, a) + DueTo(payees, paid, |paid|, a))
    && (NoOverflow(amount, vals) ==> Fair(amount, vals, total, paid))
  }

  lemma CreditFairly(accounts: map<Address, Account>, payees: seq<Address>, amount: u64, vals: seq<Validator>, total: u64)
    requires total > 0 && vals != [] && |payees| == |vals| && total == TotalPower(vals) && Ordered(vals)
    requires Held(accounts) + amount < U128
    ensures CreditAll(accounts, payees, Payouts(amount, vals, total), |vals|).ok
    ensures PaidFairly(accounts, CreditAll(accounts, payees, Payouts(amount, vals, total), |vals|).accounts, payees, amount, vals, total)
  {
    hide Held, CreditAll, Payouts, BalanceAt, DueTo, Fair, NoOverflow, SumOf, Ordered, TotalPower;
    var paid := Payouts(amount, vals, total);
    PayoutsAddUp(amount, vals, total);
    assert paid[..|vals|] == paid;
    CreditAllPays(accounts, payees, paid, |vals|);
    if NoOverflow(amount, vals) {
      OrderedFair(amount, vals, total);
    }
  }

  /** The reward address where one is set, else the operator's. */
  ghost predicate Receiving(payees: seq<Address>, vals: seq<Validator>)
  {
    && |payees| == |vals|
    && forall i :: 0 <= i < |vals| ==>
         && (vals[i].reward != ZERO_ADDRESS ==> payees[i] == vals[i].reward)
         && (vals[i].reward == ZERO_ADDRESS ==> payees[i] == vals[i].operator)
  }

  /** Completing an epoch pays its pool, fairly, to the reward addresses of the prior snapshot. */
  lemma RewardsFair(l: Ledger, epoch: u64)
    requires SnapshotsOK(l.snapshots) && RewardPool(l, epoch) > 0 && Held(l.accounts) + RewardPool(l, epoch) < U128
    ensures var vals, total := l.snapshots[Wrap64(epoch - 1)].validators, l.snapshots[Wrap64(epoch - 1)].totalPower;
            var s := DistributeValidatorRewards(l, epoch);
            && s.Done?
            && RewardPool(l, epoch) == l.pools[epoch]
            && exists payees: seq<Address> ::
                 && Receiving(payees, vals)
                 && PaidFairly(l.accounts, s.ledger.accounts, payees, l.pools[epoch], vals, total)
  {
    hide Held, CreditAll, Payouts, PaidFairly, Ordered, TotalPower;
    var pool, snap := RewardPool(l, epoch), l.snapshots[Wrap64(epoch - 1)];
    assert Receiving(RewardAddresses(snap.validators), snap.validators);
    CreditFairly(l.accounts, RewardAddresses(snap.validators), pool, snap.validators, snap.totalPower);
  }

  /** Closing a block pays 70% of its fees, fairly, to the operators along the active list. */
  lemma FeesFair(l: Ledger, fees: u64)
    requires Inv(l) && l.totalBonded < U64 && fees * 70 < U64
    requires Held(l.accounts) + fees < U128
    ensures Filed(l.validators) && TotalPower(ActiveList(l.validators)) < U64
    ensures var active, s := ActiveList(l.validators), FinalizeBlock(l, fees);
            var payees := seq(|active|, i requires 0 <= i < |active| => active[i].operator);
            && s.Done?
            && if active == [] || TotalPower(active) == 0 || fees * 70 / 100 == 0 then s.ledger == l
               else PaidFairly(l.accounts, s.ledger.accounts, payees, fees * 70 / 100, active, TotalPower(active))
  {
    hide Inv, Consistent, Held, CreditAll, Payouts, PaidFairly, Ordered, TotalPower, ActiveList;
    ActivePower(l);
    ActiveOrdered(l.validators);
    var active := ActiveList(l.validators);
    var payees := seq(|active|, i requires 0 <= i < |active| => active[i].operator);
    assert OperatorAddresses(active) == payees;
    if active != [] && TotalPower(active) > 0 {
      CreditFairly(l.accounts, payees, FeeShare(fees), active, TotalPower(active));
    }
  }

  // ----- the flow of each operation -----

  function Offered(op: Op): nat
  {
    if op.Register? then op.stake else 0
  }

  /** All tokens, with those about to come in, fit in 64 bits. */
  ghost predicate Fits(l: Ledger, op: Op)
  {
    Circulating(l) + Offered(op) + MintedBy(l, op) < U64
  }

  lemma RegisterFlow(l: Ledger, op: Op)
    requires Inv(l) && op.Register? && l.totalBonded + op.stake < U64
    ensures var l' := RegisterValidator(l, op.id, op.key, op.operator, op.stake, op.commission, l.epoch).ledger;
            && Inv(l') && FollowsTable(l.validators, l'.validators)
            && Circulating(l') == Circulating(l) + Entered(l, op)
  {
    hide Consistent, Held, FollowsTable;
    RegisterKeepsInv(l, op.id, op.key, op.operator, op.stake, op.commission, l.epoch);
  }

  lemma BondFlow(l: Ledger, from: Address, id: Address, amount: Amount)
    requires Inv(l) && Circulating(l) < U64
    ensures Circulating(Bond(l, from, id, amount).ledger) == Circulating(l)
  {
    hide Consistent, Held;
    if from in l.accounts && id in l.validators && amount <= l.accounts[from].balance {
      HeldAfterWrite(l.accounts, from, l.accounts[from].(balance := l.accounts[from].balance - amount));
      if l.validators[id].status != Removed { StakeWithinTotal(l, id); }
    }
  }

  lemma SlashFlow(l: Ledger, id: Address, percent: u64, jailEpochs: u64)
    requires Inv(l)
    ensures var s := ApplySlash(l, id, percent, jailEpochs);
            && Circulating(s.ledger) == Circulating(l) - SlashedFrom(l, id, percent)
            && SlashedFrom(l, id, percent) <= l.totalBonded
            && s.ledger == l.(validators := s.ledger.validators, totalBonded := s.ledger.totalBonded)
  {
    hide Consistent, Held, SlashAmount, ApplySlash;
    if id in l.validators && l.validators[id].status != Removed && percent <= 10000 {
      SlashDocks(l, id, percent, jailEpochs);
      SlashAmountBound(percent, l.validators[id].bonded);
      StakeWithinTotal(l, id);
    } else {
      SlashRefused(l, id, percent, jailEpochs);
    }
  }

  lemma SlashRefused(l: Ledger, id: Address, percent: u64, jailEpochs: u64)
    requires !(id in l.validators && l.validators[id].status != Removed && percent <= 10000)
    ensures ApplySlash(l, id, percent, jailEpochs).Failed?
    ensures ApplySlash(l, id, percent, jailEpochs).ledger == l
  {
  }

  lemma CreditOneHeld(accounts: map<Address, Account>, a: Address, amount: u64)
    requires Held(accounts) + amount < U128
    ensures Credit(accounts, a, amount).Some?
    ensures Held(Credit(accounts, a, amount).value) == Held(accounts) + amount
  {
    CreditOne(accounts, a, amount);
  }

  lemma TreasuryFlow(l: Ledger, amount: u64)
    requires Held(l.accounts) + amount < U128
    ensures var s := CreditTreasury(l, amount);
            s.Done? && Held(s.ledger.accounts) == Held(l.accounts) + amount
  {
    hide Held, Credit, Wrap64;
    if amount > 0 {
      CreditOneHeld(l.accounts, TREASURY, amount);
      var paid := Credit(l.accounts, TREASURY, amount).value;
      assert CreditTreasury(l, amount) ==
             Done(l.(supply := l.supply.(treasury := Wrap64(l.supply.treasury + amount)), accounts := paid));
    }
  }

  lemma IssueFlow(l: Ledger, epoch: u64)
    requires Held(l.accounts) + TreasuryCut(Issuance(l)) < U128
    ensures var s := IssueEpochTokens(l, epoch);
            && s.Done?
            && Held(s.ledger.accounts) == Held(l.accounts) + TreasuryCut(Issuance(l))
            && s.ledger.supply.total == Wrap64(l.supply.total + Issuance(l))
            && s.ledger.supply.issued == Wrap64(l.supply.issued + Issuance(l))
            && s.ledger.pools == (if Issuance(l) == 0 then l.pools else l.pools[epoch := ValidatorCut(Issuance(l))])
  {
    hide Held, Issuance, CreditTreasury, TreasuryCut, ValidatorCut;
    CutsWithinIssuance(Issuance(l));
    TreasuryFlow(l, TreasuryCut(Issuance(l)));
    TreasuryFrame(l, TreasuryCut(Issuance(l)));
  }

  /** The whole pool is paid, whatever the division leaves over. */
  lemma RewardFlow(l: Ledger, epoch: u64)
    requires SnapshotsOK(l.snapshots) && Held(l.accounts) + RewardPool(l, epoch) < U128
    ensures var s := DistributeValidatorRewards(l, epoch);
            s.Done? && Held(s.ledger.accounts) == Held(l.accounts) + RewardPool(l, epoch)
  {
    hide Held, CreditAll, Payouts, RewardAddresses;
    var pool := RewardPool(l, epoch);
    if pool > 0 {
      var snap := l.snapshots[Wrap64(epoch - 1)];
      var amounts := Payouts(pool, snap.validators, snap.totalPower);
      PayoutsAddUp(pool, snap.validators, snap.totalPower);
      assert amounts[..|snap.validators|] == amounts;
      CreditAllPays(l.accounts, RewardAddresses(snap.validators), amounts, |snap.validators|);
    }
  }

  lemma FinalizeFlow(l: Ledger, fees: u64)
    requires Inv(l) && l.totalBonded < U64 && Held(l.accounts) + fees < U128
    ensures Filed(l.validators)
    ensures var s := FinalizeBlock(l, fees);
            && s.Done? && s.ledger == l.(accounts := s.ledger.accounts)
            && Held(s.ledger.accounts) == Held(l.accounts) + FeesPaid(l, fees)
  {
    hide Consistent, Held, CreditAll, Payouts, OperatorAddresses, ActiveList, FeeShare;
    ActivePower(l);
    ShareWithinFees(fees);
    if FeesPaid(l, fees) > 0 {
      var active := ActiveList(l.validators);
      var amounts := Payouts(FeeShare(fees), active, Wrap64(TotalPower(active)));
      PayoutsAddUp(FeeShare(fees), active, Wrap64(TotalPower(active)));
      assert amounts[..|active|] == amounts;
      CreditAllPays(l.accounts, OperatorAddresses(active), amounts, |active|);
    }
  }

  lemma BlockFlow(l: Ledger, txs: seq<Transaction>, w: World)
    requires Inv(l) && Circulating(l) < U64
    ensures Filed(l.validators)
    ensures var l' := RunBlock(l, txs, w.env).ledger;
            && l' == l.(accounts := l'.accounts)
            && Circulating(l') == Circulating(l) - FeeBurn(l, txs, w.env)
  {
    hide Consistent, Held, ExecuteAll, FinalizeBlock, FeesPaid, Fees;
    InvIsFiled(l);
    ExecuteConserves(l.accounts, txs, |txs|, w.env);
    var x := ExecuteAll(l.accounts, txs, |txs|, w.env);
    if x.error.None? {
      assert txs[..|txs|] == txs;
      WrapBound(Fees(txs));
      FinalizeFlow(l.(accounts := x.accounts), Wrap64(Fees(txs)));
      SameFees(l, x.accounts, Wrap64(Fees(txs)));
    }
  }

  lemma SameFees(l: Ledger, accounts: map<Address, Account>, fees: u64)
    requires Filed(l.validators)
    ensures FeesPaid(l.(accounts := accounts), fees) == FeesPaid(l, fees)
  {
  }

  /** Closing an epoch mints the treasury's cut and the pool, and nothing else moves the total. */
  lemma CloseFlow(l: Ledger, height: u64)
    requires Inv(l) && SnapshotsOK(l.snapshots) && IsEpochBoundary(l.blocksPerEpoch, height)
    requires Circulating(l) + MintedBy(l, Begin(height)) < U64
    ensures var s := CloseEpoch(l, height);
            && Inv(s.ledger) && FollowsTable(l.validators, s.ledger.validators)
            && Circulating(s.ledger) == Circulating(l) + MintedBy(l, Begin(height))
            && s.ledger.snapshots == l.snapshots && s.ledger.blocksPerEpoch == l.blocksPerEpoch
            && s.ledger.processed == l.processed
            && s.ledger.supply.total == Wrap64(l.supply.total + Issuance(l))
            && s.ledger.supply.issued == Wrap64(l.supply.issued + Issuance(l))
            && s.ledger.pools == (if Issuance(l) == 0 then l.pools
                                  else l.pools[EpochAtHeight(l.blocksPerEpoch, height) := ValidatorCut(Issuance(l))])
    ensures Transitioned(l, CloseEpoch(l, height), height)
  {
    hide Consistent, Held, IssueEpochTokens, DistributeValidatorRewards, ProcessEpochTransition, FollowsTable,
         Issuance, TreasuryCut, ValidatorCut, RewardPool, EpochAtHeight, IsEpochBoundary, PaidBack, AllPayable, AllAtEpoch, HalfWay;
    var e := EpochAtHeight(l.blocksPerEpoch, height);
    IssueFlow(l, e);
    IssueFrame(l, e);
    var l1 := IssueEpochTokens(l, e).ledger;
    RewardFlow(l1, e);
    RewardFrame(l1, e);
    TransitionMeaning(DistributeValidatorRewards(l1, e).ledger, height);
    MismatchOnly(DistributeValidatorRewards(l1, e).ledger, height);
  }

  lemma {:induction false} ReleaseErrors(l: Ledger, k: nat, next: u64)
    ensures Released(l, k, next).Failed? ==> Released(l, k, next).error != EpochMismatch
  {
    hide ReleaseDue;
    if k > 0 {
      ReleaseErrors(l, k - 1, next);
    }
  }

  lemma MismatchOnly(l: Ledger, height: u64)
    ensures var s := ProcessEpochTransition(l, height);
            s == Failed(s.ledger, EpochMismatch) ==> EpochAtHeight(l.blocksPerEpoch, height) != Wrap64(l.epoch + 1)
  {
    hide Swept, Released;
    var next := Wrap64(l.epoch + 1);
    var l1 := l.(validators := Swept(l.validators, l.bySeq, l.count, Activate, next));
    ReleaseErrors(l1, l1.count, next);
  }

  /** What closing an epoch does to the records and the epoch. */
  ghost predicate Transitioned(l: Ledger, s: Step, height: u64)
  {
    var next := Wrap64(l.epoch + 1);
    if s.Done? then
      && EpochAtHeight(l.blocksPerEpoch, height) == next
      && s.ledger.epoch == next
      && s.ledger.validators == AllAtEpoch(l.validators, next)
    else
      && s.ledger.epoch == l.epoch
      && HalfWay(l.validators, s.ledger.validators, next)
      && (s.error == EpochMismatch ==> EpochAtHeight(l.blocksPerEpoch, height) != next)
  }

  ghost predicate Extends(snapshots: map<u64, Snapshot>, later: map<u64, Snapshot>)
  {
    forall e :: e in snapshots ==> e in later && later[e] == snapshots[e]
  }

  /** A snapshot taken while all stake fits in 64 bits has distinct members and their true total. */
  lemma FrozenOK(l: Ledger, hash: Bytes -> Hash)
    requires Inv(l) && l.totalBonded < U64
    ensures Filed(l.validators) && WellFormed(Frozen(l, l.epoch, hash)) && Ordered(Frozen(l, l.epoch, hash).validators)
  {
    hide Consistent, ActiveList, SetHash, Ordered;
    ActivePower(l);
    ActiveOrdered(l.validators);
    ActiveListFacts(l.validators);
  }

  /** Everything a step keeps, the tokens it adds and the tokens it takes away. */
  ghost predicate Flowed(l: Ledger, l': Ledger, op: Op, gained: nat, burned: nat)
  {
    && Inv(l') && FollowsTable(l.validators, l'.validators)
    && Circulating(l') + burned == Circulating(l) + gained
    && SnapshotsOK(l'.snapshots) && Extends(l.snapshots, l'.snapshots)
    && l'.supply.total == Wrap64(l.supply.total + IssuedBy(l, op))
    && l'.supply.issued == Wrap64(l.supply.issued + IssuedBy(l, op))
    && l'.pools == PoolsAfter(l, op) && l'.blocksPerEpoch == l.blocksPerEpoch
    && (!op.Begin? ==> l'.epoch == l.epoch && l'.snapshots == l.snapshots)
    && (forall h :: h in l.processed ==> h in l'.processed)
  }

  lemma IdleFlowed(l: Ledger, height: u64)
    requires Inv(l) && SnapshotsOK(l.snapshots) && !IsEpochBoundary(l.blocksPerEpoch, height)
    ensures MintedBy(l, Begin(height)) == 0 && Flowed(l, l, Begin(height), 0, 0)
  {
    hide Consistent, Held, FollowsTable;
    SameFollowsTable(l.validators);
  }

  lemma CloseFlowed(l: Ledger, height: u64)
    requires Inv(l) && SnapshotsOK(l.snapshots) && IsEpochBoundary(l.blocksPerEpoch, height) && Fits(l, Begin(height))
    ensures Flowed(l, CloseEpoch(l, height).ledger, Begin(height), MintedBy(l, Begin(height)), 0)
  {
    hide Consistent, Held, CloseEpoch, FollowsTable, Issuance, ValidatorCut, MintedBy, EpochAtHeight;
    CloseFlow(l, height);
  }

  lemma SnapshotFlowed(l: Ledger, m: Ledger, op: Op, gained: nat, hash: Bytes -> Hash)
    requires Flowed(l, m, op, gained, 0) && op.Begin? && Circulating(l) + gained < U64 && m.epoch !in m.snapshots
    ensures Filed(m.validators)
    ensures Flowed(l, CreateSnapshot(m, m.epoch, hash), op, gained, 0)
  {
    hide Consistent, Held, FollowsTable, Frozen, WellFormed, PoolsAfter, IssuedBy;
    FrozenOK(m, hash);
  }

  /** BeginBlock, whether it closes an epoch or not, and however far it gets. */
  lemma BeginFlow(l: Ledger, height: u64, w: World)
    requires Inv(l) && SnapshotsOK(l.snapshots) && Fits(l, Begin(height))
    ensures Flowed(l, BeginBlock(l, height, w.hash).ledger, Begin(height), MintedBy(l, Begin(height)), 0)
  {
    hide Inv, Held, CloseEpoch, MintedBy, SnapshotsOK, Frozen, CreateSnapshot, Flowed;
    var op := Begin(height);
    var s := if IsEpochBoundary(l.blocksPerEpoch, height) then CloseEpoch(l, height) else Done(l);
    if IsEpochBoundary(l.blocksPerEpoch, height) {
      CloseFlowed(l, height);
    } else {
      IdleFlowed(l, height);
    }
    if s.Done? && s.ledger.epoch !in s.ledger.snapshots {
      SnapshotFlowed(l, s.ledger, op, MintedBy(l, op), w.hash);
    }
  }

  /** The reward pools on file after op. */
  function PoolsAfter(l: Ledger, op: Op): map<u64, u64>
  {
    if Closes(l, op) && Issuance(l) > 0
    then l.pools[EpochAtHeight(l.blocksPerEpoch, op.height) := ValidatorCut(Issuance(l))]
    else l.pools
  }

  /** Nothing but accounts, records, indexes, the bonded total and the evidence marks moved. */
  ghost predicate Quiet(l: Ledger, l': Ledger)
  {
    && l'.supply == l.supply && l'.pools == l.pools && l'.snapshots == l.snapshots
    && l'.epoch == l.epoch && l'.blocksPerEpoch == l.blocksPerEpoch
    && (forall h :: h in l.processed ==> h in l'.processed)
  }

  lemma QuietFlowed(l: Ledger, l': Ledger, op: Op)
    requires SnapshotsOK(l.snapshots) && !op.Begin?
    requires Inv(l') && FollowsTable(l.validators, l'.validators) && Quiet(l, l')
    ensures forall gained: nat, burned: nat | Circulating(l') + burned == Circulating(l) + gained ::
              Flowed(l, l', op, gained, burned)
  {
    hide Consistent, Held, FollowsTable;
  }

  lemma RegisterQuiet(l: Ledger, id: Address, key: PubKey, operator: Address, stake: Amount, commission: u16)
    ensures Quiet(l, RegisterValidator(l, id, key, operator, stake, commission, l.epoch).ledger)
  {
    hide Registered;
  }

  lemma BondQuiet(l: Ledger, from: Address, id: Address, amount: Amount)
    ensures Quiet(l, Bond(l, from, id, amount).ledger)
  {
    hide Store, WithBalance;
    if from in l.accounts && amount <= l.accounts[from].balance {
      BalanceQuiet(l, from, l.accounts[from].balance - amount);
      if id in l.validators && l.validators[id].bonded + amount < U128 && l.totalBonded + amount < U128 {
        var v := l.validators[id];
        StoreQuiet(WithBalance(l, from, l.accounts[from].balance - amount), l.totalBonded + amount, v.(bonded := v.bonded + amount));
      }
    }
  }

  lemma BalanceQuiet(l: Ledger, a: Address, balance: Amount)
    requires a in l.accounts
    ensures Quiet(l, WithBalance(l, a, balance)) && WithBalance(l, a, balance).validators == l.validators
    ensures WithBalance(l, a, balance).totalBonded == l.totalBonded
  {
  }

  lemma StoreQuiet(l: Ledger, total: Amount, v: Validator)
    ensures Quiet(l, Store(l.(totalBonded := total), v))
  {
  }

  lemma StakingFlow(l: Ledger, op: Op)
    requires Inv(l) && SnapshotsOK(l.snapshots) && Fits(l, op)
    requires op.Register? || op.Delegate? || op.Unstake?
    ensures Flowed(l, StakingStep(l, op).ledger, op, Entered(l, op), 0)
  {
    hide Consistent, Held, FollowsTable, Flowed, SnapshotsOK, MintedBy, Quiet, RegisterValidator, Bond, StartUnstake;
    match op {
    case Register(id, key, operator, stake, commission) =>
      RegisterFlow(l, op);
      RegisterQuiet(l, id, key, operator, stake, commission);
    case Delegate(from, id, amount) =>
      BondKeepsInv(l, from, id, amount);
      BondFlow(l, from, id, amount);
      BondQuiet(l, from, id, amount);
    case Unstake(id, at) =>
      StartUnstakeKeepsInv(l, id, at);
      UnstakeFlow(l, id, at);
    }
    QuietFlowed(l, StakingStep(l, op).ledger, op);
  }

  lemma UnstakeFlow(l: Ledger, id: Address, at: u64)
    ensures Circulating(StartUnstake(l, id, at).ledger) == Circulating(l)
    ensures Quiet(l, StartUnstake(l, id, at).ledger)
  {
  }

  lemma PunishFlow(l: Ledger, op: Op)
    requires Inv(l) && SnapshotsOK(l.snapshots) && op.Punish?
    ensures Flowed(l, ApplySlash(l, op.id, op.percent, op.jailEpochs).ledger, op, 0, SlashedFrom(l, op.id, op.percent))
  {
    hide Consistent, Held, FollowsTable, Flowed, SnapshotsOK, ApplySlash, SlashedFrom;
    SlashFlow(l, op.id, op.percent, op.jailEpochs);
    ApplySlashKeepsInv(l, op.id, op.percent, op.jailEpochs);
    QuietFlowed(l, ApplySlash(l, op.id, op.percent, op.jailEpochs).ledger, op);
  }

  lemma ReportFlow(l: Ledger, op: Op, hash: Bytes -> Hash)
    requires Inv(l) && SnapshotsOK(l.snapshots) && op.Report?
    ensures Flowed(l, ProcessEvidence(l, op.evidence, op.at, hash).ledger, op, 0, ReportBurn(l, op.evidence, hash))
  {
    hide Consistent, Held, FollowsTable, Flowed, SnapshotsOK, ApplySlash, SlashedFrom, CheckDoubleSign, EvidenceHash, Percent;
    SameFollowsTable(l.validators);
    var id, percent := op.evidence.voteA.validator, Percent(op.evidence, l.slashParams);
    SlashFlow(l, id, percent, l.slashParams.jailEpochs);
    ApplySlashKeepsInv(l, id, percent, l.slashParams.jailEpochs);
    QuietFlowed(l, ProcessEvidence(l, op.evidence, op.at, hash).ledger, op);
  }

  lemma TransfersFlow(l: Ledger, op: Op, w: World)
    requires Inv(l) && SnapshotsOK(l.snapshots) && Circulating(l) < U64 && op.Transfers? && Filed(l.validators)
    ensures Flowed(l, RunBlock(l, op.txs, w.env).ledger, op, 0, FeeBurn(l, op.txs, w.env))
  {
    hide Consistent, Held, FollowsTable, Flowed, SnapshotsOK, RunBlock, FeeBurn;
    SameFollowsTable(l.validators);
    BlockFlow(l, op.txs, w);
    QuietFlowed(l, RunBlock(l, op.txs, w.env).ledger, op);
  }

  /** What a step brings into accounts and stake. */
  ghost function GainedBy(l: Ledger, op: Op): nat
  {
    Entered(l, op) + MintedBy(l, op)
  }

  lemma StepFlow(l: Ledger, op: Op, w: World)
    requires Inv(l) && SnapshotsOK(l.snapshots) && Fits(l, op)
    ensures Filed(l.validators) && Flowed(l, Perform(l, op, w).ledger, op, GainedBy(l, op), BurnedBy(l, op, w))
  {
    hide Inv, Filed, Held, Flowed, SnapshotsOK, SlashedFrom, ReportBurn, FeeBurn, RegisterValidator, ApplySlash, BeginBlock,
         RunBlock, ProcessEvidence, Bond, StartUnstake, Issuance, RewardPool, IsEpochBoundary;
    InvIsFiled(l);
    match op
    case Begin(height) => BeginFlow(l, height, w);
    case Transfers(txs) => TransfersFlow(l, op, w);
    case Punish(_, _, _) => PunishFlow(l, op);
    case Report(_, _) => ReportFlow(l, op, w.hash);
    case _ => StakingFlow(l, op);
  }
}

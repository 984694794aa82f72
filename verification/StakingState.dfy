/** The staking store as the source updates it: one mutable object, changed entry by entry. */
module StakingState {
  import opened Basics
  import opened Sorting
  import opened Votes
  import opened Validators
  import opened Accounts
  import opened Rewards
  import opened Proposer
  import opened Ledger
  import L = Ledger
  import opened Registry
  import opened Epochs
  import opened Economy
  import opened Slashing

  /** An error, if there was one, together with what the store holds afterwards. */
  function Outcome(l: Ledger, e: Option<Error>): Step
  {
    if e.None? then Done(l) else Failed(l, e.value)
  }

  /** A step from a consistent registry leads to one, along the transition table. */
  ghost predicate KeepsRules(l: Ledger, l': Ledger)
  {
    Inv(l) ==> Inv(l') && FollowsTable(l.validators, l'.validators)
  }

  /** The same for a step that keeps the registry consistent only on a condition. */
  ghost predicate KeepsRulesIf(l: Ledger, l': Ledger, condition: bool)
  {
    Inv(l) ==> (Inv(l') <==> condition) && FollowsTable(l.validators, l'.validators)
  }

  lemma ActivateRules(l: Ledger, id: Address, at: u64)
    ensures KeepsRules(l, L.ActivateValidator(l, id, at).ledger)
  {
    hide Inv, FollowsTable, L.ActivateValidator;
    if Inv(l) { ActivateKeepsInv(l, id, at); }
  }

  lemma JailRules(l: Ledger, id: Address, until: u64)
    ensures KeepsRules(l, L.JailValidator(l, id, until).ledger)
  {
    hide Inv, FollowsTable, L.JailValidator;
    if Inv(l) { JailKeepsInv(l, id, until); }
  }

  lemma UnjailRules(l: Ledger, id: Address)
    ensures KeepsRules(l, L.UnjailValidator(l, id).ledger)
  {
    hide Inv, FollowsTable, L.UnjailValidator;
    if Inv(l) { UnjailKeepsInv(l, id); }
  }

  lemma UnstakeRules(l: Ledger, id: Address, at: u64)
    ensures KeepsRules(l, L.StartUnstake(l, id, at).ledger)
  {
    hide Inv, FollowsTable, L.StartUnstake;
    if Inv(l) { StartUnstakeKeepsInv(l, id, at); }
  }

  lemma RemoveRules(l: Ledger, id: Address)
    ensures KeepsRules(l, L.RemoveValidator(l, id).ledger)
  {
    hide Inv, FollowsTable, L.RemoveValidator;
    if Inv(l) { RemoveKeepsInv(l, id); }
  }

  lemma BondRules(l: Ledger, from: Address, id: Address, amount: Amount)
    ensures KeepsRules(l, L.Bond(l, from, id, amount).ledger)
  {
    hide Inv, FollowsTable, L.Bond;
    if Inv(l) { BondKeepsInv(l, from, id, amount); }
  }

  lemma ReleaseRules(l: Ledger, id: Address)
    ensures KeepsRules(l, L.ReleaseStake(l, id).ledger)
  {
    hide Inv, FollowsTable, L.ReleaseStake;
    if Inv(l) { ReleaseKeepsInv(l, id); }
  }

  lemma ApplySlashRules(l: Ledger, id: Address, percent: u64, jailEpochs: u64)
    ensures KeepsRules(l, L.ApplySlash(l, id, percent, jailEpochs).ledger)
  {
    hide Inv, FollowsTable, L.ApplySlash;
    if Inv(l) { ApplySlashKeepsInv(l, id, percent, jailEpochs); }
  }

  lemma EvidenceRules(l: Ledger, ev: DoubleSign, height: u64, hash: Bytes -> Hash)
    ensures KeepsRules(l, Slashing.ProcessEvidence(l, ev, height, hash).ledger)
  {
    hide Consistent, FollowsTable, L.ApplySlash, CheckDoubleSign, EvidenceHash;
    if Inv(l) {
      SameFollowsTable(l.validators);
      ApplySlashKeepsInv(l, ev.voteA.validator, Percent(ev, l.slashParams), l.slashParams.jailEpochs);
    }
  }

  lemma TransitionRules(l: Ledger, height: u64)
    ensures KeepsRules(l, Epochs.ProcessEpochTransition(l, height).ledger)
  {
    hide Inv, FollowsTable, Epochs.ProcessEpochTransition, OnlyTransitioned, AllPayable, AllAtEpoch, PaidBack, HalfWay;
    if Inv(l) { TransitionMeaning(l, height); }
  }

  lemma CloseRules(l: Ledger, height: u64)
    ensures KeepsRules(l, Economy.CloseEpoch(l, height).ledger)
  {
    hide Inv, FollowsTable, Economy.CloseEpoch, Filed;
    if Inv(l) { CloseKeepsFiled(l, height); }
  }

  lemma RegisterRules(l: Ledger, id: Address, key: PubKey, operator: Address, stake: Amount, commission: u16, current: u64)
    ensures KeepsRulesIf(l, L.RegisterValidator(l, id, key, operator, stake, commission, current).ledger,
                         RoomToRegister(l, id, key, operator, stake, commission))
  {
    hide Inv, FollowsTable, L.RegisterValidator;
    if Inv(l) { RegisterKeepsInv(l, id, key, operator, stake, commission, current); }
  }

  lemma SlashRules(l: Ledger, id: Address, amount: Amount)
    ensures KeepsRulesIf(l, L.Slash(l, id, amount).ledger, SafeToSlash(l, id, amount))
  {
    hide Inv, FollowsTable, L.Slash;
    if Inv(l) { SlashKeepsInv(l, id, amount); }
  }

  class StakingStore {
    var accounts: map<Address, Account>
    var validators: map<Address, Validator>
    var bySeq: map<nat, Address>
    var byPubKey: map<PubKey, Address>
    var byOperator: map<Address, Address>
    var count: nat
    var totalBonded: Amount
    var epoch: u64
    var blocksPerEpoch: pos64
    var snapshots: map<u64, Snapshot>
    var latestSnapshot: u64
    var supply: Supply
    var issuance: map<u64, u64>
    var pools: map<u64, u64>
    var slashParams: SlashParams
    var processed: map<Hash, u64>

    constructor (l: Ledger)
      ensures View() == l
    {
      accounts, validators, bySeq, byPubKey, byOperator := l.accounts, l.validators, l.bySeq, l.byPubKey, l.byOperator;
      count, totalBonded, epoch, blocksPerEpoch := l.count, l.totalBonded, l.epoch, l.blocksPerEpoch;
      snapshots, latestSnapshot, supply, issuance := l.snapshots, l.latestSnapshot, l.supply, l.issuance;
      pools, slashParams, processed := l.pools, l.slashParams, l.processed;
    }

    ghost function View(): Ledger
      reads this
    {
      Ledger(accounts, validators, bySeq, byPubKey, byOperator, count, totalBonded, epoch, blocksPerEpoch,
             snapshots, latestSnapshot, supply, issuance, pools, slashParams, processed)
    }

    // ----- the registry -----

    method UpdateValidator(v: Validator)
      modifies this`validators
      ensures View() == L.Store(old(View()), v)
    {
      var power := if v.status == Active then Low64(v.bonded) else 0;
      validators := validators[v.consensusID := v.(power := power)];
    }

    /** Writes the record, both indexes and the next place in the order of registration. */
    method Enroll(v: Validator)
      modifies this`validators, this`byPubKey, this`byOperator, this`bySeq, this`count
      ensures View() == old(View()).(
                validators := old(validators)[v.consensusID := v],
                byPubKey := old(byPubKey)[v.publicKey := v.consensusID],
                byOperator := old(byOperator)[v.operator := v.consensusID],
                bySeq := old(bySeq)[old(count) + 1 := v.consensusID],
                count := old(count) + 1)
    {
      validators := validators[v.consensusID := v];
      byPubKey := byPubKey[v.publicKey := v.consensusID];
      byOperator := byOperator[v.operator := v.consensusID];
      var next := count + 1;
      bySeq := bySeq[next := v.consensusID];
      count := next;
    }

    method RegisterValidator(id: Address, key: PubKey, operator: Address, stake: Amount, commission: u16, current: u64)
      returns (e: Option<Error>)
      modifies this
      ensures Outcome(View(), e) == L.RegisterValidator(old(View()), id, key, operator, stake, commission, current)
      ensures KeepsRulesIf(old(View()), View(), RoomToRegister(old(View()), id, key, operator, stake, commission))
    {
      hide KeepsRulesIf, RoomToRegister, Wrap64;
      RegisterRules(View(), id, key, operator, stake, commission, current);
      if id in validators { return Some(ValidatorExists); }
      if key in byPubKey { return Some(ValidatorExists); }
      if operator in byOperator { return Some(ValidatorExists); }
      if stake < MINIMUM_STAKE { return Some(InsufficientStake); }
      if commission > MAX_COMMISSION { return Some(CommissionTooHigh); }
      Enroll(Registered(id, key, operator, stake, commission, current));
      if totalBonded + stake >= U128 { return Some(AmountOverflow); }
      totalBonded := totalBonded + stake;
      e := None;
    }

    method ActivateValidator(id: Address, at: u64) returns (e: Option<Error>)
      modifies this`validators
      ensures Outcome(View(), e) == L.ActivateValidator(old(View()), id, at)
      ensures KeepsRules(old(View()), View())
    {
      hide KeepsRules;
      ActivateRules(View(), id, at);
      if id !in validators { return Some(ValidatorNotFound); }
      var v := validators[id];
      if v.status != Pending { return Some(NotPending); }
      UpdateValidator(v.(status := Active, activationEpoch := at));
      e := None;
    }

    method JailValidator(id: Address, until: u64) returns (e: Option<Error>)
      modifies this`validators
      ensures Outcome(View(), e) == L.JailValidator(old(View()), id, until)
      ensures KeepsRules(old(View()), View())
    {
      hide KeepsRules;
      JailRules(View(), id, until);
      if id !in validators { return Some(ValidatorNotFound); }
      var v := validators[id];
      if v.status != Active { return Some(NotActive); }
      UpdateValidator(v.(status := Jailed, jailedUntil := until));
      e := None;
    }

    method UnjailValidator(id: Address) returns (e: Option<Error>)
      modifies this`validators
      ensures Outcome(View(), e) == L.UnjailValidator(old(View()), id)
      ensures KeepsRules(old(View()), View())
    {
      hide KeepsRules;
      UnjailRules(View(), id);
      if id !in validators { return Some(ValidatorNotFound); }
      var v := validators[id];
      if v.status != Jailed { return Some(NotJailed); }
      UpdateValidator(v.(status := Active, jailedUntil := 0));
      e := None;
    }

    method StartUnstake(id: Address, at: u64) returns (e: Option<Error>)
      modifies this`validators
      ensures Outcome(View(), e) == L.StartUnstake(old(View()), id, at)
      ensures KeepsRules(old(View()), View())
    {
      hide KeepsRules;
      UnstakeRules(View(), id, at);
      if id !in validators { return Some(ValidatorNotFound); }
      var v := validators[id];
      if !IsValidTransition(v.status, Unstaking) { return Some(InvalidTransition); }
      UpdateValidator(v.(status := Unstaking, unstakeEpoch := at));
      e := None;
    }

    method RemoveValidator(id: Address) returns (e: Option<Error>)
      modifies this`validators, this`byPubKey, this`byOperator, this`totalBonded
      ensures Outcome(View(), e) == L.RemoveValidator(old(View()), id)
      ensures KeepsRules(old(View()), View())
    {
      hide KeepsRules, L.Store;
      RemoveRules(View(), id);
      if id !in validators { return Some(ValidatorNotFound); }
      var v := validators[id];
      if v.status != Unstaking { return Some(NotUnstaking); }
      if totalBonded < v.bonded { return Some(AmountUnderflow); }
      totalBonded := totalBonded - v.bonded;
      byPubKey := byPubKey - {v.publicKey};
      byOperator := byOperator - {v.operator};
      UpdateValidator(v.(status := Removed));
      e := None;
    }

    // ----- stake -----

    /** Writes the new total and then the record. */
    method Restake(v: Validator, total: Amount)
      modifies this`validators, this`totalBonded
      ensures View() == L.Store(old(View()).(totalBonded := total), v)
    {
      totalBonded := total;
      UpdateValidator(v);
    }

    method SetBalance(a: Address, balance: Amount)
      requires a in accounts
      modifies this`accounts
      ensures View() == WithBalance(old(View()), a, balance)
    {
      accounts := accounts[a := accounts[a].(balance := balance)];
    }

    method Bond(from: Address, id: Address, amount: Amount) returns (e: Option<Error>)
      modifies this`validators, this`accounts, this`totalBonded
      ensures Outcome(View(), e) == L.Bond(old(View()), from, id, amount)
      ensures KeepsRules(old(View()), View())
    {
      hide KeepsRules, L.Store, WithBalance;
      BondRules(View(), from, id, amount);
      if from !in accounts { return Some(AccountNotFound); }
      var balance := accounts[from].balance;
      if balance < amount { return Some(InsufficientBalance); }
      if id !in validators { return Some(ValidatorNotFound); }
      var v := validators[id];
      if v.status != Pending && v.status != Active { return Some(WrongStatus); }
      SetBalance(from, balance - amount);
      if v.bonded + amount >= U128 { return Some(AmountOverflow); }
      if totalBonded + amount >= U128 { return Some(AmountOverflow); }
      Restake(v.(bonded := v.bonded + amount), totalBonded + amount);
      e := None;
    }

    method Slash(id: Address, amount: Amount) returns (e: Option<Error>)
      modifies this`validators, this`totalBonded
      ensures Outcome(View(), e) == L.Slash(old(View()), id, amount)
      ensures KeepsRulesIf(old(View()), View(), SafeToSlash(old(View()), id, amount))
    {
      hide KeepsRulesIf, SafeToSlash, L.Store;
      SlashRules(View(), id, amount);
      if id !in validators { return Some(ValidatorNotFound); }
      var v := validators[id];
      var slashed := if v.bonded >= amount then amount else v.bonded;
      if totalBonded < slashed { return Some(AmountUnderflow); }
      Restake(v.(bonded := v.bonded - slashed), totalBonded - slashed);
      e := None;
    }

    method ReleaseStake(id: Address) returns (e: Option<Error>)
      modifies this`validators, this`byPubKey, this`byOperator, this`totalBonded, this`accounts
      ensures Outcome(View(), e) == L.ReleaseStake(old(View()), id)
      ensures KeepsRules(old(View()), View())
    {
      hide KeepsRules, L.RemoveValidator;
      ReleaseRules(View(), id);
      if id !in validators { return Some(ValidatorNotFound); }
      var v := validators[id];
      if v.status != Unstaking { return Some(NotUnstaking); }
      if v.operator !in accounts { return Some(AccountNotFound); }
      var acc := accounts[v.operator];
      if acc.balance + v.bonded >= U128 { return Some(AmountOverflow); }
      accounts := accounts[v.operator := acc.(balance := acc.balance + v.bonded)];
      e := RemoveValidator(id);
    }

    method ApplySlash(id: Address, percent: u64, jailEpochs: u64) returns (e: Option<Error>)
      modifies this`validators, this`totalBonded
      ensures Outcome(View(), e) == L.ApplySlash(old(View()), id, percent, jailEpochs)
      ensures KeepsRules(old(View()), View())
    {
      hide KeepsRules, L.Store, Wrap64, SlashAmount;
      ApplySlashRules(View(), id, percent, jailEpochs);
      if id !in validators { return Some(ValidatorNotFound); }
      var v := validators[id];
      if v.status == Removed { return Some(SlashRemoved); }
      if percent > 10000 { return Some(SlashTooHigh); }
      var amount := SlashAmount(percent, v.bonded);
      if amount == 0 { return None; }
      if v.bonded < amount { return Some(AmountUnderflow); }
      v := v.(bonded := v.bonded - amount);
      if totalBonded < amount { return Some(AmountUnderflow); }
      if v.status == Active {
        v := v.(status := Jailed, jailedUntil := Wrap64(epoch + jailEpochs));
      }
      Restake(v, totalBonded - amount);
      e := None;
    }

    method ProcessEvidence(ev: DoubleSign, height: u64, hash: Bytes -> Hash) returns (e: Option<Error>)
      modifies this`validators, this`totalBonded, this`processed
      ensures Outcome(View(), e) == Slashing.ProcessEvidence(old(View()), ev, height, hash)
      ensures KeepsRules(old(View()), View())
    {
      hide KeepsRules, L.ApplySlash, CheckDoubleSign, EvidenceHash;
      EvidenceRules(View(), ev, height, hash);
      if CheckDoubleSign(ev).Some? { return Some(InvalidEvidence); }
      var h := EvidenceHash(ev, hash);
      if h in processed { return Some(DuplicateEvidence); }
      e := ApplySlash(ev.voteA.validator, Percent(ev, slashParams), slashParams.jailEpochs);
      if e.Some? { return; }
      processed := processed[h := height];
    }

    // ----- the active set and snapshots -----

    /** Goes through the registry in order of registration, then sorts. */
    method GetActiveValidators() returns (active: seq<Validator>)
      requires Inv(View())
      ensures Filed(validators) && active == ActiveList(validators) && Ordered(active)
      ensures forall v :: v in active <==> v.consensusID in validators && validators[v.consensusID] == v && v.status == Active
    {
      hide Consistent, StrictWeak, TotalOn, ByPower, Sorted, Ordered;
      InvIsFiled(View());
      EnumeratedBy(View());
      var found: seq<Validator> := [];
      for k := 1 to count + 1
        invariant found == ActiveAmong(validators, bySeq, k - 1)
      {
        if k in bySeq && bySeq[k] in validators && validators[bySeq[k]].status == Active {
          found := found + [validators[bySeq[k]]];
        }
      }
      AmongAll(validators, bySeq, count);
      ActiveTotal(validators);
      active := SortSlice(found, ByPower);
      SortedIsListing(active, ActiveSet(validators), ByPower);
      ActiveOrdered(validators);
    }

    // ----- the epoch transition -----

    method ActivateDue(next: u64)
      requires Inv(View())
      modifies this`validators
      ensures View() == old(View()).(validators := Swept(old(validators), bySeq, count, Activate, next))
    {
      hide Inv, Change, Repowered, KeepsRules, L.ActivateValidator;
      ghost var vals := validators;
      InvIsFiled(View());
      for k := 1 to count + 1
        invariant validators == Swept(vals, bySeq, k - 1, Activate, next)
      {
        SweptFiled(vals, bySeq, k - 1, Activate, next);
        if k in bySeq && bySeq[k] in validators {
          var v := validators[bySeq[k]];
          ChangeCases(v, next);
          if ActivationDue(v, next) {
            // a pending validator can always be activated
            ActivationChanges(View(), bySeq[k], next);
            var e := ActivateValidator(bySeq[k], next);
          }
        }
      }
    }

    method UnjailDueOnes(next: u64)
      requires Filed(validators)
      modifies this`validators
      ensures View() == old(View()).(validators := Swept(old(validators), bySeq, count, Unjail, next))
    {
      hide Change, Repowered, KeepsRules;
      ghost var vals := validators;
      for k := 1 to count + 1
        invariant validators == Swept(vals, bySeq, k - 1, Unjail, next)
      {
        SweptFiled(vals, bySeq, k - 1, Unjail, next);
        if k in bySeq && bySeq[k] in validators {
          var v := validators[bySeq[k]];
          ChangeCases(v, next);
          if UnjailDue(v, next) {
            // a jailed validator can always be unjailed
            var e := UnjailValidator(bySeq[k]);
          }
        }
      }
    }

    method ReleaseDueOnes(next: u64) returns (e: Option<Error>)
      modifies this`validators, this`byPubKey, this`byOperator, this`totalBonded, this`accounts
      ensures Outcome(View(), e) == Released(old(View()), old(count), next)
    {
      hide L.ReleaseStake, ReleaseDue, KeepsRules;
      ghost var l := View();
      for k := 1 to count + 1
        invariant Done(View()) == Released(l, k - 1, next)
      {
        if k in bySeq && bySeq[k] in validators && ReleaseDue(validators[bySeq[k]], next) {
          e := ReleaseStake(bySeq[k]);
          if e.Some? {
            ReleasedStops(l, k, count, next);
            return;
          }
        }
      }
      e := None;
    }

    /** The three loops, then the epoch counter. */
    method ProcessEpochTransition(height: u64) returns (e: Option<Error>)
      requires Inv(View())
      modifies this`validators, this`byPubKey, this`byOperator, this`totalBonded, this`accounts, this`epoch
      ensures Outcome(View(), e) == Epochs.ProcessEpochTransition(old(View()), height)
      ensures KeepsRules(old(View()), View())
    {
      hide Consistent, Swept, Released, KeepsRules;
      ghost var l := View();
      TransitionRules(l, height);
      var next := Wrap64(epoch + 1);
      if EpochAtHeight(blocksPerEpoch, height) != next { return Some(EpochMismatch); }
      ActivateDue(next);
      FirstTwoSweeps(l, next);
      e := ReleaseDueOnes(next);
      if e.Some? { return; }
      InvIsFiled(View());
      UnjailDueOnes(next);
      epoch := next;
    }

    // ----- snapshots, issuance, rewards -----

    method CreateSnapshot(at: u64, hash: Bytes -> Hash)
      requires Inv(View())
      modifies this`snapshots, this`latestSnapshot
      ensures Inv(View()) && Filed(validators) && View() == L.CreateSnapshot(old(View()), at, hash)
    {
      hide Consistent, ActiveList, SetHash;
      var active := GetActiveValidators();
      var total := SumPowers(active);
      snapshots := snapshots[at := Snapshot(at, active, total, SetHash(active, hash))];
      if at > latestSnapshot {
        latestSnapshot := at;
      }
    }

    /** AddBalance on an account that is created when missing. */
    method CreditAccount(a: Address, amount: u64) returns (ok: bool)
      modifies this`accounts
      ensures var c := Credit(old(accounts), a, amount);
              if c.Some? then ok && accounts == c.value else !ok && accounts == old(accounts)
    {
      var acc := if a in accounts then accounts[a] else NewAccount(a, ZERO_KEY);
      if acc.balance + amount >= U128 { return false; }
      accounts := accounts[a := acc.(balance := acc.balance + amount)];
      ok := true;
    }

    method CreditTreasury(amount: u64) returns (e: Option<Error>)
      modifies this`supply, this`accounts
      ensures Outcome(View(), e) == Economy.CreditTreasury(old(View()), amount)
    {
      hide Credit, Wrap64;
      if amount == 0 { return None; }
      supply := supply.(treasury := Wrap64(supply.treasury + amount));
      var ok := CreditAccount(TREASURY, amount);
      e := if ok then None else Some(AmountOverflow);
    }

    method IssueEpochTokens(completed: u64) returns (e: Option<Error>)
      modifies this`supply, this`accounts, this`issuance, this`pools
      ensures Outcome(View(), e) == Economy.IssueEpochTokens(old(View()), completed)
    {
      hide Economy.CreditTreasury, PerEpochIssuance, TreasuryCut, ValidatorCut, Wrap64;
      ghost var l := View();
      var amount := PerEpochIssuance(supply.total, BLOCK_TIME_SEC, blocksPerEpoch);
      if amount == 0 { return None; }
      TreasuryFrame(l, TreasuryCut(amount));
      e := CreditTreasury(TreasuryCut(amount));
      if e.Some? { return; }
      supply := supply.(total := Wrap64(supply.total + amount), issued := Wrap64(supply.issued + amount));
      issuance := issuance[completed := amount];
      pools := pools[completed := ValidatorCut(amount)];
    }

    /** The payment loop; zero payments are skipped. */
    method PayAll(tos: seq<Address>, amounts: array<u64>) returns (ok: bool)
      requires |tos| == amounts.Length
      modifies this`accounts
      ensures Credited(accounts, ok) == CreditAll(old(accounts), tos, amounts[..], |tos|)
    {
      hide Credit;
      ghost var before := accounts;
      for i := 0 to |tos|
        invariant CreditAll(before, tos, amounts[..], i) == Credited(accounts, true)
      {
        if amounts[i] != 0 {
          ok := CreditAccount(tos[i], amounts[i]);
          if !ok {
            PaymentStops(before, tos, amounts[..], i + 1, |tos|);
            return;
          }
        }
      }
      ok := true;
    }

    method DistributeValidatorRewards(completed: u64) returns (e: Option<Error>)
      modifies this`accounts
      ensures Outcome(View(), e) == Economy.DistributeValidatorRewards(old(View()), completed)
    {
      hide CreditAll, Payouts, Wrap64;
      var pool := if completed in pools then pools[completed] else 0;
      if pool == 0 { return None; }
      var prior := Wrap64(completed - 1);
      if prior == 0 { return None; }
      if prior !in snapshots { return None; }
      var snap := snapshots[prior];
      if snap.validators == [] || snap.totalPower == 0 { return None; }
      var rewards := Apportion(pool, snap.validators, snap.totalPower);
      var ok := PayAll(RewardAddresses(snap.validators), rewards);
      e := if ok then None else Some(AmountOverflow);
    }

    /** DistributeRewards: of the fees, only the validators' share is paid out. */
    method DistributeFees(fees: u64) returns (e: Option<Error>)
      requires Inv(View())
      modifies this`accounts
      ensures Filed(validators) && Outcome(View(), e) == Economy.FinalizeBlock(old(View()), fees)
    {
      hide Consistent, ActiveList, CreditAll, Payouts, FeeShare, Wrap64, Filed, Economy.FinalizeBlock, OperatorAddresses;
      InvIsFiled(View());
      FinalizeCases(View(), fees);
      if fees == 0 { return None; }
      var share := FeeShare(fees);
      var active := GetActiveValidators();
      if active == [] || share == 0 { return None; }
      var total := SumPowers(active);
      if total == 0 { return None; }
      e := PayShares(active, share, total);
    }

    method FinalizeBlock(fees: u64) returns (e: Option<Error>)
      requires Inv(View())
      modifies this`accounts
      ensures Inv(View()) && Filed(validators) && Outcome(View(), e) == Economy.FinalizeBlock(old(View()), fees)
    {
      hide Inv, Filed, Economy.FinalizeBlock;
      FinalizeKeepsInv(View(), fees);
      e := DistributeFees(fees);
    }

    method PayShares(active: seq<Validator>, share: u64, total: u64) returns (e: Option<Error>)
      requires active != [] && total > 0
      modifies this`accounts
      ensures Outcome(View(), e) == SharesPaid(old(View()), active, share, total)
    {
      hide CreditAll, Payouts, OperatorAddresses;
      var rewards := Apportion(share, active, total);
      var ok := PayAll(OperatorAddresses(active), rewards);
      e := if ok then None else Some(AmountOverflow);
    }

    // ----- the block hook -----

    method CloseEpoch(height: u64) returns (e: Option<Error>)
      requires Inv(View())
      modifies this
      ensures Outcome(View(), e) == Economy.CloseEpoch(old(View()), height)
      ensures KeepsRules(old(View()), View())
    {
      hide Consistent, KeepsRules, EpochAtHeight, Economy.IssueEpochTokens, Economy.DistributeValidatorRewards, Epochs.ProcessEpochTransition;
      ghost var l := View();
      CloseRules(l, height);
      var completed := EpochAtHeight(blocksPerEpoch, height);
      IssueFrame(l, completed);
      e := IssueEpochTokens(completed);
      if e.Some? { return; }
      RewardFrame(View(), completed);
      e := DistributeValidatorRewards(completed);
      if e.Some? { return; }
      e := ProcessEpochTransition(height);
    }

    /** BeginBlock: closes the epoch at its last block and makes sure the current one has a snapshot. */
    method BeginBlock(height: u64, hash: Bytes -> Hash) returns (e: Option<Error>, current: u64, setHash: Hash)
      requires Inv(View())
      modifies this
      ensures Inv(View()) && Outcome(View(), e) == Economy.BeginBlock(old(View()), height, hash)
      ensures e.None? && height > 0 ==>
                current == epoch && current in snapshots && setHash == snapshots[current].setHash
      ensures e.None? && height == 0 ==> current == 0 && setHash == ZERO_HASH
    {
      hide Consistent, Economy.CloseEpoch, L.CreateSnapshot, ActiveList;
      ghost var l := View();
      if height == 0 { return None, 0, ZERO_HASH; }
      CloseKeepsFiled(l, height);
      if IsEpochBoundary(blocksPerEpoch, height) {
        e := CloseEpoch(height);
        if e.Some? { return e, 0, ZERO_HASH; }
      }
      if epoch !in snapshots {
        SnapshotOnly(View(), epoch, hash);
        CreateSnapshot(epoch, hash);
      }
      e, current, setHash := None, epoch, snapshots[epoch].setHash;
    }
  }

  function SharesPaid(l: Ledger, active: seq<Validator>, share: u64, total: u64): Step
    requires active != [] && total > 0
  {
    var c := CreditAll(l.accounts, OperatorAddresses(active), Payouts(share, active, total), |active|);
    if c.ok then Done(l.(accounts := c.accounts)) else Failed(l.(accounts := c.accounts), AmountOverflow)
  }

  lemma FinalizeCases(l: Ledger, fees: u64)
    requires Filed(l.validators)
    ensures var active := ActiveList(l.validators);
            var total := Wrap64(TotalPower(active));
            Economy.FinalizeBlock(l, fees) ==
            if fees == 0 || active == [] || FeeShare(fees) == 0 || total == 0 then Done(l)
            else SharesPaid(l, active, FeeShare(fees), total)
  {
    hide ActiveList, CreditAll, Payouts, OperatorAddresses;
  }

  lemma FinalizeKeepsInv(l: Ledger, fees: u64)
    requires Inv(l)
    ensures Filed(l.validators) && Inv(Economy.FinalizeBlock(l, fees).ledger)
  {
    hide Consistent, ActiveList, CreditAll, Payouts, OperatorAddresses, Wrap64, FeeShare, Filed, Economy.FinalizeBlock;
    InvIsFiled(l);
    FinalizeCases(l, fees);
  }

  lemma SnapshotOnly(l: Ledger, at: u64, hash: Bytes -> Hash)
    requires Inv(l)
    ensures Filed(l.validators)
    ensures var l' := L.CreateSnapshot(l, at, hash);
            at in l'.snapshots && l'.epoch == l.epoch
  {
    hide ActiveList, SetHash;
  }

  /** Changing records one by one leaves each under its own ID. */
  lemma {:induction false} SweptFiled(vals: Records, bySeq: map<nat, Address>, k: nat, s: Sweep, next: u64)
    requires Filed(vals)
    ensures Filed(Swept(vals, bySeq, k, s, next))
  {
    hide Change, Repowered, IsValidTransition;
    if k > 0 {
      SweptFiled(vals, bySeq, k - 1, s, next);
      var prev := Swept(vals, bySeq, k - 1, s, next);
      if k in bySeq && bySeq[k] in prev {
        ChangeOne(s, prev[bySeq[k]], next);
      }
    }
  }

  lemma ChangeCases(v: Validator, next: u64)
    ensures Change(Activate, v, next) ==
            if ActivationDue(v, next) then Repowered(v.(status := Active, activationEpoch := next)) else v
    ensures Change(Unjail, v, next) == if UnjailDue(v, next) then Repowered(v.(status := Active, jailedUntil := 0)) else v
  {
  }

  lemma ActivationChanges(l: Ledger, id: Address, next: u64)
    requires id in l.validators && l.validators[id].consensusID == id && ActivationDue(l.validators[id], next)
    ensures L.ActivateValidator(l, id, next).ledger.validators == l.validators[id := Change(Activate, l.validators[id], next)]
  {
    hide Repowered;
  }

  lemma {:induction false} ReleasedStops(l: Ledger, j: nat, k: nat, next: u64)
    requires j <= k && Released(l, j, next).Failed?
    ensures Released(l, k, next) == Released(l, j, next)
    decreases k
  {
    hide ReleaseAt;
    if j < k { ReleasedStops(l, j, k - 1, next); }
  }

  /** The active validators among the first k registered, in that order. */
  ghost function ActiveAmong(vals: Records, bySeq: map<nat, Address>, k: nat): seq<Validator>
  {
    if k == 0 then [] else
      var prev := ActiveAmong(vals, bySeq, k - 1);
      if k in bySeq && bySeq[k] in vals && vals[bySeq[k]].status == Active then prev + [vals[bySeq[k]]] else prev
  }

  lemma {:induction false} AmongFirst(vals: Records, bySeq: map<nat, Address>, count: nat, k: nat)
    requires Filed(vals) && Enumerates(bySeq, count, vals.Keys) && k <= count
    ensures var found := ActiveAmong(vals, bySeq, k);
            && Distinct(found)
            && forall v :: v in found <==> v.consensusID in Seen(bySeq, k) && v.consensusID in vals
                                           && vals[v.consensusID] == v && v.status == Active
  {
    hide Enumerates, Seen;
    if k == 0 {
      NoneSeen(bySeq);
    } else {
      AmongFirst(vals, bySeq, count, k - 1);
      SeenMore(bySeq, count, vals.Keys, k);
    }
  }

  lemma NoneSeen(bySeq: map<nat, Address>)
    ensures Seen(bySeq, 0) == {}
  {
  }

  lemma AmongAll(vals: Records, bySeq: map<nat, Address>, count: nat)
    requires Filed(vals) && Enumerates(bySeq, count, vals.Keys)
    ensures multiset(ActiveAmong(vals, bySeq, count)) == multiset(ActiveSet(vals))
  {
    hide Enumerates, Seen;
    AmongFirst(vals, bySeq, count, count);
    SeenAll(bySeq, count, vals.Keys);
    DistinctMultiset(ActiveAmong(vals, bySeq, count), ActiveSet(vals));
  }
}

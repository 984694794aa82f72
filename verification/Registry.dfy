/** What every staking operation keeps true of the registry. */
module Registry {
  import opened Basics
  import opened Arithmetic
  import opened MapSum
  import opened Sorting
  import opened Validators
  import opened Accounts
  import opened Ledger

  type Records = map<Address, Validator>

  /** Stake of each validator that has not been removed. */
  ghost function Stakes(vals: Records): map<Address, nat>
  {
    map id | id in vals && vals[id].status != Removed :: vals[id].bonded
  }

  ghost function Keys(vals: Records): map<Address, PubKey>
  {
    map id | id in vals && vals[id].status != Removed :: vals[id].publicKey
  }

  ghost function Operators(vals: Records): map<Address, Address>
  {
    map id | id in vals && vals[id].status != Removed :: vals[id].operator
  }

  /** Records are filed under their own IDs and carry the power their status and stake call for. */
  ghost predicate WellPowered(vals: Records)
  {
    Filed(vals) && forall id :: id in vals ==> vals[id] == Repowered(vals[id])
  }

  /** bySeq numbers the members of ids from 1 to count, each exactly once. */
  ghost predicate Enumerates(bySeq: map<nat, Address>, count: nat, ids: set<Address>)
  {
    && (forall k :: k in bySeq <==> 1 <= k <= count)
    && (forall j, k :: j in bySeq && k in bySeq && j != k ==> bySeq[j] != bySeq[k])
    && bySeq.Values == ids
  }

  ghost predicate Inverse<K(!new)>(index: map<K, Address>, field: map<Address, K>)
  {
    && (forall k :: k in index ==> index[k] in field && field[index[k]] == k)
    && (forall id :: id in field ==> field[id] in index && index[field[id]] == id)
  }

  /**
   The registry invariant: records carry the right power, the running total is the stake of all
   validators not removed, by-seq enumerates everyone ever registered exactly once, and the
   public-key and operator indexes are inverse to the records of validators not removed.
   */
  ghost predicate Consistent(vals: Records, bySeq: map<nat, Address>, byPubKey: map<PubKey, Address>,
                             byOperator: map<Address, Address>, count: nat, total: Amount)
  {
    && WellPowered(vals)
    && total == Sum(Stakes(vals))
    && Enumerates(bySeq, count, vals.Keys)
    && Inverse(byPubKey, Keys(vals))
    && Inverse(byOperator, Operators(vals))
  }

  ghost predicate Inv(l: Ledger)
  {
    Consistent(l.validators, l.bySeq, l.byPubKey, l.byOperator, l.count, l.totalBonded)
  }

  /** No validator disappears, and each one's status moved at most one step along the table. */
  ghost predicate FollowsTable(vals: Records, vals': Records)
  {
    forall id :: id in vals ==>
      && id in vals'
      && (vals'[id].status == vals[id].status || IsValidTransition(vals[id].status, vals'[id].status))
  }

  // ----- rewriting one record -----

  /** v may replace the record of its ID without touching the indexes. */
  ghost predicate Rewrites(vals: Records, v: Validator)
  {
    && v.consensusID in vals
    && v.publicKey == vals[v.consensusID].publicKey
    && v.operator == vals[v.consensusID].operator
    && vals[v.consensusID].status != Removed && v.status != Removed
  }

  /** Rewriting a record and adjusting the total by the change of stake keeps the invariant. */
  lemma StoreKeepsInv(l: Ledger, v: Validator, total: Amount)
    requires Inv(l) && Rewrites(l.validators, v)
    requires total == l.totalBonded - l.validators[v.consensusID].bonded + v.bonded
    ensures Inv(Store(l.(totalBonded := total), v))
  {
    hide Sum, Enumerates, Inverse, Stakes, Keys, Operators, WellPowered, Repowered;
    RewriteRecord(l.validators, v);
    SumUpdate(Stakes(l.validators), v.consensusID, v.bonded);
  }

  lemma RewriteRecord(vals: Records, v: Validator)
    requires Rewrites(vals, v)
    ensures var vals' := vals[v.consensusID := Repowered(v)];
            && vals'.Keys == vals.Keys
            && Stakes(vals') == Stakes(vals)[v.consensusID := v.bonded]
            && At(Stakes(vals), v.consensusID) == vals[v.consensusID].bonded
            && Keys(vals') == Keys(vals)
            && Operators(vals') == Operators(vals)
            && (WellPowered(vals) ==> WellPowered(vals'))
  {
    hide Stakes, Keys, Operators;
    RewriteStake(vals, v);
    RewriteIndexes(vals, v);
  }

  lemma RewriteStake(vals: Records, v: Validator)
    requires Rewrites(vals, v)
    ensures Stakes(vals[v.consensusID := Repowered(v)]) == Stakes(vals)[v.consensusID := v.bonded]
    ensures At(Stakes(vals), v.consensusID) == vals[v.consensusID].bonded
  {
  }

  lemma RewriteIndexes(vals: Records, v: Validator)
    requires Rewrites(vals, v)
    ensures Keys(vals[v.consensusID := Repowered(v)]) == Keys(vals)
    ensures Operators(vals[v.consensusID := Repowered(v)]) == Operators(vals)
  {
  }

  lemma AddRecord(vals: Records, v: Validator)
    requires v.consensusID !in vals && v.status == Pending && v.power == 0
    ensures var vals' := vals[v.consensusID := v];
            && vals'.Keys == vals.Keys + {v.consensusID}
            && Stakes(vals') == Stakes(vals)[v.consensusID := v.bonded]
            && v.consensusID !in Stakes(vals)
            && Keys(vals') == Keys(vals)[v.consensusID := v.publicKey]
            && Operators(vals') == Operators(vals)[v.consensusID := v.operator]
            && v.consensusID !in Keys(vals) && v.consensusID !in Operators(vals)
            && FollowsTable(vals, vals')
            && (WellPowered(vals) ==> WellPowered(vals'))
  {
    hide Stakes, Keys, Operators;
    AddStake(vals, v);
    AddIndexes(vals, v);
  }

  lemma AddStake(vals: Records, v: Validator)
    requires v.consensusID !in vals && v.status == Pending
    ensures v.consensusID !in Stakes(vals) && Stakes(vals[v.consensusID := v]) == Stakes(vals)[v.consensusID := v.bonded]
  {
  }

  lemma AddIndexes(vals: Records, v: Validator)
    requires v.consensusID !in vals && v.status == Pending
    ensures v.consensusID !in Keys(vals) && v.consensusID !in Operators(vals)
    ensures Keys(vals[v.consensusID := v]) == Keys(vals)[v.consensusID := v.publicKey]
    ensures Operators(vals[v.consensusID := v]) == Operators(vals)[v.consensusID := v.operator]
  {
  }

  lemma RetireRecord(vals: Records, id: Address)
    requires id in vals && vals[id].status != Removed && vals[id].consensusID == id
    ensures var vals' := vals[id := Repowered(vals[id].(status := Removed))];
            && vals'.Keys == vals.Keys
            && Stakes(vals') == Stakes(vals) - {id}
            && id in Stakes(vals) && Stakes(vals)[id] == vals[id].bonded
            && Keys(vals') == Keys(vals) - {id} && id in Keys(vals) && Keys(vals)[id] == vals[id].publicKey
            && Operators(vals') == Operators(vals) - {id}
            && id in Operators(vals) && Operators(vals)[id] == vals[id].operator
            && (WellPowered(vals) ==> WellPowered(vals'))
  {
    hide Stakes, Keys, Operators;
    RetireStake(vals, id);
    RetireIndexes(vals, id);
  }

  lemma RetireStake(vals: Records, id: Address)
    requires id in vals && vals[id].status != Removed
    ensures Stakes(vals[id := Repowered(vals[id].(status := Removed))]) == Stakes(vals) - {id}
    ensures id in Stakes(vals) && Stakes(vals)[id] == vals[id].bonded
  {
  }

  lemma RetireIndexes(vals: Records, id: Address)
    requires id in vals && vals[id].status != Removed
    ensures var vals' := vals[id := Repowered(vals[id].(status := Removed))];
            && Keys(vals') == Keys(vals) - {id} && id in Keys(vals) && Keys(vals)[id] == vals[id].publicKey
            && Operators(vals') == Operators(vals) - {id}
            && id in Operators(vals) && Operators(vals)[id] == vals[id].operator
  {
  }

  lemma SameFollowsTable(vals: Records)
    ensures FollowsTable(vals, vals)
  {
  }

  lemma StoreFollowsTable(vals: Records, v: Validator)
    requires v.consensusID in vals
    requires v.status == vals[v.consensusID].status || IsValidTransition(vals[v.consensusID].status, v.status)
    ensures FollowsTable(vals, vals[v.consensusID := Repowered(v)])
  {
  }

  lemma StakeWithinTotal(l: Ledger, id: Address)
    requires Inv(l) && id in l.validators && l.validators[id].status != Removed
    ensures l.validators[id].bonded <= l.totalBonded
  {
    hide Enumerates, Inverse, Sum;
    SumRemove(Stakes(l.validators), id);
  }

  lemma InvFiled(l: Ledger, id: Address)
    requires Inv(l) && id in l.validators
    ensures l.validators[id].consensusID == id && l.validators[id] == Repowered(l.validators[id])
  {
    hide Enumerates, Inverse, Sum;
  }

  // ----- the operations -----

  /** The registration is refused, or the total can take its stake. */
  predicate RoomToRegister(l: Ledger, id: Address, key: PubKey, operator: Address, stake: Amount, commission: u16)
  {
    || id in l.validators || key in l.byPubKey || operator in l.byOperator
    || stake < MINIMUM_STAKE || commission > MAX_COMMISSION
    || l.totalBonded + stake < U128
  }

  /** Registration keeps the invariant unless it is accepted and then overflows the total. */
  lemma RegisterKeepsInv(l: Ledger, id: Address, key: PubKey, operator: Address, stake: Amount, commission: u16, epoch: u64)
    requires Inv(l)
    ensures var s := RegisterValidator(l, id, key, operator, stake, commission, epoch);
            && (Inv(s.ledger) <==> RoomToRegister(l, id, key, operator, stake, commission))
            && FollowsTable(l.validators, s.ledger.validators)
  {
    hide Sum, Enumerates, Inverse, Stakes, Keys, Operators, WellPowered, Repowered, FollowsTable;
    SameFollowsTable(l.validators);
    var s := RegisterValidator(l, id, key, operator, stake, commission, epoch);
    var vals := l.validators;
    if s.Done? || s.error == AmountOverflow {
      var v := Registered(id, key, operator, stake, commission, epoch);
      AddRecord(vals, v);
      SumUpdate(Stakes(vals), id, stake);
      EnumerateMore(l.bySeq, l.count, vals.Keys, id);
      InverseMore(l.byPubKey, Keys(vals), key, id);
      InverseMore(l.byOperator, Operators(vals), operator, id);
    }
  }

  lemma EnumerateMore(bySeq: map<nat, Address>, count: nat, ids: set<Address>, id: Address)
    requires Enumerates(bySeq, count, ids) && id !in ids
    ensures Enumerates(bySeq[count + 1 := id], count + 1, ids + {id})
  {
    var more := bySeq[count + 1 := id];
    assert more[count + 1] == id;
    forall i | i in ids ensures i in more.Values {
      var k :| k in bySeq && bySeq[k] == i;
      assert k in more && more[k] == i;
    }
    forall k | k in bySeq ensures bySeq[k] in ids {
      assert bySeq[k] in bySeq.Values;
    }
  }

  lemma InverseMore<K(!new)>(index: map<K, Address>, field: map<Address, K>, k: K, id: Address)
    requires Inverse(index, field) && k !in index && id !in field
    ensures Inverse(index[k := id], field[id := k])
  {
  }

  lemma InverseLess<K(!new)>(index: map<K, Address>, field: map<Address, K>, id: Address)
    requires Inverse(index, field) && id in field
    ensures Inverse(index - {field[id]}, field - {id})
  {
  }

  lemma BondKeepsInv(l: Ledger, from: Address, id: Address, amount: Amount)
    requires Inv(l)
    ensures var s := Bond(l, from, id, amount);
            Inv(s.ledger) && FollowsTable(l.validators, s.ledger.validators)
  {
    hide Consistent, Repowered, FollowsTable;
    SameFollowsTable(l.validators);
    var s := Bond(l, from, id, amount);
    if s.Done? {
      InvFiled(l, id);
      var v := l.validators[id].(bonded := l.validators[id].bonded + amount);
      var l1 := WithBalance(l, from, l.accounts[from].balance - amount);
      StoreKeepsInv(l1, v, l.totalBonded + amount);
      StoreFollowsTable(l.validators, v);
    }
  }

  /** The slash takes nothing from a removed validator. */
  predicate SafeToSlash(l: Ledger, id: Address, amount: Amount)
  {
    || id !in l.validators || l.validators[id].status != Removed
    || SlashedPart(l.validators[id], amount) == 0 || l.totalBonded < SlashedPart(l.validators[id], amount)
  }

  /** Slash keeps the invariant unless it takes something from a removed validator. */
  lemma SlashKeepsInv(l: Ledger, id: Address, amount: Amount)
    requires Inv(l)
    ensures var s := Slash(l, id, amount);
            && FollowsTable(l.validators, s.ledger.validators)
            && (Inv(s.ledger) <==> SafeToSlash(l, id, amount))
  {
    hide Sum, Enumerates, Inverse, Stakes, Keys, Operators, WellPowered, Repowered, FollowsTable;
    SameFollowsTable(l.validators);
    var s := Slash(l, id, amount);
    if s.Done? {
      InvFiled(l, id);
      var part := SlashedPart(l.validators[id], amount);
      var v := l.validators[id].(bonded := l.validators[id].bonded - part);
      StoreFollowsTable(l.validators, v);
      if v.status != Removed {
        StoreKeepsInv(l, v, l.totalBonded - part);
      } else if part == 0 {
        assert v == l.validators[id];
        assert s.ledger.validators == l.validators;
      } else {
        RemovedHoldNothing(l.validators, v);
      }
    }
  }

  /** The record of a removed validator does not count towards the total. */
  lemma RemovedHoldNothing(vals: Records, v: Validator)
    requires v.consensusID in vals && vals[v.consensusID].status == Removed && v.status == Removed
    ensures Stakes(vals[v.consensusID := Repowered(v)]) == Stakes(vals)
  {
  }

  /** A slash never exceeds the stake, so the underflow exits of ApplySlash are unreachable. */
  lemma SlashAmountBound(percent: u64, stake: Amount)
    requires percent <= 10000
    ensures SlashAmount(percent, stake) <= stake
  {
    var low := Low64(stake);
    assert 0 <= low * percent <= low * 10000;
    assert Wrap64(low * percent) <= low * percent;
  }

  /** Basis points are taken exactly when the product fits in 64 bits. */
  lemma SlashAmountExact(percent: u64, stake: Amount)
    requires percent <= 10000
    ensures SlashAmount(percent, stake) == stake * percent / 10000 <==> stake * percent < U64
  {
    hide Wrap64, Low64;
    var x := stake * percent;
    assert x >= 0;
    if x >= U64 {
      SlashShortfall(percent, stake);
      QuotientGap(Wrap64(Low64(stake) * percent), x, 10000);
    } else {
      SmallProduct(stake, percent);
    }
  }

  /** All of a stake of 2^63, in basis points, wraps to nothing. */
  lemma SlashAmountWraps()
    ensures SlashAmount(10000, 0x8000_0000_0000_0000) == 0
  {
  }

  lemma SmallProduct(stake: Amount, percent: u64)
    requires stake * percent < U64
    ensures Low64(stake) * percent == stake * percent >= 0
  {
    if percent > 0 {
      assert stake * percent >= stake * 1;
    }
  }

  lemma SlashShortfall(percent: u64, stake: Amount)
    requires percent <= 10000 && stake * percent >= U64
    ensures Wrap64(Low64(stake) * percent) <= stake * percent - U64
  {
    hide Wrap64, Low64;
    WrapBound(Low64(stake) * percent);
    LowFacts(stake);
    if stake >= U64 {
      assert percent > 0;
      MulMonotone(percent, Low64(stake), stake - U64);
      Distribute(percent, stake - U64, U64);
    }
  }

  lemma LowFacts(a: Amount)
    ensures 0 <= Low64(a) <= a
    ensures if a < U64 then Low64(a) == a else Low64(a) <= a - U64
  {
  }

  /** The record ApplySlash writes. */
  ghost function SlashedRecord(l: Ledger, id: Address, amount: u64, jailEpochs: u64): Validator
    requires id in l.validators && amount <= l.validators[id].bonded
  {
    var less := l.validators[id].(bonded := l.validators[id].bonded - amount);
    if less.status == Active then less.(status := Jailed, jailedUntil := Wrap64(l.epoch + jailEpochs)) else less
  }

  lemma ApplySlashKeepsInv(l: Ledger, id: Address, percent: u64, jailEpochs: u64)
    requires Inv(l)
    ensures var s := ApplySlash(l, id, percent, jailEpochs);
            && Inv(s.ledger) && FollowsTable(l.validators, s.ledger.validators)
            && (s.Failed? ==> s.ledger == l && s.error != AmountUnderflow)
  {
    hide Consistent, SlashAmount, Repowered, Wrap64, FollowsTable;
    SameFollowsTable(l.validators);
    if id in l.validators && l.validators[id].status != Removed && percent <= 10000 {
      InvFiled(l, id);
      SlashAmountBound(percent, l.validators[id].bonded);
      StakeWithinTotal(l, id);
      var amount := SlashAmount(percent, l.validators[id].bonded);
      var v := SlashedRecord(l, id, amount, jailEpochs);
      StoreKeepsInv(l, v, l.totalBonded - amount);
      StoreFollowsTable(l.validators, v);
    }
  }

  /** A status change along the table that leaves the stake alone. */
  lemma StatusChangeKeepsInv(l: Ledger, v: Validator)
    requires Inv(l) && Rewrites(l.validators, v) && v.bonded == l.validators[v.consensusID].bonded
    requires IsValidTransition(l.validators[v.consensusID].status, v.status)
    ensures Inv(Store(l, v)) && FollowsTable(l.validators, Store(l, v).validators)
  {
    hide Consistent, Repowered;
    StoreKeepsInv(l, v, l.totalBonded);
    StoreFollowsTable(l.validators, v);
    assert l.(totalBonded := l.totalBonded) == l;
  }

  lemma ActivateKeepsInv(l: Ledger, id: Address, epoch: u64)
    requires Inv(l)
    ensures var s := ActivateValidator(l, id, epoch); Inv(s.ledger) && FollowsTable(l.validators, s.ledger.validators)
  {
    hide Consistent, Store;
    if id in l.validators && l.validators[id].status == Pending {
      InvFiled(l, id);
      StatusChangeKeepsInv(l, l.validators[id].(status := Active, activationEpoch := epoch));
    }
  }

  lemma JailKeepsInv(l: Ledger, id: Address, until: u64)
    requires Inv(l)
    ensures var s := JailValidator(l, id, until); Inv(s.ledger) && FollowsTable(l.validators, s.ledger.validators)
  {
    hide Consistent, Store;
    if id in l.validators && l.validators[id].status == Active {
      InvFiled(l, id);
      StatusChangeKeepsInv(l, l.validators[id].(status := Jailed, jailedUntil := until));
    }
  }

  lemma UnjailKeepsInv(l: Ledger, id: Address)
    requires Inv(l)
    ensures var s := UnjailValidator(l, id); Inv(s.ledger) && FollowsTable(l.validators, s.ledger.validators)
  {
    hide Consistent, Store;
    if id in l.validators && l.validators[id].status == Jailed {
      InvFiled(l, id);
      StatusChangeKeepsInv(l, l.validators[id].(status := Active, jailedUntil := 0));
    }
  }

  lemma StartUnstakeKeepsInv(l: Ledger, id: Address, epoch: u64)
    requires Inv(l)
    ensures var s := StartUnstake(l, id, epoch); Inv(s.ledger) && FollowsTable(l.validators, s.ledger.validators)
  {
    hide Consistent, Store;
    if id in l.validators && l.validators[id].status == Active {
      InvFiled(l, id);
      StatusChangeKeepsInv(l, l.validators[id].(status := Unstaking, unstakeEpoch := epoch));
    }
  }

  lemma RemoveKeepsInv(l: Ledger, id: Address)
    requires Inv(l)
    ensures var s := RemoveValidator(l, id);
            && Inv(s.ledger) && FollowsTable(l.validators, s.ledger.validators)
            && (s.Failed? ==> s.ledger == l && s.error != AmountUnderflow)
  {
    hide Sum, Enumerates, Inverse, Stakes, Keys, Operators, WellPowered, Repowered;
    if id in l.validators && l.validators[id].status == Unstaking {
      StakeWithinTotal(l, id);
      InvFiled(l, id);
      RetireRecord(l.validators, id);
      StoreFollowsTable(l.validators, l.validators[id].(status := Removed));
      SumDelete(Stakes(l.validators), id);
      InverseLess(l.byPubKey, Keys(l.validators), id);
      InverseLess(l.byOperator, Operators(l.validators), id);
    }
  }

  lemma ReleaseKeepsInv(l: Ledger, id: Address)
    requires Inv(l)
    ensures var s := ReleaseStake(l, id);
            && Inv(s.ledger) && FollowsTable(l.validators, s.ledger.validators)
            && (s.Failed? ==> s.ledger == l)
  {
    hide Consistent, FollowsTable, Repowered;
    SameFollowsTable(l.validators);
    if id in l.validators && l.validators[id].status == Unstaking && l.validators[id].operator in l.accounts
       && l.accounts[l.validators[id].operator].balance + l.validators[id].bonded < U128 {
      var v := l.validators[id];
      var l1 := WithBalance(l, v.operator, l.accounts[v.operator].balance + v.bonded);
      assert Inv(l1);
      RemoveKeepsInv(l1, id);
    }
  }

  // ----- ledgers on which the two exceptions happen -----

  const FIRST: Address := Repeat(1, 20)
  const SECOND: Address := Repeat(2, 20)
  const FIRST_KEY: PubKey := Repeat(1, 32)
  const SECOND_KEY: PubKey := Repeat(2, 32)

  ghost predicate NobodyRegistered(l: Ledger)
  {
    l.validators == map[] && l.bySeq == map[] && l.byPubKey == map[] && l.byOperator == map[] && l.count == 0 && l.totalBonded == 0
  }

  lemma NobodyKeepsInv(l: Ledger)
    requires NobodyRegistered(l)
    ensures Inv(l)
  {
    assert Stakes(l.validators) == map[];
  }

  lemma TwoNames()
    ensures FIRST != SECOND && FIRST_KEY != SECOND_KEY
  {
    assert FIRST[0] != SECOND[0] && FIRST_KEY[0] != SECOND_KEY[0];
  }

  /** With 2^128 - 1 bonded already, a second registration fails half-way and breaks the invariant. */
  lemma RegisterCanBreak(l: Ledger)
    requires NobodyRegistered(l)
    ensures var s := RegisterValidator(l, FIRST, FIRST_KEY, FIRST, U128 - 1, 0, 0);
            && s.Done? && Inv(s.ledger)
            && !Inv(RegisterValidator(s.ledger, SECOND, SECOND_KEY, SECOND, MINIMUM_STAKE, 0, 0).ledger)
  {
    hide Inv;
    NobodyKeepsInv(l);
    TwoNames();
    RegisterKeepsInv(l, FIRST, FIRST_KEY, FIRST, U128 - 1, 0, 0);
    var s := RegisterValidator(l, FIRST, FIRST_KEY, FIRST, U128 - 1, 0, 0);
    RegisterKeepsInv(s.ledger, SECOND, SECOND_KEY, SECOND, MINIMUM_STAKE, 0, 0);
  }

  ghost function BothIn(l: Ledger): Ledger
    requires NobodyRegistered(l)
  {
    var l1 := RegisterValidator(l, FIRST, FIRST_KEY, FIRST, MINIMUM_STAKE, 0, 0).ledger;
    RegisterValidator(l1, SECOND, SECOND_KEY, SECOND, MINIMUM_STAKE, 0, 0).ledger
  }

  lemma BothInFacts(l: Ledger)
    requires NobodyRegistered(l)
    ensures Inv(BothIn(l)) && BothIn(l).totalBonded == 2 * MINIMUM_STAKE
    ensures FIRST in BothIn(l).validators
    ensures BothIn(l).validators[FIRST] == Registered(FIRST, FIRST_KEY, FIRST, MINIMUM_STAKE, 0, 0)
  {
    hide Inv;
    NobodyKeepsInv(l);
    TwoNames();
    RegisterKeepsInv(l, FIRST, FIRST_KEY, FIRST, MINIMUM_STAKE, 0, 0);
    var l1 := RegisterValidator(l, FIRST, FIRST_KEY, FIRST, MINIMUM_STAKE, 0, 0).ledger;
    RegisterKeepsInv(l1, SECOND, SECOND_KEY, SECOND, MINIMUM_STAKE, 0, 0);
  }

  /** Two validators, of which the first has been removed. */
  ghost function OneLeft(l: Ledger): Step
    requires NobodyRegistered(l)
  {
    RemoveValidator(StartUnstake(ActivateValidator(BothIn(l), FIRST, 1).ledger, FIRST, 1).ledger, FIRST)
  }

  lemma OneLeftFacts(l: Ledger)
    requires NobodyRegistered(l)
    ensures var s := OneLeft(l);
            && s.Done? && Inv(s.ledger) && s.ledger.totalBonded == MINIMUM_STAKE
            && FIRST in s.ledger.validators && s.ledger.validators[FIRST].status == Removed
            && s.ledger.validators[FIRST].bonded == MINIMUM_STAKE
  {
    hide Inv, BothIn;
    BothInFacts(l);
    ActivateKeepsInv(BothIn(l), FIRST, 1);
    var l3 := ActivateValidator(BothIn(l), FIRST, 1).ledger;
    StartUnstakeKeepsInv(l3, FIRST, 1);
    RemoveKeepsInv(StartUnstake(l3, FIRST, 1).ledger, FIRST);
  }

  /** Slashing a removed validator by one token breaks the invariant. */
  lemma SlashCanBreak(l: Ledger)
    requires NobodyRegistered(l)
    ensures OneLeft(l).Done? && Inv(OneLeft(l).ledger)
    ensures Slash(OneLeft(l).ledger, FIRST, 1).Done? && !Inv(Slash(OneLeft(l).ledger, FIRST, 1).ledger)
  {
    hide Inv, OneLeft;
    OneLeftFacts(l);
    SlashKeepsInv(OneLeft(l).ledger, FIRST, 1);
  }
}

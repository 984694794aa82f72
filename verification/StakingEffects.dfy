/** What each staking operation does to stakes, totals, balances and indexes, and exactly when it succeeds. */
module StakingEffects {
  import opened Basics
  import opened Validators
  import opened Accounts
  import opened Ledger
  import opened Registry
  import opened Votes
  import opened Slashing

  /** Nothing outside accounts, records, indexes, counter and bonded total differs. */
  ghost predicate SameElsewhere(l: Ledger, l': Ledger)
  {
    && l'.epoch == l.epoch && l'.blocksPerEpoch == l.blocksPerEpoch && l'.snapshots == l.snapshots
    && l'.latestSnapshot == l.latestSnapshot && l'.supply == l.supply && l'.issuance == l.issuance && l'.pools == l.pools
    && l'.slashParams == l.slashParams && l'.processed == l.processed
  }

  ghost predicate SameIndexes(l: Ledger, l': Ledger)
  {
    l'.bySeq == l.bySeq && l'.byPubKey == l.byPubKey && l'.byOperator == l.byOperator && l'.count == l.count
  }

  /** Of the validators only id's record may differ, and it stays who it is. */
  ghost predicate OnlyRecord(l: Ledger, l': Ledger, id: Address)
  {
    && id in l.validators && l'.validators.Keys == l.validators.Keys
    && (forall a :: a in l.validators && a != id ==> l'.validators[a] == l.validators[a])
    && var v, v' := l.validators[id], l'.validators[id];
       && v'.consensusID == v.consensusID && v'.publicKey == v.publicKey && v'.operator == v.operator && v'.reward == v.reward
       && v'.commission == v.commission
       && v'.power == if v'.status == Active then v'.bonded % 0x1_0000_0000_0000_0000 else 0
  }

  /** The epochs on a record. */
  ghost predicate Dated(v: Validator, activation: u64, jail: u64, unstake: u64)
  {
    v.activationEpoch == activation && v.jailedUntil == jail && v.unstakeEpoch == unstake
  }

  /** Of the accounts only a's balance may differ. */
  ghost predicate OnlyBalance(l: Ledger, l': Ledger, a: Address)
  {
    && a in l.accounts && l'.accounts.Keys == l.accounts.Keys
    && (forall b :: b in l.accounts && b != a ==> l'.accounts[b] == l.accounts[b])
    && l'.accounts[a] == l.accounts[a].(balance := l'.accounts[a].balance)
  }

  /** A record rewritten in place. */
  lemma StoredRecord(l: Ledger, m: Ledger, v: Validator)
    requires m.validators == l.validators && v.consensusID in l.validators
    requires var w := l.validators[v.consensusID];
             && w.consensusID == v.consensusID && w.publicKey == v.publicKey && w.operator == v.operator && w.reward == v.reward
             && w.commission == v.commission
    ensures OnlyRecord(l, Store(m, v), v.consensusID)
    ensures var v' := Store(m, v).validators[v.consensusID];
            && v'.bonded == v.bonded && v'.status == v.status && Dated(v', v.activationEpoch, v.jailedUntil, v.unstakeEpoch)
    ensures Store(m, v) == m.(validators := Store(m, v).validators)
  {
  }

  // ----- joining -----

  /** Registration succeeds exactly for a free ID, key and operator, 100000 tokens and at most 10000 basis points. */
  lemma RegisterMeans(l: Ledger, id: Address, key: PubKey, operator: Address, stake: Amount, commission: u16, epoch: u64)
    ensures var s := RegisterValidator(l, id, key, operator, stake, commission, epoch);
            && (s.Done? <==>
                  && id !in l.validators && key !in l.byPubKey && operator !in l.byOperator
                  && stake >= 100000 && commission <= 10000 && l.totalBonded + stake < U128)
            && (s.Done? ==>
                  && s.ledger.accounts == l.accounts && SameElsewhere(l, s.ledger)
                  && s.ledger.totalBonded == l.totalBonded + stake
                  && s.ledger.validators.Keys == l.validators.Keys + {id}
                  && (forall a :: a in l.validators ==> s.ledger.validators[a] == l.validators[a])
                  && s.ledger.count == l.count + 1 && s.ledger.bySeq == l.bySeq[l.count + 1 := id]
                  && s.ledger.byPubKey == l.byPubKey[key := id] && s.ledger.byOperator == l.byOperator[operator := id]
                  && var v := s.ledger.validators[id];
                     && v.consensusID == id && v.publicKey == key && v.operator == operator && v.reward == operator
                     && v.bonded == stake && v.status == Pending && v.commission == commission && v.power == 0
                     && Dated(v, Wrap64(epoch + 1), 0, 0))
            && (s.Failed? && s.error != AmountOverflow ==> s.ledger == l)
  {
    hide Wrap64;
  }

  /** Activation takes a pending validator, and gives it the power of its stake. */
  lemma ActivateMeans(l: Ledger, id: Address, at: u64)
    requires Inv(l)
    ensures var s := ActivateValidator(l, id, at);
            && (s.Done? <==> id in l.validators && l.validators[id].status == Pending)
            && (if s.Done? then
                  && OnlyRecord(l, s.ledger, id) && SameIndexes(l, s.ledger) && SameElsewhere(l, s.ledger)
                  && s.ledger.accounts == l.accounts && s.ledger.totalBonded == l.totalBonded
                  && var v := l.validators[id];
                     && s.ledger.validators[id].status == Active && s.ledger.validators[id].bonded == v.bonded
                     && Dated(s.ledger.validators[id], at, v.jailedUntil, v.unstakeEpoch)
                else s.ledger == l)
  {
    hide Consistent, Wrap64;
    if id in l.validators { InvFiled(l, id); }
  }

  // ----- jail -----

  lemma JailMeans(l: Ledger, id: Address, until: u64)
    requires Inv(l)
    ensures var s := JailValidator(l, id, until);
            && (s.Done? <==> id in l.validators && l.validators[id].status == Active)
            && (if s.Done? then
                  && OnlyRecord(l, s.ledger, id) && SameIndexes(l, s.ledger) && SameElsewhere(l, s.ledger)
                  && s.ledger.accounts == l.accounts && s.ledger.totalBonded == l.totalBonded
                  && var v := l.validators[id];
                     && s.ledger.validators[id].status == Jailed && s.ledger.validators[id].bonded == v.bonded
                     && Dated(s.ledger.validators[id], v.activationEpoch, until, v.unstakeEpoch)
                else s.ledger == l)
  {
    hide Consistent, Wrap64;
    if id in l.validators { InvFiled(l, id); }
  }

  lemma UnjailMeans(l: Ledger, id: Address)
    requires Inv(l)
    ensures var s := UnjailValidator(l, id);
            && (s.Done? <==> id in l.validators && l.validators[id].status == Jailed)
            && (if s.Done? then
                  && OnlyRecord(l, s.ledger, id) && SameIndexes(l, s.ledger) && SameElsewhere(l, s.ledger)
                  && s.ledger.accounts == l.accounts && s.ledger.totalBonded == l.totalBonded
                  && var v := l.validators[id];
                     && s.ledger.validators[id].status == Active && s.ledger.validators[id].bonded == v.bonded
                     && Dated(s.ledger.validators[id], v.activationEpoch, 0, v.unstakeEpoch)
                else s.ledger == l)
  {
    hide Consistent, Wrap64;
    if id in l.validators { InvFiled(l, id); }
  }

  // ----- leaving -----

  /** Unstaking takes an active validator, which loses its power and waits for the epoch it names. */
  lemma UnstakeMeans(l: Ledger, id: Address, at: u64)
    requires Inv(l)
    ensures var s := StartUnstake(l, id, at);
            && (s.Done? <==> id in l.validators && l.validators[id].status == Active)
            && (if s.Done? then
                  && OnlyRecord(l, s.ledger, id) && SameIndexes(l, s.ledger) && SameElsewhere(l, s.ledger)
                  && s.ledger.accounts == l.accounts && s.ledger.totalBonded == l.totalBonded
                  && var v := l.validators[id];
                     && s.ledger.validators[id].status == Unstaking && s.ledger.validators[id].bonded == v.bonded
                     && Dated(s.ledger.validators[id], v.activationEpoch, v.jailedUntil, at)
                else s.ledger == l)
  {
    hide Consistent, Wrap64;
    if id in l.validators { InvFiled(l, id); }
  }

  /** Release pays the whole stake to the operator, takes it off the total and frees key and operator. */
  lemma ReleaseMeans(l: Ledger, id: Address)
    requires Inv(l)
    ensures var s := ReleaseStake(l, id);
            && (s.Done? <==>
                  && id in l.validators && l.validators[id].status == Unstaking && l.validators[id].operator in l.accounts
                  && l.accounts[l.validators[id].operator].balance + l.validators[id].bonded < U128)
            && (if s.Done? then
                  var v := l.validators[id];
                  && OnlyRecord(l, s.ledger, id) && SameElsewhere(l, s.ledger) && OnlyBalance(l, s.ledger, v.operator)
                  && s.ledger.accounts[v.operator].balance == l.accounts[v.operator].balance + v.bonded
                  && s.ledger.totalBonded == l.totalBonded - v.bonded
                  && s.ledger.validators[id].status == Removed && s.ledger.validators[id].bonded == v.bonded
                  && Dated(s.ledger.validators[id], v.activationEpoch, v.jailedUntil, v.unstakeEpoch)
                  && s.ledger.bySeq == l.bySeq && s.ledger.count == l.count
                  && s.ledger.byPubKey == l.byPubKey - {v.publicKey} && s.ledger.byOperator == l.byOperator - {v.operator}
                else s.ledger == l)
  {
    hide Inv, Store, OnlyRecord, Dated;
    if id in l.validators && l.validators[id].status == Unstaking {
      InvFiled(l, id);
      StakeWithinTotal(l, id);
      var v := l.validators[id];
      if v.operator in l.accounts && l.accounts[v.operator].balance + v.bonded < U128 {
        var m := WithBalance(l, v.operator, l.accounts[v.operator].balance + v.bonded);
        StoredRecord(l, m.(totalBonded := l.totalBonded - v.bonded, byPubKey := l.byPubKey - {v.publicKey},
                           byOperator := l.byOperator - {v.operator}), v.(status := Removed));
      }
    }
  }

  // ----- stake -----

  /** The amount left the balance. */
  ghost predicate Deducted(l: Ledger, l': Ledger, from: Address, amount: Amount)
  {
    OnlyBalance(l, l', from) && l'.accounts[from].balance == l.accounts[from].balance - amount
  }

  /** The amount moved from the balance to the stake, and the total grew by it. */
  ghost predicate Bonded(l: Ledger, l': Ledger, from: Address, id: Address, amount: Amount)
  {
    && Deducted(l, l', from, amount) && OnlyRecord(l, l', id) && SameIndexes(l, l') && SameElsewhere(l, l')
    && l'.totalBonded == l.totalBonded + amount
    && var v, v' := l.validators[id], l'.validators[id];
       v'.bonded == v.bonded + amount && v'.status == v.status && Dated(v', v.activationEpoch, v.jailedUntil, v.unstakeEpoch)
  }

  ghost predicate Bondable(l: Ledger, from: Address, id: Address, amount: Amount)
  {
    && from in l.accounts && amount <= l.accounts[from].balance && id in l.validators
    && (l.validators[id].status == Pending || l.validators[id].status == Active)
  }

  /**
   Bonding succeeds exactly when the account exists and covers the amount, the validator is pending or
   active, and both sums fit in 128 bits. It then moves the amount from the balance to the stake. When
   only a sum does not fit, the amount is gone from the balance; otherwise a failure changes nothing.
   */
  lemma BondMeans(l: Ledger, from: Address, id: Address, amount: Amount)
    requires Inv(l)
    ensures var s := Bond(l, from, id, amount);
            if !Bondable(l, from, id, amount) then s.Failed? && s.ledger == l
            else if l.validators[id].bonded + amount >= U128 || l.totalBonded + amount >= U128 then
              && s.Failed? && s.error == AmountOverflow && Deducted(l, s.ledger, from, amount)
              && s.ledger == l.(accounts := s.ledger.accounts)
            else s.Done? && Bonded(l, s.ledger, from, id, amount)
  {
    hide Inv, Store, Bonded;
    if Bondable(l, from, id, amount) && l.validators[id].bonded + amount < U128 && l.totalBonded + amount < U128 {
      BondMoves(l, from, id, amount);
    }
  }

  lemma BondMoves(l: Ledger, from: Address, id: Address, amount: Amount)
    requires Inv(l) && Bondable(l, from, id, amount)
    requires l.validators[id].bonded + amount < U128 && l.totalBonded + amount < U128
    ensures Bond(l, from, id, amount).Done? && Bonded(l, Bond(l, from, id, amount).ledger, from, id, amount)
  {
    hide Inv, Store, OnlyRecord, Dated;
    InvFiled(l, id);
    var v := l.validators[id];
    var m := WithBalance(l, from, l.accounts[from].balance - amount);
    StoredRecord(l, m.(totalBonded := l.totalBonded + amount), v.(bonded := v.bonded + amount));
  }

  /** Slash by amount takes the amount or all there is, and leaves the status alone. */
  lemma SlashMeans(l: Ledger, id: Address, amount: Amount)
    requires Inv(l)
    ensures var s := Slash(l, id, amount);
            && (s.Failed? ==> s.ledger == l)
            && (id in l.validators && l.validators[id].status != Removed ==>
                  var taken := if amount < l.validators[id].bonded then amount else l.validators[id].bonded;
                  && s.Done? && OnlyRecord(l, s.ledger, id) && SameIndexes(l, s.ledger) && SameElsewhere(l, s.ledger)
                  && s.ledger.accounts == l.accounts
                  && s.ledger.validators[id].bonded == l.validators[id].bonded - taken && s.ledger.totalBonded == l.totalBonded - taken
                  && s.ledger.validators[id].status == l.validators[id].status)
  {
    hide Consistent, Wrap64;
    if id in l.validators {
      InvFiled(l, id);
      if l.validators[id].status != Removed { StakeWithinTotal(l, id); }
    }
  }

  /** id lost `taken`; an active offender that lost anything is jailed for the term, counted from the current epoch. */
  ghost predicate Punished(l: Ledger, l': Ledger, id: Address, taken: nat, jailEpochs: u64)
  {
    && OnlyRecord(l, l', id) && SameIndexes(l, l') && SameElsewhere(l, l') && l'.accounts == l.accounts
    && var v, v' := l.validators[id], l'.validators[id];
       && v'.bonded == v.bonded - taken && l'.totalBonded == l.totalBonded - taken
       && v'.status == (if taken > 0 && v.status == Active then Jailed else v.status)
       && Dated(v', v.activationEpoch,
                if taken > 0 && v.status == Active then Wrap64(l.epoch + jailEpochs) else v.jailedUntil, v.unstakeEpoch)
  }

  /** Slash by percentage succeeds exactly for a validator that is not removed and at most 10000 basis points. */
  lemma ApplySlashMeans(l: Ledger, id: Address, percent: u64, jailEpochs: u64)
    requires Inv(l)
    ensures var s := ApplySlash(l, id, percent, jailEpochs);
            if id in l.validators && l.validators[id].status != Removed && percent <= 10000
            then s.Done? && Punished(l, s.ledger, id, SlashAmount(percent, l.validators[id].bonded), jailEpochs)
            else s.Failed? && s.ledger == l
  {
    hide Inv, Wrap64, SlashAmount, Punished;
    if id in l.validators && l.validators[id].status != Removed && percent <= 10000 {
      hide ApplySlash;
      SlashAmountBound(percent, l.validators[id].bonded);
      ApplySlashLeaves(l, id, percent, jailEpochs);
    }
  }

  lemma ApplySlashLeaves(l: Ledger, id: Address, percent: u64, jailEpochs: u64)
    requires Inv(l) && id in l.validators && l.validators[id].status != Removed && percent <= 10000
    ensures var s := ApplySlash(l, id, percent, jailEpochs);
            s.Done? && Punished(l, s.ledger, id, SlashAmount(percent, l.validators[id].bonded), jailEpochs)
  {
    hide Inv, Wrap64, SlashAmount, Store, OnlyRecord;
    InvFiled(l, id);
    SlashAmountBound(percent, l.validators[id].bonded);
    StakeWithinTotal(l, id);
    var v, taken := l.validators[id], SlashAmount(percent, l.validators[id].bonded);
    if taken == 0 {
      SameRecord(l, id);
    } else {
      StoredRecord(l, l.(totalBonded := l.totalBonded - taken), SlashedRecord(l, id, taken, jailEpochs));
    }
  }

  lemma SameRecord(l: Ledger, id: Address)
    requires id in l.validators && l.validators[id] == Repowered(l.validators[id])
    ensures OnlyRecord(l, l, id)
  {
  }

  // ----- evidence -----

  /** Two votes of one validator at one height and round, of one kind and for different blocks, each with a signature of at most 512 bytes. */
  ghost predicate Conflicting(a: Vote, b: Vote)
  {
    && (a.voteType == b.voteType == 1 || a.voteType == b.voteType == 2)
    && a.validator == b.validator && a.height == b.height && a.round == b.round && a.blockHash != b.blockHash
    && 1 <= |a.signature| <= 512 && 1 <= |b.signature| <= 512
  }

  /** What the offense costs, in basis points. */
  ghost predicate Rated(e: DoubleSign, params: SlashParams, rate: u64)
  {
    && (e.voteA.voteType == 1 ==> rate == params.doublePrevote)
    && (e.voteA.voteType == 2 ==> rate == params.doublePrecommit)
  }

  lemma ConflictExactly(e: DoubleSign)
    ensures CheckDoubleSign(e).None? <==> Conflicting(e.voteA, e.voteB)
  {
  }

  /** A conflict not seen before, by a validator that is not removed, at a rate of at most 10000 basis points. */
  ghost predicate Punishable(l: Ledger, e: DoubleSign, hash: Bytes -> Hash, rate: u64)
  {
    && Conflicting(e.voteA, e.voteB) && hash(PutDoubleSign(e, [])) !in l.processed
    && e.voteA.validator in l.validators && l.validators[e.voteA.validator].status != Removed && rate <= 10000
  }

  /** The evidence is marked with the height it came at, and that rate of the stake is gone. */
  ghost predicate CarriedOut(l: Ledger, l': Ledger, e: DoubleSign, height: u64, hash: Bytes -> Hash, rate: u64)
    requires Punishable(l, e, hash, rate)
  {
    var id := e.voteA.validator;
    && l'.processed == l.processed[hash(PutDoubleSign(e, [])) := height]
    && Punished(l, l'.(processed := l.processed), id, SlashAmount(rate, l.validators[id].bonded), l.slashParams.jailEpochs)
  }

  /** Evidence is carried out exactly when it is punishable; otherwise nothing changes. */
  lemma EvidenceMeans(l: Ledger, e: DoubleSign, height: u64, hash: Bytes -> Hash, rate: u64)
    requires Inv(l) && Rated(e, l.slashParams, rate)
    ensures var s := ProcessEvidence(l, e, height, hash);
            if Punishable(l, e, hash, rate) then s.Done? && CarriedOut(l, s.ledger, e, height, hash, rate)
            else s.Failed? && s.ledger == l
  {
    hide Inv, ApplySlash, Punished, Conflicting, SlashAmount, PutDoubleSign, CheckDoubleSign, PutVote;
    ConflictExactly(e);
    if CheckDoubleSign(e).None? {
      RateIs(e, l.slashParams, rate);
      hide Percent, Rated;
      ApplySlashMeans(l, e.voteA.validator, rate, l.slashParams.jailEpochs);
      PunishedFrame(l, e.voteA.validator, rate, l.slashParams.jailEpochs);
    }
  }

  lemma RateIs(e: DoubleSign, params: SlashParams, rate: u64)
    requires CheckDoubleSign(e).None? && Rated(e, params, rate)
    ensures rate == Percent(e, params)
  {
    KindIsVote(e);
  }

  lemma KindIsVote(e: DoubleSign)
    requires CheckDoubleSign(e).None?
    ensures e.voteA.voteType == 1 || e.voteA.voteType == 2
  {
  }

  lemma PunishedFrame(l: Ledger, id: Address, percent: u64, jailEpochs: u64)
    requires Inv(l)
    ensures ApplySlash(l, id, percent, jailEpochs).ledger.processed == l.processed
  {
    hide Inv, ApplySlash, SlashAmount, OnlyRecord, SameIndexes, Dated, Wrap64;
    ApplySlashMeans(l, id, percent, jailEpochs);
  }

  /** What two prevotes, at their rate, and two precommits, at theirs, leave of the stake. */
  lemma StakeLeft(l: Ledger, e: DoubleSign, height: u64, hash: Bytes -> Hash, rate: u64)
    requires Inv(l) && Rated(e, l.slashParams, rate) && ProcessEvidence(l, e, height, hash).Done?
    ensures e.voteA.validator in l.validators
    ensures var was := l.validators[e.voteA.validator].bonded;
            var vals := ProcessEvidence(l, e, height, hash).ledger.validators;
            && e.voteA.validator in vals
            && (was * rate < U64 ==> vals[e.voteA.validator].bonded == was - was * rate / 10000)
  {
    hide Inv, ProcessEvidence, Conflicting, SlashAmount, PutDoubleSign, CheckDoubleSign, PutVote;
    EvidenceMeans(l, e, height, hash, rate);
    SlashAmountExact(rate, l.validators[e.voteA.validator].bonded);
  }
}

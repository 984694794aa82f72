/** Lists of transactions whose senders can pay for them beforehand: exactly when such a list executes. */
module Funding {
  import opened Basics
  import opened Wire
  import opened Accounts
  import opened StateStore
  import opened Transactions
  import opened Registrations
  import opened Blocks

  // ----- spending -----

  function StakeOf(tx: Transaction): nat
  {
    if IsRegistration(tx) && ReadRegistration(tx.payload).Got? then ReadRegistration(tx.payload).value.stake else 0
  }

  /** The most a transaction takes from its sender. */
  function Cost(tx: Transaction): nat
  {
    tx.maxFee + if IsTransfer(tx) then TransferAmount(tx) else StakeOf(tx)
  }

  function SpentBy(txs: seq<Transaction>, n: nat, a: Address): nat
    requires n <= |txs|
  {
    if n == 0 then 0 else SpentBy(txs, n - 1, a) + if txs[n - 1].sender == a then Cost(txs[n - 1]) else 0
  }

  function Staked(txs: seq<Transaction>, n: nat): nat
    requires n <= |txs|
  {
    if n == 0 then 0 else Staked(txs, n - 1) + StakeOf(txs[n - 1])
  }

  /** Every sender can pay all it sends from what it holds beforehand, and no balance can overflow. */
  ghost predicate SelfPaid(accounts: map<Address, Account>, txs: seq<Transaction>)
  {
    && Held(accounts) + U64 <= U128
    && forall a: Address :: SpentBy(txs, |txs|, a) <= BalanceAt(accounts, a)
  }

  lemma {:induction false} SpentByGrows(txs: seq<Transaction>, i: nat, j: nat, a: Address)
    requires i <= j <= |txs|
    ensures SpentBy(txs, i, a) <= SpentBy(txs, j, a)
    ensures i < j && txs[i].sender == a ==> SpentBy(txs, i, a) + Cost(txs[i]) <= SpentBy(txs, j, a)
    decreases j
  {
    hide Cost;
    if i < j { SpentByGrows(txs, i, j - 1, a); }
  }

  lemma {:induction false} StakedGrows(txs: seq<Transaction>, i: nat, j: nat)
    requires i <= j <= |txs|
    ensures Staked(txs, i) <= Staked(txs, j)
    decreases j
  {
    hide StakeOf;
    if i < j { StakedGrows(txs, i, j - 1); }
  }

  // ----- accounts along the way -----

  /** An account on the way: its key stays, and it never has less than what it did not spend. */
  ghost predicate Kept(before: map<Address, Account>, after: map<Address, Account>, a: Address, spent: nat)
  {
    a in before ==>
      && a in after && after[a].publicKey == before[a].publicKey
      && after[a].balance + spent >= before[a].balance
  }

  lemma ApplyKeeps(c: Contents, tx: Transaction, env: Env, a: Address)
    requires ApplyAny(c, tx, env).refusal.None?
    ensures Kept(c.accounts, ApplyAny(c, tx, env).contents.accounts, a, if tx.sender == a then Cost(tx) else 0)
  {
    hide FromBE, TransferAmount, ReadRegistration, EntriesAfter;
  }

  lemma {:induction false} RunKeeps(c: Contents, txs: seq<Transaction>, n: nat, env: Env, a: Address)
    requires n <= |txs| && RunAll(c, txs, n, env).error.None?
    ensures Kept(c.accounts, RunAll(c, txs, n, env).contents.accounts, a, SpentBy(txs, n, a))
  {
    hide ApplyAny, Cost;
    if n > 0 {
      RunKeeps(c, txs, n - 1, env, a);
      ApplyKeeps(RunAll(c, txs, n - 1, env).contents, txs[n - 1], env, a);
    }
  }

  // ----- entries along the way -----

  /** One of the first n transactions registers in this slot. */
  ghost predicate Fills(txs: seq<Transaction>, n: nat, slot: Bytes, env: Env)
    requires n <= |txs|
  {
    exists j :: 0 <= j < n && FillsSlot(txs[j], slot, env)
  }

  predicate FillsSlot(tx: Transaction, slot: Bytes, env: Env)
  {
    IsRegistration(tx) && ReadRegistration(tx.payload).Got? && Slot(ReadRegistration(tx.payload).value, env) == slot
  }

  ghost predicate Registers(txs: seq<Transaction>, n: nat)
    requires n <= |txs|
  {
    exists j :: 0 <= j < n && IsRegistration(txs[j])
  }

  /** From kv to later: some slots are filled, the epoch stays, the count stays readable, the total grows. */
  ghost predicate Entered(kv: map<Bytes, Bytes>, later: map<Bytes, Bytes>, staked: nat)
  {
    && (Readable(later, EpochKey()) <==> Readable(kv, EpochKey()))
    && (Readable(kv, CountKey()) ==> Readable(later, CountKey()))
    && BondedTotal(later) == BondedTotal(kv) + staked
  }

  lemma ApplyEnters(c: Contents, tx: Transaction, env: Env)
    requires ApplyAny(c, tx, env).refusal.None?
    ensures var later := ApplyAny(c, tx, env).contents.kv;
            && Entered(c.kv, later, StakeOf(tx))
            && (forall id: Address :: ValidatorKey(id) in later <==> ValidatorKey(id) in c.kv || FillsSlot(tx, ValidatorKey(id), env))
            && (!IsRegistration(tx) ==> later == c.kv)
            && (IsRegistration(tx) ==> Readable(c.kv, EpochKey()) && Readable(c.kv, CountKey()))
  {
    hide FromBE, TransferAmount, ReadRegistration, EntriesAfter, ApplyTx, TxRefusal, ValidatorKey, CountKey, EpochKey, BondedTotal;
    if IsRegistration(tx) {
      EntriesStep(c.kv, ReadRegistration(tx.payload).value, tx.sender, env);
      EpochWasRead(c.kv, ReadRegistration(tx.payload).value, tx.sender, env);
    }
  }

  lemma EpochWasRead(kv: map<Bytes, Bytes>, m: Registration, sender: Address, env: Env)
    requires EntriesAfter(kv, m, sender, env).1.None?
    ensures Readable(kv, EpochKey()) && Slot(m, env) !in kv
  {
  }

  lemma {:induction false} RunEnters(c: Contents, txs: seq<Transaction>, n: nat, env: Env)
    requires n <= |txs| && RunAll(c, txs, n, env).error.None?
    ensures var kv := RunAll(c, txs, n, env).contents.kv;
            && Entered(c.kv, kv, Staked(txs, n))
            && (forall id: Address :: ValidatorKey(id) in kv <==> ValidatorKey(id) in c.kv || Fills(txs, n, ValidatorKey(id), env))
            && (!Registers(txs, n) ==> kv == c.kv)
            && (Registers(txs, n) ==> Readable(c.kv, EpochKey()) && Readable(c.kv, CountKey()))
  {
    hide ApplyAny, StakeOf, FillsSlot, ValidatorKey, CountKey, EpochKey, BondedTotal, Readable;
    if n > 0 {
      RunEnters(c, txs, n - 1, env);
      ApplyEnters(RunAll(c, txs, n - 1, env).contents, txs[n - 1], env);
      forall slot: Bytes ensures Fills(txs, n, slot, env) <==> Fills(txs, n - 1, slot, env) || FillsSlot(txs[n - 1], slot, env) {
        assert FillsSlot(txs[n - 1], slot, env) ==> Fills(txs, n, slot, env);
      }
      assert IsRegistration(txs[n - 1]) ==> Registers(txs, n);
    }
  }

  // ----- being ready -----

  /** What a registration needs besides its sender's money: a good message and a free slot. */
  ghost predicate CanEnter(c: Contents, txs: seq<Transaction>, i: nat, env: Env)
    requires i < |txs|
  {
    var m := ReadRegistration(txs[i].payload);
    && m.Got? && m.value.address == txs[i].sender && m.value.stake >= MIN_STAKE && m.value.commission <= MAX_COMMISSION_BP
    && Slot(m.value, env) !in c.kv && !Fills(txs, i, Slot(m.value, env), env)
  }

  /** What a self-paid list asks of its i-th transaction. */
  ghost predicate Ready(c: Contents, txs: seq<Transaction>, i: nat, env: Env)
    requires i < |txs|
  {
    var tx := txs[i];
    && ValidTx(tx, env) && tx.sender in c.accounts
    && env.verify(c.accounts[tx.sender].publicKey, tx.intentID, tx.signature)
    && tx.nonce == c.accounts[tx.sender].nonce + SentBy(txs, i, tx.sender) + 1
    && (IsRegistration(tx) ==> CanEnter(c, txs, i, env))
  }

  /** If anyone registers, the counters can be read and the bonded total has room. */
  ghost predicate Roomy(c: Contents, txs: seq<Transaction>)
  {
    Registers(txs, |txs|) ==>
      Readable(c.kv, EpochKey()) && Readable(c.kv, CountKey()) && BondedTotal(c.kv) + Staked(txs, |txs|) < U128
  }

  /** A transaction its sender can pay for is accepted. */
  lemma Acceptable(c: Contents, tx: Transaction, env: Env)
    requires ValidTx(tx, env) && tx.sender in c.accounts
    requires env.verify(c.accounts[tx.sender].publicKey, tx.intentID, tx.signature)
    requires tx.nonce == c.accounts[tx.sender].nonce + 1
    requires Cost(tx) <= c.accounts[tx.sender].balance && Held(c.accounts) + U64 <= U128
    requires IsRegistration(tx) ==>
               && Readable(c.kv, EpochKey()) && Readable(c.kv, CountKey()) && BondedTotal(c.kv) + StakeOf(tx) < U128
               && var m := ReadRegistration(tx.payload);
                  && m.Got? && m.value.address == tx.sender && m.value.stake >= MIN_STAKE && m.value.commission <= MAX_COMMISSION_BP
                  && Slot(m.value, env) !in c.kv
    ensures ApplyAny(c, tx, env).refusal.None?
  {
    hide Held, FromBE, TransferAmount, ReadRegistration, EntriesAfter, Slot, EpochKey, CountKey, BondedTotal, ApplyTx;
    if IsTransfer(tx) && Recipient(tx) in c.accounts {
      HeldAfterWrite(c.accounts, Recipient(tx), c.accounts[Recipient(tx)]);
    }
    if IsRegistration(tx) {
      EntriesFit(c.kv, ReadRegistration(tx.payload).value, tx.sender, env);
    }
  }

  lemma FeesOnly(c: Contents, txs: seq<Transaction>, n: nat, env: Env)
    requires n <= |txs|
    ensures Held(RunAll(c, txs, n, env).contents.accounts) <= Held(c.accounts)
  {
    hide Held, RunAll, Fees, TakenByAll;
    RunAllConserves(c, txs, n, env);
  }

  /** A self-paid list whose transactions are ready executes in full. */
  lemma {:induction false} ReadyExecutes(c: Contents, txs: seq<Transaction>, n: nat, env: Env)
    requires n <= |txs| && SelfPaid(c.accounts, txs) && Roomy(c, txs) && forall i :: 0 <= i < n ==> Ready(c, txs, i, env)
    ensures RunAll(c, txs, n, env).error.None?
  {
    hide ApplyAny, Held, Cost, ValidTx, SpentBy, SentBy, Staked, StakeOf, Readable, BondedTotal, EpochKey, CountKey, ValidatorKey, Fills,
         ReadRegistration;
    if n > 0 {
      ReadyExecutes(c, txs, n - 1, env);
      var now, tx := RunAll(c, txs, n - 1, env).contents, txs[n - 1];
      assert Ready(c, txs, n - 1, env);
      FeesOnly(c, txs, n - 1, env);
      RunNonces(c, txs, n - 1, env, tx.sender);
      RunKeeps(c, txs, n - 1, env, tx.sender);
      SpentByGrows(txs, n - 1, |txs|, tx.sender);
      RunEnters(c, txs, n - 1, env);
      StakedUpTo(txs, n);
      assert IsRegistration(tx) ==> Registers(txs, |txs|);
      Acceptable(now, tx, env);
    }
  }

  lemma StakedUpTo(txs: seq<Transaction>, n: nat)
    requires 0 < n <= |txs|
    ensures Staked(txs, n - 1) + StakeOf(txs[n - 1]) <= Staked(txs, |txs|)
  {
    hide StakeOf;
    StakedGrows(txs, n, |txs|);
  }

  /** What an accepted registration had passed. */
  lemma RegistrationPassed(c: Contents, tx: Transaction, env: Env)
    requires ApplyAny(c, tx, env).refusal.None? && IsRegistration(tx)
    ensures var m := ReadRegistration(tx.payload);
            && m.Got? && m.value.address == tx.sender && m.value.stake >= MIN_STAKE && m.value.commission <= MAX_COMMISSION_BP
            && Slot(m.value, env) !in c.kv
  {
    hide FromBE, ReadRegistration, EntriesAfter, TxRefusal;
    EpochWasRead(c.kv, ReadRegistration(tx.payload).value, tx.sender, env);
  }

  lemma Passed(c: Contents, tx: Transaction, env: Env)
    requires ApplyAny(c, tx, env).refusal.None?
    ensures ValidTx(tx, env) && tx.sender in c.accounts
    ensures env.verify(c.accounts[tx.sender].publicKey, tx.intentID, tx.signature)
  {
    hide TransferRefusal, Register;
  }

  /** Conversely each transaction of a self-paid list that executes was ready. */
  lemma ExecutedReady(c: Contents, txs: seq<Transaction>, i: nat, env: Env)
    requires i < |txs| && SelfPaid(c.accounts, txs) && RunAll(c, txs, |txs|, env).error.None?
    ensures Ready(c, txs, i, env)
  {
    hide ApplyAny, Held, SpentBy, SentBy, Staked, StakeOf, BondedTotal, ValidatorKey, Fills, ReadRegistration, Entered, Registers;
    var tx := txs[i];
    RunPrefix(c, txs, i + 1, |txs|, env);
    RunPrefix(c, txs, i, i + 1, env);
    var now := RunAll(c, txs, i, env).contents;
    Passed(now, tx, env);
    ConsecutiveNonces(c, txs, env);
    RunKeeps(c, txs, i, env, tx.sender);
    SpentByGrows(txs, i, |txs|, tx.sender);
    if IsRegistration(tx) {
      RegistrationPassed(now, tx, env);
      RunEnters(c, txs, i, env);
    }
  }

  /** A self-paid list executes in full if and only if there is room and every transaction is ready. */
  lemma ExecutesExactly(c: Contents, txs: seq<Transaction>, env: Env)
    requires SelfPaid(c.accounts, txs)
    ensures RunAll(c, txs, |txs|, env).error.None? <==> Roomy(c, txs) && forall i :: 0 <= i < |txs| ==> Ready(c, txs, i, env)
  {
    hide RunAll, SelfPaid, Ready, ValidatorKey, CountKey, EpochKey, Readable, Staked, Registers, BondedTotal;
    if RunAll(c, txs, |txs|, env).error.None? {
      RunEnters(c, txs, |txs|, env);
      forall i | 0 <= i < |txs| ensures Ready(c, txs, i, env) {
        ExecutedReady(c, txs, i, env);
      }
    }
    if Roomy(c, txs) && forall i :: 0 <= i < |txs| ==> Ready(c, txs, i, env) {
      ReadyExecutes(c, txs, |txs|, env);
    }
  }
}

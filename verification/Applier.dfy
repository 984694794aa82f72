/** Applying transactions to accounts that are shared by pointer. */
module Applier {
  import opened Basics
  import opened Wire
  import opened Accounts
  import opened StateStore
  import opened Transactions
  import opened Registrations
  import Base58

  // ----- one object at a time -----

  lemma RecordsAre(m: Objects, expected: map<Address, Account>)
    requires m.Keys == expected.Keys && forall a :: a in m ==> m[a].record == expected[a]
    ensures Records(m) == expected
  {
  }

  /** The recipient's account, made up when it does not exist yet. */
  method Fetch(db: InMemoryState, to: Address) returns (recipient: AccountObject)
    requires db.Valid()
    ensures if to in db.accounts then recipient == db.accounts[to]
            else fresh(recipient) && recipient.record == NewAccount(to, ZERO_KEY)
  {
    var found := db.GetAccount(to);
    if found.Some? {
      recipient := found.value;
    } else {
      recipient := new AccountObject(NewAccount(to, ZERO_KEY));
    }
  }

  /** Credit the recipient, debit the sender, store the recipient. */
  method Settle(db: InMemoryState, from: Address, sender: AccountObject, to: Address, recipient: AccountObject, amount: u64)
    requires db.Valid() && from in db.accounts && db.accounts[from] == sender
    requires if to in db.accounts then recipient == db.accounts[to] else recipient !in db.handed && recipient !in db.kept
    requires amount <= sender.record.balance && recipient.record.balance + amount < U128
    modifies db, sender, recipient
    ensures db.Valid() && db.accounts == old(db.accounts)[to := recipient]
    ensures db.kvstore == old(db.kvstore) && db.saved == old(db.saved) && db.kept == old(db.kept)
    ensures recipient == sender ==> sender.record == old(sender.record)
    ensures recipient != sender ==>
              && sender.record == old(sender.record).(balance := old(sender.record.balance) - amount)
              && recipient.record == old(recipient.record).(balance := old(recipient.record.balance) + amount)
  {
    hide Records;
    assert sender in db.accounts.Values;
    var ok := recipient.AddBalance(amount);
    ok := sender.SubBalance(amount);
    db.SetAccount(to, recipient);
  }

  /**
   The pointer moves of a transfer. Sender and recipient may be one object, under one address or two;
   then nothing moves. No third object changes.
   */
  method Transfer(db: InMemoryState, sender: AccountObject, tx: Transaction) returns (refusal: Option<TxError>)
    requires db.Valid() && IsTransfer(tx)
    requires tx.sender in db.accounts && db.accounts[tx.sender] == sender
    modifies db, db.accounts.Values
    ensures db.Valid() && db.kvstore == old(db.kvstore) && db.saved == old(db.saved) && db.kept == old(db.kept)
    ensures refusal == TransferRefusal(old(db.View().accounts), tx)
    ensures refusal.Some? ==>
              && db.accounts == old(db.accounts)
              && forall o | o in old(db.accounts.Values) :: o.record == old(o.record)
    ensures refusal.None? ==>
              && Recipient(tx) in db.accounts && db.accounts == old(db.accounts)[Recipient(tx) := db.accounts[Recipient(tx)]]
              && var r := db.accounts[Recipient(tx)];
                 && (if Recipient(tx) in old(db.accounts) then r == old(db.accounts)[Recipient(tx)] else fresh(r))
                 && (r == sender ==> sender.record == old(sender.record))
                 && (r != sender ==>
                       && sender.record == old(sender.record).(balance := old(sender.record.balance) - TransferAmount(tx))
                       && var was := if Recipient(tx) in old(db.accounts) then old(db.View().accounts)[Recipient(tx)]
                                     else NewAccount(Recipient(tx), ZERO_KEY);
                          r.record == was.(balance := was.balance + TransferAmount(tx)))
                 && forall o | o in old(db.accounts.Values) && o != sender && o != r :: o.record == old(o.record)
  {
    hide FromBE, Records, TransferAmount;
    RecordsOf(db.accounts);
    var to, amount := Recipient(tx), TransferAmount(tx);
    if sender.record.balance < tx.maxFee + amount { return Some(TransferTooHigh); }
    var recipient := Fetch(db, to);
    if recipient.record.balance + amount >= U128 { return Some(RecipientOverflow); }
    Settle(db, tx.sender, sender, to, recipient, amount);
    refusal := None;
  }

  /** The registration branch: debits the sender in place and writes the entries in the source's order. */
  method Enter(db: InMemoryState, sender: AccountObject, tx: Transaction, env: Env) returns (refusal: Option<TxError>)
    requires db.Valid() && tx.sender in db.accounts && db.accounts[tx.sender] == sender
    modifies db, sender
    ensures db.Valid() && db.accounts == old(db.accounts) && db.saved == old(db.saved) && db.kept == old(db.kept)
    ensures var r := Register(old(db.View()), tx, env);
            && refusal == r.refusal && db.kvstore == r.contents.kv && sender.record == r.contents.accounts[tx.sender]
  {
    hide Records, ReadRegistration, EntriesAfter;
    RecordsOf(db.accounts);
    assert sender in db.accounts.Values;
    var m := ReadRegistration(tx.payload);
    if m.Fail? { return Some(RegUndecodable); }
    if m.value.address != tx.sender { return Some(RegForeign); }
    if m.value.stake < MIN_STAKE { return Some(RegStakeLow); }
    if m.value.commission > MAX_COMMISSION_BP { return Some(RegCommissionHigh); }
    if sender.record.balance < tx.maxFee + m.value.stake { return Some(RegUnaffordable); }
    var ok := sender.SubBalance(m.value.stake);
    refusal := WriteEntries(db, m.value, tx.sender, env);
  }

  /** The record and its two indexes. */
  method WriteRecord(db: InMemoryState, m: Registration, sender: Address, env: Env)
    requires db.Valid() && Readable(db.kvstore, EpochKey())
    modifies db
    ensures db.Valid() && db.accounts == old(db.accounts) && db.saved == old(db.saved) && db.kept == old(db.kept)
    ensures db.kvstore == Enrolled(old(db.kvstore), m, sender, env)
  {
    hide Records, RecordBytes, ValidatorKey, KeyIndexKey, OperatorIndexKey, EpochKey, Counter;
    var id := ConsensusID(m.key, env.hash);
    var record := RecordBytes(m, sender, Wrap64(Counter(db.kvstore, EpochKey()) + 1));
    db.SetBytes(ValidatorKey(id), record);
    db.SetBytes(KeyIndexKey(m.key), id);
    db.SetBytes(OperatorIndexKey(sender, env.hash), id);
  }

  method WriteEntries(db: InMemoryState, m: Registration, sender: Address, env: Env) returns (refusal: Option<TxError>)
    requires db.Valid()
    modifies db
    ensures db.Valid() && db.accounts == old(db.accounts) && db.saved == old(db.saved) && db.kept == old(db.kept)
    ensures (db.kvstore, refusal) == EntriesAfter(old(db.kvstore), m, sender, env)
  {
    hide Records, BE, ValidatorKey, CountKey, TotalKey, EpochKey, Counter, BondedTotal, Enrolled, Base58.MinBE;
    var id := ConsensusID(m.key, env.hash);
    if ValidatorKey(id) in db.kvstore { return Some(RegTaken); }
    if !Readable(db.kvstore, EpochKey()) { return Some(Panicked); }
    WriteRecord(db, m, sender, env);
    if !Readable(db.kvstore, CountKey()) { return Some(Panicked); }
    db.SetBytes(CountKey(), BE(Wrap64(Counter(db.kvstore, CountKey()) + 1), 8));
    var total := BondedTotal(db.kvstore);
    if total + m.stake >= U128 { return Some(Panicked); }
    db.SetBytes(TotalKey(), Base58.MinBE(total + m.stake));
    refusal := None;
  }

  /** Deducts the fee, uses up the nonce and stores the sender. */
  method Charge(db: InMemoryState, a: Address, sender: AccountObject, fee: u64)
    requires db.Valid() && a in db.accounts && db.accounts[a] == sender && fee <= sender.record.balance
    modifies db, sender
    ensures db.Valid() && db.accounts == old(db.accounts) && db.kvstore == old(db.kvstore)
    ensures db.saved == old(db.saved) && db.kept == old(db.kept)
    ensures sender.record ==
            old(sender.record).(balance := old(sender.record.balance) - fee, nonce := Wrap64(old(sender.record.nonce) + 1))
  {
    hide Records;
    assert sender in db.accounts.Values;
    var ok := sender.SubBalance(fee);
    sender.IncrementNonce();
    db.SetAccount(a, sender);
  }

  // ----- the whole transaction -----

  /** The sender's record after an accepted transaction; `self` says that it pays its own object. */
  function SenderAfter(acc: Account, tx: Transaction, self: bool): Account
    requires IsRegistration(tx) ==> ReadRegistration(tx.payload).Got?
    requires tx.maxFee + Moved(tx, self) <= acc.balance
  {
    acc.(balance := acc.balance - tx.maxFee - Moved(tx, self), nonce := Wrap64(acc.nonce + 1))
  }

  /** What leaves the sender's object besides the fee. */
  function Moved(tx: Transaction, self: bool): u64
    requires IsRegistration(tx) ==> ReadRegistration(tx.payload).Got?
  {
    if IsRegistration(tx) then ReadRegistration(tx.payload).value.stake
    else if IsTransfer(tx) && !self then TransferAmount(tx) else 0
  }

  // ----- what happens to which object -----

  ghost predicate SameObject(m: Objects, a: Address, b: Address)
  {
    a in m && b in m && m[a] == m[b]
  }

  /** Stored pointers stay and at most a new recipient's is added; what other objects hold does not change. */
  ghost predicate Stays(was: Objects, before: map<Address, Account>, now: Objects, after: map<Address, Account>, tx: Transaction)
  {
    && was.Keys == before.Keys && now.Keys == after.Keys
    && (forall a :: a in was ==> a in now && now[a] == was[a])
    && (forall a :: a in now && a !in was ==> IsTransfer(tx) && a == Recipient(tx) && now[a] !in was.Values)
    && (forall a :: a in was && !SameObject(was, a, tx.sender) && !(IsTransfer(tx) && SameObject(was, a, Recipient(tx))) ==>
          after[a] == before[a])
  }

  /**
   From the objects `was` holding the accounts of c to the objects `now` holding `after`: only what the
   sender's and the recipient's objects hold changes, and if these two are one object, a transfer
   moves nothing but the fee.
   */
  ghost predicate Effect(was: Objects, c: Contents, now: Objects, after: map<Address, Account>, tx: Transaction, env: Env)
  {
    var r := ApplyAny(c, tx, env);
    && Stays(was, c.accounts, now, after, tx)
    && (!IsTransfer(tx) && tx.sender in was ==> after[tx.sender] == r.contents.accounts[tx.sender])
    && (IsTransfer(tx) ==> if r.refusal.Some? then after == c.accounts else Settled(was, c.accounts, after, tx))
  }

  ghost predicate Settled(was: Objects, before: map<Address, Account>, after: map<Address, Account>, tx: Transaction)
    requires IsTransfer(tx)
  {
    var to, self := Recipient(tx), SameObject(was, Recipient(tx), tx.sender);
    && tx.sender in before && tx.sender in after && to in after && tx.maxFee + Moved(tx, self) <= before[tx.sender].balance
    && after[tx.sender] == SenderAfter(before[tx.sender], tx, self)
    && (!self ==>
          var acc := if to in before then before[to] else NewAccount(to, ZERO_KEY);
          acc.balance + TransferAmount(tx) < U128 && after[to] == acc.(balance := acc.balance + TransferAmount(tx)))
  }

  lemma TransferAccepted(c: Contents, tx: Transaction, env: Env)
    requires IsTransfer(tx) && TxRefusal(c.accounts, tx, env).None?
    ensures tx.sender in c.accounts && ApplyAny(c, tx, env).refusal.None?
  {
    hide TransferRefusal;
  }

  lemma SettledEffect(was: Objects, c: Contents, now: Objects, tx: Transaction, env: Env)
    requires IsTransfer(tx) && TxRefusal(c.accounts, tx, env).None? && was.Keys == c.accounts.Keys
    requires Recipient(tx) in now && now == was[Recipient(tx) := now[Recipient(tx)]]
    requires if Recipient(tx) in was then now[Recipient(tx)] == was[Recipient(tx)] else now[Recipient(tx)] !in was.Values
    requires var self := now[Recipient(tx)] == was[tx.sender];
             && tx.maxFee + Moved(tx, self) <= c.accounts[tx.sender].balance
             && was[tx.sender].record == SenderAfter(c.accounts[tx.sender], tx, self)
             && (!self ==>
                   var acc := if Recipient(tx) in was then c.accounts[Recipient(tx)] else NewAccount(Recipient(tx), ZERO_KEY);
                   acc.balance + TransferAmount(tx) < U128 && now[Recipient(tx)].record == acc.(balance := acc.balance + TransferAmount(tx)))
    requires forall a :: a in was && was[a] != was[tx.sender] && was[a] != now[Recipient(tx)] ==> was[a].record == c.accounts[a]
    ensures Effect(was, c, now, Records(now), tx, env)
  {
    TransferAccepted(c, tx, env);
    hide FromBE, Records, TransferAmount, ReadRegistration, ApplyAny, TxRefusal, SenderAfter, Moved, Stays;
    RecordsOf(now);
    assert was[tx.sender] in was.Values;
    assert SameObject(was, Recipient(tx), tx.sender) <==> now[Recipient(tx)] == was[tx.sender];
    TwoMoved(was, c.accounts, now, tx);
  }

  lemma TwoMoved(was: Objects, before: map<Address, Account>, now: Objects, tx: Transaction)
    requires IsTransfer(tx) && tx.sender in was && was.Keys == before.Keys
    requires Recipient(tx) in now && now == was[Recipient(tx) := now[Recipient(tx)]]
    requires if Recipient(tx) in was then now[Recipient(tx)] == was[Recipient(tx)] else now[Recipient(tx)] !in was.Values
    requires forall a :: a in was && was[a] != was[tx.sender] && was[a] != now[Recipient(tx)] ==> was[a].record == before[a]
    ensures Stays(was, before, now, Records(now), tx)
  {
    hide Records;
    RecordsOf(now);
    forall a | a in was && !SameObject(was, a, tx.sender) && !SameObject(was, a, Recipient(tx)) ensures Records(now)[a] == before[a] {
      assert was[a] in was.Values;
    }
  }

  lemma SenderEffect(was: Objects, c: Contents, tx: Transaction, env: Env)
    requires !IsTransfer(tx) && tx.sender in was && was.Keys == c.accounts.Keys
    requires was[tx.sender].record == ApplyAny(c, tx, env).contents.accounts[tx.sender]
    requires forall a :: a in was && was[a] != was[tx.sender] ==> was[a].record == c.accounts[a]
    ensures Effect(was, c, was, Records(was), tx, env)
  {
    hide Records, ApplyAny;
    RecordsOf(was);
  }

  /** When every address has an object of its own, the accounts end as ApplyAny says. */
  lemma EffectUnshared(was: Objects, c: Contents, now: Objects, after: map<Address, Account>, tx: Transaction, env: Env)
    requires Effect(was, c, now, after, tx, env) && Unshared(was)
    ensures Unshared(now) && after == ApplyAny(c, tx, env).contents.accounts
  {
    hide ReadRegistration, TransferAmount, EntriesAfter, RegistrationError;
    NewStaysApart(was, now);
    if IsTransfer(tx) {
      if ApplyAny(c, tx, env).refusal.None? {
        SettledAccounts(was, c.accounts, after, tx, env);
      }
    } else {
      OnlySender(c, tx, env);
      if tx.sender in was {
        assert after == c.accounts[tx.sender := after[tx.sender]];
      } else {
        assert after == c.accounts;
      }
    }
  }

  lemma NewStaysApart(was: Objects, now: Objects)
    requires Unshared(was) && forall a :: a in was ==> a in now && now[a] == was[a]
    requires forall a, b :: a in now && a !in was && b in now && b !in was ==> a == b
    requires forall a :: a in now && a !in was ==> now[a] !in was.Values
    ensures Unshared(now)
  {
  }

  lemma SettledAccounts(was: Objects, before: map<Address, Account>, after: map<Address, Account>, tx: Transaction, env: Env)
    requires IsTransfer(tx) && TxRefusal(before, tx, env).None? && Unshared(was) && was.Keys == before.Keys
    requires Settled(was, before, after, tx) && after.Keys == before.Keys + {Recipient(tx)}
    requires forall a :: a in was && !SameObject(was, a, tx.sender) && !SameObject(was, a, Recipient(tx)) ==> after[a] == before[a]
    ensures after == ApplyTx(before, tx, env)
  {
    hide ReadRegistration, TransferAmount;
    forall a | a in after ensures after[a] == ApplyTx(before, tx, env)[a] {
      if a in was {
        assert SameObject(was, a, tx.sender) <==> a == tx.sender;
        assert SameObject(was, a, Recipient(tx)) <==> a == Recipient(tx);
      }
    }
  }

  lemma OnlySender(c: Contents, tx: Transaction, env: Env)
    requires !IsTransfer(tx)
    ensures var r := ApplyAny(c, tx, env);
            r.contents.accounts == if tx.sender in c.accounts then c.accounts[tx.sender := r.contents.accounts[tx.sender]] else c.accounts
  {
    hide ReadRegistration, EntriesAfter;
  }

  lemma NothingMoved(was: Objects, c: Contents, tx: Transaction, env: Env)
    requires was.Keys == c.accounts.Keys && TxRefusal(c.accounts, tx, env).Some?
    ensures Effect(was, c, was, c.accounts, tx, env)
  {
    hide TxRefusal, Settled;
  }

  /** A transfer, its fee and its nonce, on the objects. */
  method PayAndCharge(db: InMemoryState, sender: AccountObject, tx: Transaction, ghost env: Env) returns (refusal: Option<TxError>)
    requires db.Valid() && IsTransfer(tx) && tx.sender in db.accounts && db.accounts[tx.sender] == sender
    requires tx.sender in db.accounts && TxRefusal(db.View().accounts, tx, env) == TransferRefusal(db.View().accounts, tx)
    requires tx.maxFee <= sender.record.balance
    modifies db, db.accounts.Values
    ensures db.Valid() && db.kvstore == old(db.kvstore) && db.saved == old(db.saved) && db.kept == old(db.kept)
    ensures refusal == TransferRefusal(old(db.View().accounts), tx)
    ensures Effect(old(db.accounts), old(db.View()), db.accounts, db.View().accounts, tx, env)
    ensures forall o | o in db.accounts.Values && o !in old(db.accounts.Values) :: fresh(o)
  {
    hide FromBE, Records, TransferAmount, ReadRegistration, TxRefusal, Effect;
    RecordsOf(db.accounts);
    ghost var c, was := db.View(), db.accounts;
    forall a | a in was ensures was[a] in was.Values {}
    refusal := Transfer(db, sender, tx);
    if refusal.Some? {
      RecordsAre(db.accounts, c.accounts);
      NothingMoved(was, c, tx, env);
      return;
    }
    Charge(db, tx.sender, sender, tx.maxFee);
    SettledEffect(was, c, db.accounts, tx, env);
  }

  /** A registration, or any other transaction that names no recipient: only the sender's object changes. */
  method ChargeOnly(db: InMemoryState, sender: AccountObject, tx: Transaction, env: Env) returns (refusal: Option<TxError>)
    requires db.Valid() && !IsTransfer(tx) && TxRefusal(db.View().accounts, tx, env).None? && db.accounts[tx.sender] == sender
    modifies db, sender
    ensures db.Valid() && db.accounts == old(db.accounts) && db.saved == old(db.saved) && db.kept == old(db.kept)
    ensures var r := ApplyAny(old(db.View()), tx, env);
            && refusal == r.refusal && db.kvstore == r.contents.kv
            && r.contents.accounts == old(db.View().accounts)[tx.sender := sender.record]
    ensures Effect(old(db.accounts), old(db.View()), db.accounts, db.View().accounts, tx, env)
  {
    hide Records, ReadRegistration, EntriesAfter, RegistrationError, Effect;
    RecordsOf(db.accounts);
    ghost var c, was := db.View(), db.accounts;
    forall a | a in was ensures was[a] in was.Values {}
    RegisterAtMost(c, tx, env);
    refusal := None;
    if IsRegistration(tx) {
      refusal := Enter(db, sender, tx, env);
    }
    if refusal.None? {
      Charge(db, tx.sender, sender, tx.maxFee);
    }
    SenderEffect(was, c, tx, env);
  }

  lemma RegisterAtMost(c: Contents, tx: Transaction, env: Env)
    requires TxRefusal(c.accounts, tx, env).None?
    ensures var r := Register(c, tx, env);
            && r.contents.accounts == c.accounts[tx.sender := r.contents.accounts[tx.sender]]
            && (r.refusal.None? ==> tx.maxFee <= r.contents.accounts[tx.sender].balance)
            && r.contents.accounts[tx.sender].nonce == c.accounts[tx.sender].nonce
  {
    hide ReadRegistration, EntriesAfter;
  }

  /**
   ApplyTransaction, for transactions of every type and stores in which addresses may share objects:
   refused or accepted as ApplyAny says, with its entries and its effect on the objects. When every
   address has an object of its own, the contents are those of ApplyAny.
   */
  method ApplyTransaction(db: InMemoryState, tx: Transaction, env: Env) returns (refusal: Option<TxError>)
    requires db.Valid()
    modifies db, db.accounts.Values
    ensures db.Valid() && db.saved == old(db.saved) && db.kept == old(db.kept)
    ensures forall o | o in db.accounts.Values && o !in old(db.accounts.Values) :: fresh(o)
    ensures var r := ApplyAny(old(db.View()), tx, env); refusal == r.refusal && db.kvstore == r.contents.kv
    ensures Effect(old(db.accounts), old(db.View()), db.accounts, db.View().accounts, tx, env)
    ensures old(Unshared(db.accounts)) ==>
              Unshared(db.accounts) && db.View() == ApplyAny(old(db.View()), tx, env).contents
  {
    hide FromBE, Records, TransferAmount, ReadRegistration, Register, Effect, ApplyTx;
    RecordsOf(db.accounts);
    ghost var c, was := db.View(), db.accounts;
    if TxRefusal(c.accounts, tx, env).Some? { NothingMoved(was, c, tx, env); }
    if !ValidTx(tx, env) { return Some(Invalid); }
    var found := db.GetAccount(tx.sender);
    if found.None? { return Some(NoSender); }
    var sender := found.value;
    assert sender in db.accounts.Values;
    if !env.verify(sender.record.publicKey, tx.intentID, tx.signature) { return Some(BadTxSignature); }
    if tx.nonce != Wrap64(sender.record.nonce + 1) { return Some(NonceMismatch); }
    if sender.record.balance < tx.maxFee { return Some(FeeTooHigh); }
    if IsTransfer(tx) {
      refusal := PayAndCharge(db, sender, tx, env);
    } else {
      refusal := ChargeOnly(db, sender, tx, env);
    }
    if Unshared(was) {
      EffectUnshared(was, c, db.accounts, db.View().accounts, tx, env);
    }
  }
}

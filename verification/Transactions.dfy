/** Transactions, their binary form, and what a transfer does to the accounts. */
module Transactions {
  import opened Basics
  import opened MapSum
  import opened Wire
  import opened Accounts

  const TX_STANDARD: byte := 0
  const TX_REGISTRATION: byte := 3

  datatype Transaction = Transaction(
    version: u16,
    chainID: u32,
    intentID: Hash,
    sender: Address,
    nonce: u64,
    payload: Bytes,
    constraints: Bytes,
    maxFee: u64,
    gasLimit: u64,
    timestamp: u64,
    signature: Bytes,
    txType: byte)

  // ----- binary form -----

  /** Transaction.Encode succeeds. */
  predicate Encodable(tx: Transaction)
  {
    |tx.payload| <= MAX_VAR_BYTES && |tx.constraints| <= MAX_VAR_BYTES && |tx.signature| <= 255
  }

  function PutTransaction(tx: Transaction, rest: Bytes): Bytes
    requires Encodable(tx)
  {
    PutHead(tx, PutVarBytes(tx.payload, PutVarBytes(tx.constraints, PutTail(tx, rest))))
  }

  function PutHead(tx: Transaction, rest: Bytes): Bytes
  {
    PutU16(tx.version, PutU32(tx.chainID, PutBytes(tx.intentID, PutBytes(tx.sender, PutU64(tx.nonce, rest)))))
  }

  function PutTail(tx: Transaction, rest: Bytes): Bytes
    requires |tx.signature| <= 255
  {
    PutU64(tx.maxFee, PutU64(tx.gasLimit, PutU64(tx.timestamp,
    PutU8(|tx.signature|, PutBytes(tx.signature, PutU8(tx.txType, rest))))))
  }

  datatype Tail = Tail(maxFee: u64, gasLimit: u64, timestamp: u64, signature: Bytes, txType: byte)

  function ReadTransaction(data: Bytes): Read<Transaction>
  {
    var (version, data) :- ReadU16(data);
    var (chainID, data) :- ReadU32(data);
    var (intentID, data) :- ReadHash(data);
    var (sender, data) :- ReadAddress(data);
    var (nonce, data) :- ReadU64(data);
    var (payload, data) :- ReadVarBytes(data);
    var (constraints, data) :- ReadVarBytes(data);
    var (t, data) :- ReadTail(data);
    Got(Transaction(version, chainID, intentID, sender, nonce, payload, constraints,
                    t.maxFee, t.gasLimit, t.timestamp, t.signature, t.txType), data)
  }

  /** The type byte is optional: old transactions end with the signature. */
  function ReadTail(data: Bytes): Read<Tail>
  {
    var (maxFee, data) :- ReadU64(data);
    var (gasLimit, data) :- ReadU64(data);
    var (timestamp, data) :- ReadU64(data);
    var (sigLen, data) :- ReadU8(data);
    var (signature, data) :- ReadFull(data, sigLen);
    if data == [] then Got(Tail(maxFee, gasLimit, timestamp, signature, TX_STANDARD), data) else
      var (txType, data) :- ReadU8(data);
      Got(Tail(maxFee, gasLimit, timestamp, signature, txType), data)
  }

  lemma TailRoundTrip(tx: Transaction, rest: Bytes)
    requires |tx.signature| <= 255
    ensures ReadTail(PutTail(tx, rest)) ==
            Got(Tail(tx.maxFee, tx.gasLimit, tx.timestamp, tx.signature, tx.txType), rest)
  {
    hide PutUint, ReadUint, PutBytes;
    var r5 := PutU8(tx.txType, rest);
    var r4 := PutBytes(tx.signature, r5);
    var r3 := PutU8(|tx.signature|, r4);
    var r2 := PutU64(tx.timestamp, r3);
    assert ReadU64(PutU64(tx.gasLimit, r2)) == Got(tx.gasLimit, r2);
  }

  /** An encoded transaction reads back whole, whatever follows it in the stream. */
  lemma TransactionRoundTrip(tx: Transaction, rest: Bytes)
    requires Encodable(tx)
    ensures ReadTransaction(PutTransaction(tx, rest)) == Got(tx, rest)
  {
    hide PutUint, ReadUint, PutBytes, PutVarBytes, ReadVarBytes, PutTail, ReadTail;
    TailRoundTrip(tx, rest);
    var r7 := PutTail(tx, rest);
    var r6 := PutVarBytes(tx.constraints, r7);
    var r5 := PutVarBytes(tx.payload, r6);
    var r4 := PutU64(tx.nonce, r5);
    var r3 := PutBytes(tx.sender, r4);
    var r2 := PutBytes(tx.intentID, r3);
    var r1 := PutU32(tx.chainID, r2);
    assert ReadHash(r2) == Got(tx.intentID, r3);
    assert ReadAddress(r3) == Got(tx.sender, r4);
  }

  predicate IsRegistration(tx: Transaction)
  {
    tx.txType == TX_REGISTRATION
  }

  /** The payload of a validator registration. */
  datatype Registration = Registration(address: Address, key: PubKey, stake: u64, commission: u64)

  function PutRegistration(m: Registration, rest: Bytes): Bytes
  {
    PutBytes(m.address, PutBytes(m.key, PutU64(m.stake, PutU64(m.commission, rest))))
  }

  function ReadRegistration(data: Bytes): Read<Registration>
  {
    var (address, data) :- ReadAddress(data);
    var (key, data) :- ReadHash(data);
    var (stake, data) :- ReadU64(data);
    var (commission, data) :- ReadU64(data);
    Got(Registration(address, key, stake, commission), data)
  }

  /** A registration reads back from its encoding, whatever follows it. */
  lemma RegistrationRoundTrip(m: Registration, rest: Bytes)
    ensures ReadRegistration(PutRegistration(m, rest)) == Got(m, rest)
  {
    hide PutUint, ReadUint, PutBytes;
    var r3 := PutU64(m.commission, rest);
    var r2 := PutU64(m.stake, r3);
    var r1 := PutBytes(m.key, r2);
    assert ReadAddress(PutBytes(m.address, r1)) == Got(m.address, r1) && ReadHash(r1) == Got(m.key, r2);
    assert ReadU64(r2) == Got(m.stake, r3);
  }

  // ----- applying -----

  /** Signature verification, the clock and SHA-256, shared by everyone who applies a transaction. */
  datatype Env = Env(verify: (PubKey, Hash, Bytes) -> bool, timely: u64 -> bool, hash: Bytes -> Hash)

  /** Transaction.Validate. */
  predicate ValidTx(tx: Transaction, env: Env)
  {
    tx.nonce != 0 && tx.signature != [] && env.timely(tx.timestamp) && tx.maxFee != 0
  }

  datatype TxError =
    | Invalid | NoSender | BadTxSignature | NonceMismatch | FeeTooHigh | TransferTooHigh | RecipientOverflow
    | RegUndecodable | RegForeign | RegStakeLow | RegCommissionHigh | RegUnaffordable | RegTaken | Panicked

  /** A payload of 28 bytes or more names a recipient and an amount. */
  predicate IsTransfer(tx: Transaction)
  {
    tx.txType == TX_STANDARD && |tx.payload| >= 28
  }

  function Recipient(tx: Transaction): Address
    requires IsTransfer(tx)
  {
    tx.payload[..20]
  }

  function TransferAmount(tx: Transaction): u64
    requires IsTransfer(tx)
  {
    Pow256Values();
    FromBEBound(tx.payload[20..28]);
    FromBE(tx.payload[20..28])
  }

  /** Why a transfer is refused once its sender can pay the fee. */
  function TransferRefusal(accounts: map<Address, Account>, tx: Transaction): Option<TxError>
    requires IsTransfer(tx) && tx.sender in accounts
  {
    var to := Recipient(tx);
    if accounts[tx.sender].balance < tx.maxFee + TransferAmount(tx) then Some(TransferTooHigh)
    else if to in accounts && accounts[to].balance + TransferAmount(tx) >= U128 then Some(RecipientOverflow)
    else None
  }

  /** Why ApplyTransaction refuses, in the order it looks; a registration has further checks of its own. */
  function TxRefusal(accounts: map<Address, Account>, tx: Transaction, env: Env): Option<TxError>
  {
    if !ValidTx(tx, env) then Some(Invalid)
    else if tx.sender !in accounts then Some(NoSender)
    else
      var sender := accounts[tx.sender];
      if !env.verify(sender.publicKey, tx.intentID, tx.signature) then Some(BadTxSignature)
      else if tx.nonce != Wrap64(sender.nonce + 1) then Some(NonceMismatch)
      else if sender.balance < tx.maxFee then Some(FeeTooHigh)
      else if IsTransfer(tx) then TransferRefusal(accounts, tx)
      else None
  }

  /** The accounts after the amount has changed hands; paying oneself changes nothing. */
  function Paid(accounts: map<Address, Account>, tx: Transaction): (r: map<Address, Account>)
    requires IsTransfer(tx) && tx.sender in accounts && TransferRefusal(accounts, tx).None?
    ensures tx.sender in r && r[tx.sender].balance >= tx.maxFee
    ensures r[tx.sender].nonce == accounts[tx.sender].nonce
  {
    var to, amount, sender := Recipient(tx), TransferAmount(tx), accounts[tx.sender];
    if to == tx.sender then accounts else
      var recipient := if to in accounts then accounts[to] else NewAccount(to, ZERO_KEY);
      accounts[to := recipient.(balance := recipient.balance + amount)][tx.sender := sender.(balance := sender.balance - amount)]
  }

  function Charged(accounts: map<Address, Account>, a: Address, fee: u64): map<Address, Account>
    requires a in accounts && fee <= accounts[a].balance
  {
    accounts[a := accounts[a].(balance := accounts[a].balance - fee, nonce := Wrap64(accounts[a].nonce + 1))]
  }

  /** The accounts after an accepted transaction that is no validator registration. */
  function ApplyTx(accounts: map<Address, Account>, tx: Transaction, env: Env): map<Address, Account>
    requires TxRefusal(accounts, tx, env).None?
  {
    Charged(if IsTransfer(tx) then Paid(accounts, tx) else accounts, tx.sender, tx.maxFee)
  }

  /** A standard payload is a transfer if it has room for 20 bytes of recipient and 8 of amount. */
  lemma TransferReads(tx: Transaction, to: Address, amount: u64, rest: Bytes)
    requires tx.txType == 0 && tx.payload == to + PutU64(amount, rest)
    ensures IsTransfer(tx) && Recipient(tx) == to && TransferAmount(tx) == amount
  {
    hide PutUint, FromBE, BE;
    var data := PutU64(amount, rest);
    assert ReadU64(data) == Got(amount, rest);
    assert tx.payload[20..28] == data[..8] && tx.payload[..20] == to;
  }

  /** The sender of a well-formed, timely transaction, whose nonce is next, signed it and can pay everything it asks for. */
  ghost predicate Sendable(accounts: map<Address, Account>, tx: Transaction, env: Env)
  {
    && tx.nonce > 0 && tx.maxFee > 0 && |tx.signature| > 0 && env.timely(tx.timestamp)
    && tx.sender in accounts
    && env.verify(accounts[tx.sender].publicKey, tx.intentID, tx.signature)
    && tx.nonce == accounts[tx.sender].nonce + 1
    && accounts[tx.sender].balance >= tx.maxFee + (if IsTransfer(tx) then TransferAmount(tx) else 0)
    && (IsTransfer(tx) ==> BalanceAt(accounts, Recipient(tx)) + TransferAmount(tx) < U128)
  }

  lemma AcceptedExactly(accounts: map<Address, Account>, tx: Transaction, env: Env)
    ensures TxRefusal(accounts, tx, env).None? <==> Sendable(accounts, tx, env)
  {
    hide FromBE, Wrap64;
    WrapNext(accounts, tx);
  }

  lemma WrapNext(accounts: map<Address, Account>, tx: Transaction)
    ensures tx.sender in accounts && tx.nonce > 0 ==>
              (tx.nonce == Wrap64(accounts[tx.sender].nonce + 1) <==> tx.nonce == accounts[tx.sender].nonce + 1)
  {
  }

  /** An accepted transaction moves the fee out, the amount across and the sender's nonce on by one, and touches no one else. */
  lemma AppliedMeans(accounts: map<Address, Account>, tx: Transaction, env: Env, a: Address)
    requires TxRefusal(accounts, tx, env).None?
    ensures var after := ApplyTx(accounts, tx, env);
            var amount := if IsTransfer(tx) then TransferAmount(tx) else 0;
            && BalanceAt(after, a) == BalanceAt(accounts, a) - (if a == tx.sender then tx.maxFee + amount else 0)
                                      + (if IsTransfer(tx) && a == Recipient(tx) then amount else 0)
            && (a in after <==> a in accounts || (IsTransfer(tx) && a == Recipient(tx)))
            && (a in accounts ==> after[a] == accounts[a].(balance := after[a].balance, nonce := after[a].nonce))
            && (a in accounts ==> after[a].nonce == accounts[a].nonce + if a == tx.sender then 1 else 0)
  {
    hide FromBE, Wrap64;
    WrapNext(accounts, tx);
  }

  lemma PaidConserves(accounts: map<Address, Account>, tx: Transaction)
    requires IsTransfer(tx) && tx.sender in accounts && TransferRefusal(accounts, tx).None?
    ensures Held(Paid(accounts, tx)) == Held(accounts)
  {
    hide Held, FromBE;
    var to, amount, sender := Recipient(tx), TransferAmount(tx), accounts[tx.sender];
    if to != tx.sender {
      var recipient := if to in accounts then accounts[to] else NewAccount(to, ZERO_KEY);
      var paid := accounts[to := recipient.(balance := recipient.balance + amount)];
      HeldAfterWrite(accounts, to, recipient.(balance := recipient.balance + amount));
      HeldAfterWrite(paid, tx.sender, sender.(balance := sender.balance - amount));
    }
  }

  /** A transaction takes exactly its fee out of circulation. */
  lemma ApplyTxConserves(accounts: map<Address, Account>, tx: Transaction, env: Env)
    requires TxRefusal(accounts, tx, env).None?
    ensures Held(ApplyTx(accounts, tx, env)) == Held(accounts) - tx.maxFee
  {
    hide Held, Paid, TransferRefusal;
    if IsTransfer(tx) { PaidConserves(accounts, tx); }
    var m := if IsTransfer(tx) then Paid(accounts, tx) else accounts;
    var acc := m[tx.sender];
    HeldAfterWrite(m, tx.sender, acc.(balance := acc.balance - tx.maxFee, nonce := Wrap64(acc.nonce + 1)));
  }

  // ----- the transactions of a block -----

  function Fees(txs: seq<Transaction>): nat
  {
    if txs == [] then 0 else Fees(txs[..|txs| - 1]) + txs[|txs| - 1].maxFee
  }

  lemma NoFees()
    ensures Wrap64(Fees([])) == 0
  {
  }

  /** Accounts after the first n transactions; a refusal stops the block. */
  datatype Execution = Execution(accounts: map<Address, Account>, applied: nat, error: Option<TxError>)

  function ExecuteAll(accounts: map<Address, Account>, txs: seq<Transaction>, n: nat, env: Env): (x: Execution)
    requires n <= |txs|
    ensures x.applied <= n && (x.error.None? ==> x.applied == n)
  {
    if n == 0 then Execution(accounts, 0, None) else
      var x := ExecuteAll(accounts, txs, n - 1, env);
      if x.error.Some? then x else
        var refusal := TxRefusal(x.accounts, txs[n - 1], env);
        if refusal.Some? then Execution(x.accounts, n - 1, refusal)
        else Execution(ApplyTx(x.accounts, txs[n - 1], env), n, None)
  }

  /** However far execution got, exactly the fees of the applied transactions are gone. */
  lemma {:induction false} ExecuteConserves(accounts: map<Address, Account>, txs: seq<Transaction>, n: nat, env: Env)
    requires n <= |txs|
    ensures var x := ExecuteAll(accounts, txs, n, env);
            Held(x.accounts) + Fees(txs[..x.applied]) == Held(accounts)
  {
    hide Held, TxRefusal, ApplyTx;
    if n > 0 {
      ExecuteConserves(accounts, txs, n - 1, env);
      var x := ExecuteAll(accounts, txs, n - 1, env);
      if x.error.None? && TxRefusal(x.accounts, txs[n - 1], env).None? {
        ApplyTxConserves(x.accounts, txs[n - 1], env);
        assert txs[..n][..n - 1] == txs[..n - 1];
      }
    }
  }

  /** After a refusal nothing more happens. */
  lemma {:induction false} Refused(accounts: map<Address, Account>, txs: seq<Transaction>, n: nat, m: nat, env: Env)
    requires n <= m <= |txs| && ExecuteAll(accounts, txs, n, env).error.Some?
    ensures ExecuteAll(accounts, txs, m, env) == ExecuteAll(accounts, txs, n, env)
    decreases m
  {
    hide TxRefusal, ApplyTx;
    if n < m { Refused(accounts, txs, n, m - 1, env); }
  }
}

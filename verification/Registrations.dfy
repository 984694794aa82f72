/**
 Validator registrations inside ApplyTransaction: they take the stake from the sender and write
 entries of their own next to the accounts. With them, what any transaction does to the store.
 */
module Registrations {
  import opened Basics
  import opened Wire
  import opened Accounts
  import opened StateStore
  import opened Transactions
  import Base58

  // ----- the entries -----

  function Ascii(s: string): (b: Bytes)
    ensures |b| == |s| && forall i :: 0 <= i < |s| ==> b[i] == (s[i] as int) % 256
  {
    seq(|s|, i requires 0 <= i < |s| => (s[i] as int) % 256)
  }

  function HexDigit(d: nat): (c: byte)
    requires d < 16
    ensures 48 <= c <= 57 || 97 <= c <= 102
  {
    if d < 10 then 48 + d else 87 + d
  }

  function Hex(b: Bytes): (t: Bytes)
    ensures |t| == 2 * |b| && forall i :: 0 <= i < |t| ==> 48 <= t[i] <= 57 || 97 <= t[i] <= 102
  {
    if b == [] then [] else [HexDigit(b[0] / 16), HexDigit(b[0] % 16)] + Hex(b[1..])
  }

  /** DeriveConsensusIDFromBytes. */
  function ConsensusID(key: PubKey, hash: Bytes -> Hash): Address
  {
    hash(key)[..20]
  }

  function ValidatorKey(id: Address): Bytes { Ascii("validator/") + Hex(id) }
  function KeyIndexKey(key: PubKey): Bytes { Ascii("validator/pubkey/") + Hex(key) }
  function OperatorIndexKey(a: Address, hash: Bytes -> Hash): Bytes { Ascii("validator/operator/") + Base58.AddressText(a, hash) }
  function CountKey(): Bytes { Ascii("validator/count") }
  function TotalKey(): Bytes { Ascii("staking/total_bonded") }
  function EpochKey(): Bytes { Ascii("epoch/current") }

  /** Where a registration's record goes. */
  function Slot(m: Registration, env: Env): Bytes
  {
    ValidatorKey(ConsensusID(m.key, env.hash))
  }

  /** Go's Uint64 panics on fewer than eight bytes. */
  predicate Readable(kv: map<Bytes, Bytes>, k: Bytes)
  {
    k in kv ==> |kv[k]| >= 8
  }

  function Counter(kv: map<Bytes, Bytes>, k: Bytes): u64
    requires Readable(kv, k)
  {
    if k !in kv then 0 else
      Pow256Values();
      FromBEBound(kv[k][..8]);
      FromBE(kv[k][..8])
  }

  /** An entry of more than 16 bytes is no amount; the error is dropped and zero is left. */
  function BondedTotal(kv: map<Bytes, Bytes>): Amount
  {
    if TotalKey() !in kv || |kv[TotalKey()]| > 16 then 0 else
      AmountBound(kv[TotalKey()]);
      FromBE(kv[TotalKey()])
  }

  lemma AmountBound(b: Bytes)
    requires |b| <= 16
    ensures FromBE(b) < U128
  {
    FromBEBound(b);
    PowGrows(|b|, 16);
    Pow256Values();
  }

  lemma {:induction false} PowGrows(m: nat, n: nat)
    requires m <= n
    ensures Pow256(m) <= Pow256(n)
    decreases n
  {
    if m < n { PowGrows(m, n - 1); }
  }

  function PadRight(b: Bytes, n: nat): Bytes
  {
    if |b| < n then b + Zeros(n - |b|) else b
  }

  /** Key, operator, stake, commission, status and activation epoch. */
  function RecordBytes(m: Registration, sender: Address, activation: u64): Bytes
  {
    m.key + sender + PadRight(Base58.MinBE(m.stake), 16) + BE(m.commission % U16, 2) + [0] + BE(activation, 8)
  }

  /** The record and the two indexes. */
  function Enrolled(kv: map<Bytes, Bytes>, m: Registration, sender: Address, env: Env): map<Bytes, Bytes>
    requires Readable(kv, EpochKey())
  {
    var id := ConsensusID(m.key, env.hash);
    kv[ValidatorKey(id) := RecordBytes(m, sender, Wrap64(Counter(kv, EpochKey()) + 1))]
      [KeyIndexKey(m.key) := id][OperatorIndexKey(sender, env.hash) := id]
  }

  function Numbered(kv: map<Bytes, Bytes>): map<Bytes, Bytes>
    requires Readable(kv, CountKey())
  {
    kv[CountKey() := BE(Wrap64(Counter(kv, CountKey()) + 1), 8)]
  }

  // ----- registering -----

  const MIN_STAKE: nat := 100_000
  const MAX_COMMISSION_BP: nat := 10_000

  /** What a transaction leaves behind, and why it was refused if it was. */
  datatype Applied = Applied(contents: Contents, refusal: Option<TxError>)

  /** What is wrong with a registration before anything is written. */
  function RegistrationError(c: Contents, tx: Transaction): Option<TxError>
    requires tx.sender in c.accounts
  {
    var m := ReadRegistration(tx.payload);
    if m.Fail? then Some(RegUndecodable)
    else if m.value.address != tx.sender then Some(RegForeign)
    else if m.value.stake < MIN_STAKE then Some(RegStakeLow)
    else if m.value.commission > MAX_COMMISSION_BP then Some(RegCommissionHigh)
    else if c.accounts[tx.sender].balance < tx.maxFee + m.value.stake then Some(RegUnaffordable)
    else None
  }

  /** The entries after a registration whose checks passed, and how it ended. */
  function EntriesAfter(kv: map<Bytes, Bytes>, m: Registration, sender: Address, env: Env): (map<Bytes, Bytes>, Option<TxError>)
  {
    if Slot(m, env) in kv then (kv, Some(RegTaken))
    else if !Readable(kv, EpochKey()) then (kv, Some(Panicked))
    else
      var kv1 := Enrolled(kv, m, sender, env);
      if !Readable(kv1, CountKey()) then (kv1, Some(Panicked)) else
        var kv2 := Numbered(kv1);
        if BondedTotal(kv2) + m.stake >= U128 then (kv2, Some(Panicked))
        else (kv2[TotalKey() := Base58.MinBE(BondedTotal(kv2) + m.stake)], None)
  }

  function Debited(accounts: map<Address, Account>, a: Address, amount: u64): map<Address, Account>
    requires a in accounts && amount <= accounts[a].balance
  {
    accounts[a := accounts[a].(balance := accounts[a].balance - amount)]
  }

  /** The registration branch, before the fee. The stake is gone before the duplicate check. */
  function Register(c: Contents, tx: Transaction, env: Env): Applied
    requires tx.sender in c.accounts
  {
    var refusal := RegistrationError(c, tx);
    if refusal.Some? then Applied(c, refusal) else
      var m := ReadRegistration(tx.payload).value;
      var (kv, e) := EntriesAfter(c.kv, m, tx.sender, env);
      Applied(Contents(Debited(c.accounts, tx.sender, m.stake), kv), e)
  }

  /** ApplyTransaction, for every type of transaction. */
  function ApplyAny(c: Contents, tx: Transaction, env: Env): Applied
  {
    var refusal := TxRefusal(c.accounts, tx, env);
    if refusal.Some? then Applied(c, refusal)
    else if !IsRegistration(tx) then Applied(Contents(ApplyTx(c.accounts, tx, env), c.kv), None)
    else
      var r := Register(c, tx, env);
      if r.refusal.Some? then r
      else Applied(Contents(Charged(r.contents.accounts, tx.sender, tx.maxFee), r.contents.kv), None)
  }

  // ----- what it means -----

  /** The stake leaves the sender: the transaction is a registration that passes every check made before. */
  predicate StakeTaken(c: Contents, tx: Transaction, env: Env)
  {
    TxRefusal(c.accounts, tx, env).None? && IsRegistration(tx) && RegistrationError(c, tx).None?
  }

  function TakenBy(c: Contents, tx: Transaction, env: Env): u64
  {
    if StakeTaken(c, tx, env) then ReadRegistration(tx.payload).value.stake else 0
  }

  /** A refused transaction leaves no trace exactly when its stake was not taken. */
  lemma RefusedTraceless(c: Contents, tx: Transaction, env: Env)
    requires ApplyAny(c, tx, env).refusal.Some?
    ensures ApplyAny(c, tx, env).contents == c <==> !StakeTaken(c, tx, env)
  {
    hide ReadRegistration, EntriesAfter, ApplyTx;
    if StakeTaken(c, tx, env) {
      assert ApplyAny(c, tx, env).contents.accounts[tx.sender].balance < c.accounts[tx.sender].balance;
    }
  }

  /** Accounts lose the fee of an accepted transaction and the stake of a registration, accepted or not. */
  lemma ApplyAnyConserves(c: Contents, tx: Transaction, env: Env)
    ensures var r := ApplyAny(c, tx, env);
            Held(r.contents.accounts) + TakenBy(c, tx, env) + (if r.refusal.None? then tx.maxFee else 0) == Held(c.accounts)
  {
    hide Held, ReadRegistration, EntriesAfter, ApplyTx, TransferRefusal;
    if TxRefusal(c.accounts, tx, env).None? {
      if !IsRegistration(tx) {
        ApplyTxConserves(c.accounts, tx, env);
      } else if RegistrationError(c, tx).None? {
        RegisterConserves(c, tx, env);
      } else {
      }
    }
  }

  lemma RegisterConserves(c: Contents, tx: Transaction, env: Env)
    requires StakeTaken(c, tx, env)
    ensures var r := ApplyAny(c, tx, env);
            Held(r.contents.accounts) + TakenBy(c, tx, env) + (if r.refusal.None? then tx.maxFee else 0) == Held(c.accounts)
  {
    hide Held, ReadRegistration, EntriesAfter, TransferRefusal;
    var m, acc := ReadRegistration(tx.payload).value, c.accounts[tx.sender];
    var paid := acc.(balance := acc.balance - m.stake);
    HeldAfterWrite(c.accounts, tx.sender, paid);
    var debited := Debited(c.accounts, tx.sender, m.stake);
    HeldAfterWrite(debited, tx.sender, paid.(balance := paid.balance - tx.maxFee, nonce := Wrap64(paid.nonce + 1)));
  }

  // ----- the transactions of a block -----

  /** The store after the first n transactions; a refusal stops the block where it is. */
  datatype BlockRun = BlockRun(contents: Contents, applied: nat, error: Option<TxError>)

  function RunAll(c: Contents, txs: seq<Transaction>, n: nat, env: Env): (x: BlockRun)
    requires n <= |txs|
    ensures x.applied <= n && (x.error.None? ==> x.applied == n)
  {
    if n == 0 then BlockRun(c, 0, None) else
      var x := RunAll(c, txs, n - 1, env);
      if x.error.Some? then x else
        var r := ApplyAny(x.contents, txs[n - 1], env);
        BlockRun(r.contents, if r.refusal.None? then n else n - 1, r.refusal)
  }

  /** The stakes that the first n transactions took. */
  function TakenByAll(c: Contents, txs: seq<Transaction>, n: nat, env: Env): nat
    requires n <= |txs|
  {
    if n == 0 then 0 else
      var x := RunAll(c, txs, n - 1, env);
      TakenByAll(c, txs, n - 1, env) + if x.error.Some? then 0 else TakenBy(x.contents, txs[n - 1], env)
  }

  /** However far a block gets, accounts have lost the fees of what was applied and the stakes that were taken. */
  lemma {:induction false} RunAllConserves(c: Contents, txs: seq<Transaction>, n: nat, env: Env)
    requires n <= |txs|
    ensures var x := RunAll(c, txs, n, env);
            Held(x.contents.accounts) + Fees(txs[..x.applied]) + TakenByAll(c, txs, n, env) == Held(c.accounts)
  {
    hide Held, ApplyAny, TakenBy;
    if n > 0 {
      RunAllConserves(c, txs, n - 1, env);
      var x := RunAll(c, txs, n - 1, env);
      if x.error.None? {
        ApplyAnyConserves(x.contents, txs[n - 1], env);
        assert txs[..n][..n - 1] == txs[..n - 1];
      }
    }
  }

  /** A block without registrations does to the accounts what its transfers do, and nothing to the entries. */
  lemma {:induction false} TransfersOnly(c: Contents, txs: seq<Transaction>, n: nat, env: Env)
    requires n <= |txs| && forall i :: 0 <= i < n ==> !IsRegistration(txs[i])
    ensures var x := ExecuteAll(c.accounts, txs, n, env);
            RunAll(c, txs, n, env) == BlockRun(Contents(x.accounts, c.kv), x.applied, x.error)
  {
    hide TxRefusal, ApplyTx, Register;
    if n > 0 { TransfersOnly(c, txs, n - 1, env); }
  }

  lemma {:induction false} RunStops(c: Contents, txs: seq<Transaction>, n: nat, m: nat, env: Env)
    requires n <= m <= |txs| && RunAll(c, txs, n, env).error.Some?
    ensures RunAll(c, txs, m, env) == RunAll(c, txs, n, env)
    decreases m
  {
    hide ApplyAny;
    if n < m { RunStops(c, txs, n, m - 1, env); }
  }

  // ----- the entries of a registration -----

  /** The first letters of the keys. */
  lemma KeyStarts(id: Address, key: PubKey, a: Address, hash: Bytes -> Hash)
    ensures var k := ValidatorKey(id);
            |k| > 11 && k[0] == 118 && (48 <= k[10] <= 57 || 97 <= k[10] <= 102) && (48 <= k[11] <= 57 || 97 <= k[11] <= 102)
    ensures var k := KeyIndexKey(key); |k| > 11 && k[0] == 118 && k[10] == 112
    ensures var k := OperatorIndexKey(a, hash); |k| > 11 && k[0] == 118 && k[10] == 111
  {
    var h := Hex(id);
    assert ValidatorKey(id)[10] == h[0] && ValidatorKey(id)[11] == h[1];
  }

  lemma CounterStarts()
    ensures |CountKey()| > 11 && CountKey()[0] == 118 && CountKey()[10] == 99 && CountKey()[11] == 111
    ensures |TotalKey()| > 0 && TotalKey()[0] == 115 && |EpochKey()| > 0 && EpochKey()[0] == 101
  {
  }

  /** Entries of different kinds have different keys. */
  lemma KeysApart(id: Address, key: PubKey, a: Address, hash: Bytes -> Hash)
    ensures ValidatorKey(id) !in {KeyIndexKey(key), OperatorIndexKey(a, hash), CountKey(), TotalKey(), EpochKey()}
    ensures {KeyIndexKey(key), OperatorIndexKey(a, hash)} !! {CountKey(), TotalKey(), EpochKey()}
    ensures CountKey() != TotalKey() && TotalKey() != EpochKey() && CountKey() != EpochKey()
  {
    hide ValidatorKey, KeyIndexKey, OperatorIndexKey, CountKey, TotalKey, EpochKey;
    KeyStarts(id, key, a, hash);
    CounterStarts();
  }

  lemma AmountKept(kv: map<Bytes, Bytes>, x: Amount)
    ensures BondedTotal(kv[TotalKey() := Base58.MinBE(x)]) == x
  {
    hide TotalKey;
    Pow256Values();
    Base58.MinBELength(x, 16);
    Base58.FromMinBE(x);
  }

  /** What a registration does to the entries that later ones look at. */
  lemma EntriesStep(kv: map<Bytes, Bytes>, m: Registration, sender: Address, env: Env)
    requires EntriesAfter(kv, m, sender, env).1.None?
    ensures var later := EntriesAfter(kv, m, sender, env).0;
            && (forall id: Address :: ValidatorKey(id) in later <==> ValidatorKey(id) in kv || ValidatorKey(id) == Slot(m, env))
            && (EpochKey() in later <==> EpochKey() in kv) && (EpochKey() in kv ==> later[EpochKey()] == kv[EpochKey()])
            && Readable(kv, CountKey()) && Readable(later, CountKey())
            && BondedTotal(later) == BondedTotal(kv) + m.stake
  {
    hide Hex, Ascii, RecordBytes, ValidatorKey, KeyIndexKey, OperatorIndexKey, CountKey, TotalKey, EpochKey, Base58.MinBE, FromBE;
    forall id: Address { KeysApart(id, m.key, sender, env.hash); }
    KeysApart(ConsensusID(m.key, env.hash), m.key, sender, env.hash);
    var kv2 := Numbered(Enrolled(kv, m, sender, env));
    assert BondedTotal(kv2) == BondedTotal(kv);
    AmountKept(kv2, BondedTotal(kv2) + m.stake);
  }

  /** The record of a registration: 79 bytes, with the stake left-aligned in its 16. */
  lemma RecordLayout(m: Registration, sender: Address, activation: u64)
    ensures var d := RecordBytes(m, sender, activation);
            && |d| == 79 && d[..32] == m.key && d[32..52] == sender
            && Base58.MinBE(m.stake) <= d[52..68] && FromBE(Base58.MinBE(m.stake)) == m.stake
            && d[68..70] == BE(m.commission % U16, 2) && d[70] == 0 && d[71..] == BE(activation, 8)
  {
    hide BE, FromBE, Base58.MinBE;
    Pow256Values();
    PowGrows(8, 16);
    Base58.MinBELength(m.stake, 16);
    Base58.FromMinBE(m.stake);
    var stake := PadRight(Base58.MinBE(m.stake), 16);
    var d := RecordBytes(m, sender, activation);
    assert d == m.key + sender + stake + BE(m.commission % U16, 2) + [0] + BE(activation, 8);
    assert d[52..68] == stake;
  }

  /** An accepted registration files its ID under key and operator, counts it, and changes no other entries but record and total. */
  lemma EntriesMean(kv: map<Bytes, Bytes>, m: Registration, sender: Address, env: Env, k: Bytes)
    requires EntriesAfter(kv, m, sender, env).1.None?
    ensures var later, id: Address := EntriesAfter(kv, m, sender, env).0, env.hash(m.key)[..20];
            && KeyIndexKey(m.key) in later && OperatorIndexKey(sender, env.hash) in later
            && (later[OperatorIndexKey(sender, env.hash)] == later[KeyIndexKey(m.key)] == id)
            && Readable(kv, CountKey()) && CountKey() in later && later[CountKey()] == BE(Wrap64(Counter(kv, CountKey()) + 1), 8)
            && (k !in {ValidatorKey(id), KeyIndexKey(m.key), OperatorIndexKey(sender, env.hash), CountKey(), TotalKey()} ==>
                  (k in later <==> k in kv) && (k in kv ==> later[k] == kv[k]))
  {
    hide Hex, Ascii, RecordBytes, ValidatorKey, KeyIndexKey, OperatorIndexKey, CountKey, TotalKey, EpochKey, Base58.MinBE, FromBE, BE;
    KeysApart(ConsensusID(m.key, env.hash), m.key, sender, env.hash);
  }

  /** When no check and no panic stands in its way, the entries are written. */
  lemma EntriesFit(kv: map<Bytes, Bytes>, m: Registration, sender: Address, env: Env)
    requires Slot(m, env) !in kv && Readable(kv, EpochKey()) && Readable(kv, CountKey()) && BondedTotal(kv) + m.stake < U128
    ensures EntriesAfter(kv, m, sender, env).1.None?
  {
    hide Hex, Ascii, RecordBytes, ValidatorKey, KeyIndexKey, OperatorIndexKey, CountKey, TotalKey, EpochKey, Base58.MinBE, FromBE, Counter, BE;
    KeysApart(ConsensusID(m.key, env.hash), m.key, sender, env.hash);
    var kv2 := Numbered(Enrolled(kv, m, sender, env));
    assert BondedTotal(kv2) == BondedTotal(kv);
  }

  /** An accepted registration is on record, under the ID of its key. */
  lemma Recorded(c: Contents, tx: Transaction, env: Env)
    requires IsRegistration(tx) && ApplyAny(c, tx, env).refusal.None?
    ensures ReadRegistration(tx.payload).Got? && Readable(c.kv, EpochKey())
    ensures var m, kv := ReadRegistration(tx.payload).value, ApplyAny(c, tx, env).contents.kv;
            var k := ValidatorKey(ConsensusID(m.key, env.hash));
            && k !in c.kv && k in kv && kv[k] == RecordBytes(m, tx.sender, Wrap64(Counter(c.kv, EpochKey()) + 1))
  {
    hide ReadRegistration, ValidatorKey, KeyIndexKey, OperatorIndexKey, CountKey, TotalKey, EpochKey, RecordBytes, Counter, BE;
    var m := ReadRegistration(tx.payload).value;
    KeysApart(ConsensusID(m.key, env.hash), m.key, tx.sender, env.hash);
  }

  /**
   Registering the same key again, whoever does it: refused as taken, yet the stake is gone; neither
   the fee is charged nor the nonce used up.
   */
  lemma RegisteredTwice(c: Contents, tx: Transaction, again: Transaction, env: Env)
    requires IsRegistration(tx) && ApplyAny(c, tx, env).refusal.None?
    requires StakeTaken(ApplyAny(c, tx, env).contents, again, env) && ReadRegistration(tx.payload).Got?
    requires ReadRegistration(again.payload).value.key == ReadRegistration(tx.payload).value.key
    ensures var c1 := ApplyAny(c, tx, env).contents;
            ApplyAny(c1, again, env) ==
            Applied(Contents(Debited(c1.accounts, again.sender, ReadRegistration(again.payload).value.stake), c1.kv), Some(RegTaken))
  {
    hide ReadRegistration, ValidatorKey, RecordBytes, TxRefusal;
    Recorded(c, tx, env);
  }
}

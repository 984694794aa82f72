/** Account records, their balances in total, and their fixed 144-byte form. */
module Accounts {
  import opened Basics
  import opened MapSum
  import opened Wire

  datatype Account = Account(
    address: Address,
    balance: Amount,
    nonce: u64,
    storageRoot: Hash,
    codeHash: Hash,
    permissions: u32,
    publicKey: PubKey)

  function NewAccount(a: Address, key: PubKey): Account
  {
    Account(a, 0, 0, ZERO_HASH, ZERO_HASH, 0, key)
  }

  // ----- totals -----

  ghost function Balances(accounts: map<Address, Account>): map<Address, nat>
  {
    map a | a in accounts :: accounts[a].balance
  }

  /** All tokens held in accounts. */
  ghost function Held(accounts: map<Address, Account>): nat
  {
    Sum(Balances(accounts))
  }

  ghost function BalanceAt(accounts: map<Address, Account>, a: Address): nat
  {
    if a in accounts then accounts[a].balance else 0
  }

  /** Writing one account moves the total by exactly the change of its balance. */
  lemma HeldAfterWrite(accounts: map<Address, Account>, a: Address, acc: Account)
    ensures Held(accounts[a := acc]) == Held(accounts) - BalanceAt(accounts, a) + acc.balance
    ensures BalanceAt(accounts, a) <= Held(accounts)
  {
    assert Balances(accounts[a := acc]) == Balances(accounts)[a := acc.balance];
    SumUpdate(Balances(accounts), a, acc.balance);
  }

  // ----- binary form -----

  function PutAccount(a: Account, rest: Bytes): (r: Bytes)
    ensures |r| == 144 + |rest|
  {
    PutBytes(a.address, PutAmount(a.balance, PutU64(a.nonce, PutBytes(a.storageRoot,
    PutBytes(a.codeHash, PutU32(a.permissions, PutBytes(a.publicKey, rest)))))))
  }

  function ReadAccount(data: Bytes): Read<Account>
  {
    var (address, data) :- ReadAddress(data);
    var (balance, data) :- ReadAmount(data);
    var (nonce, data) :- ReadU64(data);
    var (storageRoot, data) :- ReadHash(data);
    var (codeHash, data) :- ReadHash(data);
    var (permissions, data) :- ReadU32(data);
    var (key, data) :- ReadHash(data);
    Got(Account(address, balance, nonce, storageRoot, codeHash, permissions, key), data)
  }

  lemma AccountRoundTrip(a: Account, rest: Bytes)
    ensures ReadAccount(PutAccount(a, rest)) == Got(a, rest)
  {
    hide PutUint, ReadUint, PutBytes;
    var r6 := PutBytes(a.publicKey, rest);
    var r5 := PutU32(a.permissions, r6);
    var r4 := PutBytes(a.codeHash, r5);
    var r3 := PutBytes(a.storageRoot, r4);
    var r2 := PutU64(a.nonce, r3);
    var r1 := PutAmount(a.balance, r2);
    assert ReadAddress(PutBytes(a.address, r1)) == Got(a.address, r1);
    assert ReadHash(r3) == Got(a.storageRoot, r4) && ReadHash(r4) == Got(a.codeHash, r5);
    assert ReadHash(r6) == Got(a.publicKey, rest);
  }

  lemma ReadsInFront(data: Bytes, width: nat)
    requires width <= |data|
    ensures FromBE(data[..width]) < Pow256(width) && BE(FromBE(data[..width]), width) + data[width..] == data
  {
    FromBERoundTrip(data[..width]);
    FromBEBound(data[..width]);
    assert data == data[..width] + data[width..];
  }

  /** Every 144 bytes are some account. */
  lemma AccountShaped(data: Bytes)
    requires |data| == 144
    ensures ReadAccount(data).Got? && PutAccount(ReadAccount(data).value, []) == data
  {
    hide BE, FromBE, Pow256;
    var d1 := data[20..];
    var d2 := d1[16..];
    var d3 := d2[8..];
    var d4 := d3[32..];
    var d5 := d4[32..];
    var d6 := d5[4..];
    ReadsInFront(d1, 16);
    ReadsInFront(d2, 8);
    ReadsInFront(d5, 4);
    assert data == data[..20] + d1 && d3 == d3[..32] + d4 && d4 == d4[..32] + d5 && d6 == d6[..32] + [] && d6[32..] == [];
  }
}

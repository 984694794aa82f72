/**
 The in-memory state store: accounts are heap objects that callers hold pointers to and change in
 place, and snapshots must not notice.
 */
module StateStore {
  import opened Basics
  import opened Accounts

  /** What a *Account points to. */
  class AccountObject {
    var record: Account

    constructor (r: Account)
      ensures record == r
    {
      record := r;
    }

    method AddBalance(amount: Amount) returns (ok: bool)
      modifies this
      ensures ok <==> old(record.balance) + amount < U128
      ensures record == if ok then old(record).(balance := old(record.balance) + amount) else old(record)
    {
      ok := record.balance + amount < U128;
      if ok { record := record.(balance := record.balance + amount); }
    }

    method SubBalance(amount: Amount) returns (ok: bool)
      modifies this
      ensures ok <==> amount <= old(record.balance)
      ensures record == if ok then old(record).(balance := old(record.balance) - amount) else old(record)
    {
      ok := amount <= record.balance;
      if ok { record := record.(balance := record.balance - amount); }
    }

    method IncrementNonce()
      modifies this
      ensures record == old(record).(nonce := Wrap64(old(record.nonce) + 1))
    {
      record := record.(nonce := Wrap64(record.nonce + 1));
    }
  }

  type Objects = map<Address, AccountObject>

  ghost function Records(m: Objects): map<Address, Account>
    reads m.Values
  {
    map a | a in m :: m[a].record
  }

  /** Every address has an account object of its own. */
  ghost predicate Unshared(m: Objects)
  {
    forall a, b :: a in m && b in m && m[a] == m[b] ==> a == b
  }

  datatype Contents = Contents(accounts: map<Address, Account>, kv: map<Bytes, Bytes>)

  datatype Snapshot = Snapshot(accounts: Objects, kv: map<Bytes, Bytes>)

  /** copyAccounts: one new object per address. */
  method CopyAccounts(src: Objects) returns (dst: Objects)
    ensures dst.Keys == src.Keys && fresh(dst.Values) && Unshared(dst)
    ensures Records(dst) == Records(src)
  {
    hide Unshared, Records;
    dst := map[];
    NothingShared();
    ghost var want := Records(src);
    RecordsOf(src);
    var todo := src.Keys;
    while todo != {}
      invariant todo <= src.Keys
      invariant forall a :: a in dst <==> a in src && a !in todo
      invariant Unshared(dst) && forall a :: a in dst ==> fresh(dst[a]) && dst[a].record == want[a]
      decreases |todo|
    {
      var a :| a in todo;
      var copy := new AccountObject(src[a].record);
      OneMoreObject(dst, a, copy);
      dst := dst[a := copy];
      todo := todo - {a};
    }
    AllCopied(src, dst, want);
  }

  lemma AllCopied(src: Objects, dst: Objects, want: map<Address, Account>)
    requires (forall a :: a in dst <==> a in src) && want.Keys == src.Keys && forall a :: a in dst ==> dst[a].record == want[a]
    ensures dst.Keys == src.Keys && Records(dst) == want
  {
  }

  lemma RecordsOf(m: Objects)
    ensures Records(m).Keys == m.Keys && forall a :: a in m ==> Records(m)[a] == m[a].record
  {
  }

  lemma NothingShared()
    ensures Unshared(map[])
  {
  }

  lemma OneMoreObject(m: Objects, a: Address, o: AccountObject)
    requires Unshared(m) && forall b :: b in m ==> m[b] != o
    ensures Unshared(m[a := o])
  {
  }

  class InMemoryState {
    var accounts: Objects
    var kvstore: map<Bytes, Bytes>
    var snapshots: seq<Snapshot>
    /** The contents at the moment each outstanding id was issued. */
    ghost var saved: seq<Contents>
    /** Every account object a caller may hold a pointer to. */
    ghost var handed: set<AccountObject>
    /** The objects inside snapshots. */
    ghost var kept: set<AccountObject>

    ghost function View(): Contents
      reads this, accounts.Values
    {
      Contents(Records(accounts), kvstore)
    }

    ghost predicate Valid()
      reads this, kept
    {
      && accounts.Values <= handed && handed !! kept
      && |saved| == |snapshots|
      && forall i :: 0 <= i < |snapshots| ==>
           && snapshots[i].accounts.Values <= kept
           && saved[i] == Contents(Records(snapshots[i].accounts), snapshots[i].kv)
    }

    constructor ()
      ensures Valid() && View() == Contents(map[], map[]) && saved == [] && handed == {} == kept
    {
      accounts, kvstore, snapshots := map[], map[], [];
      saved, handed, kept := [], {}, {};
    }

    method GetAccount(a: Address) returns (r: Option<AccountObject>)
      requires Valid()
      ensures r == if a in accounts then Some(accounts[a]) else None
      ensures r.Some? ==> r.value in handed
    {
      if a in accounts {
        assert accounts[a] in accounts.Values;
        r := Some(accounts[a]);
      } else {
        r := None;
      }
    }

    method SetAccount(a: Address, acc: AccountObject)
      requires Valid() && acc !in kept
      modifies this
      ensures Valid() && saved == old(saved) && kept == old(kept) && handed == old(handed) + {acc}
      ensures accounts == old(accounts)[a := acc] && kvstore == old(kvstore)
      ensures View() == Contents(old(View()).accounts[a := acc.record], old(kvstore))
    {
      accounts := accounts[a := acc];
      handed := handed + {acc};
    }

    method DeleteAccount(a: Address)
      requires Valid()
      modifies this
      ensures Valid() && saved == old(saved) && kept == old(kept) && handed == old(handed)
      ensures accounts == old(accounts) - {a} && kvstore == old(kvstore)
    {
      accounts := accounts - {a};
    }

    method SetBytes(key: Bytes, value: Bytes)
      requires Valid()
      modifies this
      ensures Valid() && saved == old(saved) && kept == old(kept) && handed == old(handed)
      ensures accounts == old(accounts) && kvstore == old(kvstore)[key := value]
    {
      kvstore := kvstore[key := value];
    }

    method DeleteBytes(key: Bytes)
      requires Valid()
      modifies this
      ensures Valid() && saved == old(saved) && kept == old(kept) && handed == old(handed)
      ensures accounts == old(accounts) && kvstore == old(kvstore) - {key}
    {
      kvstore := kvstore - {key};
    }

    /** Issues the next id and remembers the contents under it. */
    method TakeSnapshot() returns (id: int)
      requires Valid()
      modifies this
      ensures Valid() && View() == old(View()) && accounts == old(accounts) && handed == old(handed) && fresh(kept - old(kept))
      ensures id == |old(saved)| && saved == old(saved) + [old(View())]
    {
      hide Records, Unshared;
      var copy := CopyAccounts(accounts);
      snapshots := snapshots + [Snapshot(copy, kvstore)];
      saved := saved + [View()];
      kept := kept + copy.Values;
      id := |snapshots| - 1;
    }

    /** Puts back the contents remembered under id, and forgets id and every later one. */
    method RevertToSnapshot(id: int) returns (ok: bool)
      requires Valid()
      modifies this
      ensures Valid() && kept == old(kept)
      ensures ok <==> 0 <= id < |old(saved)|
      ensures ok ==> View() == old(saved)[id] && saved == old(saved)[..id]
      ensures ok ==> Unshared(accounts) && fresh(accounts.Values) && handed == old(handed) + accounts.Values
      ensures !ok ==> accounts == old(accounts) && kvstore == old(kvstore) && saved == old(saved) && handed == old(handed)
    {
      hide Records;
      if id < 0 || id >= |snapshots| {
        return false;
      }
      var copy := CopyAccounts(snapshots[id].accounts);
      accounts := copy;
      kvstore := snapshots[id].kv;
      snapshots := snapshots[..id];
      saved := saved[..id];
      handed := handed + copy.Values;
      ok := true;
    }
  }
}

/** The pool of pending transactions: a map, an index in insertion order, and a nonce tracked per sender. */
module Mempool {
  import opened Basics
  import opened Sorting
  import opened Wire
  import opened Accounts
  import opened Transactions

  datatype Pending = Pending(tx: Transaction, submitted: int)

  datatype PoolError =
    | Malformed | InsufficientStake | CommissionTooHigh | Full | AlreadyInPool
    | UnknownSender | BadSignature | CannotPay | WrongNonce

  const MIN_REGISTRATION_STAKE: nat := 100_000
  const MAX_REGISTRATION_COMMISSION: nat := 10_000

  /** Signature checks, the clock window, and the decoding checks on contract transactions. */
  datatype PoolEnv = PoolEnv(env: Env, wellFormed: Transaction -> bool)

  // ----- order -----

  /** Fee descending, timestamp ascending, intent ID ascending. */
  predicate ByFee(a: Transaction, b: Transaction)
  {
    if a.maxFee != b.maxFee then a.maxFee > b.maxFee
    else if a.timestamp != b.timestamp then a.timestamp < b.timestamp
    else Less(a.intentID, b.intentID)
  }

  /** a pays more than b, or as much but is older, or ties on both and has the smaller intent ID. */
  ghost predicate Better(a: Transaction, b: Transaction)
  {
    && a.maxFee >= b.maxFee
    && (a.maxFee == b.maxFee ==> a.timestamp <= b.timestamp)
    && (a.maxFee == b.maxFee && a.timestamp == b.timestamp ==> Less(a.intentID, b.intentID))
  }

  lemma BetterFirst(r: seq<Transaction>, live: set<Transaction>)
    requires Lists(r, live, ByFee)
    ensures forall i, j :: 0 <= i < j < |r| ==> Better(r[i], r[j])
  {
    hide Less;
  }

  lemma ByFeeIsStrictWeak()
    ensures StrictWeak(ByFee)
  {
    hide Less;
    forall x: Transaction, y: Transaction, z: Transaction | ByFee(x, y) && ByFee(y, z) ensures ByFee(x, z) {
      if x.maxFee == y.maxFee == z.maxFee && x.timestamp == y.timestamp == z.timestamp {
        LessTransitive(x.intentID, y.intentID, z.intentID);
      }
    }
    forall x: Transaction, y: Transaction, z: Transaction | !ByFee(x, y) && !ByFee(y, z) ensures !ByFee(x, z) {
      if x.maxFee == y.maxFee == z.maxFee && x.timestamp == y.timestamp == z.timestamp {
        LessNegTransitive(x.intentID, y.intentID, z.intentID);
      }
    }
    forall x: Transaction ensures !ByFee(x, x) { LessIrreflexive(x.intentID); }
  }

  ghost predicate DistinctIntents(s: seq<Transaction>)
  {
    forall i, j :: 0 <= i < j < |s| ==> s[i].intentID != s[j].intentID
  }

  // ----- nonces -----

  /** The last nonce accepted from a, or 0. */
  function LastNonce(log: seq<Transaction>, a: Address): u64
  {
    if log == [] then 0
    else if log[|log| - 1].sender == a then log[|log| - 1].nonce
    else LastNonce(log[..|log| - 1], a)
  }

  /** After the first accepted from a sender, each next one has the next nonce. */
  ghost predicate Consecutive(log: seq<Transaction>)
  {
    forall i :: 0 <= i < |log| ==>
      && log[i].nonce > 0
      && (LastNonce(log[..i], log[i].sender) > 0 ==> log[i].nonce == LastNonce(log[..i], log[i].sender) + 1)
  }

  lemma {:induction false} NoncesRise(log: seq<Transaction>, i: nat, n: nat)
    requires Consecutive(log) && i < n <= |log|
    ensures LastNonce(log[..n], log[i].sender) >= log[i].nonce
    decreases n
  {
    hide LastNonce;
    LastStep(log, n, log[i].sender);
    if i < n - 1 {
      NoncesRise(log, i, n - 1);
      assert log[n - 1].nonce > 0;
    }
  }

  lemma LastStep(log: seq<Transaction>, n: nat, a: Address)
    requires 0 < n <= |log|
    ensures LastNonce(log[..n], a) == if log[n - 1].sender == a then log[n - 1].nonce else LastNonce(log[..n - 1], a)
  {
    assert log[..n][..n - 1] == log[..n - 1];
  }

  /** No pair of sender and nonce is ever accepted twice, and later ones are higher. */
  lemma AcceptedOnce(log: seq<Transaction>, i: nat, j: nat)
    requires Consecutive(log) && i < j < |log| && log[i].sender == log[j].sender
    ensures log[i].nonce < log[j].nonce
  {
    NoncesRise(log, i, j);
  }

  /** The tracked nonces are the last ones accepted, and those were consecutive. */
  ghost predicate Tracked(nextNonce: map<Address, u64>, log: seq<Transaction>)
  {
    Consecutive(log) && forall a :: NextNonce(nextNonce, a) == LastNonce(log, a)
  }

  function NextNonce(nextNonce: map<Address, u64>, a: Address): u64
  {
    if a in nextNonce then nextNonce[a] else 0
  }

  lemma AcceptMore(nextNonce: map<Address, u64>, log: seq<Transaction>, tx: Transaction)
    requires Tracked(nextNonce, log) && tx.nonce > 0
    requires NextNonce(nextNonce, tx.sender) > 0 ==> tx.nonce == NextNonce(nextNonce, tx.sender) + 1
    ensures Tracked(nextNonce[tx.sender := tx.nonce], log + [tx])
  {
    var more := log + [tx];
    assert more[..|log|] == log && more[|more| - 1] == tx;
    assert forall a :: LastNonce(more, a) == if a == tx.sender then tx.nonce else LastNonce(log, a);
    forall i | 0 <= i < |log| ensures more[..i] == log[..i] && more[i] == log[i] {}
  }

  /** Whatever is in the pool was accepted at some time. */
  ghost predicate Logged(txs: map<Hash, Pending>, log: seq<Transaction>)
  {
    forall id :: id in txs ==> txs[id].tx in log
  }

  lemma LogMore(txs: map<Hash, Pending>, log: seq<Transaction>, tx: Transaction, now: int)
    requires Logged(txs, log)
    ensures Logged(txs[tx.intentID := Pending(tx, now)], log + [tx])
  {
  }

  lemma LogLess(txs: map<Hash, Pending>, log: seq<Transaction>, id: Hash)
    requires Logged(txs, log)
    ensures Logged(txs - {id}, log)
  {
  }

  /** No two accepted transactions have the same sender and nonce. */
  lemma OneAcceptedPerNonce(log: seq<Transaction>, x: Transaction, y: Transaction)
    requires Consecutive(log) && x in log && y in log && x.sender == y.sender && x.nonce == y.nonce
    ensures x == y
  {
    hide Consecutive;
    var i :| 0 <= i < |log| && log[i] == x;
    var j :| 0 <= j < |log| && log[j] == y;
    if i < j { AcceptedOnce(log, i, j); }
    if j < i { AcceptedOnce(log, j, i); }
  }

  // ----- the index -----

  /** The index holds exactly the transactions of the map, each once. */
  ghost predicate Indexed(index: seq<Transaction>, txs: map<Hash, Pending>)
  {
    && DistinctIntents(index)
    && (forall tx :: tx in index ==> tx.intentID in txs && txs[tx.intentID].tx == tx)
    && (forall id :: id in txs ==> txs[id].tx.intentID == id && txs[id].tx in index)
  }

  lemma IndexMore(index: seq<Transaction>, txs: map<Hash, Pending>, tx: Transaction, now: int)
    requires Indexed(index, txs) && tx.intentID !in txs
    ensures Indexed(index + [tx], txs[tx.intentID := Pending(tx, now)])
  {
    forall i | 0 <= i < |index| ensures index[i].intentID != tx.intentID {
      assert index[i] in index;
    }
    assert tx in index + [tx];
  }

  lemma IndexDistinct(index: seq<Transaction>, txs: map<Hash, Pending>)
    requires Indexed(index, txs)
    ensures DistinctIntents(index)
  {
  }

  lemma IndexLess(index: seq<Transaction>, txs: map<Hash, Pending>, id: Hash, less: seq<Transaction>)
    requires Indexed(index, txs) && DistinctIntents(less)
    requires forall tx :: tx in less <==> tx in index && tx.intentID != id
    ensures Indexed(less, txs - {id})
  {
    hide DistinctIntents;
  }

  lemma RemoveAt(s: seq<Transaction>, i: nat)
    requires DistinctIntents(s) && i < |s|
    ensures DistinctIntents(s[..i] + s[i + 1..])
    ensures forall tx :: tx in s[..i] + s[i + 1..] <==> tx in s && tx.intentID != s[i].intentID
  {
    var r := s[..i] + s[i + 1..];
    forall tx | tx in s && tx.intentID != s[i].intentID ensures tx in r {
      var k :| 0 <= k < |s| && s[k] == tx;
      assert if k < i then r[k] == tx else r[k - 1] == tx;
    }
  }

  lemma FewerKeys(m: map<Hash, Pending>, id: Hash)
    ensures |m - {id}| <= |m|
  {
    if id in m {
      assert m == (m - {id})[id := m[id]];
    } else {
      assert m - {id} == m;
    }
  }

  // ----- time -----

  predicate Expired(p: Pending, ttl: int, now: int)
  {
    now - p.submitted > ttl
  }

  /** The entries left once the keys in `seen` have been looked at. */
  ghost function Unexpired(was: map<Hash, Pending>, seen: seq<Hash>, ttl: int, now: int): map<Hash, Pending>
  {
    was - (set id | id in seen && id in was && Expired(was[id], ttl, now))
  }

  lemma NextKey(was: map<Hash, Pending>, seen: seq<Hash>, id: Hash, ttl: int, now: int)
    requires id in was && id !in seen
    ensures var m := Unexpired(was, seen, ttl, now);
            && id in m && m[id] == was[id]
            && Unexpired(was, seen + [id], ttl, now) == if Expired(was[id], ttl, now) then m - {id} else m
  {
  }

  lemma NoneSeen(was: map<Hash, Pending>, ttl: int, now: int)
    ensures Unexpired(was, [], ttl, now) == was
  {
  }

  /** The transactions that have not expired. */
  ghost function Live(txs: map<Hash, Pending>, ttl: int, now: int): set<Transaction>
  {
    set id | id in txs && !Expired(txs[id], ttl, now) :: txs[id].tx
  }

  lemma AllSeen(was: map<Hash, Pending>, seen: seq<Hash>, ttl: int, now: int)
    requires forall id :: id in seen <==> id in was.Keys
    ensures var m := Unexpired(was, seen, ttl, now);
            && (forall id :: id in m <==> id in was && !Expired(was[id], ttl, now))
            && (forall id :: id in m ==> m[id] == was[id])
            && Live(m, ttl, now) == Live(was, ttl, now)
  {
  }

  lemma LiveTotal(index: seq<Transaction>, txs: map<Hash, Pending>, ttl: int, now: int)
    requires Indexed(index, txs)
    ensures StrictWeak(ByFee) && TotalOn(Live(txs, ttl, now), ByFee)
  {
    hide Less;
    ByFeeIsStrictWeak();
    forall x, y | x in Live(txs, ttl, now) && y in Live(txs, ttl, now) && x != y ensures ByFee(x, y) || ByFee(y, x) {
      LessTotal(x.intentID, y.intentID);
    }
  }

  lemma IndexIsLive(index: seq<Transaction>, txs: map<Hash, Pending>, ttl: int, now: int)
    requires Indexed(index, txs) && forall id :: id in txs ==> !Expired(txs[id], ttl, now)
    ensures multiset(index) == multiset(Live(txs, ttl, now))
  {
    hide Expired;
    forall tx ensures tx in index <==> tx in Live(txs, ttl, now) {}
    DistinctMultiset(index, Live(txs, ttl, now));
  }

  // ----- registrations -----

  /** What is wrong with the payload of a transaction, by its type. */
  function PayloadError(tx: Transaction, e: PoolEnv): Option<PoolError>
  {
    if !IsRegistration(tx) then (if e.wellFormed(tx) then None else Some(Malformed))
    else
      var m := ReadRegistration(tx.payload);
      if m.Fail? then Some(Malformed)
      else if m.value.stake < MIN_REGISTRATION_STAKE then Some(InsufficientStake)
      else if m.value.commission > MAX_REGISTRATION_COMMISSION then Some(CommissionTooHigh)
      else None
  }

  /** A registration is signed with the key it registers, everything else with the key on file. */
  function SigningKey(tx: Transaction, acc: Account): PubKey
    requires IsRegistration(tx) ==> ReadRegistration(tx.payload).Got?
  {
    if IsRegistration(tx) then ReadRegistration(tx.payload).value.key else acc.publicKey
  }

  /** A registration must cover its stake as well as its fee. */
  function RequiredBalance(tx: Transaction): nat
    requires IsRegistration(tx) ==> ReadRegistration(tx.payload).Got?
  {
    tx.maxFee + if IsRegistration(tx) then ReadRegistration(tx.payload).value.stake else 0
  }

  /** What the payload must say: of a registration, a stake of at least 100000 and a commission of at most 10000 basis points. */
  ghost predicate GoodPayload(tx: Transaction, e: PoolEnv)
  {
    if tx.txType != 3 then e.wellFormed(tx) else
      var m := ReadRegistration(tx.payload);
      m.Got? && m.value.stake >= 100000 && m.value.commission <= 10000
  }

  /** What is asked of a sender the pool does not know yet: an account, a signature and the means. */
  ghost predicate GoodStranger(tx: Transaction, accounts: map<Address, Account>, e: PoolEnv)
  {
    && tx.sender in accounts
    && if tx.txType == 3 then
         var m := ReadRegistration(tx.payload);
         m.Got? && e.env.verify(m.value.key, tx.intentID, tx.signature) && accounts[tx.sender].balance >= tx.maxFee + m.value.stake
       else e.env.verify(accounts[tx.sender].publicKey, tx.intentID, tx.signature) && accounts[tx.sender].balance >= tx.maxFee
  }

  /** Listed at `now` exactly if some entry holds it that was submitted no longer than ttl ago. */
  lemma LiveExactly(txs: map<Hash, Pending>, ttl: int, now: int, tx: Transaction)
    ensures tx in Live(txs, ttl, now) <==> exists id :: id in txs && txs[id].tx == tx && now <= txs[id].submitted + ttl
  {
  }

  // ----- the pool -----

  class Pool {
    const maxSize: int
    const ttl: int
    var txs: map<Hash, Pending>
    var index: seq<Transaction>
    var nextNonce: map<Address, u64>
    /** Everything ever accepted, in order. */
    ghost var accepted: seq<Transaction>

    ghost predicate Valid()
      reads this
    {
      && Indexed(index, txs)
      && |txs| <= (if maxSize < 0 then 0 else maxSize)
      && Tracked(nextNonce, accepted)
      && Logged(txs, accepted)
    }

    constructor (maxSize: int, ttl: int)
      ensures Valid() && txs == map[] && accepted == [] && this.maxSize == maxSize && this.ttl == ttl
    {
      this.maxSize, this.ttl := maxSize, ttl;
      txs, index, nextNonce, accepted := map[], [], map[], [];
    }

    /** Why Submit refuses, in the order it looks. */
    function Refusal(tx: Transaction, accounts: map<Address, Account>, e: PoolEnv): Option<PoolError>
      reads this
    {
      var tracked := NextNonce(nextNonce, tx.sender);
      if !ValidTx(tx, e.env) then Some(Malformed)
      else if PayloadError(tx, e).Some? then PayloadError(tx, e)
      else if |txs| >= maxSize then Some(Full)
      else if tx.intentID in txs then Some(AlreadyInPool)
      else if tracked == 0 && tx.sender !in accounts then Some(UnknownSender)
      else if tracked == 0 && !e.env.verify(SigningKey(tx, accounts[tx.sender]), tx.intentID, tx.signature) then Some(BadSignature)
      else if tracked == 0 && accounts[tx.sender].balance < RequiredBalance(tx) then
        Some(if IsRegistration(tx) then InsufficientStake else CannotPay)
      else if tx.nonce != Wrap64((if tracked == 0 then accounts[tx.sender].nonce else tracked) + 1) then Some(WrongNonce)
      else None
    }

    /**
     A transaction gets in exactly when it is well-formed, there is room, its intent is new, its nonce is next
     after the last one accepted (or, for a new sender, the account's), and a new sender passes the checks.
     */
    lemma AcceptsExactly(tx: Transaction, accounts: map<Address, Account>, e: PoolEnv)
      ensures var tracked := NextNonce(nextNonce, tx.sender);
              Refusal(tx, accounts, e).None? <==>
                && tx.nonce > 0 && tx.maxFee > 0 && |tx.signature| > 0 && e.env.timely(tx.timestamp) && GoodPayload(tx, e)
                && |txs| < maxSize && tx.intentID !in txs
                && (tracked == 0 ==> GoodStranger(tx, accounts, e))
                && (if tracked != 0 then tx.nonce == tracked + 1 else tx.nonce == accounts[tx.sender].nonce + 1)
    {
      hide ReadRegistration;
    }

    /** Submit, without persistence. */
    method Submit(tx: Transaction, accounts: map<Address, Account>, e: PoolEnv, now: int) returns (r: Option<PoolError>)
      requires Valid()
      modifies this
      ensures Valid() && r == old(Refusal(tx, accounts, e))
      ensures if r.None? then accepted == old(accepted) + [tx] && txs == old(txs)[tx.intentID := Pending(tx, now)]
              else accepted == old(accepted) && txs == old(txs) && index == old(index)
    {
      hide Tracked, Indexed, Logged, ReadRegistration;
      if !ValidTx(tx, e.env) { return Some(Malformed); }
      r := PayloadError(tx, e);
      if r.Some? { return; }
      if |txs| >= maxSize { return Some(Full); }
      if tx.intentID in txs { return Some(AlreadyInPool); }
      var expected: int := NextNonce(nextNonce, tx.sender);
      if expected == 0 {
        if tx.sender !in accounts { return Some(UnknownSender); }
        var acc := accounts[tx.sender];
        if !e.env.verify(SigningKey(tx, acc), tx.intentID, tx.signature) { return Some(BadSignature); }
        expected := acc.nonce;
        if acc.balance < RequiredBalance(tx) {
          return Some(if IsRegistration(tx) then InsufficientStake else CannotPay);
        }
      }
      if tx.nonce != Wrap64(expected + 1) { return Some(WrongNonce); }
      IndexMore(index, txs, tx, now);
      AcceptMore(nextNonce, accepted, tx);
      LogMore(txs, accepted, tx, now);
      txs := txs[tx.intentID := Pending(tx, now)];
      index := index + [tx];
      nextNonce := nextNonce[tx.sender := tx.nonce];
      accepted := accepted + [tx];
      r := None;
    }

    /** txIndex.Remove. */
    method Unindex(id: Hash)
      requires DistinctIntents(index)
      modifies this`index
      ensures DistinctIntents(index)
      ensures forall tx :: tx in index <==> tx in old(index) && tx.intentID != id
    {
      for i := 0 to |index|
        invariant index == old(index)
        invariant forall j :: 0 <= j < i ==> index[j].intentID != id
      {
        if index[i].intentID == id {
          RemoveAt(index, i);
          index := index[..i] + index[i + 1..];
          return;
        }
      }
    }

    method Remove(id: Hash)
      requires Valid()
      modifies this
      ensures Valid() && accepted == old(accepted) && txs == old(txs) - {id}
    {
      hide Tracked, DistinctIntents, Indexed, Logged;
      LogLess(txs, accepted, id);
      IndexDistinct(index, txs);
      FewerKeys(txs, id);
      Unindex(id);
      IndexLess(old(index), txs, id, index);
      txs := txs - {id};
    }

    /** expire: goes over the map in any order, deleting as it goes. */
    method Expire(now: int)
      requires Valid()
      modifies this
      ensures Valid() && accepted == old(accepted)
      ensures forall id :: id in txs <==> id in old(txs) && !Expired(old(txs)[id], ttl, now)
      ensures forall id :: id in txs ==> txs[id] == old(txs)[id]
      ensures Live(txs, ttl, now) == Live(old(txs), ttl, now)
    {
      hide Tracked, Indexed, Logged, Expired, Unexpired, Live;
      ghost var was := txs;
      var keys := RangeKeys(txs.Keys);
      NoneSeen(was, ttl, now);
      for i := 0 to |keys|
        invariant Valid() && accepted == old(accepted)
        invariant txs == Unexpired(was, keys[..i], ttl, now)
      {
        var id := keys[i];
        assert keys[..i + 1] == keys[..i] + [id] && id !in keys[..i];
        NextKey(was, keys[..i], id, ttl, now);
        if Expired(txs[id], ttl, now) {
          Remove(id);
        }
      }
      assert keys[..|keys|] == keys;
      AllSeen(was, keys, ttl, now);
    }

    /** Every pending transaction that has not expired, highest fee first: one list, whatever the history. */
    method PendingTxs(now: int) returns (result: seq<Transaction>)
      requires Valid()
      modifies this
      ensures Valid() && accepted == old(accepted)
      ensures forall id :: id in txs <==> id in old(txs) && !Expired(old(txs)[id], ttl, now)
      ensures forall id :: id in txs ==> txs[id] == old(txs)[id]
      ensures Lists(result, Live(old(txs), ttl, now), ByFee)
      ensures forall i, j :: 0 <= i < j < |result| ==> Better(result[i], result[j])
    {
      hide Tracked, Indexed, Logged, StrictWeak, Sorted, ByFee, Expired, Live, TotalOn, Better;
      Expire(now);
      ByFeeIsStrictWeak();
      ghost var idx, m := index, txs;
      var all := SortSlice(index, ByFee);
      result := [];
      for i := 0 to |all|
        invariant index == idx && txs == m && Valid() && accepted == old(accepted)
        invariant result == all[..i]
      {
        assert all[i] in multiset(all);
        StillThere(index, txs, all[i]);
        if all[i].intentID in txs && !Expired(txs[all[i].intentID], ttl, now) {
          result := result + [all[i]];
        }
      }
      assert all[..|all|] == all;
      LiveTotal(index, txs, ttl, now);
      IndexIsLive(index, txs, ttl, now);
      SortedIsListing(result, Live(txs, ttl, now), ByFee);
      BetterFirst(result, Live(txs, ttl, now));
    }
  }

  lemma StillThere(index: seq<Transaction>, txs: map<Hash, Pending>, tx: Transaction)
    requires Indexed(index, txs) && tx in multiset(index)
    ensures tx.intentID in txs
  {
    assert tx in index;
  }
}

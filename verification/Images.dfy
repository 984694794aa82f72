/** The binary image of a state: header, accounts in ascending order, entries in ascending order, checksum. */
module Images {
  import opened Basics
  import opened Sorting
  import opened Wire
  import opened Roots

  const MAGIC: Bytes := [68, 83, 78, 83]
  const VERSION: u32 := 1
  const MAX_VALUE: nat := 1024 * 1024
  const MAX_KEY: nat := 256

  /** An account's key is its address; other keys are written with their length. */
  datatype Kind = AccountKind | KVKind

  datatype Image = Image(
    height: u64, epoch: u64, stateRoot: Hash, setHash: Hash, timestamp: u64,
    accounts: seq<Entry>, kvs: seq<Entry>)

  // ----- entries -----

  function PutKey(kind: Kind, k: Bytes, rest: Bytes): Bytes
  {
    if kind == AccountKind then PutBytes(k, rest) else PutU32(Wrap32(|k|), PutBytes(k, rest))
  }

  function PutEntry(kind: Kind, e: Entry, rest: Bytes): Bytes
  {
    PutKey(kind, e.0, PutU32(Wrap32(|e.1|), PutBytes(e.1, rest)))
  }

  function PutEntries(kind: Kind, es: seq<Entry>, rest: Bytes): Bytes
  {
    if es == [] then rest else PutEntry(kind, es[0], PutEntries(kind, es[1..], rest))
  }

  function ReadKey(kind: Kind, data: Bytes): (r: Read<Bytes>)
    ensures r.Got? ==> KeyFits(kind, r.value)
  {
    if kind == AccountKind then ReadFull(data, 20) else
      var (n, data) :- ReadU32(data);
      if n > MAX_KEY then Fail else ReadFull(data, n)
  }

  function ReadEntry(kind: Kind, data: Bytes): (r: Read<Entry>)
    ensures r.Got? ==> EntryFits(kind, r.value)
  {
    var (k, data) :- ReadKey(kind, data);
    var (n, data) :- ReadU32(data);
    if n > MAX_VALUE then Fail else
      var (v, data) :- ReadFull(data, n);
      Got((k, v), data)
  }

  predicate Above(prev: Option<Bytes>, k: Bytes)
  {
    prev.Some? ==> Less(prev.value, k)
  }

  /** n entries, each with a key above the one before. */
  function ReadEntries(kind: Kind, data: Bytes, n: nat, prev: Option<Bytes>): Read<seq<Entry>>
  {
    if n == 0 then Got([], data) else
      var (e, data) :- ReadEntry(kind, data);
      if !Above(prev, e.0) then Fail else
        var (es, data) :- ReadEntries(kind, data, n - 1, Some(e.0));
        Got([e] + es, data)
  }

  predicate KeyFits(kind: Kind, k: Bytes)
  {
    if kind == AccountKind then |k| == 20 else |k| <= MAX_KEY
  }

  predicate EntryFits(kind: Kind, e: Entry)
  {
    KeyFits(kind, e.0) && |e.1| <= MAX_VALUE
  }

  ghost predicate AllFit(kind: Kind, es: seq<Entry>)
  {
    forall i :: 0 <= i < |es| ==> EntryFits(kind, es[i])
  }

  ghost predicate Climbs(es: seq<Entry>, prev: Option<Bytes>)
  {
    && (es != [] ==> Above(prev, es[0].0))
    && (forall i :: 0 < i < |es| ==> Less(es[i - 1].0, es[i].0))
  }

  lemma EntryRoundTrip(kind: Kind, e: Entry, rest: Bytes)
    requires EntryFits(kind, e)
    ensures ReadEntry(kind, PutEntry(kind, e, rest)) == Got(e, rest)
  {
    hide PutUint, ReadUint, PutBytes;
    var r2 := PutBytes(e.1, rest);
    var r1 := PutU32(Wrap32(|e.1|), r2);
    var r0 := PutBytes(e.0, r1);
    assert ReadU32(r1) == Got(|e.1|, r2);
  }

  lemma {:induction false} EntriesRoundTrip(kind: Kind, es: seq<Entry>, prev: Option<Bytes>, rest: Bytes)
    requires AllFit(kind, es) && Climbs(es, prev)
    ensures ReadEntries(kind, PutEntries(kind, es, rest), |es|, prev) == Got(es, rest)
  {
    hide ReadEntry, PutEntry, Less;
    if es != [] {
      var tail := PutEntries(kind, es[1..], rest);
      EntryRoundTrip(kind, es[0], tail);
      EntriesRoundTrip(kind, es[1..], Some(es[0].0), rest);
      ReadOneMore(kind, PutEntries(kind, es, rest), es, prev, tail, rest);
    }
  }

  lemma ReadOneMore(kind: Kind, data: Bytes, es: seq<Entry>, prev: Option<Bytes>, tail: Bytes, rest: Bytes)
    requires es != [] && Above(prev, es[0].0) && ReadEntry(kind, data) == Got(es[0], tail)
    requires ReadEntries(kind, tail, |es| - 1, Some(es[0].0)) == Got(es[1..], rest)
    ensures ReadEntries(kind, data, |es|, prev) == Got(es, rest)
  {
    hide ReadEntry, Less;
    assert es == [es[0]] + es[1..];
  }

  /** Whatever is read fits the limits and is in strictly ascending order. */
  lemma {:induction false} ReadEntriesFit(kind: Kind, data: Bytes, n: nat, prev: Option<Bytes>)
    ensures var r := ReadEntries(kind, data, n, prev);
            r.Got? ==> |r.value| == n && AllFit(kind, r.value) && Climbs(r.value, prev)
    decreases n
  {
    hide ReadEntry, Less, EntryFits;
    if n > 0 {
      var r := ReadEntry(kind, data);
      if r.Got? && Above(prev, r.value.0) {
        ReadEntriesFit(kind, r.rest, n - 1, Some(r.value.0));
      }
    }
  }

  // ----- the image -----

  datatype Header = Header(height: u64, epoch: u64, stateRoot: Hash, setHash: Hash, timestamp: u64, accounts: u64, kvs: u64)

  function PutCounts(h: Header, rest: Bytes): (r: Bytes)
    ensures |r| == 56 + |rest|
  {
    PutU64(h.timestamp, PutU64(h.accounts, PutU64(h.kvs, PutBytes(Zeros(32), rest))))
  }

  /** 144 bytes, the last 32 of them reserved. */
  function PutHeader(h: Header, rest: Bytes): (r: Bytes)
    ensures |r| == 144 + |rest|
  {
    PutBytes(MAGIC, PutU32(VERSION, PutU64(h.height, PutU64(h.epoch, PutBytes(h.stateRoot, PutBytes(h.setHash,
    PutCounts(h, rest)))))))
  }

  function HeaderOf(i: Image): Header
    requires |i.accounts| < U64 && |i.kvs| < U64
  {
    Header(i.height, i.epoch, i.stateRoot, i.setHash, i.timestamp, |i.accounts|, |i.kvs|)
  }

  function Entries(i: Image): Bytes
  {
    PutEntries(AccountKind, i.accounts, PutEntries(KVKind, i.kvs, []))
  }

  function Body(i: Image): Bytes
    requires |i.accounts| < U64 && |i.kvs| < U64
  {
    PutHeader(HeaderOf(i), Entries(i))
  }

  function ReadHeader(data: Bytes): Read<Header>
  {
    var (magic, data) :- ReadFull(data, 4);
    if magic != MAGIC then Fail else
      var (version, data) :- ReadU32(data);
      if version != VERSION then Fail else
        var (height, data) :- ReadU64(data);
        var (epoch, data) :- ReadU64(data);
        var (stateRoot, data) :- ReadHash(data);
        var (setHash, data) :- ReadHash(data);
        var (timestamp, data) :- ReadU64(data);
        var (accounts, data) :- ReadU64(data);
        var (kvs, data) :- ReadU64(data);
        var (_, data) :- ReadFull(data, 32);
        Got(Header(height, epoch, stateRoot, setHash, timestamp, accounts, kvs), data)
  }

  function Serialized(i: Image, hash: Bytes -> Hash): Bytes
    requires |i.accounts| < U64 && |i.kvs| < U64
  {
    Body(i) + hash(Body(i))
  }

  /** DeserializeSnapshot. */
  function Deserialized(data: Bytes, hash: Bytes -> Hash): Option<Image>
  {
    if |data| < 176 then None else
      var body, checksum := data[..|data| - 32], data[|data| - 32..];
      var h := ReadHeader(body);
      if h.Fail? || hash(body) != checksum then None else
        var accounts := ReadEntries(AccountKind, h.rest, h.value.accounts, None);
        if accounts.Fail? then None else
          var kvs := ReadEntries(KVKind, accounts.rest, h.value.kvs, None);
          if kvs.Fail? then None else
            Some(Image(h.value.height, h.value.epoch, h.value.stateRoot, h.value.setHash, h.value.timestamp,
                       accounts.value, kvs.value))
  }

  lemma HeaderRoundTrip(h: Header, rest: Bytes)
    ensures ReadHeader(PutHeader(h, rest)) == Got(h, rest)
  {
    hide PutUint, ReadUint, PutBytes;
    var r9 := PutBytes(Zeros(32), rest);
    var r8 := PutU64(h.kvs, r9);
    var r7 := PutU64(h.accounts, r8);
    var r6 := PutU64(h.timestamp, r7);
    var r5 := PutBytes(h.setHash, r6);
    var r4 := PutBytes(h.stateRoot, r5);
    var r3 := PutU64(h.epoch, r4);
    var r2 := PutU64(h.height, r3);
    var r1 := PutU32(VERSION, r2);
    assert ReadFull(PutBytes(MAGIC, r1), 4) == Got(MAGIC, r1);
    assert ReadHash(r4) == Got(h.stateRoot, r5) && ReadHash(r5) == Got(h.setHash, r6);
    assert ReadFull(r9, 32) == Got(Zeros(32), rest);
  }

  ghost predicate WellOrdered(i: Image)
  {
    Climbs(i.accounts, None) && Climbs(i.kvs, None)
  }

  ghost predicate Fitting(i: Image)
  {
    AllFit(AccountKind, i.accounts) && AllFit(KVKind, i.kvs)
  }

  /** An image survives serialization exactly when it is in order and within the size limits. */
  lemma ImageRoundTrip(i: Image, hash: Bytes -> Hash)
    requires |i.accounts| < U64 && |i.kvs| < U64
    ensures Deserialized(Serialized(i, hash), hash) == Some(i) <==> WellOrdered(i) && Fitting(i)
  {
    hide PutHeader, ReadHeader, ReadEntries, PutEntries, Climbs, AllFit;
    var data := Serialized(i, hash);
    HeaderRoundTrip(HeaderOf(i), Entries(i));
    assert data[..|data| - 32] == Body(i) && data[|data| - 32..] == hash(Body(i));
    if WellOrdered(i) && Fitting(i) {
      EntriesRoundTrip(AccountKind, i.accounts, None, PutEntries(KVKind, i.kvs, []));
      EntriesRoundTrip(KVKind, i.kvs, None, []);
    }
    ReadEntriesFit(AccountKind, Entries(i), |i.accounts|, None);
    var accounts := ReadEntries(AccountKind, Entries(i), |i.accounts|, None);
    if accounts.Got? {
      ReadEntriesFit(KVKind, accounts.rest, |i.kvs|, None);
    }
  }

  ghost predicate Countable(es: seq<Entry>)
  {
    forall i :: 0 <= i < |es| ==> |es[i].0| < U32 && |es[i].1| < U32
  }

  lemma EntryRefused(kind: Kind, e: Entry, rest: Bytes)
    requires |e.0| < U32 && |e.1| < U32 && (kind == AccountKind ==> |e.0| == 20) && !EntryFits(kind, e)
    ensures ReadEntry(kind, PutEntry(kind, e, rest)).Fail?
  {
    hide PutUint, ReadUint, PutBytes;
    var r2 := PutBytes(e.1, rest);
    var r1 := PutU32(Wrap32(|e.1|), r2);
    var r0 := PutBytes(e.0, r1);
    assert ReadU32(r1) == Got(|e.1|, r2);
    assert ReadU32(PutU32(Wrap32(|e.0|), r0)) == Got(|e.0|, r0);
  }

  /** One entry over the limits and the whole list is refused. */
  lemma {:induction false} OversizeRefused(kind: Kind, es: seq<Entry>, prev: Option<Bytes>, rest: Bytes)
    requires Countable(es) && (kind == AccountKind ==> forall i :: 0 <= i < |es| ==> |es[i].0| == 20)
    requires !AllFit(kind, es)
    ensures ReadEntries(kind, PutEntries(kind, es, rest), |es|, prev).Fail?
  {
    hide ReadEntry, PutEntry, Less, EntryFits;
    var tail := PutEntries(kind, es[1..], rest);
    if EntryFits(kind, es[0]) {
      EntryRoundTrip(kind, es[0], tail);
      assert !AllFit(kind, es[1..]) by {
        var i :| 0 <= i < |es| && !EntryFits(kind, es[i]);
        assert es[1..][i - 1] == es[i];
      }
      OversizeRefused(kind, es[1..], Some(es[0].0), rest);
    } else {
      EntryRefused(kind, es[0], tail);
    }
  }

  lemma ImageRefused(i: Image, hash: Bytes -> Hash)
    requires |i.accounts| < U64 && |i.kvs| < U64 && WellOrdered(i)
    requires AllFit(AccountKind, i.accounts) && Countable(i.kvs) && !AllFit(KVKind, i.kvs)
    ensures Deserialized(Serialized(i, hash), hash).None?
  {
    hide PutHeader, ReadHeader, ReadEntries, PutEntries, Climbs, AllFit;
    var data := Serialized(i, hash);
    HeaderRoundTrip(HeaderOf(i), Entries(i));
    assert data[..|data| - 32] == Body(i) && data[|data| - 32..] == hash(Body(i));
    EntriesRoundTrip(AccountKind, i.accounts, None, PutEntries(KVKind, i.kvs, []));
    OversizeRefused(KVKind, i.kvs, None, []);
  }

  // ----- writing by appending -----

  lemma KeyStep(kind: Kind, k: Bytes, t: Bytes, rest: Bytes)
    ensures PutKey(kind, k, t + rest) == PutKey(kind, k, t) + rest
  {
    hide PutU32, PutBytes;
    BytesStep(k, t, rest);
    if kind != AccountKind { U32Step(Wrap32(|k|), PutBytes(k, t), rest); }
  }

  /** What is written before t does not depend on what follows. */
  lemma EntryStep(kind: Kind, e: Entry, t: Bytes, rest: Bytes)
    ensures PutEntry(kind, e, t + rest) == PutEntry(kind, e, t) + rest
  {
    hide PutU32, PutBytes, PutKey;
    BytesStep(e.1, t, rest);
    var b := PutBytes(e.1, t);
    U32Step(Wrap32(|e.1|), b, rest);
    KeyStep(kind, e.0, PutU32(Wrap32(|e.1|), b), rest);
  }

  lemma PutEntryAppends(kind: Kind, e: Entry, rest: Bytes)
    ensures PutEntry(kind, e, rest) == PutEntry(kind, e, []) + rest
  {
    hide PutEntry;
    assert [] + rest == rest;
    EntryStep(kind, e, [], rest);
  }

  lemma {:induction false} PutEntriesAppends(kind: Kind, es: seq<Entry>, rest: Bytes)
    ensures PutEntries(kind, es, rest) == PutEntries(kind, es, []) + rest
  {
    hide PutEntry;
    if es != [] {
      PutEntriesAppends(kind, es[1..], rest);
      EntryStep(kind, es[0], PutEntries(kind, es[1..], []), rest);
    }
  }

  /** One more entry at the end. */
  lemma {:induction false} PutEntriesMore(kind: Kind, es: seq<Entry>, e: Entry)
    ensures PutEntries(kind, es + [e], []) == PutEntries(kind, es, []) + PutEntry(kind, e, [])
  {
    hide PutEntry;
    if es != [] {
      assert (es + [e])[1..] == es[1..] + [e];
      PutEntriesMore(kind, es[1..], e);
      EntryStep(kind, es[0], PutEntries(kind, es[1..], []), PutEntry(kind, e, []));
    }
  }

  lemma PutCountsAppends(h: Header, rest: Bytes)
    ensures PutCounts(h, rest) == PutCounts(h, []) + rest
  {
    hide PutU64, PutBytes, Zeros;
    assert [] + rest == rest;
    BytesStep(Zeros(32), [], rest);
    var a := PutBytes(Zeros(32), []);
    U64Step(h.kvs, a, rest);
    var b := PutU64(h.kvs, a);
    U64Step(h.accounts, b, rest);
    U64Step(h.timestamp, PutU64(h.accounts, b), rest);
  }

  lemma PutHeaderAppends(h: Header, rest: Bytes)
    ensures PutHeader(h, rest) == PutHeader(h, []) + rest
  {
    hide PutU32, PutU64, PutBytes, PutCounts;
    PutCountsAppends(h, rest);
    var a := PutCounts(h, []);
    BytesStep(h.setHash, a, rest);
    var b := PutBytes(h.setHash, a);
    BytesStep(h.stateRoot, b, rest);
    var c := PutBytes(h.stateRoot, b);
    U64Step(h.epoch, c, rest);
    var d := PutU64(h.epoch, c);
    U64Step(h.height, d, rest);
    var e := PutU64(h.height, d);
    U32Step(VERSION, e, rest);
    BytesStep(MAGIC, PutU32(VERSION, e), rest);
  }
}

/** What an image that was read says about the bytes it was read from. */
module ImageReading {
  import opened Basics
  import opened Wire
  import opened Roots
  import opened Images
  import opened StateStore
  import opened FastSync

  /** What was read, put in front of the rest, gives the data back. */
  lemma UintGivesBack(data: Bytes, width: nat)
    requires width <= |data|
    ensures ReadUint(data, width).Got?
    ensures PutUint(ReadUint(data, width).value, width, data[width..]) == data
  {
    hide BE, FromBE;
    FromBERoundTrip(data[..width]);
    assert data == data[..width] + data[width..];
  }

  lemma KeyGivesBack(kind: Kind, data: Bytes)
    requires ReadKey(kind, data).Got?
    ensures PutKey(kind, ReadKey(kind, data).value, ReadKey(kind, data).rest) == data
  {
    hide PutUint, ReadUint;
    if kind == AccountKind {
      assert data == data[..20] + data[20..];
    } else {
      U32GivesBack(data);
      var n := ReadU32(data);
      assert n.rest == n.rest[..n.value] + n.rest[n.value..];
    }
  }

  lemma U32GivesBack(data: Bytes)
    requires ReadU32(data).Got?
    ensures PutU32(ReadU32(data).value, ReadU32(data).rest) == data
  {
    hide PutUint;
    UintGivesBack(data, 4);
  }

  lemma EntryGivesBack(kind: Kind, data: Bytes)
    requires ReadEntry(kind, data).Got?
    ensures PutEntry(kind, ReadEntry(kind, data).value, ReadEntry(kind, data).rest) == data
  {
    hide PutUint, ReadUint, PutKey, ReadKey;
    KeyGivesBack(kind, data);
    var k := ReadKey(kind, data);
    U32GivesBack(k.rest);
    var n := ReadU32(k.rest);
    assert n.rest == n.rest[..n.value] + n.rest[n.value..];
  }

  lemma {:induction false} EntriesGiveBack(kind: Kind, data: Bytes, n: nat, prev: Option<Bytes>)
    requires ReadEntries(kind, data, n, prev).Got?
    ensures var r := ReadEntries(kind, data, n, prev); PutEntries(kind, r.value, r.rest) == data
    decreases n
  {
    hide PutEntry, ReadEntry, Above;
    if n > 0 {
      var e := ReadEntry(kind, data);
      EntryGivesBack(kind, data);
      EntriesGiveBack(kind, e.rest, n - 1, Some(e.value.0));
      var es := ReadEntries(kind, e.rest, n - 1, Some(e.value.0)).value;
      assert ([e.value] + es)[1..] == es;
    }
  }

  // ----- the header -----

  /** The fields of a header, by their places. */
  ghost predicate HeaderAt(h: Header, data: Bytes)
  {
    && |data| >= 144
    && data[..8] == [68, 83, 78, 83, 0, 0, 0, 1]
    && h.height == FromBE(data[8..16]) && h.epoch == FromBE(data[16..24])
    && h.stateRoot == data[24..56] && h.setHash == data[56..88]
    && h.timestamp == FromBE(data[88..96]) && h.accounts == FromBE(data[96..104]) && h.kvs == FromBE(data[104..112])
  }

  lemma StartRead(data: Bytes)
    requires |data| >= 8
    ensures data[..4] == MAGIC && FromBE(data[4..8]) == 1 <==> data[..8] == [68, 83, 78, 83, 0, 0, 0, 1]
  {
    var v := data[4..8];
    FromBERoundTrip(v);
    assert BE(1, 4) == [0, 0, 0, 1] by {
      assert BE(0, 3) == [0, 0, 0] by { assert BE(0, 2) == [0, 0] by { assert BE(0, 1) == [0]; } }
    }
    BERoundTrip(1, 4);
    assert data[..8] == data[..4] + v;
  }

  /** A header is read exactly from 144 bytes or more that start with the magic and version 1. */
  lemma HeaderReads(data: Bytes)
    ensures ReadHeader(data).Got? <==> |data| >= 144 && data[..8] == [68, 83, 78, 83, 0, 0, 0, 1]
    ensures ReadHeader(data).Got? ==> HeaderAt(ReadHeader(data).value, data) && ReadHeader(data).rest == data[144..]
  {
    hide BE, FromBE, Pow256;
    if |data| >= 144 {
      StartRead(data);
      var d1, d2, d3, d4, d5, d6, d7, d8, d9 :=
        data[4..], data[8..], data[16..], data[24..], data[56..], data[88..], data[96..], data[104..], data[112..];
      assert d1[..4] == data[4..8] && d1[4..] == d2;
      assert d2[..8] == data[8..16] && d2[8..] == d3;
      assert d3[..8] == data[16..24] && d3[8..] == d4;
      assert d4[..32] == data[24..56] && d4[32..] == d5;
      assert d5[..32] == data[56..88] && d5[32..] == d6;
      assert d6[..8] == data[88..96] && d6[8..] == d7;
      assert d7[..8] == data[96..104] && d7[8..] == d8;
      assert d8[..8] == data[104..112] && d8[8..] == d9;
      assert d9[32..] == data[144..];
    }
  }

  // ----- the image -----

  /** Keys in ascending order, each of at most `key` bytes, and values of at most a mebibyte. */
  ghost predicate InLimits(es: seq<Entry>, key: nat)
  {
    && (forall i :: 0 <= i < |es| ==> |es[i].0| <= key && |es[i].1| <= 1048576)
    && (forall i :: 0 < i < |es| ==> Less(es[i - 1].0, es[i].0))
  }

  /**
   The data starts as an image, ends with the hash of everything before, and holds between them the entries of
   i, in order and within the limits, as many as the header says. Reserved bytes and what follows the last entry
   are free.
   */
  ghost predicate Holds(data: Bytes, hash: Bytes -> Hash, i: Image)
  {
    && |data| >= 176 && data[|data| - 32..] == hash(data[..|data| - 32])
    && |i.accounts| < U64 && |i.kvs| < U64 && HeaderAt(HeaderOf(i), data)
    && Entries(i) <= data[144..|data| - 32]
    && InLimits(i.accounts, 20) && (forall k :: 0 <= k < |i.accounts| ==> |i.accounts[k].0| == 20) && InLimits(i.kvs, 256)
  }

  lemma LimitsAre(i: Image)
    ensures AllFit(AccountKind, i.accounts) && AllFit(KVKind, i.kvs) && Climbs(i.accounts, None) && Climbs(i.kvs, None) <==>
            InLimits(i.accounts, 20) && (forall k :: 0 <= k < |i.accounts| ==> |i.accounts[k].0| == 20) && InLimits(i.kvs, 256)
  {
    hide Less;
  }

  /** DeserializeSnapshot reads i from exactly the data that holds it. */
  lemma ReadsExactly(data: Bytes, hash: Bytes -> Hash, i: Image)
    ensures Deserialized(data, hash) == Some(i) <==> Holds(data, hash, i)
  {
    hide Deserialized, Holds;
    if Deserialized(data, hash) == Some(i) {
      ReadHolds(data, hash, i);
    }
    if Holds(data, hash, i) {
      HeldRead(data, hash, i);
    }
  }

  lemma ReadHolds(data: Bytes, hash: Bytes -> Hash, i: Image)
    requires Deserialized(data, hash) == Some(i)
    ensures Holds(data, hash, i)
  {
    hide ReadHeader, ReadEntries, PutEntries, AllFit, Climbs, HeaderAt, InLimits;
    var n := |data| - 32;
    var body := data[..n];
    HeaderReads(body);
    var h := ReadHeader(body);
    var a := ReadEntries(AccountKind, h.rest, h.value.accounts, None);
    var k := ReadEntries(KVKind, a.rest, h.value.kvs, None);
    ReadEntriesFit(AccountKind, h.rest, h.value.accounts, None);
    ReadEntriesFit(KVKind, a.rest, h.value.kvs, None);
    LimitsAre(i);
    EntriesGiveBack(AccountKind, h.rest, h.value.accounts, None);
    EntriesGiveBack(KVKind, a.rest, h.value.kvs, None);
    PutBoth(i, k.rest);
    assert h.rest == data[144..n];
    HeaderPrefix(h.value, data, n);
  }

  lemma PutBoth(i: Image, extra: Bytes)
    ensures PutEntries(AccountKind, i.accounts, PutEntries(KVKind, i.kvs, extra)) == Entries(i) + extra
  {
    hide PutEntries;
    PutEntriesAppends(KVKind, i.kvs, extra);
    PutEntriesAppends(AccountKind, i.accounts, PutEntries(KVKind, i.kvs, extra));
    PutEntriesAppends(AccountKind, i.accounts, PutEntries(KVKind, i.kvs, []));
  }

  lemma HeldRead(data: Bytes, hash: Bytes -> Hash, i: Image)
    requires Holds(data, hash, i)
    ensures Deserialized(data, hash) == Some(i)
  {
    hide ReadHeader, ReadEntries, PutEntries, AllFit, Climbs, HeaderAt, InLimits, Entries;
    var n := |data| - 32;
    var body := data[..n];
    assert data[..n][144..] == data[144..n];
    SameStart(data, n, HeaderOf(i));
    var extra := data[144..n][|Entries(i)|..];
    assert data[144..n] == Entries(i) + extra;
    PutBoth(i, extra);
    LimitsAre(i);
    EntriesRoundTrip(KVKind, i.kvs, None, extra);
    EntriesRoundTrip(AccountKind, i.accounts, None, PutEntries(KVKind, i.kvs, extra));
  }

  lemma SameStart(data: Bytes, n: nat, h: Header)
    requires 144 <= n <= |data| && HeaderAt(h, data)
    ensures ReadHeader(data[..n]) == Got(h, data[..n][144..])
  {
    hide FromBE, ReadHeader;
    var b := data[..n];
    assert data[..8] == b[..8] && data[8..16] == b[8..16] && data[16..24] == b[16..24] && data[24..56] == b[24..56];
    assert data[56..88] == b[56..88] && data[88..96] == b[88..96] && data[96..104] == b[96..104] && data[104..112] == b[104..112];
    HeaderReads(b);
  }

  lemma HeaderPrefix(h: Header, data: Bytes, n: nat)
    requires n <= |data| && HeaderAt(h, data[..n])
    ensures HeaderAt(h, data)
  {
    hide FromBE;
    var b := data[..n];
    assert data[..8] == b[..8] && data[8..16] == b[8..16] && data[16..24] == b[16..24] && data[24..56] == b[24..56];
    assert data[56..88] == b[56..88] && data[88..96] == b[88..96] && data[96..104] == b[96..104] && data[104..112] == b[104..112];
  }

  /** Data restores exactly if it is what was expected and holds an image with a root, whose accounts decode and whose contents have that root. */
  lemma RestoresExactly(data: Bytes, expected: Hash, hash: Bytes -> Hash, tree: Tree, i: Image)
    ensures Restorable(data, expected, hash, tree) == Some(i) <==>
              && (expected == ZERO_HASH || hash(data) == expected)
              && Holds(data, hash, i) && i.stateRoot != ZERO_HASH
              && exists c :: Loaded(i) == Some(c) && tree(Canonical(c)) == i.stateRoot
  {
    hide Deserialized, Holds, Loaded, Canonical, Zeros;
    ReadsExactly(data, hash, i);
  }
}

/** Blocks on the wire: the gossip message, with its lists of transactions and events. */
module BlockCodec {
  import opened Basics
  import opened Wire
  import opened Votes
  import opened Voting
  import opened Transactions

  const BLOCK_MESSAGE: byte := 1
  const MAX_SIGNATURE: nat := 8192

  datatype Header = Header(
    version: u64, height: u64,
    previousHash: Hash, stateRoot: Hash, txRoot: Hash, receiptRoot: Hash, validatorRoot: Hash, validatorSetHash: Hash,
    epoch: u64, timestamp: u64, proposer: Address, eventsRoot: Hash)

  datatype FeeSummary = FeeSummary(totalFees: u64, validatorShare: u64, burnShare: u64, treasuryShare: u64)

  datatype Event = Event(contractID: Hash, topic: Bytes, data: Bytes, blockHeight: u64, txIndex: u32)

  datatype Block = Block(
    header: Header, transactions: seq<Transaction>, fees: FeeSummary, signature: Bytes,
    commitProof: Option<CommitProof>, events: seq<Event>, evidence: seq<DoubleSign>)

  /** What a message carries of a block. */
  function Carried(b: Block): Block
  {
    b.(header := b.header.(eventsRoot := ZERO_HASH), commitProof := None, evidence := [])
  }

  // ----- header and fees -----

  function PutRoots(h: Header, rest: Bytes): Bytes
  {
    PutBytes(h.receiptRoot, PutBytes(h.validatorRoot, PutBytes(h.validatorSetHash,
    PutU64(h.epoch, PutU64(h.timestamp, PutBytes(h.proposer, rest))))))
  }

  function PutHeader(h: Header, rest: Bytes): Bytes
  {
    PutU64(h.version, PutU64(h.height, PutBytes(h.previousHash, PutBytes(h.stateRoot, PutBytes(h.txRoot, PutRoots(h, rest))))))
  }

  function ReadHeader(data: Bytes): Read<Header>
  {
    var (version, data) :- ReadU64(data);
    var (height, data) :- ReadU64(data);
    var (previousHash, data) :- ReadHash(data);
    var (stateRoot, data) :- ReadHash(data);
    var (txRoot, data) :- ReadHash(data);
    var (receiptRoot, data) :- ReadHash(data);
    var (validatorRoot, data) :- ReadHash(data);
    var (validatorSetHash, data) :- ReadHash(data);
    var (epoch, data) :- ReadU64(data);
    var (timestamp, data) :- ReadU64(data);
    var (proposer, data) :- ReadAddress(data);
    Got(Header(version, height, previousHash, stateRoot, txRoot, receiptRoot, validatorRoot, validatorSetHash,
               epoch, timestamp, proposer, ZERO_HASH), data)
  }

  lemma HeaderRoundTrip(h: Header, rest: Bytes)
    ensures ReadHeader(PutHeader(h, rest)) == Got(h.(eventsRoot := ZERO_HASH), rest)
  {
    hide PutUint, ReadUint, PutBytes;
    var r10 := PutBytes(h.proposer, rest);
    var r9 := PutU64(h.timestamp, r10);
    var r8 := PutU64(h.epoch, r9);
    var r7 := PutBytes(h.validatorSetHash, r8);
    var r6 := PutBytes(h.validatorRoot, r7);
    var r5 := PutBytes(h.receiptRoot, r6);
    var r4 := PutBytes(h.txRoot, r5);
    var r3 := PutBytes(h.stateRoot, r4);
    var r2 := PutBytes(h.previousHash, r3);
    var r1 := PutU64(h.height, r2);
    assert ReadHash(r2) == Got(h.previousHash, r3) && ReadHash(r3) == Got(h.stateRoot, r4);
    assert ReadHash(r4) == Got(h.txRoot, r5) && ReadHash(r5) == Got(h.receiptRoot, r6);
    assert ReadHash(r6) == Got(h.validatorRoot, r7) && ReadHash(r7) == Got(h.validatorSetHash, r8);
    assert ReadAddress(r10) == Got(h.proposer, rest);
  }

  function PutFees(f: FeeSummary, rest: Bytes): Bytes
  {
    PutU64(f.totalFees, PutU64(f.validatorShare, PutU64(f.burnShare, PutU64(f.treasuryShare, rest))))
  }

  function ReadFees(data: Bytes): Read<FeeSummary>
  {
    var (totalFees, data) :- ReadU64(data);
    var (validatorShare, data) :- ReadU64(data);
    var (burnShare, data) :- ReadU64(data);
    var (treasuryShare, data) :- ReadU64(data);
    Got(FeeSummary(totalFees, validatorShare, burnShare, treasuryShare), data)
  }

  lemma FeesRoundTrip(f: FeeSummary, rest: Bytes)
    ensures ReadFees(PutFees(f, rest)) == Got(f, rest)
  {
    hide PutUint, ReadUint;
  }

  // ----- events -----

  predicate EncodableEvent(e: Event)
  {
    |e.topic| <= MAX_VAR_BYTES && |e.data| <= MAX_VAR_BYTES
  }

  function PutEvent(e: Event, rest: Bytes): Bytes
    requires EncodableEvent(e)
  {
    PutBytes(e.contractID, PutVarBytes(e.topic, PutVarBytes(e.data, PutU64(e.blockHeight, PutU32(e.txIndex, rest)))))
  }

  function ReadEvent(data: Bytes): Read<Event>
  {
    var (contractID, data) :- ReadHash(data);
    var (topic, data) :- ReadVarBytes(data);
    var (d, data) :- ReadVarBytes(data);
    var (blockHeight, data) :- ReadU64(data);
    var (txIndex, data) :- ReadU32(data);
    Got(Event(contractID, topic, d, blockHeight, txIndex), data)
  }

  lemma EventRoundTrip(e: Event, rest: Bytes)
    requires EncodableEvent(e)
    ensures ReadEvent(PutEvent(e, rest)) == Got(e, rest)
  {
    hide PutUint, ReadUint, PutBytes, PutVarBytes, ReadVarBytes;
    var r4 := PutU32(e.txIndex, rest);
    var r3 := PutU64(e.blockHeight, r4);
    var r2 := PutVarBytes(e.data, r3);
    var r1 := PutVarBytes(e.topic, r2);
    assert ReadHash(PutBytes(e.contractID, r1)) == Got(e.contractID, r1);
  }

  // ----- lists -----

  ghost predicate AllEncodable(txs: seq<Transaction>)
  {
    forall i :: 0 <= i < |txs| ==> Encodable(txs[i])
  }

  ghost predicate AllEncodableEvents(es: seq<Event>)
  {
    forall i :: 0 <= i < |es| ==> EncodableEvent(es[i])
  }

  ghost function PutTransactions(txs: seq<Transaction>, rest: Bytes): Bytes
    requires AllEncodable(txs)
  {
    if txs == [] then rest else PutTransaction(txs[0], PutTransactions(txs[1..], rest))
  }

  ghost function PutEvents(es: seq<Event>, rest: Bytes): Bytes
    requires AllEncodableEvents(es)
  {
    if es == [] then rest else PutEvent(es[0], PutEvents(es[1..], rest))
  }

  function ReadTransactions(data: Bytes, n: nat): Read<seq<Transaction>>
    decreases n
  {
    if n == 0 then Got([], data) else
      var (tx, data) :- ReadTransaction(data);
      var (txs, data) :- ReadTransactions(data, n - 1);
      Got([tx] + txs, data)
  }

  function ReadEvents(data: Bytes, n: nat): Read<seq<Event>>
    decreases n
  {
    if n == 0 then Got([], data) else
      var (e, data) :- ReadEvent(data);
      var (es, data) :- ReadEvents(data, n - 1);
      Got([e] + es, data)
  }

  lemma {:induction false} TransactionsRoundTrip(txs: seq<Transaction>, rest: Bytes)
    requires AllEncodable(txs)
    ensures ReadTransactions(PutTransactions(txs, rest), |txs|) == Got(txs, rest)
  {
    hide PutTransaction, ReadTransaction, Encodable;
    if txs != [] {
      var tail := PutTransactions(txs[1..], rest);
      TransactionRoundTrip(txs[0], tail);
      TransactionsRoundTrip(txs[1..], rest);
      OneMoreTransaction(PutTransactions(txs, rest), txs, tail, rest);
    }
  }

  lemma OneMoreTransaction(data: Bytes, txs: seq<Transaction>, tail: Bytes, rest: Bytes)
    requires txs != [] && ReadTransaction(data) == Got(txs[0], tail)
    requires ReadTransactions(tail, |txs| - 1) == Got(txs[1..], rest)
    ensures ReadTransactions(data, |txs|) == Got(txs, rest)
  {
    hide ReadTransaction;
    assert txs == [txs[0]] + txs[1..];
  }

  lemma {:induction false} EventsRoundTrip(es: seq<Event>, rest: Bytes)
    requires AllEncodableEvents(es)
    ensures ReadEvents(PutEvents(es, rest), |es|) == Got(es, rest)
  {
    hide PutEvent, ReadEvent, EncodableEvent;
    if es != [] {
      var tail := PutEvents(es[1..], rest);
      EventRoundTrip(es[0], tail);
      EventsRoundTrip(es[1..], rest);
      OneMoreEvent(PutEvents(es, rest), es, tail, rest);
    }
  }

  lemma OneMoreEvent(data: Bytes, es: seq<Event>, tail: Bytes, rest: Bytes)
    requires es != [] && ReadEvent(data) == Got(es[0], tail)
    requires ReadEvents(tail, |es| - 1) == Got(es[1..], rest)
    ensures ReadEvents(data, |es|) == Got(es, rest)
  {
    hide ReadEvent;
    assert es == [es[0]] + es[1..];
  }

  // ----- the message -----

  /** EncodeBlockMessage succeeds. */
  ghost predicate EncodableBlock(b: Block)
  {
    AllEncodable(b.transactions) && AllEncodableEvents(b.events)
  }

  ghost function PutBlock(b: Block): Bytes
    requires EncodableBlock(b)
  {
    PutHeader(b.header, PutU32(Wrap32(|b.transactions|), PutTransactions(b.transactions, PutFees(b.fees, PutEnd(b)))))
  }

  ghost function PutEnd(b: Block): Bytes
    requires AllEncodableEvents(b.events)
  {
    PutU32(Wrap32(|b.signature|), PutBytes(b.signature, PutU32(Wrap32(|b.events|), PutEvents(b.events, []))))
  }

  ghost function Message(b: Block): Bytes
    requires EncodableBlock(b)
  {
    PutU8(BLOCK_MESSAGE, PutU32(Wrap32(|PutBlock(b)|), PutBlock(b)))
  }

  /** Events are optional, and any failure to read their number counts as none. */
  function ReadEnd(data: Bytes): Read<(Bytes, seq<Event>)>
  {
    var (n, data) :- ReadU32(data);
    if n > MAX_SIGNATURE then Fail else
      var (signature, data) :- ReadFull(data, n);
      var count := ReadU32(data);
      if count.Fail? then Got((signature, []), []) else
        var (events, data) :- ReadEvents(count.rest, count.value);
        Got((signature, events), data)
  }

  function ReadBlock(data: Bytes): Read<Block>
  {
    var (header, data) :- ReadHeader(data);
    var (n, data) :- ReadU32(data);
    var (txs, data) :- ReadTransactions(data, n);
    var (fees, data) :- ReadFees(data);
    var (end, data) :- ReadEnd(data);
    Got(Block(header, txs, fees, end.0, None, end.1, []), data)
  }

  /** DecodeBlockMessage: the length prefix is read and ignored. */
  function Decoded(data: Bytes): Read<Block>
  {
    if |data| < 6 || data[0] != BLOCK_MESSAGE then Fail else
      var (_, data) :- ReadU32(data[1..]);
      ReadBlock(data)
  }

  lemma EndRoundTrip(b: Block)
    requires AllEncodableEvents(b.events) && |b.events| < U32 && |b.signature| < U32
    ensures ReadEnd(PutEnd(b)) == if |b.signature| <= 8192 then Got((b.signature, b.events), []) else Fail
  {
    hide PutUint, ReadUint, PutBytes, PutEvents, ReadEvents, EncodableEvent;
    var r2 := PutU32(Wrap32(|b.events|), PutEvents(b.events, []));
    var r1 := PutBytes(b.signature, r2);
    assert ReadU32(PutU32(Wrap32(|b.signature|), r1)) == Got(|b.signature|, r1);
    assert ReadFull(r1, |b.signature|) == Got(b.signature, r2);
    EventsRoundTrip(b.events, []);
  }

  /**
   Every encoded block comes back with all that a message carries of it, provided its signature is
   within the limit of the reader; with a longer one it does not come back at all.
   */
  lemma BlockRoundTrip(b: Block)
    requires EncodableBlock(b) && |b.transactions| < U32 && |b.events| < U32 && |b.signature| < U32
    ensures Decoded(Message(b)) == if |b.signature| <= 8192 then Got(Carried(b), []) else Fail
  {
    hide PutUint, ReadUint, PutHeader, ReadHeader, PutFees, ReadFees, PutEnd, ReadEnd, PutTransactions, ReadTransactions,
         Encodable, EncodableEvent;
    var r3 := PutFees(b.fees, PutEnd(b));
    var r2 := PutTransactions(b.transactions, r3);
    var r1 := PutU32(Wrap32(|b.transactions|), r2);
    HeaderRoundTrip(b.header, r1);
    TransactionsRoundTrip(b.transactions, r3);
    FeesRoundTrip(b.fees, PutEnd(b));
    EndRoundTrip(b);
    assert ReadBlock(PutBlock(b)) == if |b.signature| <= MAX_SIGNATURE then Got(Carried(b), []) else Fail;
    MessageFramed(b);
  }

  /** A message starts with byte 1 and the length of the block, both of which are stripped. */
  lemma MessageFramed(b: Block)
    requires EncodableBlock(b)
    ensures Message(b)[0] == 1 && ReadU32(Message(b)[1..]) == Got(Wrap32(|PutBlock(b)|), PutBlock(b))
    ensures Decoded(Message(b)) == ReadBlock(PutBlock(b))
  {
    hide ReadUint, ReadBlock, PutHeader, PutTransactions, Encodable, EncodableEvent;
    var inner := PutU32(Wrap32(|PutBlock(b)|), PutBlock(b));
    var m := PutU8(BLOCK_MESSAGE, inner);
    FirstByte(BLOCK_MESSAGE, inner);
    BlockNotEmpty(b);
    assert ReadU32(inner) == Got(Wrap32(|PutBlock(b)|), PutBlock(b));
  }

  lemma FirstByte(n: byte, rest: Bytes)
    ensures PutU8(n, rest)[0] == n && PutU8(n, rest)[1..] == rest
  {
    assert BE(n, 1) == [n];
  }

  lemma BlockNotEmpty(b: Block)
    requires EncodableBlock(b)
    ensures |PutBlock(b)| > 0
  {
    hide PutUint, PutBytes, PutTransactions, PutFees, PutEnd, Encodable, EncodableEvent;
  }

  // ----- reading with loops -----

  method ParseTransactions(data: Bytes, n: u32) returns (r: Read<seq<Transaction>>)
    ensures r == ReadTransactions(data, n)
  {
    hide ReadTransaction;
    var txs: seq<Transaction>, rest, i := [], data, 0;
    ghost var all := ReadTransactions(data, n);
    assert all.Got? ==> txs + all.value == all.value;
    while i < n
      invariant 0 <= i <= n
      invariant all == Prepend(txs, ReadTransactions(rest, n - i))
    {
      var one := ReadTransaction(rest);
      if one.Fail? { return Fail; }
      ghost var others := ReadTransactions(one.rest, n - i - 1);
      assert others.Got? ==> txs + ([one.value] + others.value) == (txs + [one.value]) + others.value;
      txs, rest, i := txs + [one.value], one.rest, i + 1;
    }
    assert txs + [] == txs;
    r := Got(txs, rest);
  }

  method ParseEvents(data: Bytes, n: u32) returns (r: Read<seq<Event>>)
    ensures r == ReadEvents(data, n)
  {
    hide ReadEvent;
    var es: seq<Event>, rest, i := [], data, 0;
    ghost var all := ReadEvents(data, n);
    assert all.Got? ==> es + all.value == all.value;
    while i < n
      invariant 0 <= i <= n
      invariant all == Prepend(es, ReadEvents(rest, n - i))
    {
      var one := ReadEvent(rest);
      if one.Fail? { return Fail; }
      ghost var others := ReadEvents(one.rest, n - i - 1);
      assert others.Got? ==> es + ([one.value] + others.value) == (es + [one.value]) + others.value;
      es, rest, i := es + [one.value], one.rest, i + 1;
    }
    assert es + [] == es;
    r := Got(es, rest);
  }

  method DecodeBlockMessage(data: Bytes) returns (r: Read<Block>)
    ensures r == Decoded(data)
  {
    hide ReadUint, ReadHeader, ReadTransactions, ReadFees, ReadEvents;
    if |data| < 6 { return Fail; }
    if data[0] != BLOCK_MESSAGE { return Fail; }
    var prefix := ReadU32(data[1..]);
    if prefix.Fail? { return Fail; }
    var header := ReadHeader(prefix.rest);
    if header.Fail? { return Fail; }
    var n := ReadU32(header.rest);
    if n.Fail? { return Fail; }
    var txs := ParseTransactions(n.rest, n.value);
    if txs.Fail? { return Fail; }
    var fees := ReadFees(txs.rest);
    if fees.Fail? { return Fail; }
    var sigLen := ReadU32(fees.rest);
    if sigLen.Fail? || sigLen.value > MAX_SIGNATURE { return Fail; }
    var signature := ReadFull(sigLen.rest, sigLen.value);
    if signature.Fail? { return Fail; }
    var block := Block(header.value, txs.value, fees.value, signature.value, None, [], []);
    var count := ReadU32(signature.rest);
    if count.Fail? { return Got(block, []); }
    var events := ParseEvents(count.rest, count.value);
    if events.Fail? { return Fail; }
    r := Got(block.(events := events.value), events.rest);
  }

  // ----- writing with loops -----

  lemma TailAppends(tx: Transaction, rest: Bytes)
    requires Encodable(tx)
    ensures PutTail(tx, rest) == PutTail(tx, []) + rest
  {
    hide PutU8, PutU64, PutBytes;
    assert [] + rest == rest;
    U8Step(tx.txType, [], rest);
    var a := PutU8(tx.txType, []);
    BytesStep(tx.signature, a, rest);
    var b := PutBytes(tx.signature, a);
    U8Step(|tx.signature|, b, rest);
    var c := PutU8(|tx.signature|, b);
    U64Step(tx.timestamp, c, rest);
    var d := PutU64(tx.timestamp, c);
    U64Step(tx.gasLimit, d, rest);
    U64Step(tx.maxFee, PutU64(tx.gasLimit, d), rest);
  }

  lemma HeadStep(tx: Transaction, t: Bytes, rest: Bytes)
    ensures PutHead(tx, t + rest) == PutHead(tx, t) + rest
  {
    hide PutU16, PutU32, PutU64, PutBytes;
    U64Step(tx.nonce, t, rest);
    var a := PutU64(tx.nonce, t);
    BytesStep(tx.sender, a, rest);
    var b := PutBytes(tx.sender, a);
    BytesStep(tx.intentID, b, rest);
    var c := PutBytes(tx.intentID, b);
    U32Step(tx.chainID, c, rest);
    U16Step(tx.version, PutU32(tx.chainID, c), rest);
  }

  lemma TransactionAppends(tx: Transaction, rest: Bytes)
    requires Encodable(tx)
    ensures PutTransaction(tx, rest) == PutTransaction(tx, []) + rest
  {
    hide PutHead, PutTail, PutVarBytes;
    TailAppends(tx, rest);
    var t := PutTail(tx, []);
    VarBytesStep(tx.constraints, t, rest);
    var c := PutVarBytes(tx.constraints, t);
    VarBytesStep(tx.payload, c, rest);
    HeadStep(tx, PutVarBytes(tx.payload, c), rest);
  }

  lemma EventAppends(e: Event, rest: Bytes)
    requires EncodableEvent(e)
    ensures PutEvent(e, rest) == PutEvent(e, []) + rest
  {
    hide PutVarBytes, PutU32, PutU64, PutBytes;
    assert [] + rest == rest;
    U32Step(e.txIndex, [], rest);
    var a := PutU32(e.txIndex, []);
    U64Step(e.blockHeight, a, rest);
    var t := PutU64(e.blockHeight, a);
    VarBytesStep(e.data, t, rest);
    var d := PutVarBytes(e.data, t);
    VarBytesStep(e.topic, d, rest);
    BytesStep(e.contractID, PutVarBytes(e.topic, d), rest);
  }

  lemma {:induction false} TransactionsMore(txs: seq<Transaction>, tx: Transaction)
    requires AllEncodable(txs + [tx])
    ensures AllEncodable(txs) && Encodable(tx)
    ensures PutTransactions(txs + [tx], []) == PutTransactions(txs, []) + PutTransaction(tx, [])
  {
    hide PutTransaction, Encodable;
    assert (txs + [tx])[|txs|] == tx;
    assert forall i :: 0 <= i < |txs| ==> (txs + [tx])[i] == txs[i];
    if txs != [] {
      assert (txs + [tx])[1..] == txs[1..] + [tx];
      TransactionsMore(txs[1..], tx);
      TransactionAppends(txs[0], PutTransactions(txs[1..], []));
      TransactionAppends(txs[0], PutTransactions(txs[1..] + [tx], []));
    }
  }

  lemma {:induction false} EventsMore(es: seq<Event>, e: Event)
    requires AllEncodableEvents(es + [e])
    ensures AllEncodableEvents(es) && EncodableEvent(e)
    ensures PutEvents(es + [e], []) == PutEvents(es, []) + PutEvent(e, [])
  {
    hide PutEvent, EncodableEvent;
    assert (es + [e])[|es|] == e;
    assert forall i :: 0 <= i < |es| ==> (es + [e])[i] == es[i];
    if es != [] {
      assert (es + [e])[1..] == es[1..] + [e];
      EventsMore(es[1..], e);
      EventAppends(es[0], PutEvents(es[1..], []));
      EventAppends(es[0], PutEvents(es[1..] + [e], []));
    }
  }

  lemma {:induction false} TransactionsAppend(txs: seq<Transaction>, rest: Bytes)
    requires AllEncodable(txs)
    ensures PutTransactions(txs, rest) == PutTransactions(txs, []) + rest
  {
    hide PutTransaction, Encodable;
    if txs != [] {
      var tail := PutTransactions(txs[1..], []);
      TransactionsAppend(txs[1..], rest);
      TransactionAppends(txs[0], tail);
      TransactionAppends(txs[0], tail + rest);
    }
  }

  method WriteTransactions(txs: seq<Transaction>, buf: Bytes) returns (r: Option<Bytes>)
    ensures r.Some? <==> AllEncodable(txs)
    ensures r.Some? ==> r.value == buf + PutTransactions(txs, [])
  {
    hide PutTransaction, Encodable;
    var out := buf;
    for i := 0 to |txs|
      invariant AllEncodable(txs[..i]) && out == buf + PutTransactions(txs[..i], [])
    {
      if !Encodable(txs[i]) { return None; }
      assert txs[..i + 1] == txs[..i] + [txs[i]];
      TransactionsMore(txs[..i], txs[i]);
      out := out + PutTransaction(txs[i], []);
    }
    assert txs[..|txs|] == txs;
    r := Some(out);
  }

  method WriteEvents(es: seq<Event>, buf: Bytes) returns (r: Option<Bytes>)
    ensures r.Some? <==> AllEncodableEvents(es)
    ensures r.Some? ==> r.value == buf + PutEvents(es, [])
  {
    hide PutEvent, EncodableEvent;
    var out := buf;
    for i := 0 to |es|
      invariant AllEncodableEvents(es[..i]) && out == buf + PutEvents(es[..i], [])
    {
      if !EncodableEvent(es[i]) { return None; }
      assert es[..i + 1] == es[..i] + [es[i]];
      EventsMore(es[..i], es[i]);
      out := out + PutEvent(es[i], []);
    }
    assert es[..|es|] == es;
    r := Some(out);
  }

  lemma RootsAppend(h: Header, rest: Bytes)
    ensures PutRoots(h, rest) == PutRoots(h, []) + rest
  {
    hide PutU64, PutBytes;
    assert [] + rest == rest;
    BytesStep(h.proposer, [], rest);
    var a := PutBytes(h.proposer, []);
    U64Step(h.timestamp, a, rest);
    var b := PutU64(h.timestamp, a);
    U64Step(h.epoch, b, rest);
    var c := PutU64(h.epoch, b);
    BytesStep(h.validatorSetHash, c, rest);
    var d := PutBytes(h.validatorSetHash, c);
    BytesStep(h.validatorRoot, d, rest);
    BytesStep(h.receiptRoot, PutBytes(h.validatorRoot, d), rest);
  }

  lemma HeaderAppends(h: Header, rest: Bytes)
    ensures PutHeader(h, rest) == PutHeader(h, []) + rest
  {
    hide PutU64, PutBytes, PutRoots;
    RootsAppend(h, rest);
    var a := PutRoots(h, []);
    BytesStep(h.txRoot, a, rest);
    var b := PutBytes(h.txRoot, a);
    BytesStep(h.stateRoot, b, rest);
    var c := PutBytes(h.stateRoot, b);
    BytesStep(h.previousHash, c, rest);
    var d := PutBytes(h.previousHash, c);
    U64Step(h.height, d, rest);
    U64Step(h.version, PutU64(h.height, d), rest);
  }

  lemma FeesAppend(f: FeeSummary, rest: Bytes)
    ensures PutFees(f, rest) == PutFees(f, []) + rest
  {
    hide PutU64;
    assert [] + rest == rest;
    U64Step(f.treasuryShare, [], rest);
    var a := PutU64(f.treasuryShare, []);
    U64Step(f.burnShare, a, rest);
    var b := PutU64(f.burnShare, a);
    U64Step(f.validatorShare, b, rest);
    U64Step(f.totalFees, PutU64(f.validatorShare, b), rest);
  }

  lemma U32Appends(n: u32, rest: Bytes)
    ensures PutU32(n, rest) == PutU32(n, []) + rest
  {
    hide PutU32;
    assert [] + rest == rest;
    U32Step(n, [], rest);
  }

  /** EncodeBlockMessage fails exactly when a transaction or an event cannot be encoded. */
  method EncodeBlockMessage(b: Block) returns (r: Option<Bytes>)
    ensures r.Some? <==> EncodableBlock(b)
    ensures r.Some? ==> r.value == Message(b)
  {
    hide PutU32, PutU8, PutHeader, PutTransactions, PutFees, PutEvents, PutBytes, AllEncodable, AllEncodableEvents;
    var buf := PutHeader(b.header, []);
    buf := buf + PutU32(Wrap32(|b.transactions|), []);
    var txs := WriteTransactions(b.transactions, buf);
    if txs.None? { return None; }
    buf := txs.value + PutFees(b.fees, []);
    ghost var front := buf;
    buf := buf + PutU32(Wrap32(|b.signature|), []);
    buf := buf + b.signature;
    buf := buf + PutU32(Wrap32(|b.events|), []);
    var all := WriteEvents(b.events, buf);
    if all.None? { return None; }
    BlockPieces(b);
    EndPieces(b);
    JoinEnd(front, PutU32(Wrap32(|b.signature|), []), b.signature, PutU32(Wrap32(|b.events|), []), PutEvents(b.events, []));
    assert all.value == PutBlock(b);
    r := Some(PutU8(BLOCK_MESSAGE, PutU32(Wrap32(|all.value|), all.value)));
  }

  lemma EndPieces(b: Block)
    requires AllEncodableEvents(b.events)
    ensures PutEnd(b) == PutU32(Wrap32(|b.signature|), []) + b.signature + PutU32(Wrap32(|b.events|), []) + PutEvents(b.events, [])
  {
    hide PutU32, PutEvents, AllEncodableEvents;
    var t := PutEvents(b.events, []);
    U32Appends(Wrap32(|b.events|), t);
    var s := PutU32(Wrap32(|b.events|), t);
    U32Appends(Wrap32(|b.signature|), PutBytes(b.signature, s));
    JoinFour(PutU32(Wrap32(|b.signature|), []), b.signature, PutU32(Wrap32(|b.events|), []), t);
  }

  lemma JoinFour(a: Bytes, b: Bytes, c: Bytes, d: Bytes)
    ensures a + (b + (c + d)) == a + b + c + d
  {
    assert b + (c + d) == (b + c) + d;
  }

  lemma JoinEnd(x: Bytes, a: Bytes, b: Bytes, c: Bytes, d: Bytes)
    ensures x + a + b + c + d == x + (a + b + c + d)
  {
    JoinFour(x, a, b, c);
    assert a + b + c == a + (b + c);
  }

  lemma JoinFive(a: Bytes, b: Bytes, c: Bytes, d: Bytes, e: Bytes)
    ensures a + (b + (c + (d + e))) == a + b + c + d + e
  {
    JoinFour(b, c, d, e);
    assert a + (b + c + d + e) == a + (b + c + d) + e;
    JoinFour(a, b, c, d);
    assert b + c + d == b + (c + d);
  }

  lemma BlockPieces(b: Block)
    requires EncodableBlock(b)
    ensures PutBlock(b) ==
            PutHeader(b.header, []) + PutU32(Wrap32(|b.transactions|), []) + PutTransactions(b.transactions, [])
            + PutFees(b.fees, []) + PutEnd(b)
  {
    hide PutU32, PutEvents, AllEncodable, AllEncodableEvents, PutTransactions, PutFees, PutHeader, PutEnd;
    FeesAppend(b.fees, PutEnd(b));
    var f := PutFees(b.fees, PutEnd(b));
    TransactionsAppend(b.transactions, f);
    var t := PutTransactions(b.transactions, f);
    U32Appends(Wrap32(|b.transactions|), t);
    HeaderAppends(b.header, PutU32(Wrap32(|b.transactions|), t));
    JoinFive(PutHeader(b.header, []), PutU32(Wrap32(|b.transactions|), []), PutTransactions(b.transactions, []),
             PutFees(b.fees, []), PutEnd(b));
  }
}

/** Reported double signing: its encoding, its punishment, and the mark that it was punished. */
module Slashing {
  import opened Basics
  import opened Wire
  import opened Votes
  import opened Accounts
  import opened Validators
  import opened Ledger
  import opened Registry

  // ----- binary form -----

  const MAX_VOTE_SIGNATURE: nat := 1024

  function PutVote(v: Vote, rest: Bytes): Bytes
    requires |v.signature| < U32
  {
    PutU8(v.voteType, PutU64(v.height, PutU32(v.round, PutBytes(v.blockHash,
    PutBytes(v.validator, PutU32(|v.signature|, PutBytes(v.signature, rest)))))))
  }

  function ReadVote(data: Bytes): Read<Vote>
  {
    var (voteType, data) :- ReadU8(data);
    var (height, data) :- ReadU64(data);
    var (round, data) :- ReadU32(data);
    var (blockHash, data) :- ReadHash(data);
    var (validator, data) :- ReadAddress(data);
    var (sigLen, data) :- ReadU32(data);
    if sigLen > MAX_VOTE_SIGNATURE then Fail else
      var (signature, data) :- ReadFull(data, sigLen);
      Got(Vote(voteType, height, round, blockHash, validator, signature), data)
  }

  /** An encoded vote is read back whole, or refused for a signature longer than the limit. */
  lemma VoteRoundTrip(v: Vote, rest: Bytes)
    requires |v.signature| < U32
    ensures ReadVote(PutVote(v, rest)) == if |v.signature| <= 1024 then Got(v, rest) else Fail
  {
    hide PutUint, ReadUint, PutBytes;
    var r6 := PutBytes(v.signature, rest);
    var r5 := PutU32(|v.signature|, r6);
    var r4 := PutBytes(v.validator, r5);
    var r3 := PutBytes(v.blockHash, r4);
    var r2 := PutU32(v.round, r3);
    var r1 := PutU64(v.height, r2);
    assert ReadU8(PutU8(v.voteType, r1)) == Got(v.voteType, r1);
    assert ReadHash(r3) == Got(v.blockHash, r4) && ReadAddress(r4) == Got(v.validator, r5);
    assert ReadU32(r5) == Got(|v.signature|, r6);
  }

  function PutDoubleSign(e: DoubleSign, rest: Bytes): Bytes
    requires |e.voteA.signature| < U32 && |e.voteB.signature| < U32
  {
    PutU8(e.voteA.voteType, PutVote(e.voteA, PutVote(e.voteB, rest)))
  }

  function ReadDoubleSign(data: Bytes): Read<DoubleSign>
  {
    var (_, data) :- ReadU8(data);
    var (a, data) :- ReadVote(data);
    var (b, data) :- ReadVote(data);
    Got(DoubleSign(a, b), data)
  }

  /** Evidence that validates survives its encoding, so its hash input determines it. */
  lemma DoubleSignRoundTrip(e: DoubleSign, rest: Bytes)
    requires CheckDoubleSign(e).None?
    ensures ReadDoubleSign(PutDoubleSign(e, rest)) == Got(e, rest)
  {
    hide PutUint, ReadUint, PutVote, ReadVote;
    var r2 := PutVote(e.voteB, rest);
    var r1 := PutVote(e.voteA, r2);
    VoteRoundTrip(e.voteB, rest);
    VoteRoundTrip(e.voteA, r2);
    assert ReadU8(PutU8(e.voteA.voteType, r1)) == Got(e.voteA.voteType, r1);
  }

  // ----- punishment -----

  function Percent(e: DoubleSign, params: SlashParams): u64
  {
    if e.voteA.voteType == PREVOTE then params.doublePrevote else params.doublePrecommit
  }

  function EvidenceHash(e: DoubleSign, hash: Bytes -> Hash): Hash
    requires CheckDoubleSign(e).None?
  {
    hash(PutDoubleSign(e, []))
  }

  /** ProcessEvidence, for the one kind of evidence that is ever punished. */
  function ProcessEvidence(l: Ledger, e: DoubleSign, height: u64, hash: Bytes -> Hash): Step
  {
    if CheckDoubleSign(e).Some? then Failed(l, InvalidEvidence)
    else if EvidenceHash(e, hash) in l.processed then Failed(l, DuplicateEvidence)
    else
      var s := ApplySlash(l, e.voteA.validator, Percent(e, l.slashParams), l.slashParams.jailEpochs);
      if s.Failed? then s
      else Done(s.ledger.(processed := s.ledger.processed[EvidenceHash(e, hash) := height]))
  }

  /** id lost `amount` of its stake and, if that is not nothing, its place in the active set. */
  ghost predicate Docked(l: Ledger, l': Ledger, id: Address, amount: nat)
  {
    && id in l.validators && id in l'.validators
    && l'.validators == l.validators[id := l'.validators[id]]
    && l'.validators[id].bonded == l.validators[id].bonded - amount
    && l'.totalBonded == l.totalBonded - amount
    && (amount > 0 ==> l'.validators[id].status != Active && l'.validators[id].power == 0)
  }

  /** ApplySlash, when nothing stands in its way. */
  lemma SlashOutcome(l: Ledger, id: Address, percent: u64, jailEpochs: u64)
    requires Inv(l) && id in l.validators && l.validators[id].status != Removed && percent <= 10000
    ensures var amount := SlashAmount(percent, l.validators[id].bonded);
            && amount <= l.validators[id].bonded <= l.totalBonded && l.validators[id].consensusID == id
            && ApplySlash(l, id, percent, jailEpochs) ==
               if amount == 0 then Done(l)
               else Done(Store(l.(totalBonded := l.totalBonded - amount), SlashedRecord(l, id, amount, jailEpochs)))
  {
    hide Consistent, SlashAmount, Repowered, Wrap64;
    InvFiled(l, id);
    SlashAmountBound(percent, l.validators[id].bonded);
    StakeWithinTotal(l, id);
  }

  lemma SlashDocks(l: Ledger, id: Address, percent: u64, jailEpochs: u64)
    requires Inv(l) && id in l.validators && l.validators[id].status != Removed && percent <= 10000
    ensures var s := ApplySlash(l, id, percent, jailEpochs);
            && s.Done?
            && Docked(l, s.ledger, id, SlashAmount(percent, l.validators[id].bonded))
            && s.ledger == l.(validators := s.ledger.validators, totalBonded := s.ledger.totalBonded)
  {
    hide Inv, SlashAmount, ApplySlash, Wrap64;
    SlashOutcome(l, id, percent, jailEpochs);
  }

  /**
   Valid evidence against a registered validator that has not been removed is always carried out,
   once: the offender loses the configured share of its stake and, if that is not nothing, its place
   in the active set; the same evidence is refused from then on.
   */
  lemma EvidencePunishes(l: Ledger, e: DoubleSign, height: u64, hash: Bytes -> Hash)
    requires Inv(l) && CheckDoubleSign(e).None? && EvidenceHash(e, hash) !in l.processed
    requires e.voteA.validator in l.validators && l.validators[e.voteA.validator].status != Removed
    requires Percent(e, l.slashParams) <= 10000
    ensures var s, id := ProcessEvidence(l, e, height, hash), e.voteA.validator;
            && s.Done?
            && Docked(l, s.ledger, id, SlashAmount(Percent(e, l.slashParams), l.validators[id].bonded))
            && ProcessEvidence(s.ledger, e, height, hash) == Failed(s.ledger, DuplicateEvidence)
  {
    hide Consistent, SlashAmount, EvidenceHash, CheckDoubleSign, ApplySlash;
    SlashDocks(l, e.voteA.validator, Percent(e, l.slashParams), l.slashParams.jailEpochs);
  }

  /** The same two votes in the other order. */
  function Swapped(e: DoubleSign): DoubleSign
  {
    DoubleSign(e.voteB, e.voteA)
  }

  /** The swapped report is also valid evidence, and its encoding always differs. */
  lemma OrderMatters(e: DoubleSign)
    requires CheckDoubleSign(e).None?
    ensures CheckDoubleSign(Swapped(e)).None?
    ensures PutDoubleSign(e, []) != PutDoubleSign(Swapped(e), [])
  {
    hide PutDoubleSign, ReadDoubleSign;
    DoubleSignRoundTrip(e, []);
    DoubleSignRoundTrip(Swapped(e), []);
    assert e != Swapped(e);
  }

  /** Reporting marks the evidence and leaves the offender registered under the same rules. */
  lemma AfterReport(l: Ledger, e: DoubleSign, height: u64, hash: Bytes -> Hash)
    requires Inv(l) && CheckDoubleSign(e).None? && EvidenceHash(e, hash) !in l.processed
    requires e.voteA.validator in l.validators && l.validators[e.voteA.validator].status != Removed
    requires Percent(e, l.slashParams) <= 10000
    ensures var s, id := ProcessEvidence(l, e, height, hash), e.voteA.validator;
            && s.Done? && Inv(s.ledger) && s.ledger.slashParams == l.slashParams
            && s.ledger.processed == l.processed[EvidenceHash(e, hash) := height]
            && id in s.ledger.validators && s.ledger.validators[id].status != Removed
  {
    hide Consistent, SlashAmount, EvidenceHash, CheckDoubleSign, ApplySlash, Wrap64;
    var id, percent, jail := e.voteA.validator, Percent(e, l.slashParams), l.slashParams.jailEpochs;
    SlashOutcome(l, id, percent, jail);
    SlashDocks(l, id, percent, jail);
    ApplySlashKeepsInv(l, id, percent, jail);
  }

  /**
   A second report after the first was carried out: refused as a duplicate exactly when its hash is
   that of the first report or was processed before. Otherwise a second report against the same
   validator is carried out and takes the configured share of what the offender has left.
   */
  lemma SecondReport(l: Ledger, e: DoubleSign, f: DoubleSign, height: u64, again: u64, hash: Bytes -> Hash)
    requires Inv(l) && CheckDoubleSign(e).None? && EvidenceHash(e, hash) !in l.processed
    requires e.voteA.validator in l.validators && l.validators[e.voteA.validator].status != Removed
    requires Percent(e, l.slashParams) <= 10000 && CheckDoubleSign(f).None?
    ensures ProcessEvidence(l, e, height, hash).Done?
    ensures var l1, id := ProcessEvidence(l, e, height, hash).ledger, e.voteA.validator;
            var s := ProcessEvidence(l1, f, again, hash);
            var known := EvidenceHash(f, hash) == EvidenceHash(e, hash) || EvidenceHash(f, hash) in l.processed;
            && id in l1.validators
            && (s == Failed(l1, DuplicateEvidence) <==> known)
            && (!known && f.voteA.validator == id ==>
                  if Percent(f, l.slashParams) > 10000 then s == Failed(l1, SlashTooHigh)
                  else s.Done? && Docked(l1, s.ledger, id, SlashAmount(Percent(f, l.slashParams), l1.validators[id].bonded)))
  {
    hide Inv, SlashAmount, EvidenceHash, Docked, PutDoubleSign, CheckDoubleSign, Percent;
    AfterReport(l, e, height, hash);
    var l1 := ProcessEvidence(l, e, height, hash).ledger;
    NeverDuplicate(l1, f.voteA.validator, Percent(f, l1.slashParams), l1.slashParams.jailEpochs);
    if EvidenceHash(f, hash) !in l1.processed && f.voteA.validator == e.voteA.validator && Percent(f, l.slashParams) <= 10000 {
      EvidencePunishes(l1, f, again, hash);
    }
  }

  lemma NeverDuplicate(l: Ledger, id: Address, percent: u64, jailEpochs: u64)
    ensures var s := ApplySlash(l, id, percent, jailEpochs); s.Failed? ==> s.error != DuplicateEvidence
  {
    hide SlashAmount, Wrap64;
  }

  /** The same two votes in the other order: the case of SecondReport in which nothing about the votes changes. */
  lemma SwappedReport(l: Ledger, e: DoubleSign, height: u64, again: u64, hash: Bytes -> Hash)
    requires Inv(l) && CheckDoubleSign(e).None? && EvidenceHash(e, hash) !in l.processed
    requires e.voteA.validator in l.validators && l.validators[e.voteA.validator].status != Removed
    requires Percent(e, l.slashParams) <= 10000
    ensures CheckDoubleSign(Swapped(e)).None? && ProcessEvidence(l, e, height, hash).Done?
    ensures var l1, id := ProcessEvidence(l, e, height, hash).ledger, e.voteA.validator;
            var s := ProcessEvidence(l1, Swapped(e), again, hash);
            var known := EvidenceHash(Swapped(e), hash) == EvidenceHash(e, hash) || EvidenceHash(Swapped(e), hash) in l.processed;
            && id in l1.validators
            && (s == Failed(l1, DuplicateEvidence) <==> known)
            && (!known ==> s.Done? && Docked(l1, s.ledger, id, SlashAmount(Percent(e, l.slashParams), l1.validators[id].bonded)))
  {
    hide Inv, SlashAmount, EvidenceHash, ProcessEvidence, Docked, PutDoubleSign;
    OrderMatters(e);
    SecondReport(l, e, Swapped(e), height, again, hash);
  }

  /** The same votes with other bytes in place of the first signature. */
  function Resigned(e: DoubleSign, signature: Bytes): DoubleSign
  {
    e.(voteA := e.voteA.(signature := signature))
  }

  /** Any other signature of an admissible length makes valid evidence with an encoding of its own. */
  lemma SignatureMatters(e: DoubleSign, signature: Bytes)
    requires CheckDoubleSign(e).None? && 0 < |signature| <= 512 && signature != e.voteA.signature
    ensures CheckDoubleSign(Resigned(e, signature)).None?
    ensures PutDoubleSign(e, []) != PutDoubleSign(Resigned(e, signature), [])
  {
    hide PutDoubleSign, ReadDoubleSign;
    DoubleSignRoundTrip(e, []);
    DoubleSignRoundTrip(Resigned(e, signature), []);
    assert e != Resigned(e, signature);
  }

  /** A stake of 1000000 at five per cent, under a hash that tells the two reports apart: 950000, then 902500. */
  lemma SlashedTwice(l: Ledger, e: DoubleSign, f: DoubleSign, height: u64, again: u64, hash: Bytes -> Hash)
    requires Inv(l) && l.processed == map[] && CheckDoubleSign(e).None? && CheckDoubleSign(f).None?
    requires Percent(e, l.slashParams) == 500 == Percent(f, l.slashParams)
    requires EvidenceHash(f, hash) != EvidenceHash(e, hash) && f.voteA.validator == e.voteA.validator
    requires var id := e.voteA.validator;
             id in l.validators && l.validators[id].status == Active && l.validators[id].bonded == 1_000_000
    ensures var id, l1 := e.voteA.validator, ProcessEvidence(l, e, height, hash).ledger;
            var l2 := ProcessEvidence(l1, f, again, hash).ledger;
            && id in l1.validators && l1.validators[id].bonded == 950_000
            && id in l2.validators && l2.validators[id].bonded == 902_500
  {
    hide Inv, EvidenceHash, ProcessEvidence, CheckDoubleSign, Percent;
    EvidencePunishes(l, e, height, hash);
    SecondReport(l, e, f, height, again, hash);
    assert SlashAmount(500, 1_000_000) == 50_000 && SlashAmount(500, 950_000) == 47_500;
  }

  /** These figures for both ways of telling one offence again: the votes swapped, and a signature changed. */
  lemma ToldAgain(l: Ledger, e: DoubleSign, signature: Bytes, swap: bool, height: u64, again: u64, hash: Bytes -> Hash)
    requires Inv(l) && l.processed == map[] && CheckDoubleSign(e).None? && Percent(e, l.slashParams) == 500
    requires 0 < |signature| <= 512 && signature != e.voteA.signature
    requires CheckDoubleSign(if swap then Swapped(e) else Resigned(e, signature)).None?
    requires EvidenceHash(if swap then Swapped(e) else Resigned(e, signature), hash) != EvidenceHash(e, hash)
    requires var id := e.voteA.validator;
             id in l.validators && l.validators[id].status == Active && l.validators[id].bonded == 1_000_000
    ensures var id, l1 := e.voteA.validator, ProcessEvidence(l, e, height, hash).ledger;
            var l2 := ProcessEvidence(l1, if swap then Swapped(e) else Resigned(e, signature), again, hash).ledger;
            id in l2.validators && l2.validators[id].bonded == 902_500
  {
    hide Inv, EvidenceHash, ProcessEvidence, SlashAmount;
    SlashedTwice(l, e, if swap then Swapped(e) else Resigned(e, signature), height, again, hash);
  }

  /** The two reports agree in everything but the bytes of the votes' signatures. */
  predicate SameButSignatures(e: DoubleSign, f: DoubleSign)
  {
    f.voteA == e.voteA.(signature := f.voteA.signature) && f.voteB == e.voteB.(signature := f.voteB.signature)
  }

  /** Punishment looks at what the votes say, not at their signatures: those only enter the hash. */
  lemma SignaturesOnlyHashed(l: Ledger, e: DoubleSign, f: DoubleSign, height: u64, hash: Bytes -> Hash)
    requires SameButSignatures(e, f) && CheckDoubleSign(e).None? && CheckDoubleSign(f).None?
    requires EvidenceHash(e, hash) !in l.processed && EvidenceHash(f, hash) !in l.processed
    ensures var s, t := ProcessEvidence(l, e, height, hash), ProcessEvidence(l, f, height, hash);
            s.Done? == t.Done? && t.ledger.(processed := l.processed) == s.ledger.(processed := l.processed)
  {
    hide EvidenceHash, CheckDoubleSign;
  }
}

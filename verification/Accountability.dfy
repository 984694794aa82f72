/** From a safety violation to its price: conflicting majorities, the evidence they leave, and who is slashed for it. */
module Accountability {
  import opened Basics
  import opened Sorting
  import opened Votes
  import opened Validators
  import opened Voting
  import opened CommitProofs
  import opened Ledger
  import opened Registry
  import opened Slashing

  /** The ledger after reporting the first n pieces of evidence. */
  function Reported(l: Ledger, es: seq<DoubleSign>, n: nat, height: u64, hash: Bytes -> Hash): Ledger
    requires n <= |es|
  {
    if n == 0 then l else ProcessEvidence(Reported(l, es, n - 1, height, hash), es[n - 1], height, hash).ledger
  }

  /** Valid, new evidence against a registered validator who has something to lose. */
  ghost predicate Bites(l: Ledger, e: DoubleSign, hash: Bytes -> Hash)
  {
    && CheckDoubleSign(e).None? && EvidenceHash(e, hash) !in l.processed
    && e.voteA.validator in l.validators && l.validators[e.voteA.validator].status != Removed
    && Percent(e, l.slashParams) <= 10000
    && SlashAmount(Percent(e, l.slashParams), l.validators[e.voteA.validator].bonded) > 0
  }

  /** Different offenders, and no two pieces of evidence with the same hash. */
  ghost predicate Separate(es: seq<DoubleSign>, hash: Bytes -> Hash)
  {
    forall i, j | 0 <= i < j < |es| && CheckDoubleSign(es[i]).None? && CheckDoubleSign(es[j]).None? ::
      && es[i].voteA.validator != es[j].voteA.validator
      && EvidenceHash(es[i], hash) != EvidenceHash(es[j], hash)
  }

  /** The offender lost its share and is out of the active set. */
  ghost predicate Punished(l: Ledger, l': Ledger, e: DoubleSign)
  {
    var id := e.voteA.validator;
    && id in l.validators && id in l'.validators && Percent(e, l.slashParams) <= 10000
    && l'.validators[id].status != Active && l'.validators[id].power == 0
    && l'.validators[id].bonded == l.validators[id].bonded - SlashAmount(Percent(e, l.slashParams), l.validators[id].bonded)
  }

  /** What reporting against someone else leaves alone. */
  lemma ReportAside(l: Ledger, e: DoubleSign, f: DoubleSign, height: u64, hash: Bytes -> Hash)
    requires Inv(l) && Bites(l, e, hash) && CheckDoubleSign(f).None?
    requires e.voteA.validator != f.voteA.validator && EvidenceHash(e, hash) != EvidenceHash(f, hash)
    ensures var l' := ProcessEvidence(l, e, height, hash).ledger;
            var id := f.voteA.validator;
            && Inv(l') && l'.slashParams == l.slashParams
            && (EvidenceHash(f, hash) in l'.processed <==> EvidenceHash(f, hash) in l.processed)
            && (id in l'.validators <==> id in l.validators)
            && (id in l.validators ==> l'.validators[id] == l.validators[id])
  {
    hide Consistent, CheckDoubleSign, EvidenceHash, Percent, SlashAmount, ApplySlash, FollowsTable;
    var id := e.voteA.validator;
    SlashDocks(l, id, Percent(e, l.slashParams), l.slashParams.jailEpochs);
    ApplySlashKeepsInv(l, id, Percent(e, l.slashParams), l.slashParams.jailEpochs);
  }

  /** Before its own turn a report is as fresh as at the start; after it, its offender stays punished. */
  lemma {:induction false} ReportsBite(l: Ledger, es: seq<DoubleSign>, n: nat, height: u64, hash: Bytes -> Hash)
    requires Inv(l) && n <= |es| && Separate(es, hash)
    requires forall i | 0 <= i < |es| :: Bites(l, es[i], hash)
    ensures var l' := Reported(l, es, n, height, hash);
            && Inv(l') && l'.slashParams == l.slashParams
            && (forall i | n <= i < |es| :: Bites(l', es[i], hash) && SameRecord(l, l', es[i]))
            && (forall i | 0 <= i < n :: Punished(l, l', es[i]))
  {
    hide Inv, Bites, Punished, ProcessEvidence, SameRecord;
    if n == 0 {
      forall i | 0 <= i < |es| ensures SameRecord(l, l, es[i]) { NothingYet(l, es[i], hash); }
    } else {
      ReportsBite(l, es, n - 1, height, hash);
      var m, e := Reported(l, es, n - 1, height, hash), es[n - 1];
      var l' := ProcessEvidence(m, e, height, hash).ledger;
      OwnTurn(l, m, e, height, hash);
      forall i | n <= i < |es| ensures Bites(l', es[i], hash) && SameRecord(l, l', es[i]) {
        BitesApart(l, es[n - 1], es[i], hash);
        StillBites(l, m, e, es[i], height, hash);
      }
      forall i | 0 <= i < n - 1 ensures Punished(l, l', es[i]) {
        BitesApart(l, es[i], es[n - 1], hash);
        StaysPunished(l, m, es[i], e, height, hash);
      }
    }
  }

  ghost predicate SameRecord(l: Ledger, l': Ledger, e: DoubleSign)
  {
    var id := e.voteA.validator;
    id in l.validators && id in l'.validators && l'.validators[id] == l.validators[id]
  }

  lemma NothingYet(l: Ledger, e: DoubleSign, hash: Bytes -> Hash)
    requires Bites(l, e, hash)
    ensures SameRecord(l, l, e)
  {
  }

  lemma BitesApart(l: Ledger, e: DoubleSign, f: DoubleSign, hash: Bytes -> Hash)
    requires Bites(l, e, hash) && Bites(l, f, hash)
    ensures CheckDoubleSign(e).None? && CheckDoubleSign(f).None?
  {
  }

  lemma OwnTurn(l: Ledger, m: Ledger, e: DoubleSign, height: u64, hash: Bytes -> Hash)
    requires Inv(m) && Bites(m, e, hash) && SameRecord(l, m, e) && m.slashParams == l.slashParams
    ensures var l' := ProcessEvidence(m, e, height, hash).ledger;
            Inv(l') && l'.slashParams == l.slashParams && Punished(l, l', e)
  {
    hide Consistent, CheckDoubleSign, EvidenceHash, Percent, SlashAmount, ApplySlash, FollowsTable;
    SlashDocks(m, e.voteA.validator, Percent(e, m.slashParams), m.slashParams.jailEpochs);
    ApplySlashKeepsInv(m, e.voteA.validator, Percent(e, m.slashParams), m.slashParams.jailEpochs);
  }

  lemma StillBites(l: Ledger, m: Ledger, e: DoubleSign, f: DoubleSign, height: u64, hash: Bytes -> Hash)
    requires Inv(m) && Bites(m, e, hash) && Bites(m, f, hash) && SameRecord(l, m, f)
    requires CheckDoubleSign(e).None? && CheckDoubleSign(f).None?
    requires e.voteA.validator != f.voteA.validator && EvidenceHash(e, hash) != EvidenceHash(f, hash)
    ensures var l' := ProcessEvidence(m, e, height, hash).ledger; Bites(l', f, hash) && SameRecord(l, l', f)
  {
    hide Inv, CheckDoubleSign, EvidenceHash, Percent, SlashAmount, ProcessEvidence;
    ReportAside(m, e, f, height, hash);
  }

  lemma StaysPunished(l: Ledger, m: Ledger, done: DoubleSign, e: DoubleSign, height: u64, hash: Bytes -> Hash)
    requires Inv(m) && Bites(m, e, hash) && Punished(l, m, done)
    requires CheckDoubleSign(e).None? && CheckDoubleSign(done).None?
    requires e.voteA.validator != done.voteA.validator && EvidenceHash(e, hash) != EvidenceHash(done, hash)
    ensures Punished(l, ProcessEvidence(m, e, height, hash).ledger, done)
  {
    hide Inv, CheckDoubleSign, EvidenceHash, Percent, SlashAmount, ProcessEvidence;
    ReportAside(m, e, done, height, hash);
  }

  /** The evidence two conflicting polls leave against the validators of a list. */
  function EvidenceOf(ids: seq<Address>, a: Ballots, b: Ballots): (es: seq<DoubleSign>)
    requires forall id :: id in ids ==> id in a.votes && id in b.votes
    ensures |es| == |ids| && forall i :: 0 <= i < |ids| ==> es[i] == DoubleSign(a.votes[ids[i]], b.votes[ids[i]])
  {
    seq(|ids|, i requires 0 <= i < |ids| => DoubleSign(a.votes[ids[i]], b.votes[ids[i]]))
  }

  /**
   If two blocks of one height and round both get a precommit majority, reporting the validators who
   signed both takes stake from every one of them and removes them all from the active set; and
   between them they held a third of the power.
   */
  lemma ConflictIsPunished(p: Poll, a: Ballots, q: Poll, b: Ballots, crypto: Crypto,
                           ids: seq<Address>, l: Ledger, height: u64)
    requires q == p.(blockHash := q.blockHash) && p.blockHash != q.blockHash
    requires WellFormed(p.snapshot) && 3 * p.snapshot.totalPower < U64
    requires Sound(p, a, crypto) && Sound(q, b, crypto) && HasMajority(p, a) && HasMajority(q, b)
    requires forall id :: id in ids <==> id in a.votes.Keys * b.votes.Keys
    requires Inv(l) && Separate(EvidenceOf(ids, a, b), crypto.hash)
    requires forall i | 0 <= i < |ids| :: Bites(l, EvidenceOf(ids, a, b)[i], crypto.hash)
    ensures 3 * PowerIn(p.snapshot.validators, set id | id in ids) >= p.snapshot.totalPower > 0
    ensures forall i | 0 <= i < |ids| ::
              Punished(l, Reported(l, EvidenceOf(ids, a, b), |ids|, height, crypto.hash), EvidenceOf(ids, a, b)[i])
  {
    hide Inv, Bites, Punished, Sound, HasMajority, Reported, Separate;
    AccountableSafety(p, a, q, b, crypto);
    assert (set id | id in ids) == a.votes.Keys * b.votes.Keys;
    ReportsBite(l, EvidenceOf(ids, a, b), |ids|, height, crypto.hash);
  }
}

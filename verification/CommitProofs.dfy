/** Independent validation of finality proofs, and what two conflicting proofs reveal. */
module CommitProofs {
  import opened Basics
  import opened Sorting
  import opened Validators
  import opened Votes
  import opened Voting

  ghost function Signers(votes: seq<Vote>): set<Address>
  {
    set i | 0 <= i < |votes| :: votes[i].validator
  }

  /** Power summed vote by vote; strangers count for nothing. */
  function SignedPower(votes: seq<Vote>, members: map<Address, Validator>): nat
  {
    if votes == [] then 0 else
      var id := votes[|votes| - 1].validator;
      SignedPower(votes[..|votes| - 1], members) + if id in members then members[id].power else 0
  }

  ghost predicate GoodPrecommit(v: Vote, proof: CommitProof, members: map<Address, Validator>, crypto: Crypto)
  {
    && ValidVote(v) && v.voteType == PRECOMMIT
    && v.height == proof.height && v.blockHash == proof.blockHash
    && v.validator in members && Verify(v, members[v.validator].publicKey, crypto)
  }

  /** What a finality proof for the header at `height` with hash `headerHash` has to be. */
  ghost predicate Accepts(height: u64, headerHash: Hash, snap: Snapshot, proof: CommitProof, crypto: Crypto)
  {
    && proof.setHash == snap.setHash && proof.height == height
    && proof.blockHash == headerHash && proof.totalPower == snap.totalPower
    && Ascending(proof.precommits, ByValidator)
    && (forall i :: 0 <= i < |proof.precommits| ==>
          GoodPrecommit(proof.precommits[i], proof, Index(snap.validators), crypto))
    && proof.signedPower == Wrap64(SignedPower(proof.precommits, Index(snap.validators)))
    && TwoThirds(proof.signedPower, proof.totalPower)
  }

  datatype ProofError =
    | NilProof | NoSnapshot | SetHashMismatch | ProofHeightMismatch | BlockHashMismatch
    | TotalPowerMismatch | TooManyPrecommits | NotSorted | InvalidVote | NotPrecommit
    | VoteHeightMismatch | VoteHashMismatch | DuplicateSigner | UnknownSigner | InvalidSignature
    | SignedPowerMismatch | NoMajority

  /** validateCommitProof. The stored snapshot of the epoch is looked up by the caller. */
  method ValidateCommitProof(height: u64, headerHash: Hash, maybeProof: Option<CommitProof>,
                             maybeSnap: Option<Snapshot>, crypto: Crypto)
    returns (err: Option<ProofError>)
    ensures err.None? <==>
            height == 0 || (maybeProof.Some? && maybeSnap.Some? &&
                            Accepts(height, headerHash, maybeSnap.value, maybeProof.value, crypto))
  {
    hide Verify;
    if height == 0 { return None; }
    if maybeProof.None? { return Some(NilProof); }
    if maybeSnap.None? { return Some(NoSnapshot); }
    var proof, snap := maybeProof.value, maybeSnap.value;
    if proof.setHash != snap.setHash { return Some(SetHashMismatch); }
    if proof.height != height { return Some(ProofHeightMismatch); }
    if proof.blockHash != headerHash { return Some(BlockHashMismatch); }
    if proof.totalPower != snap.totalPower { return Some(TotalPowerMismatch); }
    var votesErr, power := CheckPrecommits(proof, snap, crypto);
    if votesErr.Some? { return votesErr; }
    if power != proof.signedPower { return Some(SignedPowerMismatch); }
    if !TwoThirds(proof.signedPower, proof.totalPower) { return Some(NoMajority); }
    return None;
  }

  /** The part of validateCommitProof that looks at the votes: how many, sorted, and each in turn. */
  method CheckPrecommits(proof: CommitProof, snap: Snapshot, crypto: Crypto)
    returns (err: Option<ProofError>, power: u64)
    ensures err.None? <==>
            && Ascending(proof.precommits, ByValidator)
            && forall i :: 0 <= i < |proof.precommits| ==>
                 GoodPrecommit(proof.precommits[i], proof, Index(snap.validators), crypto)
    ensures err.None? ==> power == Wrap64(SignedPower(proof.precommits, Index(snap.validators)))
  {
    hide GoodPrecommit, Index, Signers, SignedPower, DistinctSigners;
    power := 0;
    SignersBound(proof, snap, crypto);
    var votes := proof.precommits;
    if |votes| > |snap.validators| { return Some(TooManyPrecommits), 0; }
    var sorted := InOrder(votes);
    if !sorted { return Some(NotSorted), 0; }
    var seen: set<Address>, members := {}, Index(snap.validators);
    NoSigners(votes, members);
    for i := 0 to |votes|
      invariant forall j :: 0 <= j < i ==> GoodPrecommit(votes[j], proof, members, crypto)
      invariant DistinctSigners(votes[..i])
      invariant seen == Signers(votes[..i])
      invariant power == Wrap64(SignedPower(votes[..i], members))
    {
      var v := votes[i];
      OneMoreSigner(votes, i, members);
      if v.validator in seen {
        RepeatedSigner(votes, i);
      }
      err := CheckPrecommit(v, proof, members, seen, crypto);
      if err.Some? { return err, 0; }
      seen := seen + {v.validator};
      power := Wrap64(power + members[v.validator].power);
    }
    assert votes[..|votes|] == votes;
    AdjacentAscending(votes);
    err := None;
  }

  method InOrder(votes: seq<Vote>) returns (ok: bool)
    ensures ok <==> forall j :: 1 <= j < |votes| ==> !ByValidator(votes[j], votes[j - 1])
    ensures Ascending(votes, ByValidator) ==> ok
  {
    ByValidatorIsStrictWeak();
    var k := 1;
    while k < |votes|
      invariant 1 <= k
      invariant forall j :: 1 <= j < k && j < |votes| ==> !ByValidator(votes[j], votes[j - 1])
    {
      if ByValidator(votes[k], votes[k - 1]) {
        assert !ByValidator(votes[k - 1], votes[k]);
        return false;
      }
      k := k + 1;
    }
    return true;
  }

  /** The checks on a single precommit. */
  method CheckPrecommit(v: Vote, proof: CommitProof, members: map<Address, Validator>,
                        seen: set<Address>, crypto: Crypto)
    returns (err: Option<ProofError>)
    ensures err.None? <==> GoodPrecommit(v, proof, members, crypto) && v.validator !in seen
    ensures err.None? ==> v.validator in members
  {
    hide Verify;
    if !ValidVote(v) { return Some(InvalidVote); }
    if v.voteType != PRECOMMIT { return Some(NotPrecommit); }
    if v.height != proof.height { return Some(VoteHeightMismatch); }
    if v.blockHash != proof.blockHash { return Some(VoteHashMismatch); }
    if v.validator in seen { return Some(DuplicateSigner); }
    if v.validator !in members { return Some(UnknownSigner); }
    if !Verify(v, members[v.validator].publicKey, crypto) { return Some(InvalidSignature); }
    return None;
  }

  ghost predicate DistinctSigners(votes: seq<Vote>)
  {
    forall i, j :: 0 <= i < j < |votes| ==> votes[i].validator != votes[j].validator
  }

  lemma NoSigners(votes: seq<Vote>, members: map<Address, Validator>)
    ensures Signers(votes[..0]) == {} && SignedPower(votes[..0], members) == 0
    ensures DistinctSigners(votes[..0])
  {
  }

  lemma OneMoreSigner(votes: seq<Vote>, i: nat, members: map<Address, Validator>)
    requires i < |votes|
    ensures Signers(votes[..i + 1]) == Signers(votes[..i]) + {votes[i].validator}
    ensures votes[i].validator in members ==>
              SignedPower(votes[..i + 1], members) ==
              SignedPower(votes[..i], members) + members[votes[i].validator].power
    ensures DistinctSigners(votes[..i]) && votes[i].validator !in Signers(votes[..i])
            ==> DistinctSigners(votes[..i + 1])
  {
    assert votes[..i + 1] == votes[..i] + [votes[i]];
    assert votes[..i + 1][..i] == votes[..i];
    assert forall j :: 0 <= j < i ==> votes[..i][j] == votes[..i + 1][j];
  }

  lemma RepeatedSigner(votes: seq<Vote>, i: nat)
    requires i < |votes| && votes[i].validator in Signers(votes[..i])
    ensures !Ascending(votes, ByValidator)
  {
    var j :| 0 <= j < i && votes[..i][j].validator == votes[i].validator;
    LessIrreflexive(votes[i].validator);
    assert !ByValidator(votes[j], votes[i]);
  }

  /** Sorted neighbours without repeats are strictly ascending throughout. */
  lemma AdjacentAscending(votes: seq<Vote>)
    requires forall j :: 1 <= j < |votes| ==> !ByValidator(votes[j], votes[j - 1])
    requires DistinctSigners(votes)
    ensures Ascending(votes, ByValidator)
  {
    ByValidatorIsStrictWeak();
    forall i, j | 0 <= i < j < |votes| ensures ByValidator(votes[i], votes[j]) {
      ClimbFrom(votes, i, j);
    }
  }

  lemma {:induction false} ClimbFrom(votes: seq<Vote>, i: nat, j: nat)
    requires i < j < |votes|
    requires forall k :: 1 <= k < |votes| ==> !ByValidator(votes[k], votes[k - 1])
    requires DistinctSigners(votes)
    ensures ByValidator(votes[i], votes[j])
    decreases j
  {
    ByValidatorIsStrictWeak();
    LessTotal(votes[j - 1].validator, votes[j].validator);
    assert ByValidator(votes[j - 1], votes[j]);
    if i < j - 1 {
      ClimbFrom(votes, i, j - 1);
    }
  }

  /** Ascending signers are distinct. */
  lemma AscendingSigners(votes: seq<Vote>)
    requires Ascending(votes, ByValidator)
    ensures DistinctSigners(votes)
    ensures |Signers(votes)| == |votes|
  {
    forall i, j | 0 <= i < j < |votes| ensures votes[i].validator != votes[j].validator {
      assert ByValidator(votes[i], votes[j]);
      LessIrreflexive(votes[i].validator);
    }
    CountSigners(votes);
  }

  lemma {:induction false} CountSigners(votes: seq<Vote>)
    requires DistinctSigners(votes)
    ensures |Signers(votes)| == |votes|
  {
    if votes != [] {
      var init, last := votes[..|votes| - 1], votes[|votes| - 1];
      CountSigners(init);
      assert votes == init + [last];
      assert Signers(votes) == Signers(init) + {last.validator};
      assert last.validator !in Signers(init);
    }
  }

  /** The sanity limit on the number of precommits never rejects an otherwise good proof. */
  lemma SignersBound(proof: CommitProof, snap: Snapshot, crypto: Crypto)
    ensures && Ascending(proof.precommits, ByValidator)
            && (forall i :: 0 <= i < |proof.precommits| ==>
                  GoodPrecommit(proof.precommits[i], proof, Index(snap.validators), crypto))
            ==> |proof.precommits| <= |snap.validators|
  {
    hide Verify;
    if && Ascending(proof.precommits, ByValidator)
       && forall i :: 0 <= i < |proof.precommits| ==>
            GoodPrecommit(proof.precommits[i], proof, Index(snap.validators), crypto) {
      AscendingSigners(proof.precommits);
      assert Signers(proof.precommits) <= Index(snap.validators).Keys;
      MembersBound(snap.validators, Signers(proof.precommits));
    }
  }

  /** Summing vote by vote gives the power of the set of signers. */
  lemma {:induction false} SignedPowerOfSet(vals: seq<Validator>, votes: seq<Vote>)
    requires DistinctIDs(vals)
    requires DistinctSigners(votes)
    ensures SignedPower(votes, Index(vals)) == PowerIn(vals, Signers(votes))
  {
    if votes == [] {
      assert Signers(votes) == {};
      PowerOfNone(vals);
    } else {
      var init, last := votes[..|votes| - 1], votes[|votes| - 1];
      SignedPowerOfSet(vals, init);
      assert votes == init + [last];
      assert Signers(votes) == Signers(init) + {last.validator};
      PowerOfOneMore(vals, Signers(init), last.validator);
    }
  }

  /** Every accepted proof is backed by distinct members holding two thirds of the power. */
  lemma AcceptedMeansQuorum(height: u64, headerHash: Hash, snap: Snapshot, proof: CommitProof, crypto: Crypto)
    requires WellFormed(snap) && 3 * snap.totalPower < U64
    requires Accepts(height, headerHash, snap, proof, crypto)
    ensures Signers(proof.precommits) <= IDs(snap.validators)
    ensures |Signers(proof.precommits)| == |proof.precommits|
    ensures proof.signedPower == PowerIn(snap.validators, Signers(proof.precommits))
    ensures 0 < 2 * TotalPower(snap.validators) <= 3 * PowerIn(snap.validators, Signers(proof.precommits))
  {
    hide Verify;
    var vals, S := snap.validators, Signers(proof.precommits);
    AscendingSigners(proof.precommits);
    SignedPowerOfSet(vals, proof.precommits);
    assert S <= Index(vals).Keys;
    PowerMonotone(vals, S, S);
    TwoThirdsExact(snap.totalPower);
  }

  ghost predicate AllPrecommits(b: Ballots)
  {
    forall id :: id in b.votes ==> ValidVote(b.votes[id]) && b.votes[id].voteType == PRECOMMIT
  }

  /**
   A proof built from a majority is accepted exactly when every collected vote is a structurally
   valid precommit: collection itself never looks at the vote type or at the signature's length.
   */
  lemma BuiltProofAccepted(poll: Poll, b: Ballots, crypto: Crypto)
    requires WellFormed(poll.snapshot) && Sound(poll, b, crypto) && HasMajority(poll, b)
    ensures Keyed(b.votes)
    ensures Accepts(poll.height, poll.blockHash, poll.snapshot, ProofOf(poll, b), crypto) <==> AllPrecommits(b)
  {
    hide Verify, StrictWeak, TotalOn, GoodPrecommit, AllPrecommits, Index, SignedPower, PowerIn, TotalPower;
    GenuineKeyed(poll, b, crypto);
    KeyedTotal(b.votes);
    var proof, vals := ProofOf(poll, b), poll.snapshot.validators;
    var votes := proof.precommits;
    ListedVotes(b.votes, votes);
    AscendingSigners(votes);
    SignedPowerOfSet(vals, votes);
    ListedGood(poll, b, proof, crypto);
  }

  /** Of genuine votes, only the type and the structure can still be wrong. */
  lemma ListedGood(poll: Poll, b: Ballots, proof: CommitProof, crypto: Crypto)
    requires Genuine(poll, b, crypto) && Keyed(b.votes)
    requires proof.height == poll.height && proof.blockHash == poll.blockHash
    requires forall v :: v in proof.precommits <==> v in b.votes.Values
    ensures (forall i :: 0 <= i < |proof.precommits| ==>
               GoodPrecommit(proof.precommits[i], proof, poll.Members(), crypto)) <==> AllPrecommits(b)
  {
    hide Verify;
    var votes := proof.precommits;
    ListedVotes(b.votes, votes);
    forall i | 0 <= i < |votes|
      ensures GoodPrecommit(votes[i], proof, poll.Members(), crypto) <==>
              ValidVote(votes[i]) && votes[i].voteType == PRECOMMIT
    {
      assert votes[i] in votes;
      assert GenuineVote(poll, votes[i].validator, b.votes[votes[i].validator], crypto);
    }
    forall id | id in b.votes ensures exists i :: 0 <= i < |votes| && votes[i] == b.votes[id] {
      assert b.votes[id] in b.votes.Values;
    }
    forall i | 0 <= i < |votes|
      ensures votes[i].validator in b.votes && b.votes[votes[i].validator] == votes[i]
    {
      assert votes[i] in votes;
    }
  }

  lemma ListedVotes(votes: map<Address, Vote>, s: seq<Vote>)
    requires Keyed(votes)
    requires forall v :: v in s <==> v in votes.Values
    ensures Signers(s) == votes.Keys
    ensures forall v :: v in s ==> v.validator in votes && votes[v.validator] == v
  {
    forall v | v in s ensures v.validator in votes && votes[v.validator] == v {
      assert v in votes.Values;
    }
    forall id | id in votes ensures id in Signers(s) {
      assert votes[id] in votes.Values;
      var i :| 0 <= i < |s| && s[i] == votes[id];
    }
  }

  // ----- accountability -----

  /**
   Two polls of one height and round that both reach a precommit majority expose validators
   holding a third of the power, and each one's two votes are valid double-sign evidence.
   */
  lemma AccountableSafety(p: Poll, a: Ballots, q: Poll, b: Ballots, crypto: Crypto)
    requires q == p.(blockHash := q.blockHash) && p.blockHash != q.blockHash
    requires WellFormed(p.snapshot) && 3 * p.snapshot.totalPower < U64
    requires Sound(p, a, crypto) && Sound(q, b, crypto)
    requires HasMajority(p, a) && HasMajority(q, b)
    ensures 3 * PowerIn(p.snapshot.validators, a.votes.Keys * b.votes.Keys) >= p.snapshot.totalPower > 0
    ensures forall id :: id in a.votes.Keys * b.votes.Keys ==>
              (CheckDoubleSign(DoubleSign(a.votes[id], b.votes[id])).None? <==>
               && ValidVote(a.votes[id]) && ValidVote(b.votes[id])
               && a.votes[id].voteType == b.votes[id].voteType)
  {
    hide Verify;
    MajorityMeaning(p, a);
    MajorityMeaning(q, b);
    QuorumIntersection(p.snapshot.validators, a.votes.Keys, b.votes.Keys);
    forall id | id in a.votes.Keys * b.votes.Keys
      ensures CheckDoubleSign(DoubleSign(a.votes[id], b.votes[id])).None? <==>
              && ValidVote(a.votes[id]) && ValidVote(b.votes[id])
              && a.votes[id].voteType == b.votes[id].voteType
    {
      assert GenuineVote(p, id, a.votes[id], crypto) && GenuineVote(q, id, b.votes[id], crypto);
    }
  }

  /**
   Two accepted proofs for different blocks of one height: a third of the power signed both.
   A signer's pair of votes is evidence exactly when the rounds agree, which proof validation
   does not look at.
   */
  lemma ConflictingProofs(height: u64, h1: Hash, h2: Hash, snap: Snapshot, p: CommitProof, q: CommitProof, crypto: Crypto)
    requires WellFormed(snap) && 3 * snap.totalPower < U64 && h1 != h2
    requires Accepts(height, h1, snap, p, crypto) && Accepts(height, h2, snap, q, crypto)
    ensures 3 * PowerIn(snap.validators, Signers(p.precommits) * Signers(q.precommits)) >= snap.totalPower > 0
    ensures forall i, j | 0 <= i < |p.precommits| && 0 <= j < |q.precommits| &&
                            p.precommits[i].validator == q.precommits[j].validator ::
              (CheckDoubleSign(DoubleSign(p.precommits[i], q.precommits[j])).None? <==>
               p.precommits[i].round == q.precommits[j].round)
  {
    hide Verify;
    AcceptedMeansQuorum(height, h1, snap, p, crypto);
    AcceptedMeansQuorum(height, h2, snap, q, crypto);
    QuorumIntersection(snap.validators, Signers(p.precommits), Signers(q.precommits));
  }

  // ----- acceptance through counting -----

  /** The box after handing the first n votes to addVote, one by one. */
  function CountAll(poll: Poll, votes: seq<Vote>, n: nat, crypto: Crypto): Ballots
    requires n <= |votes|
  {
    if n == 0 then Ballots(map[], 0) else Count(poll, CountAll(poll, votes, n - 1, crypto), votes[n - 1], crypto)
  }

  /** addVote turns none of the first n votes down. */
  ghost predicate NoneRefused(poll: Poll, votes: seq<Vote>, n: nat, crypto: Crypto)
    requires n <= |votes|
  {
    forall i :: 0 <= i < n ==> Refusal(poll, CountAll(poll, votes, i, crypto), votes[i], crypto).None?
  }

  lemma {:induction false} CountedVotes(poll: Poll, votes: seq<Vote>, n: nat, crypto: Crypto)
    requires n <= |votes| && NoneRefused(poll, votes, n, crypto)
    ensures var b := CountAll(poll, votes, n, crypto);
            b.votes.Keys == Signers(votes[..n]) && b.power == Wrap64(SignedPower(votes[..n], poll.Members()))
  {
    hide Wrap64, Index, Count, Refusal, Signers, SignedPower;
    NoSigners(votes, poll.Members());
    NoPower();
    if n > 0 {
      CountedVotes(poll, votes, n - 1, crypto);
      OneMoreSigner(votes, n - 1, poll.Members());
      CountedOne(poll, CountAll(poll, votes, n - 1, crypto), votes[n - 1], crypto);
      WrapAdd(SignedPower(votes[..n - 1], poll.Members()), poll.Members()[votes[n - 1].validator].power);
    }
  }

  lemma NoPower()
    ensures Wrap64(0) == 0
  {
  }

  lemma CountedOne(poll: Poll, b: Ballots, vote: Vote, crypto: Crypto)
    requires Refusal(poll, b, vote, crypto).None?
    ensures vote.validator in poll.Members()
    ensures var b' := Count(poll, b, vote, crypto);
            b'.votes.Keys == b.votes.Keys + {vote.validator} && b'.power == Wrap64(b.power + poll.Members()[vote.validator].power)
  {
    hide Verify, Wrap64;
  }

  /** Distinct genuine votes are counted one after the other, and only those. */
  lemma {:induction false} NoneRefusedExactly(poll: Poll, votes: seq<Vote>, n: nat, crypto: Crypto)
    requires n <= |votes| && DistinctSigners(votes)
    ensures NoneRefused(poll, votes, n, crypto) <==>
            forall i :: 0 <= i < n ==> GenuineVote(poll, votes[i].validator, votes[i], crypto)
  {
    hide Verify, Index, CountAll;
    if n > 0 {
      NoneRefusedExactly(poll, votes, n - 1, crypto);
      if NoneRefused(poll, votes, n - 1, crypto) {
        CountedVotes(poll, votes, n - 1, crypto);
        NotYetSigned(votes, n - 1);
      }
    }
  }

  lemma NotYetSigned(votes: seq<Vote>, i: nat)
    requires i < |votes| && DistinctSigners(votes)
    ensures votes[i].validator !in Signers(votes[..i])
  {
  }

  /** The proof claims what the header, the snapshot and the counter say. */
  ghost predicate Matches(height: u64, headerHash: Hash, snap: Snapshot, proof: CommitProof, counted: u64)
  {
    && proof.setHash == snap.setHash && proof.height == height && proof.blockHash == headerHash
    && proof.totalPower == snap.totalPower && proof.signedPower == counted
  }

  /**
   A proof of one round is accepted exactly when its votes are valid precommits in ascending order that
   addVote would count one after the other to a majority, and its figures match.
   */
  lemma AcceptedByCounting(height: u64, headerHash: Hash, snap: Snapshot, proof: CommitProof, round: u32, crypto: Crypto)
    requires forall i :: 0 <= i < |proof.precommits| ==> proof.precommits[i].round == round
    ensures var poll, votes := Poll(height, round, headerHash, snap), proof.precommits;
            var box := CountAll(poll, votes, |votes|, crypto);
            Accepts(height, headerHash, snap, proof, crypto) <==>
            && (forall i :: 0 <= i < |votes| ==> ValidVote(votes[i]) && votes[i].voteType == PRECOMMIT)
            && (forall i, j :: 0 <= i < j < |votes| ==> Less(votes[i].validator, votes[j].validator))
            && NoneRefused(poll, votes, |votes|, crypto) && HasMajority(poll, box)
            && Matches(height, headerHash, snap, proof, box.power)
  {
    hide Verify, Index, CountAll, TwoThirds, SignedPower, ValidVote, Less;
    var poll, votes := Poll(height, round, headerHash, snap), proof.precommits;
    if Ascending(votes, ByValidator) {
      AscendingSigners(votes);
      NoneRefusedExactly(poll, votes, |votes|, crypto);
      if NoneRefused(poll, votes, |votes|, crypto) {
        CountedVotes(poll, votes, |votes|, crypto);
        assert votes[..|votes|] == votes;
      }
      if proof.height == height && proof.blockHash == headerHash {
        forall i | 0 <= i < |votes| && ValidVote(votes[i]) && votes[i].voteType == PRECOMMIT
          ensures GoodPrecommit(votes[i], proof, poll.Members(), crypto) <==> GenuineVote(poll, votes[i].validator, votes[i], crypto)
        {
        }
      }
    }
  }

  // ----- the smallest inputs on which the two conditions fail -----

  /** A set of one validator. */
  ghost predicate Lone(snap: Snapshot, v: Validator)
  {
    snap.validators == [v] && snap.totalPower == v.power && 0 < 3 * v.power < U64
  }

  lemma LoneFacts(snap: Snapshot, v: Validator)
    requires Lone(snap, v)
    ensures WellFormed(snap) && Index(snap.validators) == map[v.consensusID := v]
    ensures TwoThirds(v.power, snap.totalPower)
  {
    assert snap.validators[..0] == [];
    TwoThirdsExact(snap.totalPower);
  }

  /** The sole validator's prevote, collected among the precommits: a majority whose proof is rejected. */
  lemma PrevoteInProof(poll: Poll, v: Validator, signature: Bytes, crypto: Crypto)
    requires Lone(poll.snapshot, v)
    requires Verify(Vote(PREVOTE, poll.height, poll.round, poll.blockHash, v.consensusID, signature), v.publicKey, crypto)
    ensures var b := Count(poll, Ballots(map[], 0),
                           Vote(PREVOTE, poll.height, poll.round, poll.blockHash, v.consensusID, signature), crypto);
            && HasMajority(poll, b) && Keyed(b.votes)
            && !Accepts(poll.height, poll.blockHash, poll.snapshot, ProofOf(poll, b), crypto)
  {
    hide Verify, TwoThirds, Index, Accepts, ProofOf;
    LoneFacts(poll.snapshot, v);
    var vote := Vote(PREVOTE, poll.height, poll.round, poll.blockHash, v.consensusID, signature);
    var none := Ballots(map[], 0);
    EmptySound(poll, crypto);
    CountSound(poll, none, vote, crypto);
    var b := Count(poll, none, vote, crypto);
    assert b.votes == map[v.consensusID := vote] && b.power == v.power;
    BuiltProofAccepted(poll, b, crypto);
    assert b.votes[v.consensusID].voteType == PREVOTE;
  }

  function LoneProof(snap: Snapshot, vote: Vote): CommitProof
  {
    CommitProof(vote.height, vote.blockHash, [vote], snap.totalPower, snap.totalPower, snap.setHash)
  }

  lemma LoneAccepted(snap: Snapshot, v: Validator, vote: Vote, crypto: Crypto)
    requires Lone(snap, v) && vote.validator == v.consensusID && ValidVote(vote) && vote.voteType == PRECOMMIT
    requires Verify(vote, v.publicKey, crypto)
    ensures Accepts(vote.height, vote.blockHash, snap, LoneProof(snap, vote), crypto)
  {
    hide Verify, TwoThirds, Index;
    LoneFacts(snap, v);
    var members := Index(snap.validators);
    assert [vote][..0] == [];
    assert SignedPower([], members) == 0;
    assert SignedPower([vote], members) == v.power;
    assert GoodPrecommit(vote, LoneProof(snap, vote), members, crypto);
  }

  /** The sole validator's precommits of two rounds finalize two blocks of one height, and are no evidence. */
  lemma RoundsApart(snap: Snapshot, v: Validator, a: Vote, b: Vote, crypto: Crypto)
    requires Lone(snap, v) && a.validator == v.consensusID == b.validator && a.height == b.height
    requires ValidVote(a) && a.voteType == PRECOMMIT && ValidVote(b) && b.voteType == PRECOMMIT
    requires a.round != b.round && a.blockHash != b.blockHash
    requires Verify(a, v.publicKey, crypto) && Verify(b, v.publicKey, crypto)
    ensures Accepts(a.height, a.blockHash, snap, LoneProof(snap, a), crypto)
    ensures Accepts(a.height, b.blockHash, snap, LoneProof(snap, b), crypto)
    ensures CheckDoubleSign(DoubleSign(a, b)) == Some(RoundMismatch)
  {
    hide Verify, Accepts;
    LoneAccepted(snap, v, a, crypto);
    LoneAccepted(snap, v, b, crypto);
  }
}

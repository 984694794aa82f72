/** Vote collection for one height, round and block hash, against a frozen validator set. */
module Voting {
  import opened Basics
  import opened Sorting
  import opened Validators
  import opened Votes

  /** What is being voted on, and by whom. */
  datatype Poll = Poll(height: u64, round: u32, blockHash: Hash, snapshot: Snapshot) {
    function Members(): map<Address, Validator> { Index(snapshot.validators) }
  }

  /** The votes of one phase with their running power, as addVote is handed them. */
  datatype Ballots = Ballots(votes: map<Address, Vote>, power: u64)

  datatype VoteError =
    | WrongHeight | WrongRound | WrongBlockHash | DuplicateVote | NotInSnapshot | BadSignature

  /** Why addVote turns a vote down, in the order it looks. */
  function Refusal(poll: Poll, b: Ballots, vote: Vote, crypto: Crypto): Option<VoteError>
  {
    if vote.height != poll.height then Some(WrongHeight)
    else if vote.round != poll.round then Some(WrongRound)
    else if vote.blockHash != poll.blockHash then Some(WrongBlockHash)
    else if vote.validator in b.votes then Some(DuplicateVote)
    else if vote.validator !in poll.Members() then Some(NotInSnapshot)
    else if !Verify(vote, poll.Members()[vote.validator].publicKey, crypto) then Some(BadSignature)
    else None
  }

  /** addVote: the ballots afterwards, unchanged when the vote is refused. */
  function Count(poll: Poll, b: Ballots, vote: Vote, crypto: Crypto): Ballots
  {
    if Refusal(poll, b, vote, crypto).Some? then b else
      Ballots(b.votes[vote.validator := vote],
              Wrap64(b.power + poll.Members()[vote.validator].power))
  }

  predicate HasMajority(poll: Poll, b: Ballots)
  {
    TwoThirds(b.power, poll.snapshot.totalPower)
  }

  /** v is id's own vote for the polled block, signed with the key frozen in the snapshot. */
  ghost predicate GenuineVote(poll: Poll, id: Address, v: Vote, crypto: Crypto)
  {
    && v.validator == id && v.height == poll.height && v.round == poll.round
    && v.blockHash == poll.blockHash && id in poll.Members()
    && Verify(v, poll.Members()[id].publicKey, crypto)
  }

  ghost predicate Genuine(poll: Poll, b: Ballots, crypto: Crypto)
  {
    forall id :: id in b.votes ==> GenuineVote(poll, id, b.votes[id], crypto)
  }

  /** The counter holds the power of exactly those who voted, each counted once. */
  ghost predicate Counted(poll: Poll, b: Ballots)
  {
    b.power == PowerIn(poll.snapshot.validators, b.votes.Keys)
  }

  ghost predicate Sound(poll: Poll, b: Ballots, crypto: Crypto)
  {
    Genuine(poll, b, crypto) && (WellFormed(poll.snapshot) ==> Counted(poll, b))
  }

  /** A vote is counted, at its signer's power, exactly when it is genuine and the signer's first. */
  lemma CountExactly(poll: Poll, b: Ballots, vote: Vote, crypto: Crypto)
    ensures var id, b' := vote.validator, Count(poll, b, vote, crypto);
            if id !in b.votes && GenuineVote(poll, id, vote, crypto)
            then b'.votes == b.votes[id := vote] && b'.power == Wrap64(b.power + poll.Members()[id].power)
            else b' == b
  {
    hide Verify, Index;
  }

  lemma EmptySound(poll: Poll, crypto: Crypto)
    ensures Sound(poll, Ballots(map[], 0), crypto)
  {
    PowerOfNone(poll.snapshot.validators);
    var none: map<Address, Vote> := map[];
    assert none.Keys == {};
  }

  lemma CountKeepsGenuine(poll: Poll, b: Ballots, vote: Vote, crypto: Crypto)
    requires Genuine(poll, b, crypto)
    ensures Genuine(poll, Count(poll, b, vote, crypto), crypto)
  {
    hide Verify;
  }

  lemma CountKeepsCounted(poll: Poll, b: Ballots, vote: Vote, crypto: Crypto)
    requires WellFormed(poll.snapshot) && Counted(poll, b)
    ensures Counted(poll, Count(poll, b, vote, crypto))
  {
    hide Verify;
    var vals := poll.snapshot.validators;
    var voters := b.votes.Keys;
    if vote.validator !in voters {
      PowerOfOneMore(vals, voters, vote.validator);
      PowerMonotone(vals, voters + {vote.validator}, voters + {vote.validator});
      assert b.votes[vote.validator := vote].Keys == voters + {vote.validator};
    }
  }

  /** One more vote, accepted or refused, keeps the ballots sound. */
  lemma CountSound(poll: Poll, b: Ballots, vote: Vote, crypto: Crypto)
    requires Sound(poll, b, crypto)
    ensures Sound(poll, Count(poll, b, vote, crypto), crypto)
  {
    hide Verify;
    hide Count;
    CountKeepsGenuine(poll, b, vote, crypto);
    if WellFormed(poll.snapshot) {
      CountKeepsCounted(poll, b, vote, crypto);
    }
  }

  /** When 3 * total fits in 64 bits, the test means "voters hold at least two thirds". */
  lemma MajorityMeaning(poll: Poll, b: Ballots)
    requires WellFormed(poll.snapshot) && Counted(poll, b) && 3 * poll.snapshot.totalPower < U64
    ensures HasMajority(poll, b) <==>
            && poll.snapshot.totalPower > 0
            && 3 * PowerIn(poll.snapshot.validators, b.votes.Keys) >= 2 * TotalPower(poll.snapshot.validators)
  {
    PowerMonotone(poll.snapshot.validators, b.votes.Keys, b.votes.Keys);
    if poll.snapshot.totalPower > 0 {
      TwoThirdsExact(poll.snapshot.totalPower);
    }
  }

  // ----- commit proofs -----

  datatype CommitProof = CommitProof(
    height: u64,
    blockHash: Hash,
    precommits: seq<Vote>,
    totalPower: u64,
    signedPower: u64,
    setHash: Hash)

  /** Each vote is stored under its own validator. */
  ghost predicate Keyed(votes: map<Address, Vote>)
  {
    forall id :: id in votes ==> votes[id].validator == id
  }

  lemma GenuineKeyed(poll: Poll, b: Ballots, crypto: Crypto)
    requires Genuine(poll, b, crypto)
    ensures Keyed(b.votes)
  {
    hide Verify;
  }

  lemma KeyedTotal(votes: map<Address, Vote>)
    requires Keyed(votes)
    ensures StrictWeak(ByValidator) && TotalOn(votes.Values, ByValidator)
  {
    ByValidatorIsStrictWeak();
    forall x, y | x in votes.Values && y in votes.Values && x != y
      ensures ByValidator(x, y) || ByValidator(y, x)
    {
      var i :| i in votes && votes[i] == x;
      var j :| j in votes && votes[j] == y;
      LessTotal(x.validator, y.validator);
    }
  }

  /** The finality proof of a poll: its precommits in ascending validator order. */
  ghost function ProofOf(poll: Poll, b: Ballots): CommitProof
    requires Keyed(b.votes)
  {
    KeyedTotal(b.votes);
    CommitProof(poll.height, poll.blockHash, Listing(b.votes.Values, ByValidator),
                poll.snapshot.totalPower, b.power, poll.snapshot.setHash)
  }

  /** Ranges over a vote map in any order at all, then sorts. */
  method SortedVotes(votes: map<Address, Vote>) returns (r: seq<Vote>)
    requires Keyed(votes)
    ensures StrictWeak(ByValidator) && TotalOn(votes.Values, ByValidator)
    ensures r == Listing(votes.Values, ByValidator)
  {
    hide StrictWeak, TotalOn;
    KeyedTotal(votes);
    var order := RangeKeys(votes.Keys);
    r := [];
    for i := 0 to |order|
      invariant |r| == i
      invariant forall j :: 0 <= j < i ==> order[j] in votes && r[j] == votes[order[j]]
    {
      assert order[i] in order;
      r := r + [votes[order[i]]];
    }
    RangedVotes(votes, order, r);
    r := SortSlice(r, ByValidator);
    SortedIsListing(r, votes.Values, ByValidator);
  }

  lemma RangedVotes(votes: map<Address, Vote>, order: seq<Address>, r: seq<Vote>)
    requires Keyed(votes) && Distinct(order) && forall id :: id in order <==> id in votes.Keys
    requires |r| == |order| && forall j :: 0 <= j < |r| ==> order[j] in votes && r[j] == votes[order[j]]
    ensures multiset(r) == multiset(votes.Values)
  {
    forall v ensures v in r <==> v in votes.Values {
      if v in votes.Values {
        var id :| id in votes && votes[id] == v;
        assert id in order;
      }
    }
    forall i, j | 0 <= i < j < |r| ensures r[i] != r[j] {
      assert order[i] != order[j];
    }
    DistinctMultiset(r, votes.Values);
  }

  class VotingState {
    const poll: Poll
    const crypto: Crypto
    var prevotes: map<Address, Vote>
    var precommits: map<Address, Vote>
    var prevotePower: u64
    var precommitPower: u64

    ghost function Prevotes(): Ballots
      reads this
    {
      Ballots(prevotes, prevotePower)
    }

    ghost function Precommits(): Ballots
      reads this
    {
      Ballots(precommits, precommitPower)
    }

    ghost predicate Valid()
      reads this
    {
      Sound(poll, Prevotes(), crypto) && Sound(poll, Precommits(), crypto)
    }

    constructor (height: u64, round: u32, blockHash: Hash, snapshot: Snapshot, crypto: Crypto)
      ensures poll == Poll(height, round, blockHash, snapshot) && this.crypto == crypto
      ensures Valid() && Prevotes() == Precommits() == Ballots(map[], 0)
    {
      poll, this.crypto := Poll(height, round, blockHash, snapshot), crypto;
      prevotes, precommits := map[], map[];
      prevotePower, precommitPower := 0, 0;
      new;
      EmptySound(poll, crypto);
    }

    method AddPrevote(vote: Vote) returns (err: Option<VoteError>)
      requires Valid()
      modifies this
      ensures Valid() && Precommits() == old(Precommits())
      ensures err == Refusal(poll, old(Prevotes()), vote, crypto)
      ensures Prevotes() == Count(poll, old(Prevotes()), vote, crypto)
    {
      hide Verify, Sound;
      CountSound(poll, Prevotes(), vote, crypto);
      prevotes, prevotePower, err := CountVote(vote, prevotes, prevotePower);
    }

    method AddPrecommit(vote: Vote) returns (err: Option<VoteError>)
      requires Valid()
      modifies this
      ensures Valid() && Prevotes() == old(Prevotes())
      ensures err == Refusal(poll, old(Precommits()), vote, crypto)
      ensures Precommits() == Count(poll, old(Precommits()), vote, crypto)
    {
      hide Verify, Sound;
      CountSound(poll, Precommits(), vote, crypto);
      precommits, precommitPower, err := CountVote(vote, precommits, precommitPower);
    }

    /** addVote, on whichever vote map and counter it was handed. */
    method CountVote(vote: Vote, votes: map<Address, Vote>, power: u64)
      returns (votes': map<Address, Vote>, power': u64, err: Option<VoteError>)
      ensures err == Refusal(poll, Ballots(votes, power), vote, crypto)
      ensures Ballots(votes', power') == Count(poll, Ballots(votes, power), vote, crypto)
    {
      hide Verify;
      votes', power' := votes, power;
      if vote.height != poll.height { return votes, power, Some(WrongHeight); }
      if vote.round != poll.round { return votes, power, Some(WrongRound); }
      if vote.blockHash != poll.blockHash { return votes, power, Some(WrongBlockHash); }
      if vote.validator in votes { return votes, power, Some(DuplicateVote); }
      var members := poll.Members();
      if vote.validator !in members { return votes, power, Some(NotInSnapshot); }
      var member := members[vote.validator];
      if !Verify(vote, member.publicKey, crypto) { return votes, power, Some(BadSignature); }
      votes' := votes[vote.validator := vote];
      power' := Wrap64(power + member.power);
      err := None;
    }

    /** The map is ranged over in any order; the proof comes out the same. */
    method BuildCommitProof() returns (proof: Option<CommitProof>)
      requires Valid()
      ensures proof.Some? <==> HasMajority(poll, Precommits())
      ensures Keyed(precommits)
      ensures proof.Some? ==> proof.value == ProofOf(poll, Precommits())
    {
      GenuineKeyed(poll, Precommits(), crypto);
      if !TwoThirds(precommitPower, poll.snapshot.totalPower) { return None; }
      var votes := SortedVotes(precommits);
      proof := Some(CommitProof(poll.height, poll.blockHash, votes, poll.snapshot.totalPower,
                                precommitPower, poll.snapshot.setHash));
    }
  }
}

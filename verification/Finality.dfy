/** Finality proofs and the protocol: no two accepted proofs of one height and round. */
module Finality {
  import opened Basics
  import opened Sorting
  import opened Validators
  import opened Votes
  import opened Voting
  import opened Safety
  import opened CommitProofs

  /** Whatever verifies as an honest member's vote of this height and round, it signed. */
  ghost predicate Unforged(c: Config, signed: set<Statement>)
  {
    forall v: Vote ::
      && v.height == c.height && v.round == c.round && v.validator in c.honest
      && v.validator in Index(c.snapshot.validators) && Verify(v, Index(c.snapshot.validators)[v.validator].publicKey, c.crypto)
      ==> Statement(v.voteType, v.blockHash, v.validator) in signed
  }

  /** A proof of the configuration's round. */
  ghost predicate OfRound(c: Config, proof: CommitProof)
  {
    forall i :: 0 <= i < |proof.precommits| ==> proof.precommits[i].round == c.round
  }

  /** The signers of an accepted proof are Byzantine or signed a precommit for its block, and so the block is backed. */
  lemma ProofBacked(c: Config, signed: set<Statement>, h: Hash, proof: CommitProof)
    requires NoWrap(c) && HonestSigned(c, signed) && Unforged(c, signed)
    requires Accepts(c.height, h, c.snapshot, proof, c.crypto) && OfRound(c, proof)
    ensures Backed(c, signed, h)
  {
    hide Verify, Ascending, Less, TwoThirds, SignedPower, Index, HonestSigned;
    AcceptedMeansQuorum(c.height, h, c.snapshot, proof, c.crypto);
    var votes := proof.precommits;
    if i :| 0 <= i < |votes| && votes[i].validator in c.honest {
      var v := votes[i];
      assert GoodPrecommit(v, proof, Index(c.snapshot.validators), c.crypto);
      HonestPrecommit(c, signed, Statement(v.voteType, v.blockHash, v.validator));
    } else {
      forall id | id in Signers(votes) ensures id in Supporters(c, signed, h) {}
      PowerMonotone(c.snapshot.validators, Signers(votes), Supporters(c, signed, h));
    }
  }

  lemma HonestPrecommit(c: Config, signed: set<Statement>, s: Statement)
    requires HonestSigned(c, signed) && s in signed && s.validator in c.honest && s.voteType == PRECOMMIT
    ensures Backed(c, signed, s.blockHash)
  {
  }

  /**
   With less than a third of the power Byzantine and no forged signatures, two accepted proofs of one
   height and round are for one block, whatever the run.
   */
  lemma OneFinalBlock(c: Config, run: seq<Event>, h1: Hash, p: CommitProof, h2: Hash, q: CommitProof)
    requires FaultBound(c) && IsRun(c, run) && Unforged(c, After(c, run).signed)
    requires Accepts(c.height, h1, c.snapshot, p, c.crypto) && OfRound(c, p)
    requires Accepts(c.height, h2, c.snapshot, q, c.crypto) && OfRound(c, q)
    ensures h1 == h2
  {
    hide NoWrap, IsRun, After, Backed, SoundBoxes, HonestBoxes, HonestSigned, Accepts, Unforged, OfRound;
    RunKeepsInv(c, run);
    var signed := After(c, run).signed;
    ProofBacked(c, signed, h1, p);
    ProofBacked(c, signed, h2, q);
    BackedUnique(c, signed, h1, h2);
  }
}

/** Signed votes, and the evidence that a validator signed two conflicting ones. */
module Votes {
  import opened Basics
  import opened Wire
  import opened Sorting

  const PREVOTE: byte := 1
  const PRECOMMIT: byte := 2

  datatype Vote = Vote(
    voteType: byte,
    height: u64,
    round: u32,
    blockHash: Hash,
    validator: Address,
    signature: Bytes)

  /** SHA-256 and Ed25519 verification; nothing is assumed about either. */
  datatype Crypto = Crypto(hash: Bytes -> Hash, verify: (PubKey, Hash, Bytes) -> bool)

  /** What a signature covers: every field but the signature. */
  function SignBytes(v: Vote): Bytes
  {
    PutU8(v.voteType, PutU64(v.height, PutU32(v.round,
    PutBytes(v.blockHash, PutBytes(v.validator, [])))))
  }

  predicate Verify(v: Vote, key: PubKey, crypto: Crypto)
  {
    crypto.verify(key, crypto.hash(SignBytes(v)), v.signature)
  }

  /** A signature cannot be moved to a vote that differs anywhere else. */
  lemma SignBytesInjective(a: Vote, b: Vote)
    requires SignBytes(a) == SignBytes(b)
    ensures a == b.(signature := a.signature)
  {
    hide PutUint, ReadUint;
    var a1, b1 := PutBytes(a.validator, []), PutBytes(b.validator, []);
    var a2, b2 := PutBytes(a.blockHash, a1), PutBytes(b.blockHash, b1);
    var a3, b3 := PutU32(a.round, a2), PutU32(b.round, b2);
    var a4, b4 := PutU64(a.height, a3), PutU64(b.height, b3);
    assert ReadU8(PutU8(a.voteType, a4)) == ReadU8(PutU8(b.voteType, b4));
    assert ReadU64(a4) == ReadU64(b4);
    assert ReadU32(a3) == ReadU32(b3);
    assert ReadFull(a2, 32) == ReadFull(b2, 32);
    assert ReadFull(a1, 20) == ReadFull(b1, 20);
  }

  /** Vote.Validate: structure only. */
  predicate ValidVote(v: Vote)
  {
    (v.voteType == PREVOTE || v.voteType == PRECOMMIT) && 0 < |v.signature| <= 512
  }

  predicate ByValidator(a: Vote, b: Vote)
  {
    Less(a.validator, b.validator)
  }

  lemma ByValidatorIsStrictWeak()
    ensures StrictWeak(ByValidator)
  {
    LessIsStrictWeak();
    assert forall x: Vote, y: Vote :: ByValidator(x, y) == Less(x.validator, y.validator);
  }

  // ----- evidence -----

  datatype DoubleSign = DoubleSign(voteA: Vote, voteB: Vote)

  datatype EvidenceError =
    | TypeMismatch | ValidatorMismatch | HeightMismatch | RoundMismatch | SameBlockHash
    | InvalidVoteA | InvalidVoteB

  /** DoubleSignEvidence.Validate. */
  function CheckDoubleSign(e: DoubleSign): Option<EvidenceError>
  {
    if e.voteA.voteType != e.voteB.voteType then Some(TypeMismatch)
    else if e.voteA.validator != e.voteB.validator then Some(ValidatorMismatch)
    else if e.voteA.height != e.voteB.height then Some(HeightMismatch)
    else if e.voteA.round != e.voteB.round then Some(RoundMismatch)
    else if e.voteA.blockHash == e.voteB.blockHash then Some(SameBlockHash)
    else if !ValidVote(e.voteA) then Some(InvalidVoteA)
    else if !ValidVote(e.voteB) then Some(InvalidVoteB)
    else None
  }
}

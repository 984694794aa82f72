/** Exactly when two blocks of one height and round can both reach a majority. */
module Tightness {
  import opened Basics
  import opened Validators
  import opened Votes
  import opened Voting
  import opened Safety
  import opened Harness

  ghost predicate Quorum(c: Config, Q: set<Address>)
  {
    Q <= IDs(c.snapshot.validators) && 3 * PowerIn(c.snapshot.validators, Q) >= 2 * TotalPower(c.snapshot.validators)
  }

  /** Two quorums with no honest validator in common. */
  ghost predicate Split(c: Config, Q1: set<Address>, Q2: set<Address>)
  {
    Quorum(c, Q1) && Quorum(c, Q2) && Q1 * Q2 * c.honest == {}
  }

  /** Some node has a majority for h1 in some phase, and some node has one for h2. */
  ghost predicate Conflict(c: Config, run: seq<Event>, h1: Hash, h2: Hash)
  {
    && IsRun(c, run)
    && (exists n, p :: HasMajority(c.PollOn(h1), After(c, run).Box(n, p, h1)))
    && (exists n, p :: HasMajority(c.PollOn(h2), After(c, run).Box(n, p, h2)))
  }

  // ----- a conflict needs a split -----

  lemma MajorityIsQuorum(c: Config, run: seq<Event>, n: nat, p: Phase, h: Hash)
    requires NoWrap(c) && IsRun(c, run) && HasMajority(c.PollOn(h), After(c, run).Box(n, p, h))
    ensures Quorum(c, Supporters(c, After(c, run).signed, h))
  {
    hide IsRun, After, SoundBoxes, HonestBoxes, HonestSigned, HasMajority, NoWrap;
    RunKeepsInv(c, run);
    MajorityBacked(c, After(c, run), n, p, h);
  }

  lemma ConflictNeedsSplit(c: Config, run: seq<Event>, h1: Hash, h2: Hash)
    requires NoWrap(c) && h1 != h2 && Conflict(c, run, h1, h2)
    ensures Split(c, Supporters(c, After(c, run).signed, h1), Supporters(c, After(c, run).signed, h2))
  {
    hide IsRun, After, SoundBoxes, HonestBoxes, HasMajority, NoWrap, Quorum;
    var n1, p1 :| HasMajority(c.PollOn(h1), After(c, run).Box(n1, p1, h1));
    var n2, p2 :| HasMajority(c.PollOn(h2), After(c, run).Box(n2, p2, h2));
    MajorityIsQuorum(c, run, n1, p1, h1);
    MajorityIsQuorum(c, run, n2, p2, h2);
    RunKeepsInv(c, run);
    var signed := After(c, run).signed;
    forall id | id in Supporters(c, signed, h1) && id in Supporters(c, signed, h2) ensures id !in c.honest {
      var s, t := Statement(PREVOTE, h1, id), Statement(PREVOTE, h2, id);
      assert s in signed && t in signed ==> id !in c.honest;
    }
  }

  // ----- a split makes a conflict -----

  function BallotOf(c: Config, h: Hash, id: Address, voteType: byte, sign: Vote -> Bytes): Vote
  {
    var v := Vote(voteType, c.height, c.round, h, id, []);
    v.(signature := sign(v))
  }

  /** Every member has a signature that checks, for votes of either type on h. */
  ghost predicate CanSign(c: Config, h: Hash, sign: Vote -> Bytes)
  {
    forall id, voteType | id in c.PollOn(h).Members() && (voteType == PREVOTE || voteType == PRECOMMIT) ::
      Verify(BallotOf(c, h, id, voteType, sign), c.PollOn(h).Members()[id].publicKey, c.crypto)
  }

  /** All of Q may cast such a vote, in any order: nobody honest prevoted otherwise, or h has its prevotes. */
  ghost predicate MayAllSign(c: Config, net: Net, voteType: byte, h: Hash, Q: set<Address>)
  {
    if voteType == PREVOTE then
      forall t :: t in net.signed && t.validator in Q && t.validator in c.honest && t.voteType == PREVOTE ==> t.blockHash == h
    else voteType == PRECOMMIT && HasMajority(c.PollOn(h), net.Box(0, Prevote, h))
  }

  function PhaseOf(voteType: byte): Phase
  {
    if voteType == PREVOTE then Prevote else Precommit
  }

  /** The run after everyone in Q has cast such a vote. */
  ghost predicate AllCast(c: Config, run: seq<Event>, longer: seq<Event>, voteType: byte, h: Hash, Q: set<Address>)
  {
    var before, after, phase := After(c, run), After(c, longer), PhaseOf(voteType);
    && IsRun(c, longer)
    && after.signed == before.signed + (set id | id in Q :: Statement(voteType, h, id))
    && Q <= after.Box(0, phase, h).votes.Keys
    && forall p, g | p != phase || g != h :: after.Box(0, p, g) == before.Box(0, p, g)
  }

  lemma CountedWhenGood(c: Config, h: Hash, id: Address, voteType: byte, sign: Vote -> Bytes, b: Ballots)
    requires CanSign(c, h, sign) && id in c.PollOn(h).Members() && (voteType == PREVOTE || voteType == PRECOMMIT)
    ensures var b' := Count(c.PollOn(h), b, BallotOf(c, h, id, voteType, sign), c.crypto);
            b.votes.Keys <= b'.votes.Keys && id in b'.votes
  {
    hide Verify;
  }

  lemma OneOfThemMaySign(c: Config, run: seq<Event>, middle: seq<Event>, voteType: byte, h: Hash, Q: set<Address>, id: Address)
    requires id in Q && MayAllSign(c, After(c, run), voteType, h, Q) && AllCast(c, run, middle, voteType, h, Q - {id})
    ensures MaySign(c, After(c, middle), 0, Statement(voteType, h, id))
  {
    hide After, IsRun, HasMajority;
  }

  lemma {:induction false} CastAll(c: Config, run: seq<Event>, voteType: byte, h: Hash, Q: set<Address>, sign: Vote -> Bytes)
    returns (longer: seq<Event>)
    requires IsRun(c, run) && CanSign(c, h, sign) && MayAllSign(c, After(c, run), voteType, h, Q)
    requires (voteType == PREVOTE || voteType == PRECOMMIT) && Q <= c.PollOn(h).Members().Keys
    ensures AllCast(c, run, longer, voteType, h, Q)
    decreases |Q|
  {
    hide After, IsRun, CanSign, HasMajority, Index;
    if Q == {} {
      longer := run;
    } else {
      var id :| id in Q;
      var middle := CastAll(c, run, voteType, h, Q - {id}, sign);
      OneOfThemMaySign(c, run, middle, voteType, h, Q, id);
      longer := CastOne(c, run, middle, voteType, h, Q, id, sign);
    }
  }

  lemma CastOne(c: Config, run: seq<Event>, middle: seq<Event>, voteType: byte, h: Hash, Q: set<Address>, id: Address,
                sign: Vote -> Bytes) returns (longer: seq<Event>)
    requires AllCast(c, run, middle, voteType, h, Q - {id}) && CanSign(c, h, sign) && id in Q
    requires (voteType == PREVOTE || voteType == PRECOMMIT) && id in c.PollOn(h).Members()
    requires MaySign(c, After(c, middle), 0, Statement(voteType, h, id))
    ensures AllCast(c, run, longer, voteType, h, Q)
  {
    hide After, IsRun, CanSign, MaySign, Count, Index;
    var vote, phase := BallotOf(c, h, id, voteType, sign), PhaseOf(voteType);
    CastEffect(c, middle, phase, vote);
    CountedWhenGood(c, h, id, voteType, sign, After(c, middle).Box(0, phase, h));
    longer := CastRun(middle, phase, vote);
  }

  /** Prevotes and then precommits of a quorum give its block a precommit majority. */
  lemma QuorumCommits(c: Config, run: seq<Event>, h: Hash, Q: set<Address>, sign: Vote -> Bytes) returns (longer: seq<Event>)
    requires NoWrap(c) && c.snapshot.totalPower > 0 && IsRun(c, run) && CanSign(c, h, sign) && Quorum(c, Q)
    requires MayAllSign(c, After(c, run), PREVOTE, h, Q)
    ensures IsRun(c, longer) && HasMajority(c.PollOn(h), After(c, longer).Box(0, Precommit, h))
    ensures forall p, g | g != h :: After(c, longer).Box(0, p, g) == After(c, run).Box(0, p, g)
    ensures forall s :: s in After(c, longer).signed && s !in After(c, run).signed ==> s.validator in Q && s.blockHash == h
  {
    hide After, IsRun, CanSign, HasMajority, Index, NoWrap;
    assert Q <= c.PollOn(h).Members().Keys;
    var middle := CastAll(c, run, PREVOTE, h, Q, sign);
    QuorumIsMajority(c, middle, Prevote, h, Q);
    longer := CastAll(c, middle, PRECOMMIT, h, Q, sign);
    QuorumIsMajority(c, longer, Precommit, h, Q);
  }

  lemma QuorumIsMajority(c: Config, run: seq<Event>, phase: Phase, h: Hash, Q: set<Address>)
    requires NoWrap(c) && c.snapshot.totalPower > 0 && IsRun(c, run) && Quorum(c, Q)
    requires Q <= After(c, run).Box(0, phase, h).votes.Keys
    ensures HasMajority(c.PollOn(h), After(c, run).Box(0, phase, h))
  {
    hide After, IsRun, HonestBoxes, HonestSigned, Sound, HasMajority;
    RunKeepsInv(c, run);
    BoxSound(c, After(c, run), 0, phase, h);
    EnoughIsMajority(c, h, After(c, run).Box(0, phase, h), Q);
  }

  lemma NothingYet(c: Config)
    ensures IsRun(c, []) && After(c, []).signed == {}
  {
  }

  lemma SplitConflicts(c: Config, Q1: set<Address>, Q2: set<Address>, h1: Hash, h2: Hash, sign: Vote -> Bytes)
    returns (run: seq<Event>)
    requires NoWrap(c) && c.snapshot.totalPower > 0 && h1 != h2 && Split(c, Q1, Q2)
    requires CanSign(c, h1, sign) && CanSign(c, h2, sign)
    ensures Conflict(c, run, h1, h2)
  {
    hide IsRun, After, CanSign, HasMajority, NoWrap, Quorum;
    NothingYet(c);
    var first := QuorumCommits(c, [], h1, Q1, sign);
    forall t | t in After(c, first).signed ensures t.validator in Q2 ==> t.validator !in c.honest {
      assert t.validator !in Q1 * Q2 * c.honest;
    }
    run := QuorumCommits(c, first, h2, Q2, sign);
    assert HasMajority(c.PollOn(h1), After(c, run).Box(0, Precommit, h1));
  }

  /**
   Safety, exactly: two blocks of one height and round can both reach a majority in some run if and
   only if two quorums share no honest validator.
   */
  lemma SafetyExactly(c: Config, h1: Hash, h2: Hash, sign: Vote -> Bytes)
    requires NoWrap(c) && c.snapshot.totalPower > 0 && h1 != h2 && CanSign(c, h1, sign) && CanSign(c, h2, sign)
    ensures (exists run :: Conflict(c, run, h1, h2)) <==> (exists Q1, Q2 :: Split(c, Q1, Q2))
  {
    hide Conflict, Split, NoWrap, CanSign;
    if run :| Conflict(c, run, h1, h2) {
      ConflictNeedsSplit(c, run, h1, h2);
    }
    if Q1, Q2 :| Split(c, Q1, Q2) {
      var run := SplitConflicts(c, Q1, Q2, h1, h2, sign);
    }
  }

  /** With exactly one third of the power Byzantine there is such a run: the bound on faults is tight. */
  lemma ThirdBreaks(c: Config, a: Validator, b: Validator, d: Validator, h1: Hash, h2: Hash, sign: Vote -> Bytes)
    requires c.snapshot.validators == [a, b, d] && NoWrap(c) && a.power == b.power == d.power > 0
    requires c.honest == {a.consensusID, b.consensusID} && h1 != h2 && CanSign(c, h1, sign) && CanSign(c, h2, sign)
    ensures 3 * PowerIn(c.snapshot.validators, c.Byzantine()) == c.snapshot.totalPower
    ensures exists run :: Conflict(c, run, h1, h2)
  {
    hide Conflict, CanSign;
    ThirdIsTooMuch(a, b, d);
    ThreePowers(a, b, d, {});
    ThreeIDs(a, b, d);
    assert c.Byzantine() == {d.consensusID};
    var Q1, Q2 := {a.consensusID, d.consensusID}, {b.consensusID, d.consensusID};
    assert Split(c, Q1, Q2);
    SafetyExactly(c, h1, h2, sign);
  }

  lemma ThreeIDs(a: Validator, b: Validator, d: Validator)
    ensures IDs([a, b, d]) == {a.consensusID, b.consensusID, d.consensusID}
    ensures DistinctIDs([a, b, d]) ==> a.consensusID != d.consensusID && b.consensusID != d.consensusID && a.consensusID != b.consensusID
  {
    var s := [a, b, d];
    assert s[0] == a && s[1] == b && s[2] == d;
  }
}

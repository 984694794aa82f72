/**
 One height and round of the two-phase protocol, run by many nodes over a network that may
 duplicate, reorder, withhold and misroute votes.

 Every node keeps a VotingState per block hash. Honest validators sign at most one prevote, and
 sign a precommit only for a hash whose prevotes reached a majority at their own node. Byzantine
 validators sign whatever they like. Collection does not compare a vote's type with the phase it
 is handed to, so a signed prevote may turn up among the precommits and the other way round.
 */
module Safety {
  import opened Basics
  import opened Validators
  import opened Votes
  import opened Voting

  datatype Phase = Prevote | Precommit

  datatype Config = Config(height: u64, round: u32, snapshot: Snapshot, honest: set<Address>, crypto: Crypto) {
    function PollOn(h: Hash): Poll { Poll(height, round, h, snapshot) }
    ghost function Byzantine(): set<Address> { IDs(snapshot.validators) - honest }
  }

  /** The two-thirds test means what it says. */
  ghost predicate NoWrap(c: Config)
  {
    WellFormed(c.snapshot) && 3 * c.snapshot.totalPower < U64
  }

  /** Less than a third of the power is Byzantine, and three times the total fits in 64 bits. */
  ghost predicate FaultBound(c: Config)
  {
    && NoWrap(c)
    && 3 * PowerIn(c.snapshot.validators, c.Byzantine()) < c.snapshot.totalPower
  }

  /** What a signature of this height and round says. */
  datatype Statement = Statement(voteType: byte, blockHash: Hash, validator: Address)

  datatype Net = Net(signed: set<Statement>, boxes: map<(nat, Phase, Hash), Ballots>) {
    function Box(node: nat, phase: Phase, h: Hash): Ballots
    {
      if (node, phase, h) in boxes then boxes[(node, phase, h)] else Ballots(map[], 0)
    }
  }

  datatype Event =
    | Sign(node: nat, statement: Statement)
    | Deliver(node: nat, phase: Phase, vote: Vote)

  ghost predicate MaySign(c: Config, net: Net, node: nat, s: Statement)
  {
    s.validator in c.honest ==>
      if s.voteType == PREVOTE then
        forall t :: t in net.signed && t.validator == s.validator && t.voteType == PREVOTE
                    ==> t.blockHash == s.blockHash
      else
        s.voteType == PRECOMMIT && HasMajority(c.PollOn(s.blockHash), net.Box(node, Prevote, s.blockHash))
  }

  /** Signatures are not forged: what counts as an honest validator's vote, it signed. */
  ghost predicate MayDeliver(c: Config, net: Net, node: nat, phase: Phase, vote: Vote)
  {
    && vote.validator in c.honest
    && Refusal(c.PollOn(vote.blockHash), net.Box(node, phase, vote.blockHash), vote, c.crypto).None?
    ==> Statement(vote.voteType, vote.blockHash, vote.validator) in net.signed
  }

  ghost predicate Allowed(c: Config, net: Net, e: Event)
  {
    match e
    case Sign(node, s) => MaySign(c, net, node, s)
    case Deliver(node, phase, vote) => MayDeliver(c, net, node, phase, vote)
  }

  function Apply(c: Config, net: Net, e: Event): Net
  {
    match e
    case Sign(node, s) => net.(signed := net.signed + {s})
    case Deliver(node, phase, vote) =>
      var h := vote.blockHash;
      net.(boxes := net.boxes[(node, phase, h) := Count(c.PollOn(h), net.Box(node, phase, h), vote, c.crypto)])
  }

  function After(c: Config, run: seq<Event>): Net
  {
    if run == [] then Net({}, map[]) else Apply(c, After(c, run[..|run| - 1]), run[|run| - 1])
  }

  ghost predicate IsRun(c: Config, run: seq<Event>)
  {
    run == [] || (IsRun(c, run[..|run| - 1]) && Allowed(c, After(c, run[..|run| - 1]), run[|run| - 1]))
  }

  // ----- the invariant -----

  /** Everyone who might ever be counted for h: the Byzantine, and honest prevoters of h. */
  ghost function Supporters(c: Config, signed: set<Statement>, h: Hash): set<Address>
  {
    set id | id in IDs(c.snapshot.validators) && (id !in c.honest || Statement(PREVOTE, h, id) in signed)
  }

  ghost predicate Backed(c: Config, signed: set<Statement>, h: Hash)
  {
    3 * PowerIn(c.snapshot.validators, Supporters(c, signed, h)) >= 2 * TotalPower(c.snapshot.validators)
  }

  ghost predicate SoundBoxes(c: Config, net: Net)
  {
    forall k :: k in net.boxes ==> Sound(c.PollOn(k.2), net.boxes[k], c.crypto)
  }

  ghost predicate HonestBoxes(c: Config, net: Net)
  {
    forall k, id :: k in net.boxes && id in net.boxes[k].votes && id in c.honest ==>
      Statement(net.boxes[k].votes[id].voteType, k.2, id) in net.signed
  }

  ghost predicate HonestSigned(c: Config, signed: set<Statement>)
  {
    && (forall s, t | s in signed && t in signed && s.validator == t.validator && s.validator in c.honest ::
          s.voteType == PREVOTE && t.voteType == PREVOTE ==> s.blockHash == t.blockHash)
    && (forall s :: s in signed && s.validator in c.honest && s.voteType != PREVOTE ==>
          s.voteType == PRECOMMIT && Backed(c, signed, s.blockHash))
  }

  ghost predicate Inv(c: Config, net: Net)
  {
    SoundBoxes(c, net) && HonestBoxes(c, net) && HonestSigned(c, net.signed)
  }

  lemma BackedMonotone(c: Config, less: set<Statement>, more: set<Statement>, h: Hash)
    requires less <= more && Backed(c, less, h)
    ensures Backed(c, more, h)
  {
    PowerMonotone(c.snapshot.validators, Supporters(c, less, h), Supporters(c, more, h));
  }

  /** Two hashes backed at once would need an honest validator that prevoted both. */
  lemma BackedUnique(c: Config, signed: set<Statement>, h1: Hash, h2: Hash)
    requires FaultBound(c) && HonestSigned(c, signed)
    requires Backed(c, signed, h1) && Backed(c, signed, h2)
    ensures h1 == h2
  {
    var vals, A, B := c.snapshot.validators, Supporters(c, signed, h1), Supporters(c, signed, h2);
    QuorumIntersection(vals, A, B);
    if A * B <= c.Byzantine() {
      PowerMonotone(vals, A * B, c.Byzantine());
    }
    var id :| id in A * B && id !in c.Byzantine();
    assert Statement(PREVOTE, h1, id) in signed && Statement(PREVOTE, h2, id) in signed;
  }

  /** A majority in either phase, at any node, means the hash is backed. */
  lemma MajorityBacked(c: Config, net: Net, node: nat, phase: Phase, h: Hash)
    requires NoWrap(c) && Inv(c, net)
    requires HasMajority(c.PollOn(h), net.Box(node, phase, h))
    ensures Backed(c, net.signed, h)
  {
    var vals, b := c.snapshot.validators, net.Box(node, phase, h);
    BoxSound(c, net, node, phase, h);
    MajorityMeaning(c.PollOn(h), b);
    var S := Supporters(c, net.signed, h);
    if b.votes.Keys * IDs(vals) <= S {
      PowerMonotone(vals, b.votes.Keys, S);
    } else {
      var id :| id in b.votes.Keys * IDs(vals) && id !in S;
      var s := Statement(b.votes[id].voteType, h, id);
      assert (node, phase, h) in net.boxes;
      assert s in net.signed && s.voteType != PREVOTE;
    }
  }

  lemma BoxSound(c: Config, net: Net, node: nat, phase: Phase, h: Hash)
    requires SoundBoxes(c, net)
    ensures Sound(c.PollOn(h), net.Box(node, phase, h), c.crypto)
  {
    hide Sound;
    if (node, phase, h) !in net.boxes {
      EmptySound(c.PollOn(h), c.crypto);
    }
  }

  lemma SignKeepsInv(c: Config, net: Net, node: nat, s: Statement)
    requires NoWrap(c) && Inv(c, net) && MaySign(c, net, node, s)
    ensures Inv(c, Apply(c, net, Sign(node, s)))
  {
    hide Sound, NoWrap;
    var signed := net.signed + {s};
    forall t | t in signed && t.validator in c.honest && t.voteType != PREVOTE
      ensures t.voteType == PRECOMMIT && Backed(c, signed, t.blockHash)
    {
      if t == s {
        MajorityBacked(c, net, node, Prevote, s.blockHash);
      }
      BackedMonotone(c, net.signed, signed, t.blockHash);
    }
  }

  lemma DeliverKeepsInv(c: Config, net: Net, node: nat, phase: Phase, vote: Vote)
    requires Inv(c, net) && MayDeliver(c, net, node, phase, vote)
    ensures Inv(c, Apply(c, net, Deliver(node, phase, vote)))
  {
    hide Sound, Verify, Wrap64, HonestSigned;
    var h := vote.blockHash;
    BoxSound(c, net, node, phase, h);
    CountSound(c.PollOn(h), net.Box(node, phase, h), vote, c.crypto);
  }

  lemma {:induction false} RunKeepsInv(c: Config, run: seq<Event>)
    requires NoWrap(c) && IsRun(c, run)
    ensures Inv(c, After(c, run))
  {
    hide Inv, MaySign, MayDeliver, NoWrap;
    if run == [] {
      StartInv(c);
    } else {
      var init := run[..|run| - 1];
      RunKeepsInv(c, init);
      match run[|run| - 1]
      case Sign(node, s) => SignKeepsInv(c, After(c, init), node, s);
      case Deliver(node, phase, vote) => DeliverKeepsInv(c, After(c, init), node, phase, vote);
    }
  }

  lemma StartInv(c: Config)
    ensures Inv(c, Net({}, map[]))
  {
  }

  /**
   Safety over every run: no two nodes ever hold a majority, in either phase, for different
   blocks of the height and round.
   */
  lemma NoConflictingMajorities(c: Config, run: seq<Event>, n1: nat, p1: Phase, h1: Hash, n2: nat, p2: Phase, h2: Hash)
    requires FaultBound(c) && IsRun(c, run)
    requires HasMajority(c.PollOn(h1), After(c, run).Box(n1, p1, h1))
    requires HasMajority(c.PollOn(h2), After(c, run).Box(n2, p2, h2))
    ensures h1 == h2
  {
    hide NoWrap, IsRun, After, Backed, SoundBoxes, HonestBoxes, HonestSigned, HasMajority;
    RunKeepsInv(c, run);
    MajorityBacked(c, After(c, run), n1, p1, h1);
    MajorityBacked(c, After(c, run), n2, p2, h2);
    BackedUnique(c, After(c, run).signed, h1, h2);
  }

  /** At exactly one third the argument breaks: two quorums may share no honest member. */
  lemma ThirdIsTooMuch(a: Validator, b: Validator, d: Validator)
    requires DistinctIDs([a, b, d]) && a.power == b.power == d.power
    ensures var vals := [a, b, d];
            var A, B := {a.consensusID, d.consensusID}, {b.consensusID, d.consensusID};
            && 3 * PowerIn(vals, {d.consensusID}) == TotalPower(vals)
            && 3 * PowerIn(vals, A) >= 2 * TotalPower(vals)
            && 3 * PowerIn(vals, B) >= 2 * TotalPower(vals)
            && A * B == {d.consensusID}
  {
    assert [a, b, d][0] == a && [a, b, d][1] == b && [a, b, d][2] == d;
    ThreePowers(a, b, d, {d.consensusID});
    ThreePowers(a, b, d, {a.consensusID, d.consensusID});
    ThreePowers(a, b, d, {b.consensusID, d.consensusID});
  }

  lemma ThreePowers(a: Validator, b: Validator, d: Validator, S: set<Address>)
    ensures TotalPower([a, b, d]) == a.power + b.power + d.power
    ensures PowerIn([a, b, d], S) ==
            (if a.consensusID in S then a.power else 0) + (if b.consensusID in S then b.power else 0) +
            (if d.consensusID in S then d.power else 0)
  {
    assert [a, b, d][..2] == [a, b] && [a, b][..1] == [a] && [a][..0] == [];
    assert TotalPower([a, b]) == TotalPower([a]) + b.power;
    assert PowerIn([a, b], S) == PowerIn([a], S) + if b.consensusID in S then b.power else 0;
  }
}

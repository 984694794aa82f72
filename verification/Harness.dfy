/** The voting round of the BFT harness, played on real voting states, as a run of the protocol. */
module Harness {
  import opened Basics
  import opened Sorting
  import opened Validators
  import opened Votes
  import opened Voting
  import opened Safety

  datatype Behaviour = Honest | ByzVoter | ByzProposer | ByzPartitioned

  datatype Sim = Sim(id: Address, behaviour: Behaviour)

  type States = map<Hash, VotingState>

  /** Everyone but the double voters votes by the rules. */
  ghost function RuleAbiding(sims: seq<Sim>): set<Address>
  {
    set i | 0 <= i < |sims| && sims[i].behaviour != ByzVoter :: sims[i].id
  }

  ghost predicate DistinctSims(sims: seq<Sim>)
  {
    forall i, j :: 0 <= i < j < |sims| ==> sims[i].id != sims[j].id
  }

  /** The states hold exactly what the run has delivered to node 0. */
  ghost predicate Linked(c: Config, run: seq<Event>, states: States)
    reads states.Values
  {
    && IsRun(c, run)
    && forall h :: h in states ==>
         && states[h].poll == c.PollOn(h) && states[h].crypto == c.crypto && states[h].Valid()
         && states[h].Prevotes() == After(c, run).Box(0, Prevote, h)
         && states[h].Precommits() == After(c, run).Box(0, Precommit, h)
  }

  lemma OneMore(c: Config, run: seq<Event>, e: Event)
    requires IsRun(c, run) && Allowed(c, After(c, run), e)
    ensures IsRun(c, run + [e]) && After(c, run + [e]) == Apply(c, After(c, run), e)
  {
    assert (run + [e])[..|run|] == run;
  }

  ghost function CastRun(run: seq<Event>, phase: Phase, vote: Vote): seq<Event>
  {
    run + [Sign(0, Statement(vote.voteType, vote.blockHash, vote.validator))] + [Deliver(0, phase, vote)]
  }

  /** What signing and delivering a vote does to the network. */
  lemma CastEffect(c: Config, run: seq<Event>, phase: Phase, vote: Vote)
    requires IsRun(c, run) && MaySign(c, After(c, run), 0, Statement(vote.voteType, vote.blockHash, vote.validator))
    ensures var longer := CastRun(run, phase, vote);
            var before, after := After(c, run), After(c, longer);
            && IsRun(c, longer)
            && after.signed == before.signed + {Statement(vote.voteType, vote.blockHash, vote.validator)}
            && after.Box(0, phase, vote.blockHash) ==
               Count(c.PollOn(vote.blockHash), before.Box(0, phase, vote.blockHash), vote, c.crypto)
            && (forall p, g | p != phase || g != vote.blockHash :: after.Box(0, p, g) == before.Box(0, p, g))
  {
    hide IsRun, After, MaySign, Count, Refusal;
    var signed := Sign(0, Statement(vote.voteType, vote.blockHash, vote.validator));
    OneMore(c, run, signed);
    OneMore(c, run + [signed], Deliver(0, phase, vote));
  }

  function Unsigned(height: u64, h: Hash, id: Address, voteType: byte): Vote
  {
    Vote(voteType, height, 0, h, id, [])
  }

  function Signed(height: u64, h: Hash, id: Address, voteType: byte, sign: Vote -> Bytes): Vote
  {
    var v := Unsigned(height, h, id, voteType);
    v.(signature := sign(v))
  }

  /** A member of the snapshot whose signature on such a vote checks. */
  ghost predicate Willing(c: Config, h: Hash, id: Address, voteType: byte, sign: Vote -> Bytes)
  {
    var members := c.PollOn(h).Members();
    id in members && Verify(Signed(c.height, h, id, voteType, sign), members[id].publicKey, c.crypto)
  }

  lemma WillingIsCounted(c: Config, h: Hash, id: Address, voteType: byte, sign: Vote -> Bytes, b: Ballots)
    requires c.round == 0
    ensures var b' := Count(c.PollOn(h), b, Signed(c.height, h, id, voteType, sign), c.crypto);
            && b.votes.Keys <= b'.votes.Keys
            && (Willing(c, h, id, voteType, sign) ==> id in b'.votes)
  {
    hide Verify;
  }

  /** Signs a vote and adds it to the state of its block: a signing and a delivery of the run. */
  method Cast(ghost c: Config, states: States, height: u64, h: Hash, id: Address, voteType: byte, sign: Vote -> Bytes,
              ghost run: seq<Event>)
    returns (err: Option<VoteError>, ghost longer: seq<Event>)
    requires Linked(c, run, states) && h in states && c.height == height && c.round == 0
    requires voteType == PREVOTE || voteType == PRECOMMIT
    requires MaySign(c, After(c, run), 0, Statement(voteType, h, id))
    modifies states[h]
    ensures Linked(c, longer, states)
    ensures After(c, longer).signed == After(c, run).signed + {Statement(voteType, h, id)}
    ensures voteType == PRECOMMIT ==> forall g :: g in states ==> states[g].Prevotes() == old(states[g].Prevotes())
    ensures voteType == PREVOTE ==> forall g :: g in states ==> states[g].Precommits() == old(states[g].Precommits())
    ensures forall g :: g in states && g != h ==> states[g].Precommits() == old(states[g].Precommits())
    ensures old(states[h].prevotes.Keys) <= states[h].prevotes.Keys && old(states[h].precommits.Keys) <= states[h].precommits.Keys
    ensures Willing(c, h, id, voteType, sign) ==>
              id in (if voteType == PREVOTE then states[h].prevotes else states[h].precommits)
  {
    hide IsRun, After, Count, Refusal, Sound, MaySign, Willing;
    var vote := Signed(height, h, id, voteType, sign);
    ghost var phase := if voteType == PREVOTE then Prevote else Precommit;
    CastEffect(c, run, phase, vote);
    longer := CastRun(run, phase, vote);
    hide CastRun;
    if voteType == PREVOTE {
      WillingIsCounted(c, h, id, voteType, sign, states[h].Prevotes());
      err := states[h].AddPrevote(vote);
    } else {
      WillingIsCounted(c, h, id, voteType, sign, states[h].Precommits());
      err := states[h].AddPrecommit(vote);
    }
  }

  /** What the rule-abiding have signed so far: prevotes for the first block only, by validators already asked. */
  ghost predicate FirstOnly(c: Config, signed: set<Statement>, first: Hash, asked: set<Address>)
  {
    forall s :: s in signed && s.validator in c.honest ==> s.blockHash == first && s.validator in asked
  }

  /** Those of the first n who take part and whose votes of this kind count. */
  ghost function Turnout(c: Config, h: Hash, voteType: byte, sign: Vote -> Bytes, sims: seq<Sim>, n: nat): set<Address>
    requires n <= |sims|
  {
    set i | 0 <= i < n && sims[i].behaviour != ByzPartitioned && Willing(c, h, sims[i].id, voteType, sign) :: sims[i].id
  }

  ghost function Asked(sims: seq<Sim>, n: nat): set<Address>
    requires n <= |sims|
  {
    set i | 0 <= i < n :: sims[i].id
  }

  lemma TurnoutMore(c: Config, h: Hash, voteType: byte, sign: Vote -> Bytes, sims: seq<Sim>, i: nat)
    requires i < |sims|
    ensures Turnout(c, h, voteType, sign, sims, i + 1) == Turnout(c, h, voteType, sign, sims, i)
            + if sims[i].behaviour != ByzPartitioned && Willing(c, h, sims[i].id, voteType, sign) then {sims[i].id} else {}
  {
    hide Willing;
  }

  /** One validator's turn in phase 1: a prevote for the first block, and from a double voter one for the second. */
  method PrevotesOf(ghost c: Config, states: States, height: u64, blocks: seq<Hash>, sims: seq<Sim>, i: nat,
                    sign: Vote -> Bytes, ghost run: seq<Event>) returns (ghost longer: seq<Event>)
    requires Linked(c, run, states) && c.height == height && c.round == 0 && DistinctSims(sims) && i < |sims|
    requires c.honest == RuleAbiding(sims) && blocks != [] && forall h :: h in blocks <==> h in states
    requires FirstOnly(c, After(c, run).signed, blocks[0], Asked(sims, i))
    modifies states.Values
    ensures Linked(c, longer, states) && FirstOnly(c, After(c, longer).signed, blocks[0], Asked(sims, i + 1))
    ensures forall g :: g in states ==> states[g].Precommits() == old(states[g].Precommits())
    ensures old(states[blocks[0]].prevotes.Keys) <= states[blocks[0]].prevotes.Keys
    ensures sims[i].behaviour != ByzPartitioned && Willing(c, blocks[0], sims[i].id, PREVOTE, sign) ==>
              sims[i].id in states[blocks[0]].prevotes
  {
    hide IsRun, After, Willing, Sound;
    longer := run;
    var v, first := sims[i], blocks[0];
    AskedMore(sims, i);
    if v.behaviour == ByzPartitioned { return; }
    MayPrevote(c, longer, first, sims, i, first);
    var err;
    err, longer := Cast(c, states, height, first, v.id, PREVOTE, sign, longer);
    if v.behaviour == ByzVoter && |blocks| >= 2 && blocks[1] != first {
      MayPrevote(c, longer, first, sims, i, blocks[1]);
      err, longer := Cast(c, states, height, blocks[1], v.id, PREVOTE, sign, longer);
    }
  }

  /** Phase 1: everyone in turn. */
  method CollectPrevotes(ghost c: Config, states: States, height: u64, blocks: seq<Hash>, sims: seq<Sim>,
                         sign: Vote -> Bytes, ghost run: seq<Event>) returns (ghost longer: seq<Event>)
    requires Linked(c, run, states) && c.height == height && c.round == 0 && DistinctSims(sims)
    requires c.honest == RuleAbiding(sims) && After(c, run).signed == {} && forall h :: h in blocks <==> h in states
    modifies states.Values
    ensures Linked(c, longer, states)
    ensures forall g :: g in states ==> states[g].Precommits() == old(states[g].Precommits())
    ensures blocks != [] ==> Turnout(c, blocks[0], PREVOTE, sign, sims, |sims|) <= states[blocks[0]].prevotes.Keys
  {
    hide IsRun, After, Willing, Linked, FirstOnly, Turnout;
    longer := run;
    if blocks == [] { return; }
    NobodyYet(c, run, blocks[0], sims, sign);
    for i := 0 to |sims|
      invariant Linked(c, longer, states)
      invariant FirstOnly(c, After(c, longer).signed, blocks[0], Asked(sims, i))
      invariant forall g :: g in states ==> states[g].Precommits() == old(states[g].Precommits())
      invariant Turnout(c, blocks[0], PREVOTE, sign, sims, i) <= states[blocks[0]].prevotes.Keys
    {
      TurnoutMore(c, blocks[0], PREVOTE, sign, sims, i);
      longer := PrevotesOf(c, states, height, blocks, sims, i, sign, longer);
    }
  }

  lemma NobodyYet(c: Config, run: seq<Event>, h: Hash, sims: seq<Sim>, sign: Vote -> Bytes)
    ensures After(c, run).signed == {} ==> FirstOnly(c, After(c, run).signed, h, Asked(sims, 0))
    ensures Turnout(c, h, PREVOTE, sign, sims, 0) == {} == Turnout(c, h, PRECOMMIT, sign, sims, 0)
  {
    hide After, Willing;
  }

  lemma AskedMore(sims: seq<Sim>, i: nat)
    requires i < |sims| && DistinctSims(sims)
    ensures Asked(sims, i + 1) == Asked(sims, i) + {sims[i].id} && sims[i].id !in Asked(sims, i)
    ensures sims[i].id in RuleAbiding(sims) <==> sims[i].behaviour != ByzVoter
  {
  }

  lemma MayPrevote(c: Config, run: seq<Event>, first: Hash, sims: seq<Sim>, i: nat, h: Hash)
    requires i < |sims| && DistinctSims(sims) && c.honest == RuleAbiding(sims)
    requires FirstOnly(c, After(c, run).signed, first, Asked(sims, i + 1))
    requires h == first || sims[i].behaviour == ByzVoter
    ensures MaySign(c, After(c, run), 0, Statement(PREVOTE, h, sims[i].id))
  {
    hide After;
    AskedMore(sims, i);
  }

  ghost predicate AllPrevoted(c: Config, states: States, hashes: seq<Hash>)
    reads states.Values
  {
    forall h :: h in hashes ==> h in states && HasMajority(c.PollOn(h), states[h].Prevotes())
  }

  /** Phase 2: the blocks with a prevote majority, in whatever order the map is ranged over. */
  method Prevoted(ghost c: Config, states: States, ghost run: seq<Event>) returns (hashes: seq<Hash>)
    requires Linked(c, run, states)
    ensures forall h :: h in hashes <==> h in states && HasMajority(c.PollOn(h), states[h].Prevotes())
  {
    hide IsRun, After, Sound, TwoThirds;
    var order := RangeKeys(states.Keys);
    hashes := [];
    for i := 0 to |order|
      invariant forall h :: h in hashes <==> h in order[..i] && HasMajority(c.PollOn(h), states[h].Prevotes())
    {
      var h := order[i];
      assert order[..i + 1] == order[..i] + [h];
      assert h in order;
      if TwoThirds(states[h].prevotePower, states[h].poll.snapshot.totalPower) {
        hashes := hashes + [h];
      }
    }
    assert order[..|order|] == order;
  }

  /** Every committed block is backed by two thirds of the power, once and for all. */
  ghost predicate CommitsBacked(c: Config, run: seq<Event>, commits: set<Hash>)
  {
    FaultBound(c) ==> forall h :: h in commits ==> Backed(c, After(c, run).signed, h)
  }

  lemma CommitBacked(c: Config, run: seq<Event>, commits: set<Hash>, h: Hash)
    requires IsRun(c, run) && CommitsBacked(c, run, commits)
    requires HasMajority(c.PollOn(h), After(c, run).Box(0, Precommit, h))
    ensures CommitsBacked(c, run, commits + {h})
  {
    hide IsRun, After, Backed, NoWrap, Inv, HasMajority;
    if FaultBound(c) {
      RunKeepsInv(c, run);
      MajorityBacked(c, After(c, run), 0, Precommit, h);
    }
  }

  lemma CommitsStayBacked(c: Config, run: seq<Event>, longer: seq<Event>, commits: set<Hash>)
    requires CommitsBacked(c, run, commits) && After(c, run).signed <= After(c, longer).signed
    ensures CommitsBacked(c, longer, commits)
  {
    hide After, Backed, FaultBound;
    if FaultBound(c) {
      forall h | h in commits ensures Backed(c, After(c, longer).signed, h) {
        BackedMonotone(c, After(c, run).signed, After(c, longer).signed, h);
      }
    }
  }

  lemma CommitsAgree(c: Config, run: seq<Event>, commits: set<Hash>)
    requires IsRun(c, run) && CommitsBacked(c, run, commits) && FaultBound(c)
    ensures forall a, b :: a in commits && b in commits ==> a == b
  {
    hide IsRun, After, Backed, NoWrap, SoundBoxes, HonestBoxes, HonestSigned;
    RunKeepsInv(c, run);
    forall a, b | a in commits && b in commits ensures a == b {
      BackedUnique(c, After(c, run).signed, a, b);
    }
  }

  ghost function Boxes(states: States): map<Hash, Ballots>
    reads states.Values
  {
    map h | h in states :: states[h].Precommits()
  }

  /** Only prevoted blocks have precommits, and those with a precommit majority are the committed ones. */
  ghost predicate CommitsExact(c: Config, boxes: map<Hash, Ballots>, hashes: seq<Hash>, commits: set<Hash>)
  {
    && (forall h :: h in commits ==> h in hashes)
    && (forall h :: h in boxes && h !in hashes ==> boxes[h] == Ballots(map[], 0))
    && (NoWrap(c) ==> forall h :: h in boxes && h in hashes ==> (h in commits <==> HasMajority(c.PollOn(h), boxes[h])))
  }

  lemma NoneYet(c: Config, boxes: map<Hash, Ballots>, hashes: seq<Hash>)
    requires forall h :: h in boxes ==> boxes[h] == Ballots(map[], 0)
    ensures CommitsExact(c, boxes, hashes, {})
  {
    hide HasMajority;
    if NoWrap(c) {
      forall h | h in boxes ensures !HasMajority(c.PollOn(h), boxes[h]) {
        NoVotesNoMajority(c.PollOn(h));
      }
    }
  }

  /** A majority is not lost by counting more votes. */
  lemma MajorityStays(c: Config, h: Hash, b: Ballots, b': Ballots)
    requires NoWrap(c) && Sound(c.PollOn(h), b, c.crypto) && Sound(c.PollOn(h), b', c.crypto) && b.votes.Keys <= b'.votes.Keys
    requires HasMajority(c.PollOn(h), b)
    ensures HasMajority(c.PollOn(h), b')
  {
    hide Genuine, HasMajority;
    PowerMonotone(c.snapshot.validators, b.votes.Keys, b'.votes.Keys);
    MajorityMeaning(c.PollOn(h), b);
    MajorityMeaning(c.PollOn(h), b');
  }

  lemma ExactStep(c: Config, boxes: map<Hash, Ballots>, boxes': map<Hash, Ballots>, hashes: seq<Hash>, commits: set<Hash>, h: Hash)
    requires CommitsExact(c, boxes, hashes, commits) && h in hashes && h in boxes && h in boxes' && boxes' == boxes[h := boxes'[h]]
    requires Sound(c.PollOn(h), boxes[h], c.crypto) && Sound(c.PollOn(h), boxes'[h], c.crypto)
    requires boxes[h].votes.Keys <= boxes'[h].votes.Keys
    ensures CommitsExact(c, boxes', hashes, if HasMajority(c.PollOn(h), boxes'[h]) then commits + {h} else commits)
  {
    hide Sound, HasMajority, NoWrap;
    if NoWrap(c) && HasMajority(c.PollOn(h), boxes[h]) {
      MajorityStays(c, h, boxes[h], boxes'[h]);
    }
  }

  /** What phase 3 keeps true: commits are backed and exactly the majorities, and the last commit is one of them. */
  ghost predicate Tally(c: Config, run: seq<Event>, states: States, hashes: seq<Hash>, commits: set<Hash>, last: Option<Hash>)
    reads states.Values
  {
    && Linked(c, run, states) && CommitsBacked(c, run, commits) && AllPrevoted(c, states, hashes)
    && CommitsExact(c, Boxes(states), hashes, commits)
    && (last.Some? <==> commits != {}) && (last.Some? ==> last.value in commits)
  }

  lemma LinkedSound(c: Config, run: seq<Event>, states: States, h: Hash)
    requires Linked(c, run, states) && h in states
    ensures states[h].poll == c.PollOn(h) && Sound(c.PollOn(h), states[h].Precommits(), c.crypto)
  {
    hide IsRun, After, Sound;
  }

  /** One precommit in phase 3, and the commit it may complete. */
  method Precommit1(ghost c: Config, states: States, height: u64, hashes: seq<Hash>, h: Hash, id: Address, sign: Vote -> Bytes,
                    ghost run: seq<Event>, commits0: set<Hash>, last0: Option<Hash>)
    returns (commits: set<Hash>, last: Option<Hash>, ghost longer: seq<Event>)
    requires Tally(c, run, states, hashes, commits0, last0) && c.height == height && c.round == 0 && h in hashes && h in states
    modifies states[h]
    ensures Tally(c, longer, states, hashes, commits, last)
    ensures forall g :: g in states ==> states[g].Prevotes() == old(states[g].Prevotes())
    ensures forall g :: g in states && g != h ==> states[g].Precommits() == old(states[g].Precommits())
    ensures old(states[h].precommits.Keys) <= states[h].precommits.Keys
    ensures Willing(c, h, id, PRECOMMIT, sign) ==> id in states[h].precommits
  {
    hide IsRun, After, Sound, CommitsBacked, CommitsExact, TwoThirds, Willing, Linked;
    ghost var before := Boxes(states);
    LinkedSound(c, run, states, h);
    PrevotedMaySign(c, run, states, hashes, h, id);
    var err;
    err, longer := Cast(c, states, height, h, id, PRECOMMIT, sign, run);
    LinkedSound(c, longer, states, h);
    assert Boxes(states) == before[h := states[h].Precommits()];
    ExactStep(c, before, Boxes(states), hashes, commits0, h);
    CommitsStayBacked(c, run, longer, commits0);
    if TwoThirds(states[h].precommitPower, states[h].poll.snapshot.totalPower) {
      LinkedBox(c, longer, states, h);
      CommitBacked(c, longer, commits0, h);
      commits, last := commits0 + {h}, Some(h);
    } else {
      commits, last := commits0, last0;
    }
  }

  lemma LinkedBox(c: Config, run: seq<Event>, states: States, h: Hash)
    requires Linked(c, run, states) && h in states
    ensures IsRun(c, run) && states[h].Precommits() == After(c, run).Box(0, Precommit, h)
    ensures states[h].Prevotes() == After(c, run).Box(0, Prevote, h)
  {
    hide IsRun, After, Sound;
  }

  /** A prevote majority lets everyone precommit. */
  lemma PrevotedMaySign(c: Config, run: seq<Event>, states: States, hashes: seq<Hash>, h: Hash, id: Address)
    requires Linked(c, run, states) && AllPrevoted(c, states, hashes) && h in hashes
    ensures MaySign(c, After(c, run), 0, Statement(PRECOMMIT, h, id))
  {
    hide IsRun, After, Sound, HasMajority;
  }

  /** One validator's turn in phase 3: a precommit for every block with a prevote majority. */
  method PrecommitsOf(ghost c: Config, states: States, height: u64, hashes: seq<Hash>, id: Address, sign: Vote -> Bytes,
                      ghost run: seq<Event>, commits0: set<Hash>, last0: Option<Hash>)
    returns (commits: set<Hash>, last: Option<Hash>, ghost longer: seq<Event>)
    requires Tally(c, run, states, hashes, commits0, last0) && c.height == height && c.round == 0
    requires forall h :: h in hashes ==> h in states
    modifies states.Values
    ensures Tally(c, longer, states, hashes, commits, last)
    ensures forall g :: g in states ==> states[g].Prevotes() == old(states[g].Prevotes())
    ensures forall h :: h in hashes ==> old(states[h].precommits.Keys) <= states[h].precommits.Keys
    ensures forall h :: h in hashes && Willing(c, h, id, PRECOMMIT, sign) ==> id in states[h].precommits
  {
    hide Tally, Willing;
    commits, last, longer := commits0, last0, run;
    for j := 0 to |hashes|
      invariant Tally(c, longer, states, hashes, commits, last)
      invariant forall g :: g in states ==> states[g].Prevotes() == old(states[g].Prevotes())
      invariant forall h :: h in hashes ==> old(states[h].precommits.Keys) <= states[h].precommits.Keys
      invariant forall h :: h in hashes[..j] && Willing(c, h, id, PRECOMMIT, sign) ==> id in states[h].precommits
    {
      var h := hashes[j];
      assert h in hashes && hashes[..j + 1] == hashes[..j] + [h];
      commits, last, longer := Precommit1(c, states, height, hashes, h, id, sign, longer, commits, last);
    }
    assert hashes[..|hashes|] == hashes;
  }

  /** Phase 3: everyone who takes part, in turn. */
  method CollectPrecommits(ghost c: Config, states: States, height: u64, hashes: seq<Hash>, sims: seq<Sim>,
                           sign: Vote -> Bytes, ghost run: seq<Event>)
    returns (commits: set<Hash>, last: Option<Hash>, ghost longer: seq<Event>)
    requires Linked(c, run, states) && c.height == height && c.round == 0 && AllPrevoted(c, states, hashes)
    requires forall h :: h in states ==> states[h].Precommits() == Ballots(map[], 0)
    modifies states.Values
    ensures Tally(c, longer, states, hashes, commits, last)
    ensures forall g :: g in states ==> states[g].Prevotes() == old(states[g].Prevotes())
    ensures forall h :: h in hashes ==> h in states && Turnout(c, h, PRECOMMIT, sign, sims, |sims|) <= states[h].precommits.Keys
  {
    hide IsRun, After, Sound, CommitsBacked, HasMajority, Willing, Linked, CommitsExact, Turnout;
    commits, last, longer := {}, None, run;
    NoCommits(c, run);
    NoneYet(c, Boxes(states), hashes);
    forall h { NobodyYet(c, run, h, sims, sign); }
    for i := 0 to |sims|
      invariant Tally(c, longer, states, hashes, commits, last)
      invariant forall g :: g in states ==> states[g].Prevotes() == old(states[g].Prevotes())
      invariant forall h :: h in hashes ==> h in states && Turnout(c, h, PRECOMMIT, sign, sims, i) <= states[h].precommits.Keys
    {
      forall h { TurnoutMore(c, h, PRECOMMIT, sign, sims, i); }
      if sims[i].behaviour != ByzPartitioned {
        commits, last, longer := PrecommitsOf(c, states, height, hashes, sims[i].id, sign, longer, commits, last);
      }
    }
  }

  lemma NoVotesNoMajority(p: Poll)
    requires WellFormed(p.snapshot) && 3 * p.snapshot.totalPower < U64
    ensures !HasMajority(p, Ballots(map[], 0))
  {
    hide HasMajority;
    var none := Ballots(map[], 0);
    PowerOfNone(p.snapshot.validators);
    assert none.votes.Keys == {};
    MajorityMeaning(p, none);
  }

  lemma NoCommits(c: Config, run: seq<Event>)
    ensures CommitsBacked(c, run, {})
  {
  }

  method NewStates(height: u64, blocks: seq<Hash>, snap: Snapshot, crypto: Crypto, ghost honest: set<Address>)
    returns (states: States)
    ensures fresh(states.Values) && forall h :: h in states <==> h in blocks
    ensures Linked(Config(height, 0, snap, honest, crypto), [], states)
    ensures forall h :: h in states ==> states[h].Precommits() == Ballots(map[], 0)
  {
    hide Sound;
    states := map[];
    for i := 0 to |blocks|
      invariant forall h :: h in states <==> h in blocks[..i]
      invariant forall h :: h in states ==> fresh(states[h])
      invariant Linked(Config(height, 0, snap, honest, crypto), [], states)
      invariant forall h :: h in states ==> states[h].Precommits() == Ballots(map[], 0)
    {
      assert blocks[..i + 1] == blocks[..i] + [blocks[i]];
      var vs := new VotingState(height, 0, blocks[i], snap, crypto);
      states := states[blocks[i] := vs];
    }
    assert blocks[..|blocks|] == blocks;
  }

  lemma NothingSigned(c: Config)
    ensures After(c, []).signed == {}
  {
  }

  /** The commits of a finished tally, read off the run. */
  lemma CommitsRead(c: Config, run: seq<Event>, states: States, hashes: seq<Hash>, commits: set<Hash>, last: Option<Hash>, h: Hash)
    requires Tally(c, run, states, hashes, commits, last) && NoWrap(c) && h in states
    ensures h in commits <==> HasMajority(c.PollOn(h), After(c, run).Box(0, Precommit, h))
  {
    hide CommitsBacked, AllPrevoted, HasMajority, Linked, After;
    LinkedBox(c, run, states, h);
    if h !in hashes {
      NoVotesNoMajority(c.PollOn(h));
    }
  }

  /** The votes in a box that holds two thirds of the power make a majority. */
  lemma EnoughIsMajority(c: Config, h: Hash, b: Ballots, who: set<Address>)
    requires WellFormed(c.snapshot) && 0 < 3 * c.snapshot.totalPower < U64 && Sound(c.PollOn(h), b, c.crypto)
    requires who <= b.votes.Keys && 3 * PowerIn(c.snapshot.validators, who) >= 2 * c.snapshot.totalPower
    ensures HasMajority(c.PollOn(h), b)
  {
    hide Genuine, HasMajority;
    PowerMonotone(c.snapshot.validators, who, b.votes.Keys);
    MajorityMeaning(c.PollOn(h), b);
  }

  /** Those whose votes of this kind would count hold two thirds of the power. */
  ghost predicate Enough(c: Config, h: Hash, voteType: byte, sign: Vote -> Bytes, sims: seq<Sim>)
  {
    && WellFormed(c.snapshot) && 0 < 3 * c.snapshot.totalPower < U64
    && 3 * PowerIn(c.snapshot.validators, Turnout(c, h, voteType, sign, sims, |sims|)) >= 2 * c.snapshot.totalPower
  }

  /** Everyone whose vote counts has prevoted for the first block and precommitted to every block with a prevote majority. */
  ghost predicate AllVoted(c: Config, net: Net, blocks: seq<Hash>, sims: seq<Sim>, sign: Vote -> Bytes)
  {
    && (blocks != [] ==> Turnout(c, blocks[0], PREVOTE, sign, sims, |sims|) <= net.Box(0, Prevote, blocks[0]).votes.Keys)
    && forall h :: h in blocks && HasMajority(c.PollOn(h), net.Box(0, Prevote, h)) ==>
         Turnout(c, h, PRECOMMIT, sign, sims, |sims|) <= net.Box(0, Precommit, h).votes.Keys
  }

  /**
   simulateVoting: whatever the keys, the blocks and the mix of behaviours, the round is a run of the
   protocol, and it commits exactly the blocks with a precommit majority at the end of that run. With
   less than a third of the power voting twice it commits at most one block, and when those who take
   part with good signatures hold two thirds of the power it commits the first block.
   */
  method SimulateVoting(height: u64, blocks: seq<Hash>, snap: Snapshot, sims: seq<Sim>, sign: Vote -> Bytes, crypto: Crypto)
    returns (commits: set<Hash>, last: Option<Hash>, ghost run: seq<Event>)
    requires DistinctSims(sims)
    ensures IsRun(Config(height, 0, snap, RuleAbiding(sims), crypto), run)
    ensures var c := Config(height, 0, snap, RuleAbiding(sims), crypto); AllVoted(c, After(c, run), blocks, sims, sign)
    ensures (last.Some? <==> commits != {}) && (last.Some? ==> last.value in commits)
    ensures forall h :: h in commits ==> h in blocks
    ensures FaultBound(Config(height, 0, snap, RuleAbiding(sims), crypto)) ==>
              forall a, b :: a in commits && b in commits ==> a == b
    ensures var c := Config(height, 0, snap, RuleAbiding(sims), crypto);
            NoWrap(c) ==> forall h :: h in blocks ==> (h in commits <==> HasMajority(c.PollOn(h), After(c, run).Box(0, Precommit, h)))
    ensures var c := Config(height, 0, snap, RuleAbiding(sims), crypto);
            blocks != [] && Enough(c, blocks[0], PREVOTE, sign, sims) && Enough(c, blocks[0], PRECOMMIT, sign, sims) ==>
              blocks[0] in commits
  {
    hide IsRun, Sound, HasMajority, CommitsBacked, FaultBound, RuleAbiding, DistinctSims, Turnout, WellFormed, After;
    NothingSigned(Config(height, 0, snap, RuleAbiding(sims), crypto));
    ghost var c := Config(height, 0, snap, RuleAbiding(sims), crypto);
    var states := NewStates(height, blocks, snap, crypto, RuleAbiding(sims));
    run := CollectPrevotes(c, states, height, blocks, sims, sign, []);
    var hashes := Prevoted(c, states, run);
    if blocks != [] && Enough(c, blocks[0], PREVOTE, sign, sims) {
      EnoughIsMajority(c, blocks[0], states[blocks[0]].Prevotes(), Turnout(c, blocks[0], PREVOTE, sign, sims, |sims|));
    }
    commits, last, run := CollectPrecommits(c, states, height, hashes, sims, sign, run);
    if FaultBound(c) {
      CommitsAgree(c, run, commits);
    }
    if blocks != [] && blocks[0] in hashes && Enough(c, blocks[0], PRECOMMIT, sign, sims) {
      EnoughIsMajority(c, blocks[0], states[blocks[0]].Precommits(), Turnout(c, blocks[0], PRECOMMIT, sign, sims, |sims|));
    }
    forall h | h in blocks { LinkedBox(c, run, states, h); }
    if NoWrap(c) {
      forall h | h in blocks ensures h in commits <==> HasMajority(c.PollOn(h), After(c, run).Box(0, Precommit, h)) {
        CommitsRead(c, run, states, hashes, commits, last, h);
      }
    }
  }
}

/** Validator records, frozen validator sets and the voting power held by a group of signers. */
module Validators {
  import opened Basics
  import opened Wire

  datatype Status = Pending | Active | Jailed | Unstaking | Removed

  /** The lifecycle table: pending -> active -> jailed -> active, active -> unstaking -> removed. */
  predicate IsValidTransition(from: Status, to: Status)
  {
    match from
    case Pending => to == Active
    case Active => to == Jailed || to == Unstaking
    case Jailed => to == Active
    case Unstaking => to == Removed
    case Removed => false
  }

  datatype Validator = Validator(
    consensusID: Address,
    publicKey: PubKey,
    operator: Address,
    reward: Address,
    bonded: Amount,
    status: Status,
    commission: u16,
    power: u64,
    jailedUntil: u64,
    activationEpoch: u64,
    unstakeEpoch: u64)

  /** The validator set of an epoch, frozen when the epoch starts. */
  datatype Snapshot = Snapshot(
    epoch: u64,
    validators: seq<Validator>,
    totalPower: u64,
    setHash: Hash)

  /** stakeToUint64: the low eight bytes of the amount. */
  function Low64(a: Amount): (r: u64)
    ensures a < U64 ==> r == a
  {
    a % U64
  }

  // ----- voting power -----

  function TotalPower(vals: seq<Validator>): nat
  {
    if vals == [] then 0 else TotalPower(vals[..|vals| - 1]) + vals[|vals| - 1].power
  }

  /** Power of those validators whose ID is in S. */
  ghost function PowerIn(vals: seq<Validator>, S: set<Address>): nat
  {
    if vals == [] then 0 else
      var v := vals[|vals| - 1];
      PowerIn(vals[..|vals| - 1], S) + if v.consensusID in S then v.power else 0
  }

  ghost predicate DistinctIDs(vals: seq<Validator>)
  {
    forall i, j :: 0 <= i < j < |vals| ==> vals[i].consensusID != vals[j].consensusID
  }

  ghost function IDs(vals: seq<Validator>): set<Address>
  {
    set i | 0 <= i < |vals| :: vals[i].consensusID
  }

  /** buildIndexes: a later entry overwrites an earlier one with the same ID. */
  function Index(vals: seq<Validator>): (m: map<Address, Validator>)
    ensures forall id :: id in m ==> m[id] in vals && m[id].consensusID == id
    ensures m.Keys == IDs(vals)
  {
    if vals == [] then map[] else
      var init := vals[..|vals| - 1];
      var last := vals[|vals| - 1];
      assert vals == init + [last];
      assert IDs(vals) == IDs(init) + {last.consensusID};
      Index(init)[last.consensusID := last]
  }

  /** A snapshot as CreateSnapshot makes them: distinct members, and the true total, which fits. */
  ghost predicate WellFormed(snap: Snapshot)
  {
    DistinctIDs(snap.validators) && snap.totalPower == TotalPower(snap.validators)
  }

  lemma {:induction false} PowerOfUnion(vals: seq<Validator>, A: set<Address>, B: set<Address>)
    ensures PowerIn(vals, A) + PowerIn(vals, B) == PowerIn(vals, A + B) + PowerIn(vals, A * B)
  {
    if vals != [] {
      PowerOfUnion(vals[..|vals| - 1], A, B);
    }
  }

  lemma {:induction false} PowerMonotone(vals: seq<Validator>, A: set<Address>, B: set<Address>)
    requires A * IDs(vals) <= B
    ensures PowerIn(vals, A) <= PowerIn(vals, B) <= TotalPower(vals)
  {
    if vals != [] {
      var init := vals[..|vals| - 1];
      assert vals[|vals| - 1].consensusID in IDs(vals);
      assert IDs(init) <= IDs(vals);
      PowerMonotone(init, A, B);
    }
  }

  lemma {:induction false} PowerOfNone(vals: seq<Validator>)
    ensures PowerIn(vals, {}) == 0
  {
    if vals != [] {
      PowerOfNone(vals[..|vals| - 1]);
    }
  }

  /** A newly counted member adds exactly its own power. */
  lemma {:induction false} PowerOfOneMore(vals: seq<Validator>, S: set<Address>, id: Address)
    requires DistinctIDs(vals) && id !in S
    ensures PowerIn(vals, S + {id}) ==
            PowerIn(vals, S) + if id in Index(vals) then Index(vals)[id].power else 0
  {
    if vals != [] {
      var init := vals[..|vals| - 1];
      var last := vals[|vals| - 1];
      assert DistinctIDs(init);
      PowerOfOneMore(init, S, id);
      assert last.consensusID !in IDs(init);
    }
  }

  /** Two groups that each hold two thirds share members holding at least one third. */
  lemma QuorumIntersection(vals: seq<Validator>, A: set<Address>, B: set<Address>)
    requires 3 * PowerIn(vals, A) >= 2 * TotalPower(vals)
    requires 3 * PowerIn(vals, B) >= 2 * TotalPower(vals)
    ensures 3 * PowerIn(vals, A * B) >= TotalPower(vals)
  {
    PowerOfUnion(vals, A, B);
    PowerMonotone(vals, A + B, A + B);
  }

  lemma {:induction false} MembersBound(vals: seq<Validator>, S: set<Address>)
    requires S <= IDs(vals)
    ensures |S| <= |vals|
  {
    if vals == [] {
      assert S == {};
    } else {
      var init := vals[..|vals| - 1];
      var last := vals[|vals| - 1].consensusID;
      assert vals == init + [vals[|vals| - 1]];
      assert IDs(vals) == IDs(init) + {last};
      MembersBound(init, S - {last});
      assert S <= (S - {last}) + {last};
      if last in S {
        assert |S - {last}| == |S| - 1;
      } else {
        assert S - {last} == S;
      }
    }
  }

  // ----- the 2/3 test -----

  /** HasPrecommitMajority and HasTwoThirdsMajority, in 64-bit arithmetic. */
  predicate TwoThirds(power: u64, total: u64)
  {
    total != 0 && Wrap64(power * 3) >= Wrap64(total * 2)
  }

  /** The 64-bit test decides "at least two thirds" for every vote count exactly when 3 * total fits. */
  lemma TwoThirdsExact(total: u64)
    requires total > 0
    ensures (forall power: u64 | power <= total :: TwoThirds(power, total) <==> 3 * power >= 2 * total)
            <==> 3 * total < U64
  {
    if 3 * total >= U64 {
      if 2 * total < U64 {
        var p: u64 := total;
        assert Wrap64(p * 3) == 3 * total - U64;
        assert TwoThirds(p, total) <==> false;
      } else {
        var p: u64 := (U64 - 1) / 3;
        assert Wrap64(p * 3) == p * 3 == U64 - 1;
        assert TwoThirds(p, total) && 3 * p < 2 * total;
      }
    }
  }

  /** With a total of 2^63 the doubled total wraps to nothing, and no votes at all pass the test. */
  lemma TwoThirdsWraps()
    ensures TwoThirds(0, 0x8000_0000_0000_0000)
  {
  }

  // ----- binary form -----

  function StatusCode(s: Status): (b: byte)
    ensures b <= 4 && StatusOf(b) == s
  {
    match s
    case Pending => 0
    case Active => 1
    case Jailed => 2
    case Unstaking => 3
    case Removed => 4
  }

  function StatusOf(b: byte): Status
    requires b <= 4
  {
    if b == 0 then Pending else if b == 1 then Active else if b == 2 then Jailed
    else if b == 3 then Unstaking else Removed
  }

  function PutValidator(v: Validator, rest: Bytes): (r: Bytes)
    ensures |r| == 143 + |rest|
  {
    PutBytes(v.consensusID,
    PutBytes(v.publicKey,
    PutBytes(v.operator,
    PutBytes(v.reward,
    PutAmount(v.bonded,
    PutU8(StatusCode(v.status),
    PutU16(v.commission,
    PutU64(v.power,
    PutU64(v.jailedUntil,
    PutU64(v.activationEpoch,
    PutU64(v.unstakeEpoch, rest)))))))))))
  }

  function ReadValidator(data: Bytes): Read<Validator>
  {
    var (id, data) :- ReadAddress(data);
    var (key, data) :- ReadHash(data);
    var (operator, data) :- ReadAddress(data);
    var (reward, data) :- ReadAddress(data);
    var (bonded, data) :- ReadAmount(data);
    var (status, data) :- ReadU8(data);
    var (commission, data) :- ReadU16(data);
    var (power, data) :- ReadU64(data);
    var (jailed, data) :- ReadU64(data);
    var (activation, data) :- ReadU64(data);
    var (unstake, data) :- ReadU64(data);
    if status > 4 then Fail else
      Got(Validator(id, key, operator, reward, bonded, StatusOf(status), commission, power,
                    jailed, activation, unstake), data)
  }

  function PutValidators(vals: seq<Validator>, rest: Bytes): (r: Bytes)
    ensures |r| == 143 * |vals| + |rest|
  {
    if vals == [] then rest else PutValidator(vals[0], PutValidators(vals[1..], rest))
  }

  function ReadValidators(data: Bytes, count: nat): Read<seq<Validator>>
    decreases count
  {
    if count == 0 then Got([], data) else
      var (v, data) :- ReadValidator(data);
      var (vs, data) :- ReadValidators(data, count - 1);
      Got([v] + vs, data)
  }

  lemma ValidatorRoundTrip(v: Validator, rest: Bytes)
    ensures ReadValidator(PutValidator(v, rest)) == Got(v, rest)
  {
    hide PutUint, ReadUint, PutBytes;
    var r10 := PutU64(v.unstakeEpoch, rest);
    var r9 := PutU64(v.activationEpoch, r10);
    var r8 := PutU64(v.jailedUntil, r9);
    var r7 := PutU64(v.power, r8);
    var r6 := PutU16(v.commission, r7);
    var r5 := PutU8(StatusCode(v.status), r6);
    var r4 := PutAmount(v.bonded, r5);
    assert ReadAddress(PutBytes(v.reward, r4)) == Got(v.reward, r4);
  }

  lemma {:induction false} ValidatorsRoundTrip(vals: seq<Validator>, rest: Bytes)
    ensures ReadValidators(PutValidators(vals, rest), |vals|) == Got(vals, rest)
  {
    hide PutValidator, ReadValidator;
    if vals != [] {
      var tail := PutValidators(vals[1..], rest);
      ValidatorRoundTrip(vals[0], tail);
      ValidatorsRoundTrip(vals[1..], rest);
      ReadOneMore(PutValidator(vals[0], tail), vals, tail, rest);
    }
  }

  lemma ReadOneMore(data: Bytes, vals: seq<Validator>, tail: Bytes, rest: Bytes)
    requires vals != []
    requires ReadValidator(data) == Got(vals[0], tail)
    requires ReadValidators(tail, |vals| - 1) == Got(vals[1..], rest)
    ensures ReadValidators(data, |vals|) == Got(vals, rest)
  {
    hide ReadValidator;
    assert vals == [vals[0]] + vals[1..];
  }

  /** ValidatorSnapshot.MarshalBinary. */
  function MarshalSnapshot(s: Snapshot): Bytes
    requires |s.validators| < U64
  {
    PutU64(s.epoch, PutU64(|s.validators|,
    PutValidators(s.validators, PutU64(s.totalPower, PutBytes(s.setHash, [])))))
  }

  /** ValidatorSnapshot.UnmarshalBinary. */
  function UnmarshalSnapshot(data: Bytes): Read<Snapshot>
  {
    var (epoch, data) :- ReadU64(data);
    var (count, data) :- ReadU64(data);
    var (vals, data) :- ReadValidators(data, count);
    var (total, data) :- ReadU64(data);
    if data == [] then Fail else
      Got(Snapshot(epoch, vals, total, ShortHash(data)), data[Min32(data)..])
  }

  function Min32(data: Bytes): (n: nat)
    ensures n <= |data| && n <= 32
  {
    if |data| < 32 then |data| else 32
  }

  /** The set hash is fetched with a single Read, which may come back short. */
  function ShortHash(data: Bytes): Hash
  {
    data[..Min32(data)] + seq(32 - Min32(data), _ => 0)
  }

  /** A stored snapshot is read back as it was frozen. */
  lemma SnapshotRoundTrip(s: Snapshot)
    requires |s.validators| < U64
    ensures UnmarshalSnapshot(MarshalSnapshot(s)) == Got(s, [])
  {
    hide ReadValidators, PutValidators, ReadUint, PutUint;
    var tail := PutBytes(s.setHash, []);
    ValidatorsRoundTrip(s.validators, PutU64(s.totalPower, tail));
    assert tail == s.setHash;
    assert ShortHash(tail) == s.setHash;
  }
}

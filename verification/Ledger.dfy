/**
 The staking ledger: the key-value entries and accounts that the staking package reads and
 writes, as one value, and what each operation makes of it.

 Every key family of the store is a typed map here. An operation that stops with an error leaves
 behind whatever it had already written, so a failed step carries a ledger too.
 */
module Ledger {
  import opened Basics
  import opened Sorting
  import opened Validators
  import opened Accounts

  const MINIMUM_STAKE: nat := 100_000
  const MAX_COMMISSION: nat := 10_000

  /** KeyTotalSupply, KeyTreasurySupply and KeyIssuedSupply. */
  datatype Supply = Supply(total: u64, treasury: u64, issued: u64)

  datatype SlashParams = SlashParams(doublePrevote: u64, doublePrecommit: u64, invalidCommit: u64, jailEpochs: u64)

  type pos64 = x: int | 0 < x < U64 witness 1

  datatype Ledger = Ledger(
    accounts: map<Address, Account>,
    validators: map<Address, Validator>,
    bySeq: map<nat, Address>,
    byPubKey: map<PubKey, Address>,
    byOperator: map<Address, Address>,
    count: nat,
    totalBonded: Amount,
    epoch: u64,
    blocksPerEpoch: pos64,
    snapshots: map<u64, Snapshot>,
    latestSnapshot: u64,
    supply: Supply,
    issuance: map<u64, u64>,
    pools: map<u64, u64>,
    slashParams: SlashParams,
    processed: map<Hash, u64>)

  datatype Error =
    | ValidatorExists | ValidatorNotFound | InsufficientStake | CommissionTooHigh
    | InvalidTransition | NotPending | NotActive | NotJailed | NotUnstaking | WrongStatus
    | AccountNotFound | InsufficientBalance | AmountOverflow | AmountUnderflow
    | EpochMismatch | SlashTooHigh | SlashRemoved | InvalidEvidence | DuplicateEvidence
    | TxRejected

  datatype Step = Done(ledger: Ledger) | Failed(ledger: Ledger, error: Error)

  // ----- validator records -----

  /** Voting power is the stake of an active validator and nothing otherwise. */
  function Repowered(v: Validator): Validator
  {
    v.(power := if v.status == Active then Low64(v.bonded) else 0)
  }

  /** UpdateValidator. */
  function Store(l: Ledger, v: Validator): Ledger
  {
    l.(validators := l.validators[v.consensusID := Repowered(v)])
  }

  /** NewValidator, for arguments it accepts. */
  function Registered(id: Address, key: PubKey, operator: Address, stake: Amount, commission: u16, epoch: u64): Validator
  {
    Validator(id, key, operator, operator, stake, Pending, commission, 0, 0, Wrap64(epoch + 1), 0)
  }

  function RegisterValidator(l: Ledger, id: Address, key: PubKey, operator: Address, stake: Amount, commission: u16, epoch: u64): Step
  {
    if id in l.validators || key in l.byPubKey || operator in l.byOperator then Failed(l, ValidatorExists)
    else if stake < MINIMUM_STAKE then Failed(l, InsufficientStake)
    else if commission > MAX_COMMISSION then Failed(l, CommissionTooHigh)
    else
      var l1 := l.(
        validators := l.validators[id := Registered(id, key, operator, stake, commission, epoch)],
        byPubKey := l.byPubKey[key := id],
        byOperator := l.byOperator[operator := id],
        bySeq := l.bySeq[l.count + 1 := id],
        count := l.count + 1);
      if l.totalBonded + stake >= U128 then Failed(l1, AmountOverflow)
      else Done(l1.(totalBonded := l.totalBonded + stake))
  }

  function ActivateValidator(l: Ledger, id: Address, epoch: u64): Step
  {
    if id !in l.validators then Failed(l, ValidatorNotFound)
    else if l.validators[id].status != Pending then Failed(l, NotPending)
    else Done(Store(l, l.validators[id].(status := Active, activationEpoch := epoch)))
  }

  function JailValidator(l: Ledger, id: Address, until: u64): Step
  {
    if id !in l.validators then Failed(l, ValidatorNotFound)
    else if l.validators[id].status != Active then Failed(l, NotActive)
    else Done(Store(l, l.validators[id].(status := Jailed, jailedUntil := until)))
  }

  function UnjailValidator(l: Ledger, id: Address): Step
  {
    if id !in l.validators then Failed(l, ValidatorNotFound)
    else if l.validators[id].status != Jailed then Failed(l, NotJailed)
    else Done(Store(l, l.validators[id].(status := Active, jailedUntil := 0)))
  }

  function StartUnstake(l: Ledger, id: Address, epoch: u64): Step
  {
    if id !in l.validators then Failed(l, ValidatorNotFound)
    else if !IsValidTransition(l.validators[id].status, Unstaking) then Failed(l, InvalidTransition)
    else Done(Store(l, l.validators[id].(status := Unstaking, unstakeEpoch := epoch)))
  }

  function RemoveValidator(l: Ledger, id: Address): Step
  {
    if id !in l.validators then Failed(l, ValidatorNotFound)
    else
      var v := l.validators[id];
      if v.status != Unstaking then Failed(l, NotUnstaking)
      else if l.totalBonded < v.bonded then Failed(l, AmountUnderflow)
      else Done(Store(l.(totalBonded := l.totalBonded - v.bonded,
                         byPubKey := l.byPubKey - {v.publicKey},
                         byOperator := l.byOperator - {v.operator}),
                      v.(status := Removed)))
  }

  // ----- stake -----

  function WithBalance(l: Ledger, a: Address, balance: Amount): Ledger
    requires a in l.accounts
  {
    l.(accounts := l.accounts[a := l.accounts[a].(balance := balance)])
  }

  function Bond(l: Ledger, from: Address, id: Address, amount: Amount): Step
  {
    if from !in l.accounts then Failed(l, AccountNotFound)
    else if l.accounts[from].balance < amount then Failed(l, InsufficientBalance)
    else if id !in l.validators then Failed(l, ValidatorNotFound)
    else
      var v := l.validators[id];
      if v.status != Pending && v.status != Active then Failed(l, WrongStatus)
      else
        var l1 := WithBalance(l, from, l.accounts[from].balance - amount);
        if v.bonded + amount >= U128 || l.totalBonded + amount >= U128 then Failed(l1, AmountOverflow)
        else Done(Store(l1.(totalBonded := l.totalBonded + amount), v.(bonded := v.bonded + amount)))
  }

  /** The part of `amount` that Slash can take. */
  function SlashedPart(v: Validator, amount: Amount): Amount
  {
    if v.bonded >= amount then amount else v.bonded
  }

  function Slash(l: Ledger, id: Address, amount: Amount): Step
  {
    if id !in l.validators then Failed(l, ValidatorNotFound)
    else
      var v := l.validators[id];
      var slashed := SlashedPart(v, amount);
      if l.totalBonded < slashed then Failed(l, AmountUnderflow)
      else Done(Store(l.(totalBonded := l.totalBonded - slashed), v.(bonded := v.bonded - slashed)))
  }

  function ReleaseStake(l: Ledger, id: Address): Step
  {
    if id !in l.validators then Failed(l, ValidatorNotFound)
    else
      var v := l.validators[id];
      if v.status != Unstaking then Failed(l, NotUnstaking)
      else if v.operator !in l.accounts then Failed(l, AccountNotFound)
      else if l.accounts[v.operator].balance + v.bonded >= U128 then Failed(l, AmountOverflow)
      else RemoveValidator(WithBalance(l, v.operator, l.accounts[v.operator].balance + v.bonded), id)
  }

  /** SlashAmount: basis points of the stake, computed on its low 64 bits in 64-bit arithmetic. */
  function SlashAmount(percent: u64, stake: Amount): (r: u64)
    requires percent <= 10000
  {
    Wrap64(Low64(stake) * percent) / 10000
  }

  function ApplySlash(l: Ledger, id: Address, percent: u64, jailEpochs: u64): Step
  {
    if id !in l.validators then Failed(l, ValidatorNotFound)
    else
      var v := l.validators[id];
      if v.status == Removed then Failed(l, SlashRemoved)
      else if percent > 10000 then Failed(l, SlashTooHigh)
      else
        var amount := SlashAmount(percent, v.bonded);
        if amount == 0 then Done(l)
        else if v.bonded < amount || l.totalBonded < amount then Failed(l, AmountUnderflow)
        else
          var less := v.(bonded := v.bonded - amount);
          var v' := if v.status == Active
                    then less.(status := Jailed, jailedUntil := Wrap64(l.epoch + jailEpochs)) else less;
          Done(Store(l.(totalBonded := l.totalBonded - amount), v'))
  }

  // ----- the active set -----

  /** voting_power DESC, ConsensusID ASC. */
  predicate ByPower(a: Validator, b: Validator)
  {
    a.power > b.power || (a.power == b.power && Less(a.consensusID, b.consensusID))
  }

  /** Highest power first, equal powers in ascending order of ID. */
  ghost predicate Ordered(vals: seq<Validator>)
  {
    forall i, j :: 0 <= i < j < |vals| ==>
      && vals[i].power >= vals[j].power
      && (vals[i].power == vals[j].power ==> Less(vals[i].consensusID, vals[j].consensusID))
  }

  lemma ByPowerIsStrictWeak()
    ensures StrictWeak(ByPower)
  {
    LessIsStrictWeak();
    forall x: Validator, y: Validator, z: Validator | ByPower(x, y) && ByPower(y, z) ensures ByPower(x, z) {
      if x.power == y.power == z.power {
        LessTransitive(x.consensusID, y.consensusID, z.consensusID);
      }
    }
    forall x: Validator, y: Validator, z: Validator | !ByPower(x, y) && !ByPower(y, z) ensures !ByPower(x, z) {
      if x.power == y.power == z.power {
        LessNegTransitive(x.consensusID, y.consensusID, z.consensusID);
      }
    }
    forall x: Validator ensures !ByPower(x, x) { LessIrreflexive(x.consensusID); }
  }

  /** Each record is filed under its own ID. */
  ghost predicate Filed(vals: map<Address, Validator>)
  {
    forall id :: id in vals ==> vals[id].consensusID == id
  }

  ghost function ActiveSet(vals: map<Address, Validator>): set<Validator>
  {
    set id | id in vals && vals[id].status == Active :: vals[id]
  }

  lemma ActiveTotal(vals: map<Address, Validator>)
    requires Filed(vals)
    ensures StrictWeak(ByPower) && TotalOn(ActiveSet(vals), ByPower)
  {
    ByPowerIsStrictWeak();
    forall x, y | x in ActiveSet(vals) && y in ActiveSet(vals) && x != y
      ensures ByPower(x, y) || ByPower(y, x)
    {
      LessTotal(x.consensusID, y.consensusID);
    }
  }

  /** GetActiveValidators. */
  ghost function ActiveList(vals: map<Address, Validator>): seq<Validator>
    requires Filed(vals)
  {
    ActiveTotal(vals);
    Listing(ActiveSet(vals), ByPower)
  }

  /** The active list runs from the most to the least power, and equal powers by ID. */
  lemma ActiveOrdered(vals: map<Address, Validator>)
    requires Filed(vals)
    ensures Ordered(ActiveList(vals))
  {
    hide Less, StrictWeak, TotalOn;
    ActiveTotal(vals);
    var active := ActiveList(vals);
    assert Lists(active, ActiveSet(vals), ByPower);
  }

  // ----- snapshots -----

  function SetHash(vals: seq<Validator>, hash: Bytes -> Hash): Hash
  {
    if vals == [] then ZERO_HASH else hash(PutValidators(vals, []))
  }

  /** The snapshot CreateSnapshot freezes. */
  ghost function Frozen(l: Ledger, epoch: u64, hash: Bytes -> Hash): Snapshot
    requires Filed(l.validators)
  {
    var active := ActiveList(l.validators);
    Snapshot(epoch, active, Wrap64(TotalPower(active)), SetHash(active, hash))
  }

  ghost function CreateSnapshot(l: Ledger, epoch: u64, hash: Bytes -> Hash): Ledger
    requires Filed(l.validators)
  {
    l.(snapshots := l.snapshots[epoch := Frozen(l, epoch, hash)],
       latestSnapshot := if epoch <= l.latestSnapshot then l.latestSnapshot else epoch)
  }
}

/** Epoch arithmetic and the epoch transition: three sweeps over the registry in by-seq order. */
module Epochs {
  import opened Basics
  import opened Arithmetic
  import opened MapSum
  import opened Validators
  import opened Accounts
  import opened Ledger
  import opened Registry

  function EpochAtHeight(blocksPerEpoch: pos64, height: u64): u64
  {
    if height == 0 then 0 else (height - 1) / blocksPerEpoch + 1
  }

  predicate IsEpochBoundary(blocksPerEpoch: pos64, height: u64)
  {
    height != 0 && height % blocksPerEpoch == 0
  }

  /** Epoch e > 0 is the b blocks up to height e * b; height 0 is alone in epoch 0. */
  lemma EpochSpan(b: pos64, height: u64, e: u64)
    ensures EpochAtHeight(b, height) == e <==>
              if e == 0 then height == 0 else e * b - b < height <= e * b
  {
    if height > 0 {
      FloorBounds(height - 1, b);
      var q := (height - 1) / b;
      Distribute(b, q, 1);
      if e > 0 && e * b - b < height <= e * b {
        Distribute(b, e - 1, 1);
        QuotientUnique(height - 1, b, e - 1, height - 1 - b * (e - 1));
      }
    }
  }

  /** A boundary is the last block of its epoch. */
  lemma BoundaryExactly(b: pos64, height: u64)
    requires height + 1 < U64
    ensures IsEpochBoundary(b, height) <==> 0 < EpochAtHeight(b, height) < EpochAtHeight(b, height + 1)
  {
    if height > 0 { HeightSteps(height, b); }
  }

  datatype Sweep = Activate | Release | Unjail

  predicate ActivationDue(v: Validator, next: u64) { v.status == Pending && v.activationEpoch == next }
  predicate ReleaseDue(v: Validator, next: u64) { v.status == Unstaking && v.unstakeEpoch <= next }
  predicate UnjailDue(v: Validator, next: u64) { v.status == Jailed && v.jailedUntil <= next }

  /** What a sweep makes of one record. */
  function Change(s: Sweep, v: Validator, next: u64): Validator
  {
    match s
    case Activate => if ActivationDue(v, next) then Repowered(v.(status := Active, activationEpoch := next)) else v
    case Release => if ReleaseDue(v, next) then Repowered(v.(status := Removed)) else v
    case Unjail => if UnjailDue(v, next) then Repowered(v.(status := Active, jailedUntil := 0)) else v
  }

  /** The first k positions of a sweep, in order. */
  function Swept(vals: Records, bySeq: map<nat, Address>, k: nat, s: Sweep, next: u64): Records
  {
    if k == 0 then vals else
      var prev := Swept(vals, bySeq, k - 1, s, next);
      if k in bySeq && bySeq[k] in prev then prev[bySeq[k] := Change(s, prev[bySeq[k]], next)] else prev
  }

  function ReleaseAt(l: Ledger, k: nat, next: u64): Step
  {
    if k in l.bySeq && l.bySeq[k] in l.validators && ReleaseDue(l.validators[l.bySeq[k]], next)
    then ReleaseStake(l, l.bySeq[k])
    else Done(l)
  }

  /** The release sweep, which stops at the first validator that cannot be paid. */
  function Released(l: Ledger, k: nat, next: u64): Step
  {
    if k == 0 then Done(l) else
      var s := Released(l, k - 1, next);
      if s.Failed? then s else ReleaseAt(s.ledger, k, next)
  }

  function ProcessEpochTransition(l: Ledger, height: u64): Step
  {
    var next := Wrap64(l.epoch + 1);
    if EpochAtHeight(l.blocksPerEpoch, height) != next then Failed(l, EpochMismatch)
    else
      var l1 := l.(validators := Swept(l.validators, l.bySeq, l.count, Activate, next));
      var s := Released(l1, l1.count, next);
      if s.Failed? then s
      else Done(s.ledger.(
                  validators := Swept(s.ledger.validators, s.ledger.bySeq, s.ledger.count, Unjail, next),
                  epoch := next))
  }

  // ----- sweeps, pointwise -----

  ghost function Seen(bySeq: map<nat, Address>, k: nat): set<Address>
  {
    set j | j in bySeq && 1 <= j <= k :: bySeq[j]
  }

  /** Every seen record changed, every other one as it was. */
  ghost function Changed(vals: Records, seen: set<Address>, s: Sweep, next: u64): Records
  {
    map id | id in vals :: if id in seen then Change(s, vals[id], next) else vals[id]
  }

  lemma SeenMore(bySeq: map<nat, Address>, count: nat, ids: set<Address>, k: nat)
    requires Enumerates(bySeq, count, ids) && 1 <= k <= count
    ensures k in bySeq && bySeq[k] in ids
    ensures Seen(bySeq, k) == Seen(bySeq, k - 1) + {bySeq[k]}
    ensures bySeq[k] !in Seen(bySeq, k - 1)
  {
    assert bySeq[k] in bySeq.Values;
  }

  lemma SeenAll(bySeq: map<nat, Address>, count: nat, ids: set<Address>)
    requires Enumerates(bySeq, count, ids)
    ensures Seen(bySeq, count) == ids
  {
    forall id | id in ids ensures id in Seen(bySeq, count) {
      var k :| k in bySeq && bySeq[k] == id;
    }
    forall id | id in Seen(bySeq, count) ensures id in ids {
      assert id in bySeq.Values;
    }
  }

  /** A sweep in by-seq order visits everyone once: it is a pointwise change. */
  lemma {:induction false} SweepPointwise(vals: Records, bySeq: map<nat, Address>, count: nat, k: nat, s: Sweep, next: u64)
    requires Enumerates(bySeq, count, vals.Keys) && k <= count
    ensures Swept(vals, bySeq, k, s, next) == Changed(vals, Seen(bySeq, k), s, next)
  {
    hide Enumerates, Change;
    if k == 0 {
      assert Seen(bySeq, 0) == {};
    } else {
      SweepPointwise(vals, bySeq, count, k - 1, s, next);
      SeenMore(bySeq, count, vals.Keys, k);
    }
  }

  lemma SweepAll(vals: Records, bySeq: map<nat, Address>, count: nat, s: Sweep, next: u64)
    requires Enumerates(bySeq, count, vals.Keys)
    ensures Swept(vals, bySeq, count, s, next) == Changed(vals, vals.Keys, s, next)
  {
    hide Enumerates;
    SweepPointwise(vals, bySeq, count, count, s, next);
    SeenAll(bySeq, count, vals.Keys);
  }

  lemma ChangeOne(s: Sweep, v: Validator, next: u64)
    ensures var v' := Change(s, v, next);
            && v'.consensusID == v.consensusID && v'.bonded == v.bonded
            && v'.publicKey == v.publicKey && v'.operator == v.operator
            && (s != Release ==> (v'.status == Removed <==> v.status == Removed))
            && (v == Repowered(v) ==> v' == Repowered(v'))
            && (v'.status == v.status || IsValidTransition(v.status, v'.status))
  {
  }

  /** The records agree on everything the indexes and the total are made of. */
  ghost predicate SameHoldings(vals: Records, vals': Records)
  {
    && vals'.Keys == vals.Keys
    && forall id :: id in vals ==>
         && vals'[id].bonded == vals[id].bonded
         && vals'[id].publicKey == vals[id].publicKey && vals'[id].operator == vals[id].operator
         && (vals'[id].status == Removed <==> vals[id].status == Removed)
  }

  lemma HoldingsDetermine(vals: Records, vals': Records)
    requires SameHoldings(vals, vals')
    ensures Stakes(vals') == Stakes(vals)
    ensures Keys(vals') == Keys(vals)
    ensures Operators(vals') == Operators(vals)
  {
  }

  /** Activating and unjailing touch neither stakes nor indexes. */
  lemma SweepKeepsRegistry(vals: Records, seen: set<Address>, s: Sweep, next: u64)
    requires s != Release
    ensures var vals' := Changed(vals, seen, s, next);
            && vals'.Keys == vals.Keys && Stakes(vals') == Stakes(vals)
            && Keys(vals') == Keys(vals) && Operators(vals') == Operators(vals)
  {
    hide Change, Repowered, IsValidTransition, Stakes, Keys, Operators;
    forall id | id in vals { ChangeOne(s, vals[id], next); }
    HoldingsDetermine(vals, Changed(vals, seen, s, next));
  }

  lemma SweepKeepsPower(vals: Records, seen: set<Address>, s: Sweep, next: u64)
    ensures WellPowered(vals) ==> WellPowered(Changed(vals, seen, s, next))
    ensures FollowsTable(vals, Changed(vals, seen, s, next))
  {
    hide Change, Repowered, IsValidTransition;
    forall id | id in vals { ChangeOne(s, vals[id], next); }
  }

  lemma SweepKeepsInv(l: Ledger, s: Sweep, next: u64)
    requires Inv(l) && s != Release
    ensures Inv(l.(validators := Swept(l.validators, l.bySeq, l.count, s, next)))
    ensures FollowsTable(l.validators, Swept(l.validators, l.bySeq, l.count, s, next))
  {
    hide Sum, Enumerates, Inverse, Stakes, Keys, Operators, WellPowered, FollowsTable, Changed, Swept;
    SweepAll(l.validators, l.bySeq, l.count, s, next);
    SweepKeepsRegistry(l.validators, l.validators.Keys, s, next);
    SweepKeepsPower(l.validators, l.validators.Keys, s, next);
  }

  // ----- the release sweep -----

  /** Tokens in accounts and in stake. */
  ghost function Circulating(l: Ledger): nat
  {
    Held(l.accounts) + l.totalBonded
  }

  lemma ReleaseConserves(l: Ledger, id: Address)
    requires Inv(l)
    ensures Circulating(ReleaseStake(l, id).ledger) == Circulating(l)
  {
    hide Consistent, Held, Repowered;
    var s := ReleaseStake(l, id);
    ReleaseKeepsInv(l, id);
    if s.Done? {
      var v := l.validators[id];
      HeldAfterWrite(l.accounts, v.operator, l.accounts[v.operator].(balance := l.accounts[v.operator].balance + v.bonded));
    }
  }

  /** The stake of id can be paid out, should it be due. */
  ghost predicate Payable(l: Ledger, id: Address, next: u64)
    requires id in l.validators
  {
    var v := l.validators[id];
    ReleaseDue(v, next) ==> v.operator in l.accounts && l.accounts[v.operator].balance + v.bonded < U128
  }

  ghost predicate AllPayable(l: Ledger, seen: set<Address>, next: u64)
  {
    forall id :: id in seen && id in l.validators ==> Payable(l, id, next)
  }

  /** What account a is owed when the validators in seen are released. */
  ghost function Owed(l: Ledger, seen: set<Address>, next: u64, a: Address): nat
  {
    if a in l.byOperator && l.byOperator[a] in seen && l.byOperator[a] in l.validators
       && ReleaseDue(l.validators[l.byOperator[a]], next)
    then l.validators[l.byOperator[a]].bonded else 0
  }

  /** Operators of the validators released get their stake back; no other account is touched. */
  ghost predicate PaidBack(l: Ledger, seen: set<Address>, next: u64, accounts: map<Address, Account>)
  {
    && accounts.Keys == l.accounts.Keys
    && forall a :: a in l.accounts ==>
         && accounts[a].balance == l.accounts[a].balance + Owed(l, seen, next, a)
         && accounts[a] == l.accounts[a].(balance := accounts[a].balance)
  }

  /** Only these parts of the ledger may differ after releases. */
  ghost predicate OnlyReleased(l: Ledger, p: Ledger)
  {
    p == l.(accounts := p.accounts, validators := p.validators, byPubKey := p.byPubKey,
            byOperator := p.byOperator, totalBonded := p.totalBonded)
  }

  lemma RemoveFrame(l: Ledger, id: Address)
    ensures OnlyReleased(l, RemoveValidator(l, id).ledger)
    ensures RemoveValidator(l, id).ledger.accounts == l.accounts
  {
    hide Repowered;
  }

  lemma ReleaseFrame(l: Ledger, id: Address)
    ensures OnlyReleased(l, ReleaseStake(l, id).ledger)
  {
    hide Repowered, RemoveValidator;
    if id in l.validators && l.validators[id].operator in l.accounts
       && l.accounts[l.validators[id].operator].balance + l.validators[id].bonded < U128 {
      var v := l.validators[id];
      RemoveFrame(WithBalance(l, v.operator, l.accounts[v.operator].balance + v.bonded), id);
    }
  }

  /** Before its own turn, a validator and its operator's account are as they were at the start. */
  ghost predicate Partway(l: Ledger, p: Ledger, seen: set<Address>, next: u64)
  {
    && OnlyReleased(l, p) && Inv(p)
    && p.validators == Changed(l.validators, seen, Release, next)
    && PaidBack(l, seen, next, p.accounts)
  }

  lemma OperatorOf(l: Ledger, id: Address)
    requires Inv(l) && id in l.validators && l.validators[id].status != Removed
    ensures l.validators[id].operator in l.byOperator && l.byOperator[l.validators[id].operator] == id
  {
    hide Sum, Enumerates;
    assert id in Operators(l.validators);
  }

  /** ReleaseStake of an unstaking validator, outright. */
  lemma ReleaseOutcome(p: Ledger, id: Address)
    requires Inv(p) && id in p.validators && p.validators[id].status == Unstaking
    ensures var v := p.validators[id]; var s := ReleaseStake(p, id);
            && (s.Done? <==> v.operator in p.accounts && p.accounts[v.operator].balance + v.bonded < U128)
            && (s.Done? ==>
                  && s.ledger.validators == p.validators[id := Repowered(v.(status := Removed))]
                  && s.ledger.accounts == p.accounts[v.operator := p.accounts[v.operator].(balance := p.accounts[v.operator].balance + v.bonded)])
  {
    hide Consistent, Repowered, RemoveValidator;
    InvFiled(p, id);
    StakeWithinTotal(p, id);
    var v := p.validators[id];
    if v.operator in p.accounts && p.accounts[v.operator].balance + v.bonded < U128 {
      RemoveOutcome(WithBalance(p, v.operator, p.accounts[v.operator].balance + v.bonded), id);
    }
  }

  lemma RemoveOutcome(p: Ledger, id: Address)
    requires id in p.validators && p.validators[id].status == Unstaking && p.validators[id].consensusID == id
    requires p.validators[id].bonded <= p.totalBonded
    ensures var v := p.validators[id]; var s := RemoveValidator(p, id);
            && s.Done? && s.ledger.accounts == p.accounts
            && s.ledger.validators == p.validators[id := Repowered(v.(status := Removed))]
  {
    hide Repowered;
  }

  lemma AsAtStart(l: Ledger, p: Ledger, seen: set<Address>, id: Address, next: u64)
    requires Inv(l) && Partway(l, p, seen, next) && id in l.validators && id !in seen
    requires ReleaseDue(l.validators[id], next)
    ensures id in p.validators && p.validators[id] == l.validators[id]
    ensures var op := l.validators[id].operator;
            (op in p.accounts <==> op in l.accounts) && (op in l.accounts ==> p.accounts[op] == l.accounts[op])
  {
    hide Consistent;
    OperatorOf(l, id);
  }

  lemma ReleaseTurn(l: Ledger, p: Ledger, seen: set<Address>, id: Address, next: u64)
    requires Inv(l) && Partway(l, p, seen, next) && id in l.validators && id !in seen
    requires ReleaseDue(l.validators[id], next)
    ensures ReleaseStake(p, id).Done? <==> Payable(l, id, next)
    ensures ReleaseStake(p, id).Done? ==> Partway(l, ReleaseStake(p, id).ledger, seen + {id}, next)
  {
    hide Consistent, Repowered, ReleaseStake, Changed, PaidBack, Owed;
    AsAtStart(l, p, seen, id, next);
    ReleaseOutcome(p, id);
    ReleaseFrame(p, id);
    ReleaseKeepsInv(p, id);
    var s := ReleaseStake(p, id);
    if s.Done? {
      ReleasedRecords(l.validators, p.validators, seen, id, next);
      SameKeys(l, p, seen, next);
      ReleasedAccounts(l, p, seen, id, next, s.ledger.accounts);
    }
  }

  lemma SameKeys(l: Ledger, p: Ledger, seen: set<Address>, next: u64)
    requires PaidBack(l, seen, next, p.accounts)
    ensures p.accounts.Keys == l.accounts.Keys
  {
  }

  lemma ReleasedRecords(vals: Records, vals1: Records, seen: set<Address>, id: Address, next: u64)
    requires id in vals && id !in seen && ReleaseDue(vals[id], next)
    requires vals1 == Changed(vals, seen, Release, next)
    ensures vals1[id := Repowered(vals[id].(status := Removed))] == Changed(vals, seen + {id}, Release, next)
  {
  }

  lemma ReleasedAccounts(l: Ledger, p: Ledger, seen: set<Address>, id: Address, next: u64, accounts: map<Address, Account>)
    requires Inv(l) && id in l.validators && id !in seen && ReleaseDue(l.validators[id], next)
    requires PaidBack(l, seen, next, p.accounts) && l.validators[id].operator in l.accounts
    requires var op := l.validators[id].operator;
             && l.accounts[op].balance + l.validators[id].bonded < U128
             && accounts == p.accounts[op := l.accounts[op].(balance := l.accounts[op].balance + l.validators[id].bonded)]
    ensures PaidBack(l, seen + {id}, next, accounts)
  {
    hide Consistent;
    var op := l.validators[id].operator;
    OperatorOf(l, id);
    forall a | a in l.accounts
      ensures accounts[a].balance == l.accounts[a].balance + Owed(l, seen + {id}, next, a)
      ensures accounts[a] == l.accounts[a].(balance := accounts[a].balance)
    {
      if a != op {
        NotOwed(l, seen, id, next, a);
      }
    }
  }

  lemma NotOwed(l: Ledger, seen: set<Address>, id: Address, next: u64, a: Address)
    requires Inv(l) && id in l.validators && ReleaseDue(l.validators[id], next) && a != l.validators[id].operator
    ensures Owed(l, seen + {id}, next, a) == Owed(l, seen, next, a)
  {
    hide Sum, Enumerates;
    assert a in l.byOperator ==> l.byOperator[a] in Operators(l.validators);
  }

  lemma {:induction false} ReleasedPrefix(l: Ledger, k: nat, next: u64)
    requires Inv(l) && k <= l.count
    ensures var s := Released(l, k, next);
            && Inv(s.ledger) && OnlyReleased(l, s.ledger) && Circulating(s.ledger) == Circulating(l)
            && (s.Done? <==> AllPayable(l, Seen(l.bySeq, k), next))
            && (s.Done? ==> Partway(l, s.ledger, Seen(l.bySeq, k), next))
            && (exists seen :: s.ledger.validators == Changed(l.validators, seen, Release, next))
  {
    hide Consistent, ReleaseStake, Held, Partway, AllPayable, Changed, Seen;
    if k == 0 {
      ReleaseStart(l, next);
    } else {
      ReleasedPrefix(l, k - 1, next);
      EnumeratedBy(l);
      SeenMore(l.bySeq, l.count, l.validators.Keys, k);
      var s, id := Released(l, k - 1, next), l.bySeq[k];
      AllPayableMore(l, Seen(l.bySeq, k - 1), id, next);
      if s.Done? {
        var p := s.ledger;
        ReleaseConserves(p, id);
        ReleaseKeepsInv(p, id);
        ReleaseFrame(p, id);
        NotYet(l, p, Seen(l.bySeq, k - 1), id, next);
        if ReleaseDue(l.validators[id], next) {
          ReleaseTurn(l, p, Seen(l.bySeq, k - 1), id, next);
          PartwayRecords(l, ReleaseStake(p, id).ledger, Seen(l.bySeq, k), next);
        } else {
          NothingDue(l, p, Seen(l.bySeq, k - 1), id, next);
        }
      }
    }
  }

  lemma ReleaseStart(l: Ledger, next: u64)
    requires Inv(l)
    ensures Seen(l.bySeq, 0) == {} && Partway(l, l, {}, next) && AllPayable(l, {}, next)
    ensures l.validators == Changed(l.validators, {}, Release, next)
  {
    hide Consistent;
  }

  lemma AllPayableMore(l: Ledger, seen: set<Address>, id: Address, next: u64)
    requires id in l.validators
    ensures AllPayable(l, seen + {id}, next) <==> AllPayable(l, seen, next) && Payable(l, id, next)
  {
  }

  lemma NotYet(l: Ledger, p: Ledger, seen: set<Address>, id: Address, next: u64)
    requires Partway(l, p, seen, next) && id in l.validators && id !in seen
    ensures id in p.validators && p.validators[id] == l.validators[id] && p.bySeq == l.bySeq
  {
    hide Consistent;
  }

  lemma PartwayRecords(l: Ledger, p: Ledger, seen: set<Address>, next: u64)
    ensures Partway(l, p, seen, next) ==> p.validators == Changed(l.validators, seen, Release, next)
  {
  }

  lemma NothingDue(l: Ledger, p: Ledger, seen: set<Address>, id: Address, next: u64)
    requires Inv(l) && Partway(l, p, seen, next) && id in l.validators && !ReleaseDue(l.validators[id], next)
    ensures Partway(l, p, seen + {id}, next)
  {
    hide Consistent;
    assert Changed(l.validators, seen + {id}, Release, next) == Changed(l.validators, seen, Release, next);
    assert forall a :: Owed(l, seen + {id}, next, a) == Owed(l, seen, next, a);
  }

  lemma EnumeratedBy(l: Ledger)
    requires Inv(l)
    ensures Enumerates(l.bySeq, l.count, l.validators.Keys)
  {
  }

  // ----- the transition as a whole -----

  /** Where the transition into epoch `next` takes a validator. */
  function AtEpoch(v: Validator, next: u64): Validator
  {
    match v.status
    case Pending => if v.activationEpoch == next then v.(status := Active, power := Low64(v.bonded)) else v
    case Active => v
    case Jailed => if v.jailedUntil <= next then v.(status := Active, jailedUntil := 0, power := Low64(v.bonded)) else v
    case Unstaking => if v.unstakeEpoch <= next then v.(status := Removed, power := 0) else v
    case Removed => v
  }

  ghost function AllAtEpoch(vals: Records, next: u64): Records
  {
    map id | id in vals :: AtEpoch(vals[id], next)
  }

  /** No validator is affected by more than one sweep. */
  lemma SweepsCompose(vals: Records, next: u64)
    ensures var all := vals.Keys;
            Changed(Changed(Changed(vals, all, Activate, next), all, Release, next), all, Unjail, next)
            == AllAtEpoch(vals, next)
  {
    hide Change, AtEpoch;
    forall v: Validator
      ensures Change(Unjail, Change(Release, Change(Activate, v, next), next), next) == AtEpoch(v, next)
    {
      ChangesCompose(v, next);
    }
  }

  lemma ChangesCompose(v: Validator, next: u64)
    ensures Change(Unjail, Change(Release, Change(Activate, v, next), next), next) == AtEpoch(v, next)
  {
  }

  lemma SweepsFollowTable(vals: Records, seen: set<Address>, next: u64)
    ensures FollowsTable(vals, Changed(Changed(vals, vals.Keys, Activate, next), seen, Release, next))
    ensures FollowsTable(vals, AllAtEpoch(vals, next))
  {
  }

  /** What a transition that stops can have done to the records. */
  ghost predicate HalfWay(vals: Records, vals': Records, next: u64)
  {
    && vals'.Keys == vals.Keys
    && forall id :: id in vals ==>
         || vals'[id] == vals[id]
         || vals'[id] == Change(Activate, vals[id], next)
         || vals'[id] == Change(Release, vals[id], next)
  }

  lemma HalfWayStart(vals: Records, next: u64)
    ensures HalfWay(vals, vals, next)
  {
  }

  lemma TwoSweepsHalfWay(vals: Records, seen: set<Address>, next: u64)
    ensures HalfWay(vals, Changed(Changed(vals, vals.Keys, Activate, next), seen, Release, next), next)
  {
  }

  /** Only the account balances and records a transition may touch, and the epoch, are different. */
  ghost predicate OnlyTransitioned(l: Ledger, l': Ledger)
  {
    OnlyReleased(l, l'.(epoch := l.epoch))
  }

  /**
   A transition succeeds exactly when the height belongs to the next epoch and everyone due for
   release can be paid. It then moves every validator as its own record says, pays the released
   operators, and changes nothing else. It keeps the registry invariant and creates no tokens,
   even when it stops half way.
   */
  lemma TransitionMeaning(l: Ledger, height: u64)
    requires Inv(l)
    ensures var s, next := ProcessEpochTransition(l, height), Wrap64(l.epoch + 1);
            && Inv(s.ledger) && Circulating(s.ledger) == Circulating(l)
            && FollowsTable(l.validators, s.ledger.validators)
            && OnlyTransitioned(l, s.ledger)
            && (s.Done? <==> EpochAtHeight(l.blocksPerEpoch, height) == next && AllPayable(l, l.validators.Keys, next))
            && (if s.Done? then
                  && s.ledger.epoch == next
                  && s.ledger.validators == AllAtEpoch(l.validators, next)
                  && PaidBack(l, l.validators.Keys, next, s.ledger.accounts)
                else s.ledger.epoch == l.epoch && HalfWay(l.validators, s.ledger.validators, next))
  {
    hide Consistent, Held, Swept, Released, Changed, AllAtEpoch, FollowsTable, AllPayable, PaidBack, EpochAtHeight, HalfWay;
    SameFollowsTable(l.validators);
    HalfWayStart(l.validators, Wrap64(l.epoch + 1));
    var next := Wrap64(l.epoch + 1);
    if EpochAtHeight(l.blocksPerEpoch, height) == next {
      FirstTwoSweeps(l, next);
      var l1 := l.(validators := Swept(l.validators, l.bySeq, l.count, Activate, next));
      var p := Released(l1, l1.count, next).ledger;
      SweepKeepsInv(p, Unjail, next);
    }
  }

  lemma FirstTwoSweeps(l: Ledger, next: u64)
    requires Inv(l)
    ensures var l1 := l.(validators := Swept(l.validators, l.bySeq, l.count, Activate, next));
            var s := Released(l1, l1.count, next);
            && Inv(s.ledger) && Circulating(s.ledger) == Circulating(l)
            && OnlyReleased(l, s.ledger) && FollowsTable(l.validators, s.ledger.validators)
            && HalfWay(l.validators, s.ledger.validators, next)
            && (s.Done? <==> AllPayable(l, l.validators.Keys, next))
            && (s.Done? ==>
                  && Swept(s.ledger.validators, s.ledger.bySeq, s.ledger.count, Unjail, next) == AllAtEpoch(l.validators, next)
                  && FollowsTable(l.validators, AllAtEpoch(l.validators, next))
                  && PaidBack(l, l.validators.Keys, next, s.ledger.accounts))
  {
    hide Consistent, Held, Swept, Released, Changed, AllAtEpoch, FollowsTable, AllPayable, PaidBack, Seen, HalfWay;
    var all := l.validators.Keys;
    EnumeratedBy(l);
    SweepAll(l.validators, l.bySeq, l.count, Activate, next);
    SweepKeepsInv(l, Activate, next);
    var l1 := l.(validators := Swept(l.validators, l.bySeq, l.count, Activate, next));
    ActivationAside(l, l1, next);
    ReleasedPrefix(l1, l1.count, next);
    SeenAll(l.bySeq, l.count, all);
    var s := Released(l1, l1.count, next);
    var seen :| s.ledger.validators == Changed(l1.validators, seen, Release, next);
    SweepsFollowTable(l.validators, seen, next);
    TwoSweepsHalfWay(l.validators, seen, next);
    if s.Done? {
      var p := s.ledger;
      PartwayRecords(l1, p, all, next);
      EnumeratedBy(p);
      ChangedKeys(l1.validators, all, Release, next);
      SweepAll(p.validators, p.bySeq, p.count, Unjail, next);
      SweepsCompose(l.validators, next);
      PaidAside(l, l1, p, next);
    }
  }

  lemma ChangedKeys(vals: Records, seen: set<Address>, s: Sweep, next: u64)
    ensures Changed(vals, seen, s, next).Keys == vals.Keys
  {
  }

  /** The activation sweep leaves alone everything the release sweep looks at. */
  lemma ActivationAside(l: Ledger, l1: Ledger, next: u64)
    requires l1 == l.(validators := Changed(l.validators, l.validators.Keys, Activate, next))
    ensures l1.validators.Keys == l.validators.Keys
    ensures AllPayable(l1, l.validators.Keys, next) <==> AllPayable(l, l.validators.Keys, next)
  {
    assert forall id :: id in l.validators ==>
      (ReleaseDue(l1.validators[id], next) <==> ReleaseDue(l.validators[id], next));
    assert forall id :: id in l.validators && ReleaseDue(l.validators[id], next) ==>
      l1.validators[id] == l.validators[id];
    assert forall id :: id in l.validators ==> (Payable(l1, id, next) <==> Payable(l, id, next));
  }

  lemma PaidAside(l: Ledger, l1: Ledger, p: Ledger, next: u64)
    requires l1 == l.(validators := Changed(l.validators, l.validators.Keys, Activate, next))
    requires Partway(l1, p, l.validators.Keys, next)
    ensures PaidBack(l, l.validators.Keys, next, p.accounts)
  {
    hide Consistent;
    assert forall a :: Owed(l1, l.validators.Keys, next, a) == Owed(l, l.validators.Keys, next, a);
  }
}

/** Proportional payout of a pool: floors for everyone, the remainder to the first in line. */
module Rewards {
  import opened Basics
  import opened Arithmetic
  import opened Validators

  function SumOf(s: seq<u64>): nat
  {
    if s == [] then 0 else SumOf(s[..|s| - 1]) + s[|s| - 1]
  }

  /** amount * power / total, in 64-bit arithmetic. */
  function Portion(amount: u64, power: u64, total: u64): (p: u64)
    requires total > 0
  {
    Wrap64(amount * power) / total
  }

  /** The exact floor of the share, when the product does not matter how big. */
  function ExactShare(amount: u64, power: u64, total: u64): nat
    requires total > 0
  {
    MulMonotone(amount, 0, power);
    amount * power / total
  }

  function Portions(amount: u64, vals: seq<Validator>, total: u64): (s: seq<u64>)
    requires total > 0
    ensures |s| == |vals| && forall i :: 0 <= i < |s| ==> s[i] == Portion(amount, vals[i].power, total)
  {
    seq(|vals|, i requires 0 <= i < |vals| => Portion(amount, vals[i].power, total))
  }

  /** What each validator is paid. */
  function Payouts(amount: u64, vals: seq<Validator>, total: u64): (s: seq<u64>)
    requires total > 0 && vals != []
    ensures |s| == |vals|
  {
    var s := Portions(amount, vals, total);
    var remainder := Wrap64(amount - SumOf(s));
    s[0 := Wrap64(s[0] + remainder)]
  }

  /** The two reward loops: floors with a running sum, then the remainder. */
  method Apportion(amount: u64, vals: seq<Validator>, total: u64) returns (rewards: array<u64>)
    requires total > 0 && vals != []
    ensures fresh(rewards) && rewards[..] == Payouts(amount, vals, total)
  {
    hide Wrap64, Payouts, Portion;
    rewards := new u64[|vals|];
    ghost var s := Portions(amount, vals, total);
    var distributed: u64 := 0;
    for i := 0 to |vals|
      invariant forall j :: 0 <= j < i ==> rewards[j] == s[j]
      invariant distributed == Wrap64(SumOf(s[..i]))
    {
      var portion := Portion(amount, vals[i].power, total);
      rewards[i] := portion;
      RunningSum(s, i);
      WrapAdd(SumOf(s[..i]), portion);
      distributed := Wrap64(distributed + portion);
    }
    assert s[..|vals|] == s && rewards[..] == s;
    WrapAdd(amount, SumOf(s));
    var remainder: int := Wrap64(amount - distributed);
    if remainder > 0 {
      rewards[0] := Wrap64(rewards[0] + remainder);
    }
    WithRemainder(amount, vals, total, rewards[..]);
  }

  lemma RunningSum(s: seq<u64>, i: nat)
    requires i < |s|
    ensures SumOf(s[..i + 1]) == SumOf(s[..i]) + s[i]
  {
    assert s[..i + 1][..i] == s[..i];
  }

  lemma WithRemainder(amount: u64, vals: seq<Validator>, total: u64, rewards: seq<u64>)
    requires total > 0 && vals != []
    requires var s := Portions(amount, vals, total); var r := Wrap64(amount - SumOf(s));
             rewards == if r > 0 then s[0 := Wrap64(s[0] + r)] else s
    ensures rewards == Payouts(amount, vals, total)
  {
    var s := Portions(amount, vals, total);
    assert s[0 := s[0]] == s;
  }

  // ----- conservation -----

  lemma PortionBounds(amount: u64, power: u64, total: u64)
    requires total > 0
    ensures total * Portion(amount, power, total) <= amount * power
    ensures amount * power < U64 ==> amount * power < total * Portion(amount, power, total) + total
  {
    MulMonotone(amount, 0, power);
    WrapBound(amount * power);
    FloorBounds(Wrap64(amount * power), total);
  }

  lemma LastPortion(amount: u64, vals: seq<Validator>, total: u64)
    requires total > 0 && vals != []
    ensures SumOf(Portions(amount, vals, total)) ==
            SumOf(Portions(amount, vals[..|vals| - 1], total)) + Portion(amount, vals[|vals| - 1].power, total)
  {
    var s := Portions(amount, vals, total);
    assert s[..|s| - 1] == Portions(amount, vals[..|vals| - 1], total);
  }

  /** The floors never add up to more than the pool, even when products wrap around. */
  lemma {:induction false} PortionsBound(amount: u64, vals: seq<Validator>, total: u64)
    requires total > 0
    ensures total * SumOf(Portions(amount, vals, total)) <= amount * TotalPower(vals)
  {
    hide Portion;
    if vals != [] {
      var init, v := vals[..|vals| - 1], vals[|vals| - 1];
      PortionsBound(amount, init, total);
      LastPortion(amount, vals, total);
      PortionBounds(amount, v.power, total);
      Distribute(total, SumOf(Portions(amount, init, total)), Portion(amount, v.power, total));
      Distribute(amount, TotalPower(init), v.power);
    }
  }

  lemma {:induction false} SumAtZero(s: seq<u64>, x: u64)
    requires s != []
    ensures SumOf(s[0 := x]) == SumOf(s) - s[0] + x
  {
    var t := s[0 := x];
    if |s| > 1 {
      SumAtZero(s[..|s| - 1], x);
      assert t[..|s| - 1] == s[..|s| - 1][0 := x];
    } else {
      assert s[..0] == t[..0] == [];
    }
  }

  lemma {:induction false} SumContains(s: seq<u64>, i: nat)
    requires i < |s|
    ensures s[i] <= SumOf(s)
  {
    if i < |s| - 1 {
      SumContains(s[..|s| - 1], i);
    }
  }

  lemma SumWithinPool(amount: u64, vals: seq<Validator>, total: u64)
    requires total > 0 && total == TotalPower(vals)
    ensures SumOf(Portions(amount, vals, total)) <= amount
  {
    PortionsBound(amount, vals, total);
    var sum := SumOf(Portions(amount, vals, total));
    Distribute(total, amount, 1);
    MulLess(total, sum, amount + 1);
  }

  /** The payouts add up to exactly the pool, whatever wraps around on the way. */
  lemma PayoutsAddUp(amount: u64, vals: seq<Validator>, total: u64)
    requires total > 0 && total == TotalPower(vals) && vals != []
    ensures SumOf(Payouts(amount, vals, total)) == amount
  {
    var s := Portions(amount, vals, total);
    SumWithinPool(amount, vals, total);
    SumContains(s, 0);
    SumAtZero(s, Wrap64(s[0] + Wrap64(amount - SumOf(s))));
  }

  // ----- fairness -----

  /** 64-bit arithmetic finds the exact share exactly when the product fits. */
  lemma PortionExact(amount: u64, power: u64, total: u64)
    requires total > 0
    ensures Portion(amount, power, total) == ExactShare(amount, power, total) <==> amount * power < U64
  {
    var x := amount * power;
    assert x >= 0 by { MulMonotone(amount, 0, power); }
    WrapBound(x);
    if x >= U64 {
      QuotientGap(Wrap64(x), x, total);
    }
  }

  /** A pool of 2^32 for a single validator of power 2^32 comes to a floor of nothing. */
  lemma PortionWraps()
    ensures Portion(0x1_0000_0000, 0x1_0000_0000, 0x1_0000_0000) == 0
    ensures ExactShare(0x1_0000_0000, 0x1_0000_0000, 0x1_0000_0000) == 0x1_0000_0000
  {
  }

  ghost predicate NoOverflow(amount: u64, vals: seq<Validator>)
  {
    forall i :: 0 <= i < |vals| ==> amount * vals[i].power < U64
  }

  lemma {:induction false} PortionsLowerBound(amount: u64, vals: seq<Validator>, total: u64)
    requires total > 0 && NoOverflow(amount, vals)
    ensures amount * TotalPower(vals) <= total * (SumOf(Portions(amount, vals, total)) + |vals|)
    ensures vals != [] ==> amount * TotalPower(vals) < total * (SumOf(Portions(amount, vals, total)) + |vals|)
  {
    hide Portion;
    if vals != [] {
      var init, v := vals[..|vals| - 1], vals[|vals| - 1];
      PortionsLowerBound(amount, init, total);
      LastPortion(amount, vals, total);
      PortionBounds(amount, v.power, total);
      var p: nat, rest := Portion(amount, v.power, total), SumOf(Portions(amount, init, total));
      Distribute(total, p, 1);
      Distribute(amount, TotalPower(init), v.power);
      Distribute(total, rest + |init|, p + 1);
      assert rest + |init| + (p + 1) == SumOf(Portions(amount, vals, total)) + |vals|;
    }
  }

  lemma RemainderBound(amount: u64, vals: seq<Validator>, total: u64)
    requires total > 0 && total == TotalPower(vals) && vals != [] && NoOverflow(amount, vals)
    ensures amount < SumOf(Portions(amount, vals, total)) + |vals|
  {
    hide Portions, SumOf, TotalPower, NoOverflow;
    PortionsLowerBound(amount, vals, total);
    MulLess(total, amount, SumOf(Portions(amount, vals, total)) + |vals|);
  }

  lemma PortionsOrdered(amount: u64, a: u64, b: u64, total: u64)
    requires total > 0 && a >= b && amount * a < U64
    ensures Portion(amount, a, total) >= Portion(amount, b, total)
  {
    MulMonotone(amount, b, a);
    DivMonotone(amount * b, amount * a, total);
  }

  /** Exact floors, a remainder for the first that is smaller than their number, and more power never means less pay. */
  ghost predicate Fair(amount: u64, vals: seq<Validator>, total: u64, paid: seq<u64>)
    requires total > 0
  {
    && |paid| == |vals|
    && (forall i :: 0 < i < |vals| ==> paid[i] == ExactShare(amount, vals[i].power, total))
    && (vals != [] ==> 0 <= paid[0] - ExactShare(amount, vals[0].power, total) < |vals|)
    && (forall i, j :: 0 <= i < j < |vals| ==> paid[i] >= paid[j])
  }

  /**
   While products fit: everyone but the first gets the exact floor, the first gets its floor and
   a remainder smaller than the number of validators, and more power never means less pay.
   */
  lemma PayoutsFair(amount: u64, vals: seq<Validator>, total: u64)
    requires total > 0 && total == TotalPower(vals) && vals != [] && NoOverflow(amount, vals)
    requires forall i, j :: 0 <= i < j < |vals| ==> vals[i].power >= vals[j].power
    ensures Fair(amount, vals, total, Payouts(amount, vals, total))
  {
    hide Payouts, ExactShare, SumOf, TotalPower;
    var s, paid := Portions(amount, vals, total), Payouts(amount, vals, total);
    PayoutsAre(amount, vals, total);
    forall i, j | 0 <= i < j < |vals| ensures s[i] >= s[j] {
      PortionsOrdered(amount, vals[i].power, vals[j].power, total);
    }
  }

  /** The portions are exact, and the first payout adds the remainder to its portion. */
  lemma PayoutsAre(amount: u64, vals: seq<Validator>, total: u64)
    requires total > 0 && total == TotalPower(vals) && vals != [] && NoOverflow(amount, vals)
    ensures var s, paid := Portions(amount, vals, total), Payouts(amount, vals, total);
            && (forall i :: 0 <= i < |vals| ==> s[i] == ExactShare(amount, vals[i].power, total))
            && paid == s[0 := paid[0]] && s[0] <= paid[0] < s[0] + |vals|
  {
    hide Portion, ExactShare, SumOf, TotalPower;
    var s := Portions(amount, vals, total);
    forall i | 0 <= i < |vals| ensures s[i] == ExactShare(amount, vals[i].power, total) {
      PortionExact(amount, vals[i].power, total);
    }
    SumWithinPool(amount, vals, total);
    RemainderBound(amount, vals, total);
    SumContains(s, 0);
  }
}

/** Weighted round-robin proposer selection. */
module Proposer {
  import opened Basics
  import opened Arithmetic
  import opened Validators

  /** Power of the first i validators. */
  function Below(vals: seq<Validator>, i: nat): nat
    requires i <= |vals|
  {
    TotalPower(vals[..i])
  }

  lemma BelowNext(vals: seq<Validator>, i: nat)
    requires i < |vals|
    ensures Below(vals, i + 1) == Below(vals, i) + vals[i].power
  {
    assert vals[..i + 1][..i] == vals[..i];
  }

  lemma {:induction false} BelowMonotone(vals: seq<Validator>, i: nat, j: nat)
    requires i <= j <= |vals|
    ensures Below(vals, i) <= Below(vals, j)
    decreases j - i
  {
    if i < j {
      BelowMonotone(vals, i, j - 1);
      BelowNext(vals, j - 1);
    }
  }

  /** The validator in whose share of the power range an offset lies. */
  function Slot(vals: seq<Validator>, offset: nat): (k: nat)
    requires offset < TotalPower(vals)
    ensures k < |vals| && Below(vals, k) <= offset < Below(vals, k + 1)
  {
    var n := |vals| - 1;
    assert vals[..n + 1] == vals;
    if TotalPower(vals[..n]) <= offset then n else
      var k := Slot(vals[..n], offset);
      assert vals[..n][..k] == vals[..k] && vals[..n][..k + 1] == vals[..k + 1];
      k
  }

  lemma SlotUnique(vals: seq<Validator>, offset: nat, k: nat)
    requires offset < TotalPower(vals) && k < |vals|
    ensures Slot(vals, offset) == k <==> Below(vals, k) <= offset < Below(vals, k + 1)
  {
    var s := Slot(vals, offset);
    if s < k {
      BelowMonotone(vals, s + 1, k);
    } else if k < s {
      BelowMonotone(vals, k + 1, s);
    }
  }

  function ProposerAt(vals: seq<Validator>, height: nat): Address
    requires TotalPower(vals) > 0
  {
    vals[Slot(vals, height % TotalPower(vals))].consensusID
  }

  /** The proposer of a height is the validator whose share of the power, laid end to end, holds height mod total. */
  lemma ProposerOwns(vals: seq<Validator>, height: nat, k: nat)
    requires k < |vals| && TotalPower(vals) > 0
    requires TotalPower(vals[..k]) <= height % TotalPower(vals) < TotalPower(vals[..k]) + vals[k].power
    ensures ProposerAt(vals, height) == vals[k].consensusID
  {
    BelowNext(vals, k);
    SlotUnique(vals, height % TotalPower(vals), k);
  }

  datatype Choice = RoundRobin | Weighted | LastResort | Fallback

  lemma BelowEnds(vals: seq<Validator>)
    ensures Below(vals, 0) == 0 == Wrap64(Below(vals, 0))
    ensures Below(vals, |vals|) == TotalPower(vals)
  {
    assert vals[..|vals|] == vals;
  }

  lemma WrappedBelow(vals: seq<Validator>, i: nat)
    requires i < |vals|
    ensures Wrap64(Wrap64(Below(vals, i)) + vals[i].power) == Wrap64(Below(vals, i + 1))
  {
    hide Wrap64, Below;
    BelowNext(vals, i);
    WrapAdd(Below(vals, i), vals[i].power);
  }

  method SumPowers(vals: seq<Validator>) returns (total: u64)
    ensures total == Wrap64(TotalPower(vals))
  {
    hide Wrap64, TotalPower, Below;
    BelowEnds(vals);
    total := 0;
    for i := 0 to |vals|
      invariant total == Wrap64(Below(vals, i))
    {
      WrappedBelow(vals, i);
      total := Wrap64(total + vals[i].power);
    }
  }

  /**
   The scan for an offset. Neither of its two safety exits is ever taken, for any powers; and it
   stops at the validator whose share the offset lies in, provided the powers add up in 64 bits.
   */
  method Locate(vals: seq<Validator>, total: u64, offset: u64) returns (pick: nat, how: Choice)
    requires total == Wrap64(TotalPower(vals)) && offset < total
    ensures pick < |vals| && how == Weighted
    ensures TotalPower(vals) < U64 ==> offset < TotalPower(vals) && pick == Slot(vals, offset)
  {
    hide Wrap64, TotalPower, Below, Slot;
    BelowEnds(vals);
    var cumulative: u64 := 0;
    var i: nat := 0;
    pick, how := |vals| - 1, Fallback;
    while i < |vals|
      invariant 0 <= i <= |vals| && pick == |vals| - 1 && how == Fallback
      invariant cumulative == Wrap64(Below(vals, i)) && cumulative <= offset
    {
      WrappedBelow(vals, i);
      cumulative := Wrap64(cumulative + vals[i].power);
      if offset < cumulative {
        pick, how := i, Weighted;
        break;
      }
      if i == |vals| - 1 && offset >= Wrap64(cumulative - total) {
        pick, how := i, LastResort;
        break;
      }
      i := i + 1;
    }
    TrueTotal(vals);
    if TotalPower(vals) < U64 {
      PickIsSlot(vals, offset, pick);
    }
  }

  lemma TrueTotal(vals: seq<Validator>)
    ensures TotalPower(vals) < U64 ==> Wrap64(TotalPower(vals)) == TotalPower(vals)
  {
  }

  method WeightedProposerAtHeight(height: u64, vals: seq<Validator>) returns (id: Address, how: Choice)
    requires vals != []
    ensures how == if Wrap64(TotalPower(vals)) == 0 then RoundRobin else Weighted
    ensures how == RoundRobin ==> id == vals[height % |vals|].consensusID
    ensures how == Weighted && TotalPower(vals) < U64 ==> TotalPower(vals) > 0 && id == ProposerAt(vals, height)
  {
    hide Wrap64, TotalPower, Slot;
    var total := SumPowers(vals);
    if total == 0 {
      return vals[height % |vals|].consensusID, RoundRobin;
    }
    TrueTotal(vals);
    var pick;
    pick, how := Locate(vals, total, height % total);
    id := vals[pick].consensusID;
  }

  lemma PickIsSlot(vals: seq<Validator>, offset: nat, k: nat)
    requires TotalPower(vals) < U64 && offset < TotalPower(vals) && k < |vals|
    ensures Wrap64(Below(vals, k)) <= offset < Wrap64(Below(vals, k + 1)) ==> Slot(vals, offset) == k
  {
    assert vals[..|vals|] == vals;
    BelowMonotone(vals, k, |vals|);
    BelowMonotone(vals, k + 1, |vals|);
    SlotUnique(vals, offset, k);
  }

  // ----- fairness -----

  /** How often `id` proposes in the n heights from `start`. */
  ghost function Turns(vals: seq<Validator>, start: nat, n: nat, id: Address): nat
    requires TotalPower(vals) > 0
  {
    if n == 0 then 0 else Turns(vals, start, n - 1, id) + if ProposerAt(vals, start + n - 1) == id then 1 else 0
  }

  ghost function Min(a: int, b: int): int { if a < b then a else b }

  lemma TurnInFirstRound(vals: seq<Validator>, h: nat, k: nat)
    requires DistinctIDs(vals) && k < |vals| && h < TotalPower(vals)
    ensures ProposerAt(vals, h) == vals[k].consensusID <==> Below(vals, k) <= h < Below(vals, k) + vals[k].power
  {
    hide Below, TotalPower;
    SmallQuotient(h, TotalPower(vals));
    SlotUnique(vals, h, k);
    BelowNext(vals, k);
  }

  /** From height 0, a validator's turns fill up as the heights pass through its share. */
  lemma {:induction false} TurnsFromZero(vals: seq<Validator>, n: nat, k: nat)
    requires DistinctIDs(vals) && k < |vals| && n <= TotalPower(vals) && TotalPower(vals) > 0
    ensures Turns(vals, 0, n, vals[k].consensusID) ==
            if n <= Below(vals, k) then 0 else Min(n - Below(vals, k), vals[k].power)
  {
    hide ProposerAt, Below, TotalPower, DistinctIDs;
    if n > 0 {
      TurnsFromZero(vals, n - 1, k);
      TurnInFirstRound(vals, n - 1, k);
    }
  }

  lemma FirstRound(vals: seq<Validator>, k: nat)
    requires DistinctIDs(vals) && k < |vals| && TotalPower(vals) > 0
    ensures Turns(vals, 0, TotalPower(vals), vals[k].consensusID) == vals[k].power
  {
    hide ProposerAt, TotalPower, DistinctIDs, Turns;
    TurnsFromZero(vals, TotalPower(vals), k);
    BelowNext(vals, k);
    BelowMonotone(vals, k + 1, |vals|);
    assert vals[..|vals|] == vals;
  }

  /** Sliding a window by one height gains its new last turn and loses its old first one. */
  lemma {:induction false} TurnsSlide(vals: seq<Validator>, start: nat, n: nat, id: Address)
    requires TotalPower(vals) > 0
    ensures Turns(vals, start + 1, n, id) + (if ProposerAt(vals, start) == id then 1 else 0) ==
            Turns(vals, start, n, id) + (if ProposerAt(vals, start + n) == id then 1 else 0)
  {
    hide ProposerAt, TotalPower;
    if n > 0 {
      TurnsSlide(vals, start, n - 1, id);
    }
  }

  lemma RoundRepeats(vals: seq<Validator>, h: nat)
    requires TotalPower(vals) > 0
    ensures ProposerAt(vals, h + TotalPower(vals)) == ProposerAt(vals, h)
  {
    hide TotalPower, Slot;
    var t := TotalPower(vals);
    Distribute(t, h / t, 1);
    QuotientUnique(h + t, t, h / t + 1, h % t);
  }

  /** In any T consecutive heights, T the total power, each validator proposes exactly `power` times. */
  lemma {:induction false} ProposerFairness(vals: seq<Validator>, start: nat, k: nat)
    requires DistinctIDs(vals) && k < |vals| && TotalPower(vals) > 0
    ensures Turns(vals, start, TotalPower(vals), vals[k].consensusID) == vals[k].power
  {
    hide ProposerAt, TotalPower, DistinctIDs, Turns;
    if start == 0 {
      FirstRound(vals, k);
    } else {
      ProposerFairness(vals, start - 1, k);
      TurnsSlide(vals, start - 1, TotalPower(vals), vals[k].consensusID);
      RoundRepeats(vals, start - 1);
    }
  }
}

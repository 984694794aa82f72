/** Issuance, rewards, fees, and the block hooks that drive epochs. */
module Economy {
  import opened Basics
  import opened Arithmetic
  import opened MapSum
  import opened Validators
  import opened Accounts
  import opened Rewards
  import opened Ledger
  import opened Registry
  import opened Epochs

  const INFLATION_BP: nat := 500
  const BP_DENOMINATOR: nat := 10_000
  const SECONDS_PER_YEAR: nat := 31_536_000
  const BLOCK_TIME_SEC: nat := 1
  const TREASURY: Address := ZERO_ADDRESS

  // ----- crediting accounts -----

  /** AddBalance on an account that is created when missing. */
  function Credit(accounts: map<Address, Account>, a: Address, amount: u64): Option<map<Address, Account>>
  {
    var acc := if a in accounts then accounts[a] else NewAccount(a, ZERO_KEY);
    if acc.balance + amount >= U128 then None
    else Some(accounts[a := acc.(balance := acc.balance + amount)])
  }

  datatype Credited = Credited(accounts: map<Address, Account>, ok: bool)

  /** The payment loop over the first n recipients: zero amounts are skipped, an overflow stops it. */
  function CreditAll(accounts: map<Address, Account>, tos: seq<Address>, amounts: seq<u64>, n: nat): Credited
    requires |tos| == |amounts| && n <= |tos|
  {
    if n == 0 then Credited(accounts, true) else
      var c := CreditAll(accounts, tos, amounts, n - 1);
      if !c.ok || amounts[n - 1] == 0 then c else
        var paid := Credit(c.accounts, tos[n - 1], amounts[n - 1]);
        if paid.None? then Credited(c.accounts, false) else Credited(paid.value, true)
  }

  /** After an overflow nothing more is paid. */
  lemma {:induction false} PaymentStops(accounts: map<Address, Account>, tos: seq<Address>, amounts: seq<u64>, j: nat, k: nat)
    requires |tos| == |amounts| && j <= k <= |tos| && !CreditAll(accounts, tos, amounts, j).ok
    ensures CreditAll(accounts, tos, amounts, k) == CreditAll(accounts, tos, amounts, j)
    decreases k
  {
    hide Credit;
    if j < k { PaymentStops(accounts, tos, amounts, j, k - 1); }
  }

  /** What the first n payments come to for a. */
  ghost function DueTo(tos: seq<Address>, amounts: seq<u64>, n: nat, a: Address): nat
    requires |tos| == |amounts| && n <= |tos|
  {
    if n == 0 then 0 else DueTo(tos, amounts, n - 1, a) + if tos[n - 1] == a then amounts[n - 1] else 0
  }

  lemma CreditOne(accounts: map<Address, Account>, a: Address, amount: u64)
    requires Held(accounts) + amount < U128
    ensures Credit(accounts, a, amount).Some?
    ensures Held(Credit(accounts, a, amount).value) == Held(accounts) + amount
    ensures forall b :: BalanceAt(Credit(accounts, a, amount).value, b) ==
                        BalanceAt(accounts, b) + if b == a then amount else 0
  {
    hide Held;
    var acc := if a in accounts then accounts[a] else NewAccount(a, ZERO_KEY);
    HeldAfterWrite(accounts, a, acc);
    HeldAfterWrite(accounts, a, acc.(balance := acc.balance + amount));
  }

  /** Payments reach exactly those they are meant for and add up. */
  lemma {:induction false} CreditAllPays(accounts: map<Address, Account>, tos: seq<Address>, amounts: seq<u64>, n: nat)
    requires |tos| == |amounts| && n <= |tos| && Held(accounts) + SumOf(amounts[..n]) < U128
    ensures CreditAll(accounts, tos, amounts, n).ok
    ensures Held(CreditAll(accounts, tos, amounts, n).accounts) == Held(accounts) + SumOf(amounts[..n])
    ensures forall a :: BalanceAt(CreditAll(accounts, tos, amounts, n).accounts, a) ==
                        BalanceAt(accounts, a) + DueTo(tos, amounts, n, a)
  {
    hide Held, Credit, BalanceAt;
    if n > 0 {
      RunningSum(amounts, n - 1);
      CreditAllPays(accounts, tos, amounts, n - 1);
      if amounts[n - 1] > 0 {
        CreditOne(CreditAll(accounts, tos, amounts, n - 1).accounts, tos[n - 1], amounts[n - 1]);
      }
    }
  }

  /** Payments change balances and nothing else of an account; one that was missing starts out empty. */
  lemma {:induction false} CreditAllOnly(accounts: map<Address, Account>, tos: seq<Address>, amounts: seq<u64>, n: nat, a: Address)
    requires |tos| == |amounts| && n <= |tos|
    ensures var after := CreditAll(accounts, tos, amounts, n).accounts;
            && (a in accounts ==> a in after && after[a] == accounts[a].(balance := after[a].balance))
            && (a in after && a !in accounts ==> after[a] == Account(a, after[a].balance, 0, ZERO_HASH, ZERO_HASH, 0, ZERO_KEY))
  {
    hide Zeros;
    if n > 0 { CreditAllOnly(accounts, tos, amounts, n - 1, a); }
  }

  /** After the payments exactly those have an account that had one or were paid something. */
  lemma {:induction false} CreditAllOpens(accounts: map<Address, Account>, tos: seq<Address>, amounts: seq<u64>, n: nat, a: Address)
    requires |tos| == |amounts| && n <= |tos| && CreditAll(accounts, tos, amounts, n).ok
    ensures a in CreditAll(accounts, tos, amounts, n).accounts <==> a in accounts || DueTo(tos, amounts, n, a) > 0
  {
    if n > 0 {
      CreditAllOpens(accounts, tos, amounts, n - 1, a);
    }
  }

  // ----- issuance -----

  function EpochsPerYear(blockTimeSec: u64, blocksPerEpoch: u64): (r: u64)
    requires Wrap64(blockTimeSec * blocksPerEpoch) != 0
    ensures r <= SECONDS_PER_YEAR
  {
    BiggerDivisor(SECONDS_PER_YEAR, 1, Wrap64(blockTimeSec * blocksPerEpoch));
    SECONDS_PER_YEAR / Wrap64(blockTimeSec * blocksPerEpoch)
  }

  /** Five per cent a year, in whole tokens per epoch. */
  function PerEpochIssuance(totalSupply: u64, blockTimeSec: u64, blocksPerEpoch: u64): u64
    requires Wrap64(blockTimeSec * blocksPerEpoch) != 0
  {
    var epochs := EpochsPerYear(blockTimeSec, blocksPerEpoch);
    if epochs == 0 then 0 else
      var result := BigDiv(totalSupply * INFLATION_BP, Wrap64(epochs * BP_DENOMINATOR));
      if result < U64 then result else 0
  }

  /** math/big division of non-negative numbers. */
  function BigDiv(x: nat, d: nat): nat
    requires d > 0
  {
    x / d
  }

  function Issuance(l: Ledger): u64
  {
    PerEpochIssuance(l.supply.total, BLOCK_TIME_SEC, l.blocksPerEpoch)
  }

  /** The overflow exit of PerEpochIssuance is never taken, and no epoch mints over a twentieth. */
  lemma IssuanceBound(total: u64, bpe: pos64)
    ensures PerEpochIssuance(total, BLOCK_TIME_SEC, bpe) <= total / 20
    ensures var epochs := EpochsPerYear(BLOCK_TIME_SEC, bpe);
            epochs > 0 ==> PerEpochIssuance(total, BLOCK_TIME_SEC, bpe) == total * 500 / (epochs * 10000)
  {
    var epochs := EpochsPerYear(BLOCK_TIME_SEC, bpe);
    assert epochs <= SECONDS_PER_YEAR;
    if epochs > 0 {
      var d := epochs * 10000;
      assert Wrap64(epochs * BP_DENOMINATOR) == d;
      BiggerDivisor(total * 500, 10000, d);
      assert total * 500 / 10000 <= total / 20;
    }
  }

  lemma IssuanceMonotone(a: u64, b: u64, bpe: pos64)
    requires a <= b
    ensures PerEpochIssuance(a, BLOCK_TIME_SEC, bpe) <= PerEpochIssuance(b, BLOCK_TIME_SEC, bpe)
  {
    IssuanceBound(a, bpe);
    IssuanceBound(b, bpe);
    var epochs := EpochsPerYear(BLOCK_TIME_SEC, bpe);
    if epochs > 0 {
      DivMonotone(a * 500, b * 500, epochs * 10000);
    }
  }

  function TreasuryCut(issuance: u64): u64 { Wrap64(issuance * 10) / 100 }
  function ValidatorCut(issuance: u64): u64 { Wrap64(issuance * 90) / 100 }

  /** The two cuts never exceed what was issued; the rest is issued to no one. */
  lemma CutsWithinIssuance(issuance: u64)
    ensures TreasuryCut(issuance) + ValidatorCut(issuance) <= issuance
  {
    assert Wrap64(issuance * 10) <= issuance * 10;
    assert Wrap64(issuance * 90) <= issuance * 90;
  }

  /** The cuts are exact as long as the products fit in 64 bits. */
  lemma TreasuryCutExact(issuance: u64)
    ensures TreasuryCut(issuance) == issuance * 10 / 100 <==> issuance * 10 < U64
  {
    WrapBound(issuance * 10);
    if issuance * 10 >= U64 { QuotientGap(Wrap64(issuance * 10), issuance * 10, 100); }
  }

  lemma ValidatorCutExact(issuance: u64)
    ensures ValidatorCut(issuance) == issuance * 90 / 100 <==> issuance * 90 < U64
  {
    WrapBound(issuance * 90);
    if issuance * 90 >= U64 { QuotientGap(Wrap64(issuance * 90), issuance * 90, 100); }
  }

  /** Then at most one token of the issuance is paid to no one. */
  lemma CutsExhaust(issuance: u64)
    requires issuance * 90 < U64
    ensures issuance - 1 <= TreasuryCut(issuance) + ValidatorCut(issuance) <= issuance
  {
    TreasuryCutExact(issuance);
    ValidatorCutExact(issuance);
    CutsWithinIssuance(issuance);
  }

  /** An issuance of 158548 splits into 15854 and 142693; one of 2^63 leaves the validators nothing. */
  lemma CutFigures()
    ensures TreasuryCut(158548) == 15854 && ValidatorCut(158548) == 142693
    ensures ValidatorCut(0x8000_0000_0000_0000) == 0 == TreasuryCut(0x8000_0000_0000_0000)
  {
  }

  function CreditTreasury(l: Ledger, amount: u64): Step
  {
    if amount == 0 then Done(l) else
      var l1 := l.(supply := l.supply.(treasury := Wrap64(l.supply.treasury + amount)));
      var paid := Credit(l1.accounts, TREASURY, amount);
      if paid.None? then Failed(l1, AmountOverflow) else Done(l1.(accounts := paid.value))
  }

  function IssueEpochTokens(l: Ledger, epoch: u64): Step
  {
    var issuance := Issuance(l);
    if issuance == 0 then Done(l) else
      var s := CreditTreasury(l, TreasuryCut(issuance));
      if s.Failed? then s else
        Done(s.ledger.(
          supply := s.ledger.supply.(total := Wrap64(l.supply.total + issuance),
                                     issued := Wrap64(l.supply.issued + issuance)),
          issuance := l.issuance[epoch := issuance],
          pools := l.pools[epoch := ValidatorCut(issuance)]))
  }

  // ----- rewards -----

  function RewardAddress(v: Validator): Address
  {
    if v.reward == ZERO_ADDRESS then v.operator else v.reward
  }

  function RewardAddresses(vals: seq<Validator>): (s: seq<Address>)
    ensures |s| == |vals|
  {
    seq(|vals|, i requires 0 <= i < |vals| => RewardAddress(vals[i]))
  }

  function OperatorAddresses(vals: seq<Validator>): (s: seq<Address>)
    ensures |s| == |vals|
  {
    seq(|vals|, i requires 0 <= i < |vals| => vals[i].operator)
  }

  /** The pool and snapshot that completing `epoch` pays out from, if there is anything to pay. */
  function RewardPool(l: Ledger, epoch: u64): (p: u64)
    ensures p > 0 ==>
              && Wrap64(epoch - 1) in l.snapshots
              && l.snapshots[Wrap64(epoch - 1)].validators != []
              && l.snapshots[Wrap64(epoch - 1)].totalPower > 0
  {
    var prior := Wrap64(epoch - 1);
    if epoch in l.pools && prior != 0 && prior in l.snapshots
       && l.snapshots[prior].validators != [] && l.snapshots[prior].totalPower > 0
    then l.pools[epoch] else 0
  }

  /** An epoch is paid out exactly if it is not the first and its pool and the snapshot before it are worth something. */
  lemma PaidOutExactly(l: Ledger, epoch: u64)
    ensures RewardPool(l, epoch) > 0 <==>
              && epoch != 1 && epoch in l.pools && l.pools[epoch] > 0
              && exists prior :: prior in l.snapshots && (prior as int + 1) % U64 == epoch
                   && l.snapshots[prior].validators != [] && l.snapshots[prior].totalPower > 0
  {
    var prior: int := Wrap64(epoch - 1);
    assert (prior + 1) % U64 == epoch;
  }

  function DistributeValidatorRewards(l: Ledger, epoch: u64): Step
  {
    var pool := RewardPool(l, epoch);
    if pool == 0 then Done(l) else
      var snap := l.snapshots[Wrap64(epoch - 1)];
      var c := CreditAll(l.accounts, RewardAddresses(snap.validators),
                         Payouts(pool, snap.validators, snap.totalPower), |snap.validators|);
      if c.ok then Done(l.(accounts := c.accounts)) else Failed(l.(accounts := c.accounts), AmountOverflow)
  }

  /** 70% of the fees, in 64-bit arithmetic. */
  function FeeShare(fees: u64): u64 { Wrap64(fees * 70) / 100 }

  /** What the active validators are paid out of the fees of a block. */
  ghost function FeesPaid(l: Ledger, fees: u64): u64
    requires Filed(l.validators)
  {
    var active := ActiveList(l.validators);
    if active == [] || Wrap64(TotalPower(active)) == 0 then 0 else FeeShare(fees)
  }

  /** FinalizeBlock and DistributeRewards: the burn and treasury shares are computed but not booked. */
  ghost function FinalizeBlock(l: Ledger, fees: u64): Step
    requires Filed(l.validators)
  {
    if FeesPaid(l, fees) == 0 then Done(l) else
      var active := ActiveList(l.validators);
      var c := CreditAll(l.accounts, OperatorAddresses(active),
                         Payouts(FeeShare(fees), active, Wrap64(TotalPower(active))), |active|);
      if c.ok then Done(l.(accounts := c.accounts)) else Failed(l.(accounts := c.accounts), AmountOverflow)
  }

  // ----- BeginBlock -----

  /** Inflation, rewards and the transition, at the last block of an epoch. */
  function CloseEpoch(l: Ledger, height: u64): Step
  {
    var completed := EpochAtHeight(l.blocksPerEpoch, height);
    var s := IssueEpochTokens(l, completed);
    if s.Failed? then s else
      var t := DistributeValidatorRewards(s.ledger, completed);
      if t.Failed? then t else ProcessEpochTransition(t.ledger, height)
  }

  ghost function BeginBlock(l: Ledger, height: u64, hash: Bytes -> Hash): Step
    requires Inv(l)
  {
    if height == 0 then Done(l) else
      var s := if IsEpochBoundary(l.blocksPerEpoch, height) then CloseEpoch(l, height) else Done(l);
      CloseKeepsFiled(l, height);
      if s.Failed? then s
      else if s.ledger.epoch in s.ledger.snapshots then s
      else Done(CreateSnapshot(s.ledger, s.ledger.epoch, hash))
  }

  /** Issuing and rewarding touch accounts and supply figures only. */
  lemma TreasuryFrame(l: Ledger, amount: u64)
    ensures var p := CreditTreasury(l, amount).ledger;
            && p == l.(accounts := p.accounts, supply := p.supply)
            && p.supply == l.supply.(treasury := p.supply.treasury)
  {
    hide Credit, Wrap64;
  }

  lemma IssueFrame(l: Ledger, epoch: u64)
    ensures var p := IssueEpochTokens(l, epoch).ledger;
            p == l.(accounts := p.accounts, supply := p.supply, issuance := p.issuance, pools := p.pools)
  {
    hide CreditTreasury, Issuance, Wrap64, TreasuryCut, ValidatorCut;
    TreasuryFrame(l, TreasuryCut(Issuance(l)));
  }

  lemma RewardFrame(l: Ledger, epoch: u64)
    ensures var p := DistributeValidatorRewards(l, epoch).ledger;
            p == l.(accounts := p.accounts)
  {
    hide CreditAll, Payouts, RewardAddresses;
  }

  lemma CloseKeepsFiled(l: Ledger, height: u64)
    requires Inv(l)
    ensures var s := CloseEpoch(l, height);
            Inv(s.ledger) && FollowsTable(l.validators, s.ledger.validators) && Filed(s.ledger.validators)
    ensures Filed(l.validators)
  {
    hide Consistent, IssueEpochTokens, DistributeValidatorRewards, ProcessEpochTransition, FollowsTable;
    var e := EpochAtHeight(l.blocksPerEpoch, height);
    var s := IssueEpochTokens(l, e);
    IssueFrame(l, e);
    RewardFrame(s.ledger, e);
    SameFollowsTable(l.validators);
    TransitionMeaning(DistributeValidatorRewards(s.ledger, e).ledger, height);
    InvIsFiled(l);
    InvIsFiled(CloseEpoch(l, height).ledger);
  }

  lemma InvIsFiled(l: Ledger)
    requires Inv(l)
    ensures Filed(l.validators)
  {
  }

  // ----- what issuing means -----

  /**
   A year has E = 31536000 / blocksPerEpoch epochs, with one second to a block. Each of them issues the largest
   amount that, E times over, stays within a twentieth of the supply; epochs of more than a year issue nothing.
   */
  lemma IssuanceExactly(total: u64, bpe: pos64)
    ensures var e, p := 31536000 / bpe, PerEpochIssuance(total, BLOCK_TIME_SEC, bpe);
            if e == 0 then p == 0 else 20 * e * p <= total < 20 * e * p + 20 * e
  {
    hide PerEpochIssuance;
    IssuanceBound(total, bpe);
    NothingInYears(total, bpe);
    var e := 31536000 / bpe;
    if e > 0 {
      FloorBounds(total, 20 * e);
      Scaled(total, 20 * e);
    }
  }

  lemma NothingInYears(total: u64, bpe: pos64)
    ensures EpochsPerYear(BLOCK_TIME_SEC, bpe) == 31536000 / bpe
    ensures 31536000 / bpe == 0 ==> PerEpochIssuance(total, BLOCK_TIME_SEC, bpe) == 0
  {
    assert Wrap64(BLOCK_TIME_SEC * bpe) == bpe;
  }

  lemma Scaled(x: nat, d: nat)
    requires d > 0
    ensures x * 500 / (500 * d) == x / d
  {
    var q, r := x / d, x % d;
    assert x == d * q + r;
    Distribute(500, d * q, r);
    assert 500 * (d * q) == 500 * d * q;
    QuotientUnique(x * 500, 500 * d, q, 500 * r);
  }

  /** One account gained the amount, and no other balance changed. */
  ghost predicate Gained(before: map<Address, Account>, after: map<Address, Account>, a: Address, amount: nat)
  {
    forall b: Address :: BalanceAt(after, b) == BalanceAt(before, b) + if b == a then amount else 0
  }

  lemma CreditGains(accounts: map<Address, Account>, a: Address, amount: u64)
    requires Held(accounts) + amount < U128
    ensures Credit(accounts, a, amount).Some? && Gained(accounts, Credit(accounts, a, amount).value, a, amount)
  {
    hide Credit, Held, BalanceAt;
    CreditOne(accounts, a, amount);
  }

  /** What issuing `p` tokens for an epoch changes: the treasury gets a tenth, the pool nine tenths, and both are booked. */
  ghost predicate Issued(l: Ledger, l': Ledger, epoch: u64, p: u64)
  {
    && l' == l.(accounts := l'.accounts, supply := l'.supply, issuance := l'.issuance, pools := l'.pools)
    && Gained(l.accounts, l'.accounts, ZERO_ADDRESS, p * 10 / 100)
    && l'.supply.treasury == Wrap64(l.supply.treasury + p * 10 / 100)
    && l'.supply.total == Wrap64(l.supply.total + p) && l'.supply.issued == Wrap64(l.supply.issued + p)
    && l'.issuance == l.issuance[epoch := p] && l'.pools == l.pools[epoch := p * 90 / 100]
  }

  lemma NothingGained(accounts: map<Address, Account>, a: Address)
    ensures Gained(accounts, accounts, a, 0)
  {
  }

  lemma TreasuryGains(l: Ledger, amount: u64)
    requires Held(l.accounts) + amount < U128
    ensures CreditTreasury(l, amount).Done?
    ensures Gained(l.accounts, CreditTreasury(l, amount).ledger.accounts, ZERO_ADDRESS, amount)
  {
    hide Credit, Held, Gained, Zeros, Wrap64;
    if amount == 0 {
      NothingGained(l.accounts, ZERO_ADDRESS);
    } else {
      CreditGains(l.accounts, ZERO_ADDRESS, amount);
    }
  }

  lemma TreasuryBooks(l: Ledger, amount: u64)
    ensures CreditTreasury(l, amount).ledger.supply == l.supply.(treasury := Wrap64(l.supply.treasury + amount))
  {
    hide Credit, Zeros;
  }

  lemma IssueMeans(l: Ledger, epoch: u64)
    requires Held(l.accounts) + Issuance(l) < U128 && Issuance(l) * 90 < U64
    ensures var s := IssueEpochTokens(l, epoch);
            && s.Done?
            && if Issuance(l) == 0 then s.ledger == l else Issued(l, s.ledger, epoch, Issuance(l))
  {
    hide Credit, Held, Issuance, TreasuryCut, ValidatorCut, CreditTreasury, Wrap64, Gained, Zeros, Repeat;
    var p := Issuance(l);
    TreasuryCutExact(p);
    ValidatorCutExact(p);
    if p > 0 {
      TreasuryGains(l, p * 10 / 100);
      TreasuryBooks(l, p * 10 / 100);
      TreasuryFrame(l, p * 10 / 100);
    }
  }
}

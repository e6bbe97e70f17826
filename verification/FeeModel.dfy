/** The fee split of one wallet's gross share: top-line fee, NACHO rebate, net payout. */
module FeeModel {
  import opened Wrappers
  import opened Sums

  const I64_MAX: int := 0x7FFF_FFFF_FFFF_FFFF
  const MAX_TOPLINE_BPS: nat := 1_000
  const STANDARD_REBATE_BPS: nat := 3_300
  const ELITE_REBATE_BPS: nat := 10_000
  const BPS: nat := 10_000

  datatype WalletTier = Standard | Elite

  datatype AllocationError =
    | NegativeGross(gross: int)
    | Overflow(stage: string)
    | Unbalanced(allocation: Allocation)

  datatype Allocation = Allocation(
    gross: int, poolFee: int, nachoAccrual: int, netPayout: int,
    toplineBps: nat, rebateBps: nat, tier: WalletTier)
  {
    predicate IsBalanced() {
      gross == poolFee + nachoAccrual + netPayout
    }
  }

  datatype FeeConfig = FeeConfig(toplineBps: nat) {
    predicate Valid() {
      toplineBps <= MAX_TOPLINE_BPS
    }
  }

  function NewFeeConfig(toplineBps: nat): (r: Result<FeeConfig, string>)
    ensures r.Ok? <==> toplineBps <= 1_000
    ensures r.Ok? ==> r.value.Valid() && r.value.toplineBps == toplineBps
  {
    if toplineBps > MAX_TOPLINE_BPS then Err("topline_bps exceeds MAX_TOPLINE_BPS")
    else Ok(FeeConfig(toplineBps))
  }

  function RebateBps(tier: WalletTier): nat {
    match tier
    case Standard => STANDARD_REBATE_BPS
    case Elite => ELITE_REBATE_BPS
  }

  // `i64::checked_mul` on operands that are never negative here.
  function CheckedMul(a: nat, b: nat): Option<nat> {
    if a * b > I64_MAX then None else Some(a * b)
  }

  function ComputeAllocation(config: FeeConfig, gross: int, tier: WalletTier): Result<Allocation, AllocationError> {
    if gross < 0 then Err(NegativeGross(gross)) else
    var rebate := RebateBps(tier);
    match CheckedMul(gross, config.toplineBps)
    case None => Err(Overflow("fee_share"))
    case Some(scaled) =>
      var feeShare := scaled / BPS;
      match CheckedMul(feeShare, rebate)
      case None => Err(Overflow("nacho_accrual"))
      case Some(rebated) =>
        var nachoAccrual := rebated / BPS;
        var allocation := Allocation(gross, feeShare - nachoAccrual, nachoAccrual, gross - feeShare,
                                     config.toplineBps, rebate, tier);
        if allocation.IsBalanced() then Ok(allocation) else Err(Unbalanced(allocation))
  }

  // What the split means: all parts are non-negative and add up to the gross, the fee taken off the
  // top and the rebate are the exact products rounded down, so the top-line remainder stays with the
  // miner and only the rebate remainder goes to the pool. The rebate is the whole fee for an elite wallet
  // and 33 percent of it for any other.
  predicate ExactSplit(config: FeeConfig, gross: int, tier: WalletTier, a: Allocation) {
    var fee, rebate := a.poolFee + a.nachoAccrual, if tier.Elite? then 10_000 else 3_300;
    && a.gross == gross && a.tier == tier
    && a.toplineBps == config.toplineBps && a.rebateBps == rebate
    && a.poolFee >= 0 && a.nachoAccrual >= 0 && a.netPayout >= 0
    && a.gross == a.poolFee + a.nachoAccrual + a.netPayout
    && fee * 10_000 <= gross * config.toplineBps < (fee + 1) * 10_000
    && a.nachoAccrual * 10_000 <= fee * rebate < (a.nachoAccrual + 1) * 10_000
    && (tier.Elite? ==> a.poolFee == 0)
  }

  lemma FloorDivision(n: nat)
    ensures n / BPS * BPS <= n < (n / BPS + 1) * BPS
  {
  }

  lemma RebateWithinFee(fee: nat, tier: WalletTier)
    ensures fee * RebateBps(tier) / BPS <= fee
    ensures tier.Elite? ==> fee * RebateBps(tier) / BPS == fee
  {
    match tier
    case Standard => assert fee * 3_300 / 10_000 <= fee;
    case Elite => assert fee * 10_000 / 10_000 == fee;
  }

  // The rebate stage cannot overflow: for a top-line of at most ten percent, multiplying the fee by
  // the rebate gives no more than the first product already did.
  lemma RebateStageFits(config: FeeConfig, gross: nat, tier: WalletTier)
    requires config.Valid() && gross * config.toplineBps <= I64_MAX
    ensures gross * config.toplineBps / BPS * RebateBps(tier) <= I64_MAX
  {
    var fee := gross * config.toplineBps / BPS;
    FloorDivision(gross * config.toplineBps);
    match tier
    case Standard => assert fee * 3_300 <= fee * 10_000;
    case Elite =>
  }

  // Exactly which calls succeed, which error each failing call gives, and what a success returns.
  // `Overflow("nacho_accrual")` and `Unbalanced` are never returned.
  lemma ComputeAllocationOutcome(config: FeeConfig, gross: int, tier: WalletTier)
    requires config.Valid()
    ensures var r := ComputeAllocation(config, gross, tier);
            && (gross < 0 <==> r == Err(NegativeGross(gross)))
            && (gross >= 0 && gross * config.toplineBps > I64_MAX <==> r == Err(Overflow("fee_share")))
            && (gross >= 0 && gross * config.toplineBps <= I64_MAX <==> r.Ok?)
            && (r.Ok? ==> ExactSplit(config, gross, tier, r.value))
  {
    if gross >= 0 && gross * config.toplineBps <= I64_MAX {
      var scaled := gross * config.toplineBps;
      var fee := scaled / BPS;
      FloorDivision(scaled);
      FeeWithinGross(config, gross);
      RebateStageFits(config, gross, tier);
      FloorDivision(fee * RebateBps(tier));
      RebateWithinFee(fee, tier);
    }
  }

  lemma Scaled(x: nat, a: nat, b: nat)
    requires a <= b
    ensures x * a <= x * b
  {
    assert x * (b - a) >= 0;
  }

  lemma FeeWithinGross(config: FeeConfig, gross: nat)
    requires config.Valid()
    ensures gross * config.toplineBps / BPS <= gross
  {
    Scaled(gross, config.toplineBps, BPS);
  }

  // Small enough rewards never overflow, whatever the tier.
  lemma SmallGrossSucceeds(config: FeeConfig, gross: nat, tier: WalletTier)
    requires config.Valid() && gross <= I64_MAX / MAX_TOPLINE_BPS
    ensures ComputeAllocation(config, gross, tier).Ok?
  {
    Scaled(gross, config.toplineBps, MAX_TOPLINE_BPS);
    ComputeAllocationOutcome(config, gross, tier);
  }

  // The tier moves money only between the pool and the rebate: the net payout and the audit figure
  // for the top line are the same, and an Elite wallet is never rebated less than a Standard one.
  lemma TierOnlyMovesTheFee(config: FeeConfig, gross: int)
    requires config.Valid()
    ensures var s := ComputeAllocation(config, gross, Standard);
            var e := ComputeAllocation(config, gross, Elite);
            && s.Ok? == e.Ok?
            && (s.Ok? ==> s.value.netPayout == e.value.netPayout
                          && s.value.nachoAccrual <= e.value.nachoAccrual
                          && s.value.poolFee >= e.value.poolFee)
  {
    ComputeAllocationOutcome(config, gross, Standard);
    ComputeAllocationOutcome(config, gross, Elite);
  }

  datatype Totals = Totals(poolFee: int, nacho: int, net: int)

  ghost function Fees(s: seq<Allocation>): seq<int> { seq(|s|, i requires 0 <= i < |s| => s[i].poolFee) }
  ghost function Nachos(s: seq<Allocation>): seq<int> { seq(|s|, i requires 0 <= i < |s| => s[i].nachoAccrual) }
  ghost function Nets(s: seq<Allocation>): seq<int> { seq(|s|, i requires 0 <= i < |s| => s[i].netPayout) }
  ghost function GrossOf(s: seq<Allocation>): seq<int> { seq(|s|, i requires 0 <= i < |s| => s[i].gross) }

  ghost predicate AllSplit(s: seq<Allocation>) {
    forall i :: 0 <= i < |s| ==>
                  && s[i].poolFee >= 0 && s[i].nachoAccrual >= 0 && s[i].netPayout >= 0
                  && s[i].IsBalanced()
  }

  lemma {:induction false} PartsAddUp(s: seq<Allocation>)
    requires AllSplit(s)
    ensures Sum(Fees(s)) >= 0 && Sum(Nachos(s)) >= 0 && Sum(Nets(s)) >= 0
    ensures Sum(Fees(s)) + Sum(Nachos(s)) + Sum(Nets(s)) == Sum(GrossOf(s))
  {
    if s != [] {
      var t := s[1..];
      assert Fees(s)[1..] == Fees(t);
      assert Nachos(s)[1..] == Nachos(t);
      assert Nets(s)[1..] == Nets(t);
      assert GrossOf(s)[1..] == GrossOf(t);
      PartsAddUp(t);
    }
  }

  lemma SumsSnoc(s: seq<Allocation>, i: nat)
    requires i < |s|
    ensures Sum(Fees(s[..i + 1])) == Sum(Fees(s[..i])) + s[i].poolFee
    ensures Sum(Nachos(s[..i + 1])) == Sum(Nachos(s[..i])) + s[i].nachoAccrual
    ensures Sum(Nets(s[..i + 1])) == Sum(Nets(s[..i])) + s[i].netPayout
  {
    assert Fees(s[..i + 1]) == Fees(s[..i]) + [s[i].poolFee];
    assert Nachos(s[..i + 1]) == Nachos(s[..i]) + [s[i].nachoAccrual];
    assert Nets(s[..i + 1]) == Nets(s[..i]) + [s[i].netPayout];
    SumAppend(Fees(s[..i]), [s[i].poolFee]);
    SumAppend(Nachos(s[..i]), [s[i].nachoAccrual]);
    SumAppend(Nets(s[..i]), [s[i].netPayout]);
  }

  // The saturating accumulation of the audit totals: each total is the true sum, cut off at i64::MAX.
  method SumTotals(allocations: seq<Allocation>) returns (t: Totals)
    requires AllSplit(allocations)
    ensures t.poolFee == Min(Sum(Fees(allocations)), I64_MAX)
    ensures t.nacho == Min(Sum(Nachos(allocations)), I64_MAX)
    ensures t.net == Min(Sum(Nets(allocations)), I64_MAX)
  {
    t := Totals(0, 0, 0);
    for i := 0 to |allocations|
      invariant t.poolFee == Min(Sum(Fees(allocations[..i])), I64_MAX)
      invariant t.nacho == Min(Sum(Nachos(allocations[..i])), I64_MAX)
      invariant t.net == Min(Sum(Nets(allocations[..i])), I64_MAX)
    {
      PartsAddUp(allocations[..i]);
      SumsSnoc(allocations, i);
      var a := allocations[i];
      t := Totals(Min(t.poolFee + a.poolFee, I64_MAX),
                  Min(t.nacho + a.nachoAccrual, I64_MAX),
                  Min(t.net + a.netPayout, I64_MAX));
    }
    assert allocations[..|allocations|] == allocations;
  }

  ghost function TrueTotals(s: seq<Allocation>): Totals {
    Totals(Sum(Fees(s)), Sum(Nachos(s)), Sum(Nets(s)))
  }

  // Within the i64 range the cut-off is never reached, so the recorded totals are the true sums.
  lemma TotalsAreExact(s: seq<Allocation>, reward: int)
    requires AllSplit(s) && Sum(GrossOf(s)) == reward <= I64_MAX
    ensures var t := TrueTotals(s);
            && Min(t.poolFee, I64_MAX) == t.poolFee && Min(t.nacho, I64_MAX) == t.nacho
            && Min(t.net, I64_MAX) == t.net
            && t.poolFee + t.nacho + t.net == reward
  {
    PartsAddUp(s);
  }
}

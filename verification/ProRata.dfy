/** Pro-rating one coinbase reward over a closed share window, and the per-wallet fee split of it. */
module ProRata {
  import opened Wrappers
  import opened Sums
  import opened FeeModel

  type WalletId = int

  // One row of `share_window`: the wallet and its PROP weight.
  datatype WindowRow = WindowRow(wallet: WalletId, weight: real)

  function Weight(row: WindowRow): real { row.weight }

  ghost function TotalWeight(rows: seq<WindowRow>): real { SumBy(rows, Weight) }

  predicate NonNegative(rows: seq<WindowRow>) {
    forall i :: 0 <= i < |rows| ==> rows[i].weight >= 0.0
  }

  predicate DistinctWallets(rows: seq<WindowRow>) {
    forall i, j :: 0 <= i < j < |rows| ==> rows[i].wallet != rows[j].wallet
  }

  // The exact, unrounded share of a wallet.
  function Portion(reward: nat, weight: real, total: real): real
    requires total > 0.0
  {
    reward as real * (weight / total)
  }

  // One wallet's share, rounded down and clamped to [0, reward].
  function ProRate(reward: nat, weight: real, total: real): int {
    if weight == 0.0 || total <= 0.0 then 0 else
    var floored := Portion(reward, weight, total).Floor;
    if floored <= 0 then 0 else if floored >= reward then reward else floored
  }

  // `g` is the exact share rounded down.
  predicate FloorShare(reward: nat, weight: real, total: real, g: int)
    requires total > 0.0
  {
    g as real <= Portion(reward, weight, total) < g as real + 1.0
  }

  lemma RatioAdd(a: real, b: real, total: real)
    requires total > 0.0
    ensures (a + b) / total == a / total + b / total
  {
  }

  lemma PortionAdd(reward: nat, a: real, b: real, total: real)
    requires total > 0.0
    ensures Portion(reward, a + b, total) == Portion(reward, a, total) + Portion(reward, b, total)
  {
    RatioAdd(a, b, total);
    var r, x, y := reward as real, a / total, b / total;
    assert r * (x + y) == r * x + r * y;
  }

  lemma PortionRange(reward: nat, weight: real, total: real)
    requires 0.0 <= weight <= total && total > 0.0
    ensures 0.0 <= Portion(reward, weight, total) <= reward as real
    ensures weight == 0.0 ==> Portion(reward, weight, total) == 0.0
    ensures weight == total ==> Portion(reward, weight, total) == reward as real
  {
    var r, x := reward as real, weight / total;
    assert 0.0 <= x <= 1.0;
    assert 0.0 <= r * x <= r;
  }

  lemma ProRateIsFloorShare(reward: nat, weight: real, total: real)
    requires 0.0 <= weight <= total && total > 0.0
    ensures 0 <= ProRate(reward, weight, total) <= reward
    ensures FloorShare(reward, weight, total, ProRate(reward, weight, total))
  {
    PortionRange(reward, weight, total);
  }

  ghost function Floors(reward: nat, rows: seq<WindowRow>, total: real): seq<int> {
    seq(|rows|, i requires 0 <= i < |rows| => ProRate(reward, rows[i].weight, total))
  }

  ghost function Residue(reward: nat, rows: seq<WindowRow>): int {
    reward - Sum(Floors(reward, rows, TotalWeight(rows)))
  }

  // Index of the row with the smallest wallet id: the head of the indices sorted by wallet id.
  ghost function SmallestWallet(rows: seq<WindowRow>): (k: nat)
    requires rows != []
    ensures k < |rows|
    ensures forall i :: 0 <= i < |rows| ==> rows[k].wallet <= rows[i].wallet
    ensures forall i :: 0 <= i < k ==> rows[k].wallet < rows[i].wallet
  {
    var last := |rows| - 1;
    if last == 0 then 0 else
    var k := SmallestWallet(rows[..last]);
    if rows[last].wallet < rows[k].wallet then last else k
  }

  // Every wallet's gross: its rounded-down share, with the rounding residue on the smallest wallet id.
  ghost function Grosses(reward: nat, rows: seq<WindowRow>): (g: seq<int>)
    requires rows != []
    ensures |g| == |rows|
  {
    var floors := Floors(reward, rows, TotalWeight(rows));
    var first := SmallestWallet(rows);
    floors[first := floors[first] + Residue(reward, rows)]
  }

  lemma {:induction false} WeightsWithinTotal(rows: seq<WindowRow>)
    requires NonNegative(rows)
    ensures TotalWeight(rows) >= 0.0
    ensures forall i :: 0 <= i < |rows| ==> rows[i].weight <= TotalWeight(rows)
  {
    if rows != [] {
      WeightsWithinTotal(rows[1..]);
      forall i | 0 <= i < |rows|
        ensures rows[i].weight <= TotalWeight(rows)
      {
        if i > 0 {
          assert rows[i] == rows[1..][i - 1];
        }
      }
    }
  }

  lemma {:induction false} FloorsBound(reward: nat, rows: seq<WindowRow>, total: real)
    requires total > 0.0 && forall i :: 0 <= i < |rows| ==> 0.0 <= rows[i].weight <= total
    ensures var s := Sum(Floors(reward, rows, total)) as real;
            && s <= Portion(reward, TotalWeight(rows), total) <= s + |rows| as real
            && (rows != [] ==> Portion(reward, TotalWeight(rows), total) < s + |rows| as real)
  {
    if rows == [] {
      PortionRange(reward, 0.0, total);
    } else {
      assert Floors(reward, rows, total)[1..] == Floors(reward, rows[1..], total);
      ProRateIsFloorShare(reward, rows[0].weight, total);
      FloorsBound(reward, rows[1..], total);
      PortionAdd(reward, rows[0].weight, TotalWeight(rows[1..]), total);
    }
  }

  // The rounding residue is at most one sompi per wallet short of N.
  lemma ResidueRange(reward: nat, rows: seq<WindowRow>)
    requires NonNegative(rows) && TotalWeight(rows) > 0.0
    ensures 0 <= Residue(reward, rows) <= |rows| - 1
  {
    var total := TotalWeight(rows);
    WeightsWithinTotal(rows);
    FloorsBound(reward, rows, total);
    PortionRange(reward, total, total);
  }

  lemma {:induction false} SumUpdate(s: seq<int>, k: nat, d: int)
    requires k < |s|
    ensures Sum(s[k := s[k] + d]) == Sum(s) + d
  {
    if k > 0 {
      assert s[k := s[k] + d][1..] == s[1..][k - 1 := s[1..][k - 1] + d];
      SumUpdate(s[1..], k - 1, d);
    } else {
      assert s[0 := s[0] + d][1..] == s[1..];
    }
  }

  // The split of a reward: nothing is lost or created, every wallet but the one with the smallest id
  // gets exactly its rounded-down share, and that one gets its share plus a residue below N sompi.
  ghost predicate PropSplit(reward: nat, rows: seq<WindowRow>, grosses: seq<int>)
    requires TotalWeight(rows) > 0.0
  {
    var total := TotalWeight(rows);
    && |grosses| == |rows|
    && Sum(grosses) == reward
    && (forall i :: 0 <= i < |rows| ==> 0 <= grosses[i] <= reward)
    && forall i :: 0 <= i < |rows| ==>
                     if i == SmallestWallet(rows)
                     then 0 <= Residue(reward, rows) < |rows|
                          && FloorShare(reward, rows[i].weight, total, grosses[i] - Residue(reward, rows))
                     else FloorShare(reward, rows[i].weight, total, grosses[i])
  }

  lemma {:induction false} NonNegativeParts(s: seq<int>)
    requires forall i :: 0 <= i < |s| ==> s[i] >= 0
    ensures Sum(s) >= 0
    ensures forall i :: 0 <= i < |s| ==> s[i] <= Sum(s)
  {
    if s != [] {
      NonNegativeParts(s[1..]);
      forall i | 0 <= i < |s|
        ensures s[i] <= Sum(s)
      {
        if i > 0 {
          assert s[i] == s[1..][i - 1];
        }
      }
    }
  }

  lemma GrossesArePropSplit(reward: nat, rows: seq<WindowRow>)
    requires NonNegative(rows) && TotalWeight(rows) > 0.0
    ensures PropSplit(reward, rows, Grosses(reward, rows))
  {
    var total := TotalWeight(rows);
    var floors := Floors(reward, rows, total);
    var first := SmallestWallet(rows);
    WeightsWithinTotal(rows);
    ResidueRange(reward, rows);
    SumUpdate(floors, first, Residue(reward, rows));
    forall i | 0 <= i < |rows|
      ensures FloorShare(reward, rows[i].weight, total, floors[i]) && floors[i] >= 0
    {
      ProRateIsFloorShare(reward, rows[i].weight, total);
    }
    NonNegativeParts(Grosses(reward, rows));
  }

  ghost function FloorOf(reward: nat, total: real): WindowRow -> real {
    (row: WindowRow) => ProRate(reward, row.weight, total) as real
  }

  lemma {:induction false} FloorsAsSumBy(reward: nat, rows: seq<WindowRow>, total: real)
    ensures Sum(Floors(reward, rows, total)) as real == SumBy(rows, FloorOf(reward, total))
  {
    if rows != [] {
      assert Floors(reward, rows, total)[1..] == Floors(reward, rows[1..], total);
      FloorsAsSumBy(reward, rows[1..], total);
    }
  }

  // The result does not depend on the order in which the database lists the rows (the query orders
  // by weight, which leaves ties open): a wallet's gross is the same in every listing.
  lemma GrossesOrderIndependent(reward: nat, a: seq<WindowRow>, b: seq<WindowRow>, i: nat, j: nat)
    requires multiset(a) == multiset(b) && DistinctWallets(a) && DistinctWallets(b)
    requires i < |a| && j < |b| && a[i] == b[j]
    ensures Grosses(reward, a)[i] == Grosses(reward, b)[j]
  {
    SumByPermutation(a, b, Weight);
    var total := TotalWeight(a);
    SumByPermutation(a, b, FloorOf(reward, total));
    FloorsAsSumBy(reward, a, total);
    FloorsAsSumBy(reward, b, total);
    assert Residue(reward, a) == Residue(reward, b);
    var ka, kb := SmallestWallet(a), SmallestWallet(b);
    assert a[ka] in multiset(b) && b[kb] in multiset(a);
    assert a[ka].wallet == b[kb].wallet;
    assert (i == ka) == (j == kb);
  }

  method SumWeights(rows: seq<WindowRow>) returns (total: real)
    ensures total == TotalWeight(rows)
  {
    total := 0.0;
    for i := 0 to |rows|
      invariant total == TotalWeight(rows[..i])
    {
      assert rows[..i + 1] == rows[..i] + [rows[i]];
      SumByAppend(rows[..i], [rows[i]], Weight);
      total := total + rows[i].weight;
    }
    assert rows[..|rows|] == rows;
  }

  method FloorAll(reward: nat, rows: seq<WindowRow>, total: real) returns (slots: array<int>, summed: int)
    ensures fresh(slots) && slots[..] == Floors(reward, rows, total)
    ensures summed == Sum(Floors(reward, rows, total))
  {
    slots := new int[|rows|];
    summed := 0;
    for i := 0 to |rows|
      invariant slots[..i] == Floors(reward, rows, total)[..i]
      invariant summed == Sum(slots[..i])
    {
      slots[i] := ProRate(reward, rows[i].weight, total);
      assert slots[..i + 1] == slots[..i] + [slots[i]];
      SumAppend(slots[..i], [slots[i]]);
      summed := summed + slots[i];
    }
    assert slots[..] == slots[..|rows|];
  }

  method FirstByWallet(rows: seq<WindowRow>) returns (first: nat)
    requires rows != []
    ensures first == SmallestWallet(rows)
  {
    first := 0;
    for i := 1 to |rows|
      invariant first < i && first == SmallestWallet(rows[..i])
    {
      assert rows[..i + 1][..i] == rows[..i];
      if rows[i].wallet < rows[first].wallet {
        first := i;
      }
    }
    assert rows[..|rows|] == rows;
  }

  // Computing the grosses as the engine does: sum the weights, round every share down, put the
  // residue on the smallest wallet id. A total that is not positive is refused.
  method ProRateWindow(reward: nat, rows: seq<WindowRow>) returns (grosses: Result<seq<int>, real>, residue: int)
    ensures grosses.Ok? <==> TotalWeight(rows) > 0.0
    ensures grosses.Err? ==> grosses.error == TotalWeight(rows) && residue == 0
    ensures grosses.Ok? ==> rows != [] && grosses.value == Grosses(reward, rows) && residue == Residue(reward, rows)
  {
    var total := SumWeights(rows);
    if total <= 0.0 {
      return Err(total), 0;
    }
    var slots, summed := FloorAll(reward, rows, total);
    residue := reward - summed;
    var first := FirstByWallet(rows);
    slots[first] := slots[first] + residue;
    grosses := Ok(slots[..]);
  }

  // ---- per-wallet fee split of the grosses ------------------------------------------------------

  // The allocations of all grosses in order, or the first error met.
  function SplitGrosses(config: FeeConfig, grosses: seq<int>, tiers: seq<WalletTier>)
    : Result<seq<Allocation>, AllocationError>
    requires |grosses| == |tiers|
  {
    if grosses == [] then Ok([]) else
    var last := |grosses| - 1;
    match SplitGrosses(config, grosses[..last], tiers[..last])
    case Err(e) => Err(e)
    case Ok(done) =>
      match ComputeAllocation(config, grosses[last], tiers[last])
      case Err(e) => Err(e)
      case Ok(a) => Ok(done + [a])
  }

  lemma {:induction false} SplitErrorPropagates(config: FeeConfig, grosses: seq<int>, tiers: seq<WalletTier>, k: nat)
    requires |grosses| == |tiers| && k <= |grosses|
    requires SplitGrosses(config, grosses[..k], tiers[..k]).Err?
    ensures SplitGrosses(config, grosses, tiers) == SplitGrosses(config, grosses[..k], tiers[..k])
  {
    if k == |grosses| {
      assert grosses[..k] == grosses && tiers[..k] == tiers;
    } else {
      var last := |grosses| - 1;
      assert grosses[..last][..k] == grosses[..k] && tiers[..last][..k] == tiers[..k];
      SplitErrorPropagates(config, grosses[..last], tiers[..last], k);
    }
  }

  // The engine's loop over the wallets, stopping at the first error.
  method SplitAll(config: FeeConfig, grosses: seq<int>, tiers: seq<WalletTier>)
    returns (r: Result<seq<Allocation>, AllocationError>)
    requires |grosses| == |tiers|
    ensures r == SplitGrosses(config, grosses, tiers)
  {
    var allocations := [];
    for i := 0 to |grosses|
      invariant SplitGrosses(config, grosses[..i], tiers[..i]) == Ok(allocations)
    {
      assert grosses[..i + 1][..i] == grosses[..i] && tiers[..i + 1][..i] == tiers[..i];
      match ComputeAllocation(config, grosses[i], tiers[i])
      case Err(e) =>
        SplitErrorPropagates(config, grosses, tiers, i + 1);
        return Err(e);
      case Ok(a) =>
        allocations := allocations + [a];
    }
    assert grosses[..|grosses|] == grosses && tiers[..|grosses|] == tiers;
    r := Ok(allocations);
  }

  // A successful split has one exact allocation per wallet; it fails only by the fee-share overflow.
  lemma {:induction false} SplitGrossesOutcome(config: FeeConfig, grosses: seq<int>, tiers: seq<WalletTier>)
    requires config.Valid() && |grosses| == |tiers|
    requires forall i :: 0 <= i < |grosses| ==> grosses[i] >= 0
    ensures var r := SplitGrosses(config, grosses, tiers);
            && (r.Ok? <==> forall i :: 0 <= i < |grosses| ==> grosses[i] * config.toplineBps <= I64_MAX)
            && (r.Err? ==> r.error == Overflow("fee_share"))
            && (r.Ok? ==>
                  && |r.value| == |grosses|
                  && (forall i :: 0 <= i < |grosses| ==> ExactSplit(config, grosses[i], tiers[i], r.value[i]))
                  && AllSplit(r.value) && GrossOf(r.value) == grosses)
  {
    if grosses != [] {
      var last := |grosses| - 1;
      var head := grosses[..last];
      SplitGrossesOutcome(config, head, tiers[..last]);
      ComputeAllocationOutcome(config, grosses[last], tiers[last]);
      assert forall i :: 0 <= i < last ==> grosses[i] == head[i];
      assert grosses == head + [grosses[last]];
    }
  }

  // For a reward the fee model accepts, the whole pipeline succeeds and conserves every sompi:
  // fees, rebates and payouts over all wallets add up to the reward, and the saturating audit
  // totals are those true sums.
  lemma RewardFullyDistributed(config: FeeConfig, reward: nat, rows: seq<WindowRow>, tiers: seq<WalletTier>)
    requires config.Valid() && NonNegative(rows) && TotalWeight(rows) > 0.0 && |tiers| == |rows|
    requires reward <= I64_MAX / MAX_TOPLINE_BPS
    ensures var r := SplitGrosses(config, Grosses(reward, rows), tiers);
            && r.Ok?
            && var t := TrueTotals(r.value);
               && t.poolFee + t.nacho + t.net == reward
               && t.poolFee <= I64_MAX && t.nacho <= I64_MAX && t.net <= I64_MAX
  {
    var grosses := Grosses(reward, rows);
    GrossesArePropSplit(reward, rows);
    forall i | 0 <= i < |grosses|
      ensures grosses[i] * config.toplineBps <= I64_MAX
    {
      SmallGrossSucceeds(config, grosses[i], tiers[i]);
      ComputeAllocationOutcome(config, grosses[i], tiers[i]);
    }
    SplitGrossesOutcome(config, grosses, tiers);
    var allocations := SplitGrosses(config, grosses, tiers).value;
    PartsAddUp(allocations);
  }
}

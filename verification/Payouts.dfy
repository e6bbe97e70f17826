/**
 What an allocated reward pays, row by row, in terms of the share table alone: who has a row, what weight it
 carries out of what total, and what it is worth.
 */
module Payouts {
  import opened Sums
  import opened FeeModel
  import opened ProRata
  import opened ShareWindow
  import opened Ledger
  import opened LedgerSafety
  import opened LedgerTheorems

  // ---- the total of a listing is the difficulty of the window ------------------------------------------------

  ghost function WalletsOf(listing: seq<WindowRow>): set<WalletId> {
    set i | 0 <= i < |listing| :: listing[i].wallet
  }

  lemma {:induction false} ListedWeight(held: seq<Share>, start: nat, end: nat, listing: seq<WindowRow>, n: nat)
    requires ListsShares(held, start, end, listing) && n <= |listing|
    ensures TotalWeight(listing[..n]) == WeightFor(held, WalletsOf(listing[..n]), start, end)
  {
    if n == 0 {
      assert WalletsOf(listing[..n]) == {};
      NoWallet(held, start, end);
    } else {
      var w, ws := listing[n - 1].wallet, WalletsOf(listing[..n]);
      ListedWeight(held, start, end, listing, n - 1);
      assert listing[..n] == listing[..n - 1] + [listing[n - 1]];
      SumByAppend(listing[..n - 1], [listing[n - 1]], Weight);
      assert listing[..n][n - 1].wallet == w;
      NextWallet(listing, n);
      TakeOneWallet(held, ws, w, start, end);
    }
  }

  lemma NextWallet(listing: seq<WindowRow>, n: nat)
    requires DistinctWallets(listing) && 1 <= n <= |listing|
    ensures listing[n - 1].wallet in WalletsOf(listing[..n])
    ensures WalletsOf(listing[..n]) - {listing[n - 1].wallet} == WalletsOf(listing[..n - 1])
  {
    var all, before := listing[..n], listing[..n - 1];
    assert all[n - 1].wallet in WalletsOf(all);
    forall w | w in WalletsOf(all) && w != listing[n - 1].wallet
      ensures w in WalletsOf(before)
    {
      var i :| 0 <= i < |all| && all[i].wallet == w;
      assert before[i].wallet == w;
    }
    forall w | w in WalletsOf(before)
      ensures w in WalletsOf(all) && w != listing[n - 1].wallet
    {
      var i :| 0 <= i < |before| && before[i].wallet == w;
      assert all[i].wallet == w;
    }
  }

  lemma ListingTotal(held: seq<Share>, start: nat, end: nat, listing: seq<WindowRow>)
    requires ListsShares(held, start, end, listing)
    ensures TotalWeight(listing) == TotalDifficulty(held, start, end)
  {
    ListedWeight(held, start, end, listing, |listing|);
    assert listing[..|listing|] == listing;
    forall s | s in held && InRange(s, start, end)
      ensures s.wallet in WalletsOf(listing)
    {
      if CountIn(held, s.wallet, start, end) == 0 {
        NoShares(held, start, end, s.wallet);
      }
      assert HasWallet(listing, s.wallet);
    }
    AllContributors(held, WalletsOf(listing), start, end);
  }

  // ---- one row -------------------------------------------------------------------------------------------------

  ghost predicate Contributes(held: seq<Share>, start: nat, end: nat, w: WalletId) {
    exists s :: s in held && s.wallet == w && InRange(s, start, end)
  }

  ghost predicate SmallestContributor(held: seq<Share>, start: nat, end: nat, w: WalletId) {
    Contributes(held, start, end, w) && forall v: WalletId :: Contributes(held, start, end, v) ==> w <= v
  }

  // `g` sompi are the part of the amount that the weight is of the total, rounded down.
  predicate RoundedDown(amount: nat, weight: real, total: real, g: int) {
    g as real * total <= amount as real * weight < (g + 1) as real * total
  }

  // A row carries the difficulty of its wallet's shares and of all shares in the window; its gross is the
  // wallet's part of the reward, rounded down, with the residue on top exactly for the smallest wallet id; and
  // it is split exactly.
  ghost predicate RowPays(config: Config, amount: nat, held: seq<Share>, start: nat, end: nat, residue: int,
                          row: AllocRow)
  {
    && Contributes(held, start, end, row.wallet)
    && row.weight == WeightIn(held, row.wallet, start, end) && row.windowTotal == TotalDifficulty(held, start, end)
    && RoundedDown(amount, row.weight, row.windowTotal,
                   row.split.gross - if SmallestContributor(held, start, end, row.wallet) then residue else 0)
    && ExactSplit(config.fee, row.split.gross, row.split.tier, row.split)
  }

  lemma {:induction false} ContributesIff(held: seq<Share>, start: nat, end: nat, w: WalletId)
    ensures Contributes(held, start, end, w) <==> CountIn(held, w, start, end) > 0
  {
    if held != [] {
      var last := |held| - 1;
      ContributesIff(held[..last], start, end, w);
      assert held == held[..last] + [held[last]];
      assert held[last] in held;
    }
  }

  lemma PortionTimesTotal(amount: nat, weight: real, total: real)
    requires total > 0.0
    ensures Portion(amount, weight, total) * total == amount as real * weight
  {
    var a, x := amount as real, weight / total;
    assert x * total == weight;
    assert a * x * total == a * (x * total);
  }

  lemma ScaledLess(a: real, b: real, t: real)
    requires a < b && t > 0.0
    ensures a * t < b * t
  {
    var d := b - a;
    assert d * t > 0.0;
    assert b * t == (a + d) * t == a * t + d * t;
  }

  lemma ScaledBetween(low: real, p: real, high: real, t: real, product: real)
    requires low <= p < high && t > 0.0 && p * t == product
    ensures low * t <= product < high * t
  {
    if low < p {
      ScaledLess(low, p, t);
    }
    ScaledLess(p, high, t);
  }

  lemma ShareIsRoundedDown(amount: nat, weight: real, total: real, g: int)
    requires total > 0.0 && FloorShare(amount, weight, total, g)
    ensures RoundedDown(amount, weight, total, g)
  {
    PortionTimesTotal(amount, weight, total);
    ScaledBetween(g as real, Portion(amount, weight, total), (g + 1) as real, total, amount as real * weight);
  }

  lemma SmallestIsListed(held: seq<Share>, start: nat, end: nat, listing: seq<WindowRow>, i: nat)
    requires ListsShares(held, start, end, listing) && i < |listing|
    ensures Contributes(held, start, end, listing[i].wallet)
    ensures SmallestContributor(held, start, end, listing[i].wallet) <==> i == SmallestWallet(listing)
  {
    var w, k := listing[i].wallet, SmallestWallet(listing);
    ContributesIff(held, start, end, w);
    ContributesIff(held, start, end, listing[k].wallet);
    forall v: WalletId | Contributes(held, start, end, v)
      ensures listing[k].wallet <= v
    {
      ContributesIff(held, start, end, v);
      assert HasWallet(listing, v);
    }
  }

  // The i-th wallet of a listing is paid as its row says.
  lemma ListedRowPays(config: Config, amount: nat, held: seq<Share>, start: nat, end: nat, listing: seq<WindowRow>,
                      splits: seq<Allocation>, tier: WalletTier, i: nat, row: AllocRow)
    requires ListsShares(held, start, end, listing) && i < |listing| == |splits| && TotalWeight(listing) > 0.0
    requires PropSplit(amount, listing, GrossOf(splits)) && ExactSplit(config.fee, splits[i].gross, tier, splits[i])
    requires row.wallet == listing[i].wallet && row.weight == listing[i].weight
    requires row.windowTotal == TotalWeight(listing) && row.split == splits[i]
    ensures RowPays(config, amount, held, start, end, Residue(amount, listing), row)
  {
    SmallestIsListed(held, start, end, listing, i);
    ListingTotal(held, start, end, listing);
    var extra := if i == SmallestWallet(listing) then Residue(amount, listing) else 0;
    assert GrossOf(splits)[i] == splits[i].gross;
    ShareIsRoundedDown(amount, row.weight, row.windowTotal, row.split.gross - extra);
  }

  // ---- the rows of a reward --------------------------------------------------------------------------------

  ghost function PoolFees(rows: seq<AllocRow>): int {
    if rows == [] then 0 else rows[0].split.poolFee + PoolFees(rows[1..])
  }

  ghost function Rebates(rows: seq<AllocRow>): int {
    if rows == [] then 0 else rows[0].split.nachoAccrual + Rebates(rows[1..])
  }

  ghost function NetPayouts(rows: seq<AllocRow>): int {
    if rows == [] then 0 else rows[0].split.netPayout + NetPayouts(rows[1..])
  }

  // The audit entry counts the rows and sums their parts; without rows the pool keeps the reward.
  ghost predicate AuditTells(amount: nat, rows: seq<AllocRow>, residue: int, r: nat, entries: seq<AuditEntry>) {
    && |entries| == 1 && entries[0].reward == r && entries[0].amount == amount
    && if rows == [] then entries[0].kind.Retained?
       else
         && entries[0].kind.Distributed? && entries[0].kind.wallets == |rows|
         && entries[0].kind.totals.poolFee == PoolFees(rows) && entries[0].kind.totals.nacho == Rebates(rows)
         && entries[0].kind.totals.net == NetPayouts(rows) && entries[0].kind.residue == residue
  }

  lemma {:induction false} PartsOfSplits(rows: seq<AllocRow>, splits: seq<Allocation>)
    requires |rows| == |splits| && forall i :: 0 <= i < |rows| ==> rows[i].split == splits[i]
    ensures PoolFees(rows) == Sum(Fees(splits)) && Rebates(rows) == Sum(Nachos(splits))
    ensures NetPayouts(rows) == Sum(Nets(splits))
  {
    if rows != [] {
      assert Fees(splits)[1..] == Fees(splits[1..]) && Nachos(splits)[1..] == Nachos(splits[1..]);
      assert Nets(splits)[1..] == Nets(splits[1..]);
      PartsOfSplits(rows[1..], splits[1..]);
    }
  }

  // All rows of the reward pay so, each contributing wallet has one and no other wallet has, and together they
  // come to the reward; the residue is less than one sompi for each row.
  ghost predicate Pays(config: Config, rows: seq<AllocRow>, amount: nat, held: seq<Share>, start: nat, end: nat,
                       residue: int)
  {
    && (forall i :: 0 <= i < |rows| ==> RowPays(config, amount, held, start, end, residue, rows[i]))
    && (forall w: WalletId :: Contributes(held, start, end, w) ==> HasRow(rows, w))
    && (forall i, j :: 0 <= i < j < |rows| ==> rows[i].wallet != rows[j].wallet)
    && (rows != [] ==> GrossTotal(rows) == amount && 0 <= residue < |rows|)
  }

  ghost predicate HasRow(rows: seq<AllocRow>, w: WalletId) {
    exists i :: 0 <= i < |rows| && rows[i].wallet == w
  }

  lemma ListedRowsPay(config: Config, r: nat, amount: nat, held: seq<Share>, start: nat, end: nat,
                      listing: seq<WindowRow>, splits: seq<Allocation>, tiers: seq<WalletTier>, rows: seq<AllocRow>)
    requires ListsShares(held, start, end, listing) && Lists(rows, r, listing, splits) && |tiers| == |splits|
    requires listing != [] ==> TotalWeight(listing) > 0.0 && PropSplit(amount, listing, GrossOf(splits))
    requires forall i :: 0 <= i < |splits| ==> ExactSplit(config.fee, splits[i].gross, tiers[i], splits[i])
    ensures forall i :: 0 <= i < |rows| ==>
                          RowPays(config, amount, held, start, end, Residue(amount, listing), rows[i])
  {
    forall i | 0 <= i < |rows|
      ensures RowPays(config, amount, held, start, end, Residue(amount, listing), rows[i])
    {
      ListedRowPays(config, amount, held, start, end, listing, splits, tiers[i], i, rows[i]);
    }
  }

  lemma ListedWallets(held: seq<Share>, start: nat, end: nat, listing: seq<WindowRow>, rows: seq<AllocRow>)
    requires ListsShares(held, start, end, listing) && |rows| == |listing|
    requires forall i :: 0 <= i < |rows| ==> rows[i].wallet == listing[i].wallet
    ensures forall w: WalletId :: Contributes(held, start, end, w) ==> HasRow(rows, w)
    ensures forall i, j :: 0 <= i < j < |rows| ==> rows[i].wallet != rows[j].wallet
  {
    forall w: WalletId | Contributes(held, start, end, w)
      ensures HasRow(rows, w)
    {
      ContributesIff(held, start, end, w);
      assert HasWallet(listing, w);
    }
  }

  lemma ListedSum(r: nat, amount: nat, listing: seq<WindowRow>, splits: seq<Allocation>, rows: seq<AllocRow>)
    requires listing != [] && Lists(rows, r, listing, splits)
    requires TotalWeight(listing) > 0.0 && PropSplit(amount, listing, GrossOf(splits))
    ensures GrossTotal(rows) == amount && 0 <= Residue(amount, listing) < |rows|
  {
    GrossTotalOfSplits(rows, splits);
    assert 0 <= SmallestWallet(listing) < |listing|;
  }

  lemma ListedPays(config: Config, r: nat, amount: nat, held: seq<Share>, start: nat, end: nat,
                   listing: seq<WindowRow>, splits: seq<Allocation>, tiers: seq<WalletTier>, rows: seq<AllocRow>)
    requires ListsShares(held, start, end, listing) && Lists(rows, r, listing, splits) && |tiers| == |splits|
    requires listing != [] ==> TotalWeight(listing) > 0.0 && PropSplit(amount, listing, GrossOf(splits))
    requires forall i :: 0 <= i < |splits| ==> ExactSplit(config.fee, splits[i].gross, tiers[i], splits[i])
    ensures Pays(config, rows, amount, held, start, end, Residue(amount, listing))
  {
    ListedRowsPay(config, r, amount, held, start, end, listing, splits, tiers, rows);
    ListedWallets(held, start, end, listing, rows);
    if listing != [] {
      ListedSum(r, amount, listing, splits, rows);
    }
  }

  lemma AuditIsTold(r: nat, amount: nat, listing: seq<WindowRow>, splits: seq<Allocation>, rows: seq<AllocRow>)
    requires Lists(rows, r, listing, splits)
    ensures AuditTells(amount, rows, Residue(amount, listing), r, [AuditOf(r, amount, listing, splits)])
  {
    PartsOfSplits(rows, splits);
  }

  // The rows and the audit entry of reward `r` are those of the shares that were there when there were `k`, no
  // fewer than at the closure the allocation rests on.
  ghost predicate PaidBy(config: Config, s: State, r: nat, k: nat, residue: int)
    requires r < |s.rewards|
  {
    var amount, end := s.rewards[r].amount, s.rewards[r].daa;
    var start := if end < config.span then 0 else end - config.span;
    && r in s.basis && s.basis[r] <= k <= |s.shares|
    && Pays(config, RowsFor(s, r), amount, s.shares[..k], start, end, residue)
    && AuditTells(amount, RowsFor(s, r), residue, r, AuditFor(s, r))
  }

  lemma ListedIsPaid(config: Config, s: State, r: nat, k: nat, start: nat, listing: seq<WindowRow>,
                     splits: seq<Allocation>, tiers: seq<WalletTier>)
    requires r < |s.rewards| && r in s.basis && s.basis[r] <= k <= |s.shares|
    requires start == if s.rewards[r].daa < config.span then 0 else s.rewards[r].daa - config.span
    requires ListsShares(s.shares[..k], start, s.rewards[r].daa, listing)
    requires |tiers| == |splits| == |listing|
    requires forall i :: 0 <= i < |splits| ==> ExactSplit(config.fee, splits[i].gross, tiers[i], splits[i])
    requires Lists(RowsFor(s, r), r, listing, splits)
    requires AuditFor(s, r) == [AuditOf(r, s.rewards[r].amount, listing, splits)]
    requires listing != [] ==>
               TotalWeight(listing) > 0.0 && PropSplit(s.rewards[r].amount, listing, GrossOf(splits))
    ensures PaidBy(config, s, r, k, Residue(s.rewards[r].amount, listing))
  {
    var rows, amount, end := RowsFor(s, r), s.rewards[r].amount, s.rewards[r].daa;
    ListedPays(config, r, amount, s.shares[..k], start, end, listing, splits, tiers, rows);
    AuditIsTold(r, amount, listing, splits, rows);
  }

  /**
   In every run an allocated reward is paid by the shares that were in the table at some moment no earlier than
   the closure it rests on. Each contributing wallet has one row and no other wallet has any; the row carries its
   share of the window's difficulty, its part of the reward rounded down, the residue exactly if it is the
   smallest wallet id, and the exact fee split; together the rows come to the reward, and the one audit entry
   sums them.
   */
  lemma PaidByShares(config: Config, actions: seq<Action>, r: nat) returns (k: nat, residue: int)
    requires config.fee.Valid()
    requires r < |Run(config, INIT, actions).rewards| && Run(config, INIT, actions).rewards[r].isAllocated
    ensures PaidBy(config, Run(config, INIT, actions), r, k, residue)
  {
    var s := Run(config, INIT, actions);
    var listing, splits, tiers;
    k, listing, splits, tiers := AllocationIsProp(config, actions, r);
    residue := Residue(s.rewards[r].amount, listing);
    ListedIsPaid(config, s, r, k, SaturatingSub(s.rewards[r].daa, config.span), listing, splits, tiers);
  }

  // A row where it stands in the table is paid so.
  ghost predicate RowPaid(config: Config, s: State, row: AllocRow, k: nat, residue: int) {
    && row.reward < |s.rewards| && s.rewards[row.reward].isAllocated && k <= |s.shares|
    && var amount, end := s.rewards[row.reward].amount, s.rewards[row.reward].daa;
       var start := if end < config.span then 0 else end - config.span;
       RowPays(config, amount, s.shares[..k], start, end, residue, row)
  }

  lemma RowIsPaid(config: Config, s: State, i: nat, r: nat, k: nat, residue: int)
    requires i < |s.rows| && r == s.rows[i].reward < |s.rewards| && s.rewards[r].isAllocated
    requires PaidBy(config, s, r, k, residue)
    ensures RowPaid(config, s, s.rows[i], k, residue)
  {
    var at := FilterFinds(s.rows, ForReward(r), i);
    assert RowsFor(s, r)[at] == s.rows[i];
  }

  lemma RowBelongs(config: Config, s: State, i: nat)
    requires Inv(config, s) && i < |s.rows|
    ensures s.rows[i].reward < |s.rewards| && s.rewards[s.rows[i].reward].isAllocated
  {
    var r := s.rows[i].reward;
    assert RewardOk(config, s, r);
    var at := FilterFinds(s.rows, ForReward(r), i);
  }

  /**
   In every run every row in the table belongs to an allocated reward and pays as that reward's shares call for.
   */
  lemma EveryRowPays(config: Config, actions: seq<Action>, i: nat) returns (k: nat, residue: int)
    requires config.fee.Valid() && i < |Run(config, INIT, actions).rows|
    ensures RowPaid(config, Run(config, INIT, actions), Run(config, INIT, actions).rows[i], k, residue)
  {
    var s := Run(config, INIT, actions);
    RunKeepsInv(config, actions);
    RowBelongs(config, s, i);
    k, residue := PaidByShares(config, actions, s.rows[i].reward);
    RowIsPaid(config, s, i, s.rows[i].reward, k, residue);
  }
}

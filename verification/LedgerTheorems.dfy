/** The money-path guarantees, stated for every run of the ledger. */
module LedgerTheorems {
  import opened Wrappers
  import opened Sums
  import opened FeeModel
  import opened ProRata
  import opened ShareWindow
  import opened Ledger
  import opened LedgerSafety

  ghost function GrossTotal(rows: seq<AllocRow>): int {
    if rows == [] then 0 else rows[0].split.gross + GrossTotal(rows[1..])
  }

  lemma {:induction false} GrossTotalAppend(a: seq<AllocRow>, b: seq<AllocRow>)
    ensures GrossTotal(a + b) == GrossTotal(a) + GrossTotal(b)
  {
    if a == [] {
      assert a + b == b;
    } else {
      assert (a + b)[1..] == a[1..] + b;
      GrossTotalAppend(a[1..], b);
    }
  }

  lemma {:induction false} GrossTotalOfSplits(rows: seq<AllocRow>, splits: seq<Allocation>)
    requires |rows| == |splits| && forall i :: 0 <= i < |rows| ==> rows[i].split == splits[i]
    ensures GrossTotal(rows) == Sum(GrossOf(splits))
  {
    if rows != [] {
      assert GrossOf(splits)[1..] == GrossOf(splits[1..]);
      GrossTotalOfSplits(rows[1..], splits[1..]);
    }
  }

  // The rows are those of the listing, one for one: each wallet's own weight, out of the total, and split.
  ghost predicate Lists(rows: seq<AllocRow>, r: nat, listing: seq<WindowRow>, splits: seq<Allocation>) {
    && |rows| == |listing| == |splits|
    && forall i :: 0 <= i < |rows| ==>
                     && rows[i].reward == r && rows[i].wallet == listing[i].wallet
                     && rows[i].weight == listing[i].weight && rows[i].windowTotal == TotalWeight(listing)
                     && rows[i].split == splits[i]
  }

  lemma BuiltRowsList(r: nat, listing: seq<WindowRow>, splits: seq<Allocation>)
    requires |listing| == |splits|
    ensures Lists(BuildRows(r, listing, splits), r, listing, splits)
  {
  }

  // The rows of an allocated reward are a PROP split of it over the shares that were in the table at some
  // moment no earlier than when the allocating attempt closed the window: no share credited before that
  // closure is left out. Every contributing wallet has one row, the grosses divide the reward exactly, and
  // each row carries the exact fee split of its gross under some tier of its wallet.
  lemma AllocationIsProp(config: Config, actions: seq<Action>, r: nat)
    returns (k: nat, listing: seq<WindowRow>, splits: seq<Allocation>, tiers: seq<WalletTier>)
    requires config.fee.Valid()
    requires r < |Run(config, INIT, actions).rewards| && Run(config, INIT, actions).rewards[r].isAllocated
    ensures var s := Run(config, INIT, actions);
            var reward := s.rewards[r];
            && r in s.basis && s.basis[r] <= k <= |s.shares|
            && ListsShares(s.shares[..k], SaturatingSub(reward.daa, config.span), reward.daa, listing)
            && |tiers| == |splits| == |listing| && AllSplit(splits)
            && (forall i :: 0 <= i < |splits| ==> ExactSplit(config.fee, splits[i].gross, tiers[i], splits[i]))
            && RowsFor(s, r) == BuildRows(r, listing, splits) && Lists(RowsFor(s, r), r, listing, splits)
            && AuditFor(s, r) == [AuditOf(r, reward.amount, listing, splits)]
            && (listing != [] ==>
                  && TotalWeight(listing) > 0.0
                  && PropSplit(reward.amount, listing, GrossOf(splits)))
  {
    var s := Run(config, INIT, actions);
    RunKeepsInv(config, actions);
    assert RewardOk(config, s, r);
    var reward := s.rewards[r];
    listing, splits :| Explained(config, s, r, listing, splits);
    var start := SaturatingSub(reward.daa, config.span);
    k :| s.basis[r] <= k <= |s.shares| && ListsShares(s.shares[..k], start, reward.daa, listing);
    ComputedSplits(config, s.shares, s.basis[r], start, reward.daa, reward.amount, listing, splits);
    ListedWeightsPositive(s.shares, s.basis[r], start, reward.daa, listing);
    tiers := ExactSplits(config, reward.amount, listing, splits);
    BuiltRowsList(r, listing, splits);
    if listing != [] {
      GrossesArePropSplit(reward.amount, listing);
    }
  }

  // The tiers behind a computation, and the exact fee split of each gross under its tier.
  lemma ExactSplits(config: Config, amount: nat, listing: seq<WindowRow>, splits: seq<Allocation>)
    returns (tiers: seq<WalletTier>)
    requires config.fee.Valid() && Computed(config, amount, listing, splits) && NonNegative(listing)
    requires listing != [] ==> TotalWeight(listing) > 0.0
    ensures |tiers| == |splits|
    ensures forall i :: 0 <= i < |splits| ==> ExactSplit(config.fee, splits[i].gross, tiers[i], splits[i])
  {
    if listing == [] {
      tiers := [];
    } else {
      tiers :| SplitsAre(config, amount, listing, tiers, splits);
      GrossesArePropSplit(amount, listing);
      SplitGrossesOutcome(config.fee, Grosses(amount, listing), tiers);
    }
  }

  // ---- the closure behind an allocation ------------------------------------------------------------

  // Action n closed the window of reward r for some attempt, when `seen` shares were in the table.
  ghost predicate ClosedAtAction(config: Config, actions: seq<Action>, n: nat, r: nat, seen: nat) {
    && n < |actions| && actions[n].CloseFor?
    && var s, a := Run(config, INIT, actions[..n]), actions[n].attempt;
       && a in s.attempts && s.attempts[a].Started? && s.attempts[a].reward == r
       && s.attempts[a].start < s.attempts[a].end
       && |s.shares| == seen
  }

  ghost predicate ClosedInRun(config: Config, actions: seq<Action>, r: nat, seen: nat) {
    exists n: nat :: ClosedAtAction(config, actions, n, r, seen)
  }

  ghost predicate ClosuresKnown(config: Config, actions: seq<Action>) {
    var s := Run(config, INIT, actions);
    && (forall a :: a in s.attempts && !s.attempts[a].Started? ==>
                      ClosedInRun(config, actions, s.attempts[a].reward, s.attempts[a].seen))
    && (forall r :: r in s.basis ==> ClosedInRun(config, actions, r, s.basis[r]))
  }

  lemma ClosedStays(config: Config, actions: seq<Action>, r: nat, seen: nat)
    requires actions != [] && ClosedInRun(config, actions[..|actions| - 1], r, seen)
    ensures ClosedInRun(config, actions, r, seen)
  {
    var init := actions[..|actions| - 1];
    var n: nat :| ClosedAtAction(config, init, n, r, seen);
    assert actions[..n] == init[..n];
    assert ClosedAtAction(config, actions, n, r, seen);
  }

  // An attempt past its closure keeps what it saw, or this action is its closure.
  ghost predicate SeenKept(s: State, action: Action, s': State, a: nat)
    requires a in s'.attempts && !s'.attempts[a].Started?
  {
    && a in s.attempts && s.attempts[a].reward == s'.attempts[a].reward
    && (if s.attempts[a].Started? then
          && action.CloseFor? && action.attempt == a
          && s.attempts[a].start < s.attempts[a].end && s'.attempts[a].seen == |s.shares|
        else s'.attempts[a].seen == s.attempts[a].seen)
  }

  // A basis stays, or this action commits an attempt that saw it.
  ghost predicate BasisKept(s: State, action: Action, s': State, r: nat)
    requires r in s'.basis
  {
    || (r in s.basis && s.basis[r] == s'.basis[r])
    || (action.Commit? && action.attempt in s.attempts && s.attempts[action.attempt].Ready?
        && s.attempts[action.attempt].reward == r && s.attempts[action.attempt].seen == s'.basis[r])
  }

  ghost predicate RecordsKept(s: State, action: Action, s': State) {
    && (forall a :: a in s'.attempts && !s'.attempts[a].Started? ==> SeenKept(s, action, s', a))
    && (forall r :: r in s'.basis ==> BasisKept(s, action, s', r))
  }

  lemma CloseIntoKeepsRecords(s: State, a: nat, now: int, closed: Rollups)
    requires a in s.attempts && s.attempts[a].Started?
    ensures RecordsKept(s, CloseFor(a, now), CloseInto(s, a, closed))
  {
  }

  lemma CommitKeepsRecords(s: State, a: nat)
    ensures RecordsKept(s, Commit(a), CommitFor(s, a))
  {
  }

  lemma SameRecords(s: State, action: Action, s': State)
    requires s'.basis == s.basis && s'.attempts == s.attempts
    ensures RecordsKept(s, action, s')
  {
  }

  lemma ReadKeepsRecords(s: State, a: nat, listing: seq<WindowRow>)
    ensures RecordsKept(s, ReadWindow(a, listing), ReadWindowFor(s, a, listing))
  {
  }

  lemma ComputeKeepsRecords(config: Config, s: State, a: nat, tiers: seq<WalletTier>)
    ensures RecordsKept(s, Compute(a, tiers), ComputeFor(config, s, a, tiers))
  {
  }

  lemma OtherStepsKeepRecords(config: Config, s: State, action: Action)
    requires !action.CloseFor? && !action.Commit?
    ensures RecordsKept(s, action, Step(config, s, action))
  {
    match action
    case ReadWindow(a, listing) => ReadKeepsRecords(s, a, listing);
    case Compute(a, tiers) => ComputeKeepsRecords(config, s, a, tiers);
    case Begin(_, _) =>
    case Crash(_) =>
    case _ => SameRecords(s, action, Step(config, s, action));
  }

  lemma StepOnClosures(config: Config, s: State, action: Action)
    ensures RecordsKept(s, action, Step(config, s, action))
  {
    if action.Commit? {
      CommitKeepsRecords(s, action.attempt);
    } else if !action.CloseFor? {
      OtherStepsKeepRecords(config, s, action);
    } else if action.attempt in s.attempts && s.attempts[action.attempt].Started? {
      var t := s.attempts[action.attempt];
      CloseIntoKeepsRecords(s, action.attempt, action.now, Closed(s.shares, s.rollups, t.start, t.end, action.now));
    }
  }

  /**
   In every run the basis of an allocated reward is the number of shares in the table at a closure of its
   window by an attempt for it.
   */
  lemma {:induction false} BasisWasClosed(config: Config, actions: seq<Action>)
    ensures ClosuresKnown(config, actions)
  {
    if actions != [] {
      BasisWasClosed(config, actions[..|actions| - 1]);
      ClosuresStep(config, actions);
    }
  }

  lemma ClosuresStep(config: Config, actions: seq<Action>)
    requires actions != [] && ClosuresKnown(config, actions[..|actions| - 1])
    ensures ClosuresKnown(config, actions)
  {
    var init, last := actions[..|actions| - 1], |actions| - 1;
    var s, s' := Run(config, INIT, init), Run(config, INIT, actions);
    StepOnClosures(config, s, actions[last]);
    forall a | a in s'.attempts && !s'.attempts[a].Started?
      ensures ClosedInRun(config, actions, s'.attempts[a].reward, s'.attempts[a].seen)
    {
      var t := s'.attempts[a];
      assert SeenKept(s, actions[last], s', a);
      if s.attempts[a].Started? {
        assert ClosedAtAction(config, actions, last, t.reward, t.seen);
      } else {
        ClosedStays(config, actions, t.reward, t.seen);
      }
    }
    forall r | r in s'.basis
      ensures ClosedInRun(config, actions, r, s'.basis[r])
    {
      assert BasisKept(s, actions[last], s', r);
      ClosedStays(config, actions, r, s'.basis[r]);
    }
  }

  ghost predicate Open(s: State, r: nat)
    requires r < |s.rewards|
  {
    !s.rewards[r].isAllocated && RowsFor(s, r) == [] && AuditFor(s, r) == []
  }

  ghost predicate RetainedByPool(s: State, r: nat)
    requires r < |s.rewards|
  {
    && s.rewards[r].isAllocated && RowsFor(s, r) == []
    && AuditFor(s, r) == [AuditEntry(r, s.rewards[r].amount, Retained)]
  }

  ghost predicate FullyDistributed(s: State, r: nat)
    requires r < |s.rewards|
  {
    && s.rewards[r].isAllocated && RowsFor(s, r) != []
    && GrossTotal(RowsFor(s, r)) == s.rewards[r].amount
    && |AuditFor(s, r)| == 1
    && var e := AuditFor(s, r)[0];
       && e.reward == r && e.amount == s.rewards[r].amount && e.kind.Distributed?
       && e.kind.wallets == |RowsFor(s, r)|
       && 0 <= e.kind.residue < e.kind.wallets
       && e.kind.totals.poolFee + e.kind.totals.nacho + e.kind.totals.net == s.rewards[r].amount
  }

  lemma DistributedFacts(s: State, r: nat, listing: seq<WindowRow>, splits: seq<Allocation>)
    requires r < |s.rewards| && s.rewards[r].isAllocated && listing != [] && |splits| == |listing| && AllSplit(splits)
    requires RowsFor(s, r) == BuildRows(r, listing, splits)
    requires AuditFor(s, r) == [AuditOf(r, s.rewards[r].amount, listing, splits)]
    requires NonNegative(listing) && TotalWeight(listing) > 0.0 && Sum(GrossOf(splits)) == s.rewards[r].amount
    ensures FullyDistributed(s, r)
  {
    GrossTotalOfSplits(RowsFor(s, r), splits);
    PartsAddUp(splits);
    ResidueRange(s.rewards[r].amount, listing);
  }

  // In every interleaving each reward is untouched, or fully distributed, or retained by the pool.
  lemma RewardTrichotomy(config: Config, actions: seq<Action>, r: nat)
    requires config.fee.Valid() && r < |Run(config, INIT, actions).rewards|
    ensures var s := Run(config, INIT, actions);
            Open(s, r) || RetainedByPool(s, r) || FullyDistributed(s, r)
  {
    var s := Run(config, INIT, actions);
    RunKeepsInv(config, actions);
    assert RewardOk(config, s, r);
    if s.rewards[r].isAllocated {
      var k, listing, splits, tiers := AllocationIsProp(config, actions, r);
      if listing != [] {
        PositiveListing(s.shares[..k], SaturatingSub(s.rewards[r].daa, config.span), s.rewards[r].daa, listing);
        DistributedFacts(s, r, listing, splits);
      }
    }
  }

  lemma PositiveListing(shares: seq<Share>, start: nat, end: nat, listing: seq<WindowRow>)
    requires ListsShares(shares, start, end, listing)
    ensures NonNegative(listing)
  {
  }

  // Every wallet's accrued rebate is the sum of the rebates over its rows.
  lemma AccrualMatchesRows(config: Config, actions: seq<Action>, w: WalletId)
    requires config.fee.Valid()
    ensures var s := Run(config, INIT, actions); AccruedOf(s.accrued, w) == RebateOf(s.rows, w)
  {
    RunKeepsInv(config, actions);
  }

  lemma {:induction false} FilterKeepsOrder<T(!new)>(s: seq<T>, p: T -> bool, i: nat, j: nat) returns (a: nat, b: nat)
    requires i < j < |s| && p(s[i]) && p(s[j])
    ensures a < b < |Filter(s, p)| && Filter(s, p)[a] == s[i] && Filter(s, p)[b] == s[j]
  {
    if i == 0 {
      var c := FilterFinds(s[1..], p, j - 1);
      a, b := 0, c + 1;
    } else {
      a, b := FilterKeepsOrder(s[1..], p, i - 1, j - 1);
      if p(s[0]) {
        a, b := a + 1, b + 1;
      }
    }
  }

  lemma {:induction false} FilterFinds<T(!new)>(s: seq<T>, p: T -> bool, j: nat) returns (b: nat)
    requires j < |s| && p(s[j])
    ensures b < |Filter(s, p)| && Filter(s, p)[b] == s[j]
  {
    if j == 0 {
      b := 0;
    } else {
      b := FilterFinds(s[1..], p, j - 1);
      if p(s[0]) {
        b := b + 1;
      }
    }
  }

  // The uniqueness constraint on (reward, wallet) is never violated: no wallet has two rows for a reward.
  lemma NoDoubleAllocation(config: Config, actions: seq<Action>, i: nat, j: nat)
    requires config.fee.Valid() && i < j < |Run(config, INIT, actions).rows|
    ensures var rows := Run(config, INIT, actions).rows;
            rows[i].reward == rows[j].reward ==> rows[i].wallet != rows[j].wallet
  {
    var s := Run(config, INIT, actions);
    var r := s.rows[i].reward;
    RunKeepsInv(config, actions);
    if s.rows[j].reward == r {
      var a, b := FilterKeepsOrder(s.rows, ForReward(r), i, j);
      assert RewardOk(config, s, r);
      var k, listing, splits, tiers := AllocationIsProp(config, actions, r);
      assert RowsFor(s, r)[a] == s.rows[i] && RowsFor(s, r)[b] == s.rows[j];
      assert listing[a].wallet != listing[b].wallet;
    }
  }

  // `s'` differs from `s` in reward `r` at most by the flag, and not at all once it is set.
  ghost predicate KeepsReward(s: State, s': State, r: nat)
    requires r < |s.rewards|
  {
    && r < |s'.rewards|
    && s'.rewards[r].(isAllocated := s.rewards[r].isAllocated) == s.rewards[r]
    && (s.rewards[r].isAllocated ==>
          s'.rewards[r].isAllocated && RowsFor(s', r) == RowsFor(s, r) && AuditFor(s', r) == AuditFor(s, r))
  }

  lemma CommitOnReward(s: State, a: nat, r: nat)
    requires r < |s.rewards|
    ensures KeepsReward(s, CommitFor(s, a), r)
  {
    if a in s.attempts && s.attempts[a].Ready? {
      var t := s.attempts[a];
      if |t.rows| == |t.splits| && t.reward < |s.rewards| && !s.rewards[t.reward].isAllocated {
        CommitRows(s, t.reward, t.amount, t.seen, t.rows, t.splits, r);
      }
    }
  }

  lemma SameTables(s: State, s': State, r: nat)
    requires r < |s.rewards| && s.rewards <= s'.rewards && s'.rows == s.rows && s'.audit == s.audit
    ensures KeepsReward(s, s', r)
  {
  }

  // What a step may do to a recorded reward: at most flip it to allocated, once, adding rows only then.
  lemma StepOnReward(config: Config, s: State, action: Action, r: nat)
    requires r < |s.rewards|
    ensures KeepsReward(s, Step(config, s, action), r)
  {
    if action.Commit? {
      CommitOnReward(s, action.attempt, r);
    } else {
      if action.Observe? {
        KnownGrows(config, action.virtualDaa, s.rewards, SweepStats(0, 0, 0), action.utxo);
      }
      SameTables(s, Step(config, s, action), r);
    }
  }

  // Once allocated, a reward's rows and audit entry never change again, whatever happens next.
  lemma {:induction false} AllocationIsPermanent(config: Config, s: State, actions: seq<Action>, r: nat)
    requires r < |s.rewards|
    ensures KeepsReward(s, Run(config, s, actions), r)
  {
    if actions != [] {
      AllocationIsPermanent(config, s, actions[..|actions| - 1], r);
      StepOnReward(config, Run(config, s, actions[..|actions| - 1]), actions[|actions| - 1], r);
    }
  }

  ghost predicate RecordsOutput(config: Config, action: Action, reward: Reward) {
    && action.Observe? && Eligible(config, action.virtualDaa, action.utxo)
    && reward.outpoint == action.utxo.outpoint && reward.amount == action.utxo.amount && reward.daa == action.utxo.daa
  }

  lemma NewRewardIsObserved(config: Config, s: State, action: Action, r: nat)
    requires |s.rewards| <= r < |Step(config, s, action).rewards|
    ensures RecordsOutput(config, action, Step(config, s, action).rewards[r])
  {
    assert action.Observe?;
    KnownGrows(config, action.virtualDaa, s.rewards, SweepStats(0, 0, 0), action.utxo);
  }

  // Each outpoint has at most one reward row, and it was put there by an observation of that very output
  // while it was mature and at or above the cut-over floor.
  lemma {:induction false} RewardWasObserved(config: Config, actions: seq<Action>, r: nat) returns (k: nat)
    requires config.fee.Valid() && r < |Run(config, INIT, actions).rewards|
    ensures DistinctOutpoints(Run(config, INIT, actions).rewards)
    ensures k < |actions| && RecordsOutput(config, actions[k], Run(config, INIT, actions).rewards[r])
  {
    RunKeepsInv(config, actions);
    var last := |actions| - 1;
    var before := Run(config, INIT, actions[..last]);
    if r < |before.rewards| {
      k := RewardWasObserved(config, actions[..last], r);
      StepOnReward(config, before, actions[last], r);
    } else {
      k := last;
      NewRewardIsObserved(config, before, actions[last], r);
    }
  }

  // In every run an observation of an eligible output leaves a reward for it, once, and one of any other
  // output, or of a known one, changes no reward.
  lemma EligibleIsRecorded(config: Config, actions: seq<Action>, virtualDaa: nat, u: Utxo)
    ensures var s, s' := Run(config, INIT, actions), Run(config, INIT, actions + [Observe(virtualDaa, u)]);
      if Eligible(config, virtualDaa, u) && (forall i :: 0 <= i < |s.rewards| ==> s.rewards[i].outpoint != u.outpoint)
      then s'.rewards == s.rewards + [Reward(u.outpoint, u.amount, u.daa, false)]
      else s'.rewards == s.rewards
  {
    assert (actions + [Observe(virtualDaa, u)])[..|actions|] == actions;
    KnownGrows(config, virtualDaa, Run(config, INIT, actions).rewards, SweepStats(0, 0, 0), u);
  }

  // ---- totals over the whole ledger -------------------------------------------------------------

  ghost function Amounts(rewards: seq<Reward>): int {
    if rewards == [] then 0 else Amounts(rewards[..|rewards| - 1]) + rewards[|rewards| - 1].amount
  }

  // Recorded value of the first `n` rewards that were distributed to wallets.
  ghost function DistributedValue(s: State, n: nat): int
    requires n <= |s.rewards|
  {
    if n == 0 then 0
    else DistributedValue(s, n - 1) + if RowsFor(s, n - 1) != [] then s.rewards[n - 1].amount else 0
  }

  ghost function GrossBelow(rows: seq<AllocRow>, n: nat): int {
    if rows == [] then 0 else (if rows[0].reward < n then rows[0].split.gross else 0) + GrossBelow(rows[1..], n)
  }

  lemma {:induction false} GrossBelowNext(rows: seq<AllocRow>, n: nat)
    ensures GrossBelow(rows, n + 1) == GrossBelow(rows, n) + GrossTotal(Filter(rows, ForReward(n)))
  {
    if rows != [] {
      GrossBelowNext(rows[1..], n);
      GrossTotalAppend([rows[0]], Filter(rows[1..], ForReward(n)));
    }
  }

  lemma {:induction false} GrossBelowAll(rows: seq<AllocRow>, n: nat)
    requires forall i :: 0 <= i < |rows| ==> rows[i].reward < n
    ensures GrossBelow(rows, n) == GrossTotal(rows)
  {
    if rows != [] {
      GrossBelowAll(rows[1..], n);
    }
  }

  lemma {:induction false} GrossBelowNone(rows: seq<AllocRow>)
    ensures GrossBelow(rows, 0) == 0
  {
    if rows != [] {
      GrossBelowNone(rows[1..]);
    }
  }

  lemma {:induction false} DistributedPrefix(config: Config, actions: seq<Action>, n: nat)
    requires config.fee.Valid() && n <= |Run(config, INIT, actions).rewards|
    ensures var s := Run(config, INIT, actions);
            && GrossBelow(s.rows, n) == DistributedValue(s, n) <= Amounts(s.rewards[..n])
  {
    var s := Run(config, INIT, actions);
    if n == 0 {
      GrossBelowNone(s.rows);
    } else {
      DistributedPrefix(config, actions, n - 1);
      RewardTrichotomy(config, actions, n - 1);
      DistributedNext(s, n - 1);
    }
  }

  lemma AmountsNext(rewards: seq<Reward>, n: nat)
    requires n < |rewards|
    ensures Amounts(rewards[..n + 1]) == Amounts(rewards[..n]) + rewards[n].amount
  {
    assert rewards[..n + 1][..n] == rewards[..n];
  }

  lemma DistributedNext(s: State, n: nat)
    requires n < |s.rewards| && (Open(s, n) || RetainedByPool(s, n) || FullyDistributed(s, n))
    requires GrossBelow(s.rows, n) == DistributedValue(s, n) <= Amounts(s.rewards[..n])
    ensures GrossBelow(s.rows, n + 1) == DistributedValue(s, n + 1) <= Amounts(s.rewards[..n + 1])
  {
    GrossBelowNext(s.rows, n);
    AmountsNext(s.rewards, n);
  }

  // Conservation: the gross value of all rows is exactly the value of the distributed rewards, and never
  // more than what was recorded.
  lemma ValueIsConserved(config: Config, actions: seq<Action>)
    requires config.fee.Valid()
    ensures var s := Run(config, INIT, actions);
            GrossTotal(s.rows) == DistributedValue(s, |s.rewards|) <= Amounts(s.rewards)
  {
    var s := Run(config, INIT, actions);
    RunKeepsInv(config, actions);
    GrossBelowAll(s.rows, |s.rewards|);
    DistributedPrefix(config, actions, |s.rewards|);
    assert s.rewards[..|s.rewards|] == s.rewards;
  }

  // ---- when a reward can be allocated at all ----------------------------------------------------

  // The window of a reward at DAA score zero, or under a zero span, is empty and closing it is an
  // error: such a reward stays open in every run.
  lemma AllocatedHasWindow(config: Config, actions: seq<Action>, r: nat)
    requires config.fee.Valid() && r < |Run(config, INIT, actions).rewards|
    ensures var s := Run(config, INIT, actions);
            s.rewards[r].isAllocated ==> s.rewards[r].daa >= 1 && config.span >= 1
  {
    var s := Run(config, INIT, actions);
    RunKeepsInv(config, actions);
    assert RewardOk(config, s, r);
    if s.rewards[r].isAllocated {
      var listing: seq<WindowRow>, splits: seq<Allocation> :| Explained(config, s, r, listing, splits);
    }
  }

  ghost function AttemptActions(a: nat, r: nat, now: int, listing: seq<WindowRow>, tiers: seq<WalletTier>)
    : seq<Action>
  {
    [Begin(a, r), CloseFor(a, now), ReadWindow(a, listing), Compute(a, tiers), Commit(a)]
  }

  ghost predicate CanAttempt(config: Config, s: State, a: nat, r: nat, now: int, listing: seq<WindowRow>,
                             tiers: seq<WalletTier>)
  {
    && a !in s.attempts && r < |s.rewards| && !s.rewards[r].isAllocated
    && s.rewards[r].daa >= 1 && config.span >= 1
    && |tiers| == |listing|
    && var start, end := SaturatingSub(s.rewards[r].daa, config.span), s.rewards[r].daa;
       IsListing(Closed(s.shares, s.rollups, start, end, now), start, end, listing)
  }

  // The split of the reward over the listing, if it fits 64 bits.
  ghost function SplitOf(config: Config, amount: nat, listing: seq<WindowRow>, tiers: seq<WalletTier>)
    : Result<seq<Allocation>, AllocationError>
    requires |tiers| == |listing|
  {
    if listing == [] then Ok([]) else SplitGrosses(config.fee, Grosses(amount, listing), tiers)
  }

  // The commit of a listed window, unless the split failed.
  ghost function Committed(config: Config, s: State, r: nat, amount: nat, listing: seq<WindowRow>,
                           tiers: seq<WalletTier>): State
    requires |tiers| == |listing|
  {
    var split := SplitOf(config, amount, listing, tiers);
    if split.Ok? && |split.value| == |listing| then CommitTx(s, r, amount, |s.shares|, listing, split.value) else s
  }

  // What one call of the engine leaves: the closed window, and then the commit.
  ghost function EngineCall(config: Config, s: State, r: nat, amount: nat, start: nat, end: nat, now: int,
                            listing: seq<WindowRow>, tiers: seq<WalletTier>): State
    requires |tiers| == |listing|
  {
    if end <= start then s else Committed(config, CloseTx(s, start, end, now), r, amount, listing, tiers)
  }

  // The call for a recorded reward: its own amount, over the window that ends at its DAA score.
  ghost function AttemptResult(config: Config, s: State, r: nat, now: int, listing: seq<WindowRow>,
                               tiers: seq<WalletTier>): State
    requires r < |s.rewards| && |tiers| == |listing|
  {
    EngineCall(config, s, r, s.rewards[r].amount, SaturatingSub(s.rewards[r].daa, config.span), s.rewards[r].daa, now,
               listing, tiers)
  }

  lemma WithTwice(s: State, a: nat, x: Attempt, y: Attempt)
    ensures With(With(s, a, x), a, y) == With(s, a, y)
  {
    assert s.attempts[a := x][a := y] == s.attempts[a := y];
  }

  lemma DropWith(s: State, a: nat, x: Attempt)
    requires a !in s.attempts
    ensures Drop(With(s, a, x), a) == s
  {
    assert s.attempts[a := x] - {a} == s.attempts;
  }

  lemma CloseIs(s: State, a: nat, now: int, closed: Rollups)
    requires a in s.attempts && s.attempts[a].Started?
    requires closed == Closed(s.shares, s.rollups, s.attempts[a].start, s.attempts[a].end, now)
    ensures CloseWindowFor(s, a, now) == CloseInto(s, a, closed)
  {
  }

  lemma CloseStep(s: State, a: nat, t: Attempt, closed: Rollups)
    requires t.Started? && t.start < t.end
    ensures CloseInto(With(s, a, t), a, closed)
         == With(WithClosure(s, t.start, t.end, closed), a,
                 WindowClosed(t.reward, t.amount, t.start, t.end, |s.shares|))
  {
    WithTwice(WithClosure(s, t.start, t.end, closed), a, t,
              WindowClosed(t.reward, t.amount, t.start, t.end, |s.shares|));
  }

  lemma ReadStep(s: State, a: nat, t: Attempt, listing: seq<WindowRow>)
    requires t.WindowClosed? && IsListing(s.rollups, t.start, t.end, listing)
    ensures ReadWindowFor(With(s, a, t), a, listing)
         == With(s, a, WindowRead(t.reward, t.amount, t.start, t.end, t.seen, listing))
  {
    WithTwice(s, a, t, WindowRead(t.reward, t.amount, t.start, t.end, t.seen, listing));
  }

  // The last two steps: a split that fails drops the attempt, one that succeeds is committed.
  lemma ComputeAndCommit(config: Config, s: State, a: nat, t: Attempt, tiers: seq<WalletTier>)
    requires a !in s.attempts && t.WindowRead? && |tiers| == |t.rows| && (t.rows != [] ==> TotalWeight(t.rows) > 0.0)
    ensures var split := SplitOf(config, t.amount, t.rows, tiers);
      CommitFor(ComputeFor(config, With(s, a, t), a, tiers), a)
      == if split.Ok? && |split.value| == |t.rows|
         then CommitTx(s, t.reward, t.amount, t.seen, t.rows, split.value) else s
  {
    var split := SplitOf(config, t.amount, t.rows, tiers);
    if split.Ok? {
      if t.rows != [] {
        SplitLength(config.fee, Grosses(t.amount, t.rows), tiers);
      }
      var ready := Ready(t.reward, t.amount, t.start, t.end, t.seen, t.rows, split.value);
      WithTwice(s, a, t, ready);
      CommitWith(s, a, ready);
    } else {
      DropWith(s, a, t);
    }
  }

  lemma CommitWith(s: State, a: nat, t: Attempt)
    requires a !in s.attempts && t.Ready? && |t.rows| == |t.splits|
    ensures CommitFor(With(s, a, t), a) == CommitTx(s, t.reward, t.amount, t.seen, t.rows, t.splits)
  {
    DropWith(CommitTx(s, t.reward, t.amount, t.seen, t.rows, t.splits), a, t);
  }

  lemma ClosedListing(s: State, start: nat, end: nat, now: int, listing: seq<WindowRow>)
    requires SnapshotsAt(s.shares, s.rollups, s.closures)
    requires IsListing(Closed(s.shares, s.rollups, start, end, now), start, end, listing)
    ensures ListsPrefix(s.shares, |s.shares|, start, end, listing)
    ensures NonNegative(listing) && (listing != [] ==> TotalWeight(listing) > 0.0)
  {
    ClosedKeepsSnapshotsAt(s.shares, s.rollups, s.closures, start, end, now);
    ListingIsSnapshot(s.shares, Closed(s.shares, s.rollups, start, end, now), s.closures[(start, end) := |s.shares|],
                      |s.shares|, start, end, listing);
    ListedWeightsPositive(s.shares, |s.shares|, start, end, listing);
  }

  lemma RunNext(config: Config, s: State, actions: seq<Action>, action: Action)
    ensures Run(config, s, actions + [action]) == Step(config, Run(config, s, actions), action)
  {
    assert (actions + [action])[..|actions|] == actions;
  }

  lemma BeginAction(config: Config, s: State, a: nat, r: nat)
    requires a !in s.attempts && r < |s.rewards| && !s.rewards[r].isAllocated
    ensures Run(config, s, [Begin(a, r)])
         == With(s, a, Started(r, s.rewards[r].amount, SaturatingSub(s.rewards[r].daa, config.span), s.rewards[r].daa))
  {
    assert [Begin(a, r)][..0] == [];
  }

  lemma CloseOpensNext(s: State, a: nat, t: Attempt, now: int, closed: Rollups, next: State)
    requires t.Started? && t.start < t.end && closed == Closed(s.shares, s.rollups, t.start, t.end, now)
    requires next == With(WithClosure(s, t.start, t.end, closed), a,
                          WindowClosed(t.reward, t.amount, t.start, t.end, |s.shares|))
    ensures CloseWindowFor(With(s, a, t), a, now) == next
  {
    CloseIs(With(s, a, t), a, now, closed);
    CloseStep(s, a, t, closed);
  }

  lemma CloseAction(config: Config, s: State, a: nat, now: int, next: State)
    requires CloseWindowFor(s, a, now) == next
    ensures Step(config, s, CloseFor(a, now)) == next
  {
  }

  lemma ReadAction(config: Config, s: State, a: nat, t: Attempt, listing: seq<WindowRow>)
    requires t.WindowClosed? && IsListing(s.rollups, t.start, t.end, listing)
    ensures Step(config, With(s, a, t), ReadWindow(a, listing))
         == With(s, a, WindowRead(t.reward, t.amount, t.start, t.end, t.seen, listing))
  {
    ReadStep(s, a, t, listing);
  }

  lemma ThreeActions(config: Config, s: State, first: Action, second: Action, third: Action,
                     s1: State, s2: State, s3: State)
    requires Run(config, s, [first]) == s1 && Step(config, s1, second) == s2 && Step(config, s2, third) == s3
    ensures Run(config, s, [first, second, third]) == s3
  {
    RunNext(config, s, [first], second);
    RunNext(config, s, [first, second], third);
    assert [first] + [second] == [first, second] && [first, second] + [third] == [first, second, third];
  }

  // The machine's attempt up to the read: the window is closed and listed, nothing else has changed.
  lemma AttemptReads(config: Config, s: State, a: nat, r: nat, now: int, listing: seq<WindowRow>,
                     tiers: seq<WalletTier>)
    requires CanAttempt(config, s, a, r, now, listing, tiers)
    ensures var amount, end := s.rewards[r].amount, s.rewards[r].daa;
      var start := SaturatingSub(end, config.span);
      Run(config, s, [Begin(a, r), CloseFor(a, now), ReadWindow(a, listing)])
      == With(CloseTx(s, start, end, now), a, WindowRead(r, amount, start, end, |s.shares|, listing))
  {
    var amount, start, end := s.rewards[r].amount, SaturatingSub(s.rewards[r].daa, config.span), s.rewards[r].daa;
    var base, t1 := CloseTx(s, start, end, now), Started(r, amount, start, end);
    var t2 := WindowClosed(r, amount, start, end, |s.shares|);
    var t3 := WindowRead(r, amount, start, end, |s.shares|, listing);
    BeginAction(config, s, a, r);
    CloseOpensNext(s, a, t1, now, Closed(s.shares, s.rollups, start, end, now), With(base, a, t2));
    CloseAction(config, With(s, a, t1), a, now, With(base, a, t2));
    ReadAction(config, base, a, t2, listing);
    ThreeActions(config, s, Begin(a, r), CloseFor(a, now), ReadWindow(a, listing),
                 With(s, a, t1), With(base, a, t2), With(base, a, t3));
  }

  lemma ComputeAndCommitRun(config: Config, s: State, actions: seq<Action>, a: nat, tiers: seq<WalletTier>)
    ensures Run(config, s, actions + [Compute(a, tiers), Commit(a)])
         == CommitFor(ComputeFor(config, Run(config, s, actions), a, tiers), a)
  {
    RunNext(config, s, actions, Compute(a, tiers));
    RunNext(config, s, actions + [Compute(a, tiers)], Commit(a));
    assert actions + [Compute(a, tiers)] + [Commit(a)] == actions + [Compute(a, tiers), Commit(a)];
  }

  // Run on its own, the machine's attempt is the engine's call.
  lemma AttemptRuns(config: Config, s: State, a: nat, r: nat, now: int, listing: seq<WindowRow>, tiers: seq<WalletTier>)
    requires SnapshotsAt(s.shares, s.rollups, s.closures) && CanAttempt(config, s, a, r, now, listing, tiers)
    ensures Run(config, s, AttemptActions(a, r, now, listing, tiers))
         == AttemptResult(config, s, r, now, listing, tiers)
  {
    var amount, start, end := s.rewards[r].amount, SaturatingSub(s.rewards[r].daa, config.span), s.rewards[r].daa;
    var first := [Begin(a, r), CloseFor(a, now), ReadWindow(a, listing)];
    AttemptReads(config, s, a, r, now, listing, tiers);
    ComputeAndCommitRun(config, s, first, a, tiers);
    assert first + [Compute(a, tiers), Commit(a)] == AttemptActions(a, r, now, listing, tiers);
    ClosedListing(s, start, end, now, listing);
    ComputeAndCommit(config, CloseTx(s, start, end, now), a,
                     WindowRead(r, amount, start, end, |s.shares|, listing), tiers);
  }

  // Every gross times the rate fits 64 bits.
  ghost predicate SplitFits(config: Config, amount: nat, listing: seq<WindowRow>)
    requires listing != []
  {
    forall i :: 0 <= i < |listing| ==> Grosses(amount, listing)[i] * config.fee.toplineBps <= I64_MAX
  }

  lemma SplitSucceedsIffFits(config: Config, amount: nat, listing: seq<WindowRow>, tiers: seq<WalletTier>)
    requires config.fee.Valid() && |tiers| == |listing|
    requires NonNegative(listing) && (listing != [] ==> TotalWeight(listing) > 0.0)
    ensures var split := SplitOf(config, amount, listing, tiers);
      (split.Ok? && |split.value| == |listing|) <==> (listing == [] || SplitFits(config, amount, listing))
  {
    if listing != [] {
      GrossesArePropSplit(amount, listing);
      SplitGrossesOutcome(config.fee, Grosses(amount, listing), tiers);
    }
  }

  /**
   From every reachable state, an attempt that nobody disturbs allocates an open reward with a window
   exactly when no wallet contributed or every gross times the rate fits 64 bits; it is then retained or
   fully distributed, and otherwise stays open. This holds for every listing order and all tiers.
   */
  lemma UndisturbedAttemptAllocates(config: Config, actions: seq<Action>, a: nat, r: nat, now: int,
                                    listing: seq<WindowRow>, tiers: seq<WalletTier>)
    requires config.fee.Valid()
    requires CanAttempt(config, Run(config, INIT, actions), a, r, now, listing, tiers)
    ensures var s := Run(config, INIT, actions);
            var s' := Run(config, INIT, actions + AttemptActions(a, r, now, listing, tiers));
            && r < |s'.rewards|
            && (if listing == [] then RetainedByPool(s', r)
                else if SplitFits(config, s.rewards[r].amount, listing) then FullyDistributed(s', r)
                else Open(s', r))
  {
    var s := Run(config, INIT, actions);
    var all := AttemptActions(a, r, now, listing, tiers);
    RunKeepsInv(config, actions);
    RunAppend(config, INIT, actions, all);
    AttemptRuns(config, s, a, r, now, listing, tiers);
    AttemptResultFlag(config, s, r, now, listing, tiers);
    RewardTrichotomy(config, actions, r);
    RewardTrichotomy(config, actions + all, r);
  }

  lemma AttemptResultFlag(config: Config, s: State, r: nat, now: int, listing: seq<WindowRow>, tiers: seq<WalletTier>)
    requires Inv(config, s) && config.fee.Valid() && (exists a :: CanAttempt(config, s, a, r, now, listing, tiers))
    ensures var s' := AttemptResult(config, s, r, now, listing, tiers);
      && |s'.rewards| == |s.rewards|
      && (s'.rewards[r].isAllocated <==> listing == [] || SplitFits(config, s.rewards[r].amount, listing))
      && (s'.rewards[r].isAllocated ==> |RowsFor(s', r)| == |listing|)
  {
    var amount, start, end := s.rewards[r].amount, SaturatingSub(s.rewards[r].daa, config.span), s.rewards[r].daa;
    ClosedListing(s, start, end, now, listing);
    SplitSucceedsIffFits(config, amount, listing, tiers);
    assert RewardOk(config, s, r);
    CommittedFlag(config, CloseTx(s, start, end, now), r, amount, listing, tiers);
  }

  lemma CommittedFlag(config: Config, s: State, r: nat, amount: nat, listing: seq<WindowRow>, tiers: seq<WalletTier>)
    requires r < |s.rewards| && !s.rewards[r].isAllocated && RowsFor(s, r) == [] && |tiers| == |listing|
    ensures var s', split := Committed(config, s, r, amount, listing, tiers), SplitOf(config, amount, listing, tiers);
      && |s'.rewards| == |s.rewards|
      && (s'.rewards[r].isAllocated <==> split.Ok? && |split.value| == |listing|)
      && (s'.rewards[r].isAllocated ==> |RowsFor(s', r)| == |listing|)
  {
    var split := SplitOf(config, amount, listing, tiers);
    if split.Ok? && |split.value| == |listing| {
      CommitRows(s, r, amount, |s.shares|, listing, split.value, r);
    }
  }
}

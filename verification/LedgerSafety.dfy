/** What every run of the ledger keeps, and what follows for the money. */
module LedgerSafety {
  import opened Sums
  import opened FeeModel
  import opened ProRata
  import opened ShareWindow
  import opened Ledger

  // ---- listings ----------------------------------------------------------------------------------

  lemma PrefixGrows(shares: seq<Share>, seen: nat, s: Share, start: nat, end: nat, listing: seq<WindowRow>)
    requires ListsPrefix(shares, seen, start, end, listing)
    ensures ListsPrefix(shares + [s], seen, start, end, listing)
  {
    var k :| seen <= k <= |shares| && ListsShares(shares[..k], start, end, listing);
    assert (shares + [s])[..k] == shares[..k];
  }

  // What a read of the window returns is the exact PROP weighting of the shares at its last closure.
  lemma ListingIsSnapshot(shares: seq<Share>, rollups: Rollups, closures: ClosureMap, seen: nat, start: nat, end: nat,
                          listing: seq<WindowRow>)
    requires SnapshotsAt(shares, rollups, closures) && IsListing(rollups, start, end, listing)
    requires seen <= ClosedAt(closures, start, end)
    ensures ListsPrefix(shares, seen, start, end, listing)
  {
    var k := ClosedAt(closures, start, end);
    assert SnapshotAt(shares, rollups, closures, start, end);
    RowsListed(shares[..k], rollups, start, end, listing);
  }

  lemma RowsListed(shares: seq<Share>, rollups: Rollups, start: nat, end: nat, listing: seq<WindowRow>)
    requires RowsAre(shares, rollups, start, end) && IsListing(rollups, start, end, listing)
    ensures ListsShares(shares, start, end, listing)
  {
    forall i | 0 <= i < |listing|
      ensures CountIn(shares, listing[i].wallet, start, end) > 0
      ensures listing[i].weight == WeightIn(shares, listing[i].wallet, start, end) > 0.0
    {
      assert Key(listing[i].wallet, start, end) in rollups;
      GroupByWalletIsPerWallet(shares, start, end, listing[i].wallet);
    }
    forall w: WalletId | CountIn(shares, w, start, end) > 0
      ensures HasWallet(listing, w)
    {
      assert Key(w, start, end) in rollups;
    }
  }

  lemma {:induction false} PositiveTotal(listing: seq<WindowRow>)
    requires forall i :: 0 <= i < |listing| ==> listing[i].weight > 0.0
    ensures listing != [] ==> TotalWeight(listing) > 0.0
    ensures TotalWeight(listing) >= 0.0
  {
    if listing != [] {
      PositiveTotal(listing[1..]);
    }
  }

  // The zero-weight error is unreachable: a listed window never has a total that is not positive.
  lemma ListedWeightsPositive(shares: seq<Share>, seen: nat, start: nat, end: nat, listing: seq<WindowRow>)
    requires ListsPrefix(shares, seen, start, end, listing)
    ensures NonNegative(listing) && DistinctWallets(listing)
    ensures listing != [] ==> TotalWeight(listing) > 0.0
  {
    var k :| seen <= k <= |shares| && ListsShares(shares[..k], start, end, listing);
    PositiveTotal(listing);
  }

  // ---- the computed split of one reward ---------------------------------------------------------

  lemma ComputedSplits(config: Config, shares: seq<Share>, seen: nat, start: nat, end: nat, amount: nat,
                       rows: seq<WindowRow>, splits: seq<Allocation>)
    requires config.fee.Valid() && ListsPrefix(shares, seen, start, end, rows) && Computed(config, amount, rows, splits)
    ensures AllSplit(splits)
    ensures rows != [] ==> GrossOf(splits) == Grosses(amount, rows) && Sum(GrossOf(splits)) == amount
  {
    if rows != [] {
      ListedWeightsPositive(shares, seen, start, end, rows);
      GrossesArePropSplit(amount, rows);
      var tiers: seq<WalletTier> :| SplitsAre(config, amount, rows, tiers, splits);
      SplitGrossesOutcome(config.fee, Grosses(amount, rows), tiers);
    }
  }

  // ---- rebate accrual ----------------------------------------------------------------------------

  lemma {:induction false} RebateAppend(a: seq<AllocRow>, b: seq<AllocRow>, w: WalletId)
    ensures RebateOf(a + b, w) == RebateOf(a, w) + RebateOf(b, w)
  {
    if a == [] {
      assert a + b == b;
    } else {
      assert (a + b)[1..] == a[1..] + b;
      RebateAppend(a[1..], b, w);
    }
  }

  lemma {:induction false} AccrueAddsRebates(accrued: map<WalletId, int>, rows: seq<AllocRow>, w: WalletId)
    requires forall i :: 0 <= i < |rows| ==> rows[i].split.nachoAccrual >= 0
    ensures AccruedOf(Accrue(accrued, rows), w) == AccruedOf(accrued, w) + RebateOf(rows, w)
  {
    if rows != [] {
      var last := |rows| - 1;
      AccrueAddsRebates(accrued, rows[..last], w);
      assert rows == rows[..last] + [rows[last]];
      RebateAppend(rows[..last], [rows[last]], w);
    }
  }

  // ---- every step keeps the invariant -----------------------------------------------------------

  // `s'` has the rows, audit entries and identity of reward `r` that `s` has, and no fewer shares.
  ghost predicate SameReward(s: State, s': State, r: nat) {
    && r < |s.rewards| && r < |s'.rewards| && s'.rewards[r] == s.rewards[r]
    && RowsFor(s', r) == RowsFor(s, r) && AuditFor(s', r) == AuditFor(s, r)
    && (r in s.basis ==> r in s'.basis && s'.basis[r] == s.basis[r])
    && (s'.shares == s.shares || exists x :: s'.shares == s.shares + [x])
  }

  lemma RewardOkFrame(config: Config, s: State, s': State, r: nat)
    requires SameReward(s, s', r) && RewardOk(config, s, r)
    ensures RewardOk(config, s', r)
  {
    if s.rewards[r].isAllocated {
      var listing: seq<WindowRow>, splits: seq<Allocation> :| Explained(config, s, r, listing, splits);
      if s'.shares != s.shares {
        var x :| s'.shares == s.shares + [x];
        PrefixGrows(s.shares, s.basis[r], x, SaturatingSub(s.rewards[r].daa, config.span), s.rewards[r].daa, listing);
      }
      assert Explained(config, s', r, listing, splits);
    }
  }

  lemma InsertKeeps(config: Config, s: State, x: Share)
    requires Inv(config, s)
    ensures Inv(config, s.(shares := s.shares + [x]))
  {
    var s' := s.(shares := s.shares + [x]);
    InsertKeepsSnapshotsAt(s.shares, s.rollups, s.closures, x);
    forall a | a in s'.attempts
      ensures AttemptOk(config, s', s'.attempts[a])
    {
      var t := s.attempts[a];
      assert AttemptOk(config, s, t);
      if t.WindowRead? || t.Ready? {
        PrefixGrows(s.shares, t.seen, x, t.start, t.end, t.rows);
      }
    }
    forall r | 0 <= r < |s'.rewards|
      ensures RewardOk(config, s', r)
    {
      assert SameReward(s, s', r);
      RewardOkFrame(config, s, s', r);
    }
  }

  lemma ObserveKeeps(config: Config, s: State, virtualDaa: nat, u: Utxo)
    requires Inv(config, s)
    ensures Inv(config, Step(config, s, Observe(virtualDaa, u)))
  {
    var s' := Step(config, s, Observe(virtualDaa, u));
    KnownGrows(config, virtualDaa, s.rewards, SweepStats(0, 0, 0), u);
    if s'.rewards != s.rewards {
      var n := |s.rewards|;
      assert DistinctOutpoints(s'.rewards);
      forall a | a in s'.attempts
        ensures AttemptOk(config, s', s'.attempts[a])
      {
        assert AttemptOk(config, s, s.attempts[a]);
      }
      forall r | 0 <= r < |s'.rewards|
        ensures RewardOk(config, s', r)
      {
        if r < n {
          assert SameReward(s, s', r);
          RewardOkFrame(config, s, s', r);
        } else {
          FilterNone(s.rows, ForReward(n));
          FilterNone(s.audit, AuditForReward(n));
        }
      }
    } else {
      assert s' == s;
    }
  }

  lemma AttemptsKeep(config: Config, s: State, attempts: map<nat, Attempt>)
    requires Inv(config, s)
    requires forall a :: a in attempts ==> AttemptOk(config, s, attempts[a])
    ensures Inv(config, s.(attempts := attempts))
  {
    var s' := s.(attempts := attempts);
    assert forall a :: a in attempts ==> AttemptOk(config, s', attempts[a]);
    forall r | 0 <= r < |s'.rewards|
      ensures RewardOk(config, s', r)
    {
      assert SameReward(s, s', r);
      RewardOkFrame(config, s, s', r);
    }
  }

  // No window moves back.
  ghost predicate MovedForward(before: ClosureMap, after: ClosureMap) {
    forall a: nat, b: nat :: ClosedAt(before, a, b) <= ClosedAt(after, a, b)
  }

  lemma MoveKeepsAttempt(config: Config, s: State, rollups: Rollups, closures: ClosureMap, t: Attempt)
    requires AttemptOk(config, s, t) && MovedForward(s.closures, closures)
    ensures AttemptOk(config, s.(rollups := rollups, closures := closures), t)
  {
    assert ClosedAt(s.closures, t.start, t.end) <= ClosedAt(closures, t.start, t.end);
  }

  lemma MoveKeeps(config: Config, s: State, rollups: Rollups, closures: ClosureMap)
    requires Inv(config, s) && SnapshotsAt(s.shares, rollups, closures) && MovedForward(s.closures, closures)
    ensures Inv(config, s.(rollups := rollups, closures := closures))
  {
    var s' := s.(rollups := rollups, closures := closures);
    forall a | a in s'.attempts
      ensures AttemptOk(config, s', s'.attempts[a])
    {
      MoveKeepsAttempt(config, s, rollups, closures, s.attempts[a]);
    }
    forall r | 0 <= r < |s'.rewards|
      ensures RewardOk(config, s', r)
    {
      assert SameReward(s, s', r);
      RewardOkFrame(config, s, s', r);
    }
  }

  lemma ClosureMovesForward(shares: seq<Share>, rollups: Rollups, closures: ClosureMap, start: nat, end: nat)
    requires SnapshotsAt(shares, rollups, closures)
    ensures MovedForward(closures, closures[(start, end) := |shares|])
  {
    assert SnapshotAt(shares, rollups, closures, start, end);
  }

  lemma CloseKeeps(config: Config, s: State, start: nat, end: nat, now: int)
    requires Inv(config, s)
    ensures Inv(config, CloseTx(s, start, end, now))
  {
    ClosedKeepsSnapshotsAt(s.shares, s.rollups, s.closures, start, end, now);
    ClosureMovesForward(s.shares, s.rollups, s.closures, start, end);
    MoveKeeps(config, s, Closed(s.shares, s.rollups, start, end, now), s.closures[(start, end) := |s.shares|]);
  }

  lemma AttemptKeeps(config: Config, s: State, a: nat, t: Attempt)
    requires Inv(config, s) && AttemptOk(config, s, t)
    ensures Inv(config, With(s, a, t))
  {
    AttemptsKeep(config, s, s.attempts[a := t]);
  }

  lemma DropKeeps(config: Config, s: State, a: nat)
    requires Inv(config, s)
    ensures Inv(config, Drop(s, a))
  {
    AttemptsKeep(config, s, s.attempts - {a});
  }

  lemma BeginKeeps(config: Config, s: State, a: nat, r: nat)
    requires Inv(config, s)
    ensures Inv(config, BeginAttempt(config, s, a, r))
  {
    var s' := BeginAttempt(config, s, a, r);
    if s' != s {
      AttemptKeeps(config, s, a, s'.attempts[a]);
    }
  }

  lemma CloseForKeeps(config: Config, s: State, a: nat, now: int)
    requires Inv(config, s)
    ensures Inv(config, CloseWindowFor(s, a, now))
  {
    if a in s.attempts && s.attempts[a].Started? {
      var t := s.attempts[a];
      assert AttemptOk(config, s, t);
      if t.end <= t.start {
        DropKeeps(config, s, a);
      } else {
        CloseKeeps(config, s, t.start, t.end, now);
        AttemptKeeps(config, CloseTx(s, t.start, t.end, now), a,
                     WindowClosed(t.reward, t.amount, t.start, t.end, |s.shares|));
      }
    }
  }

  lemma ReadKeeps(config: Config, s: State, a: nat, listing: seq<WindowRow>)
    requires Inv(config, s)
    ensures Inv(config, ReadWindowFor(s, a, listing))
  {
    if a in s.attempts && s.attempts[a].WindowClosed? {
      var t := s.attempts[a];
      assert AttemptOk(config, s, t);
      if IsListing(s.rollups, t.start, t.end, listing) {
        ListingIsSnapshot(s.shares, s.rollups, s.closures, t.seen, t.start, t.end, listing);
        AttemptKeeps(config, s, a, WindowRead(t.reward, t.amount, t.start, t.end, t.seen, listing));
      }
    }
  }

  lemma ComputeGivesOk(config: Config, s: State, t: Attempt, tiers: seq<WalletTier>)
    requires AttemptOk(config, s, t) && t.WindowRead? && (t.rows != [] ==> |tiers| == |t.rows|)
    ensures var r := ComputeAttempt(config, t, tiers); r.Some? ==> r.value.Ready? && AttemptOk(config, s, r.value)
  {
    var r := ComputeAttempt(config, t, tiers);
    if r.Some? && t.rows != [] {
      SplitLength(config.fee, Grosses(t.amount, t.rows), tiers);
      assert SplitsAre(config, t.amount, t.rows, tiers, r.value.splits);
    }
  }

  lemma ComputeKeeps(config: Config, s: State, a: nat, tiers: seq<WalletTier>)
    requires Inv(config, s)
    ensures Inv(config, ComputeFor(config, s, a, tiers))
  {
    if a in s.attempts && s.attempts[a].WindowRead? {
      var t := s.attempts[a];
      assert AttemptOk(config, s, t);
      if t.rows == [] || |tiers| == |t.rows| {
        ComputeGivesOk(config, s, t, tiers);
        match ComputeAttempt(config, t, tiers)
        case None => DropKeeps(config, s, a);
        case Some(t') => AttemptKeeps(config, s, a, t');
      }
    }
  }

  lemma {:induction false} SplitLength(fee: FeeConfig, grosses: seq<int>, tiers: seq<WalletTier>)
    requires |grosses| == |tiers|
    ensures var r := SplitGrosses(fee, grosses, tiers); r.Ok? ==> |r.value| == |grosses|
  {
    if grosses != [] {
      SplitLength(fee, grosses[..|grosses| - 1], tiers[..|grosses| - 1]);
    }
  }

  lemma BuiltRowsFilter(reward: nat, rows: seq<WindowRow>, splits: seq<Allocation>, r: nat)
    requires |rows| == |splits|
    ensures Filter(BuildRows(reward, rows, splits), ForReward(r))
         == if r == reward then BuildRows(reward, rows, splits) else []
  {
    var added := BuildRows(reward, rows, splits);
    if r == reward {
      FilterAll(added, ForReward(r));
    } else {
      FilterNone(added, ForReward(r));
    }
  }

  // The rows a commit adds belong to its reward alone.
  lemma CommitRows(s: State, reward: nat, amount: nat, seen: nat, rows: seq<WindowRow>, splits: seq<Allocation>, r: nat)
    requires |rows| == |splits| && reward < |s.rewards| && !s.rewards[reward].isAllocated
    ensures var s' := CommitTx(s, reward, amount, seen, rows, splits);
            && RowsFor(s', r) == RowsFor(s, r) + (if r == reward then BuildRows(reward, rows, splits) else [])
            && AuditFor(s', r) == AuditFor(s, r) + (if r == reward then [AuditOf(reward, amount, rows, splits)] else [])
  {
    var entry := AuditOf(reward, amount, rows, splits);
    FilterAppend(s.rows, BuildRows(reward, rows, splits), ForReward(r));
    BuiltRowsFilter(reward, rows, splits, r);
    FilterAppend(s.audit, [entry], AuditForReward(r));
    assert Filter([entry], AuditForReward(r)) == if r == reward then [entry] else [];
  }

  // An attempt that reached its transaction while the reward is still open.
  ghost predicate Committing(config: Config, s: State, t: Attempt) {
    t.Ready? && AttemptOk(config, s, t) && |t.rows| == |t.splits| && !s.rewards[t.reward].isAllocated
  }

  ghost function After(s: State, t: Attempt): State
    requires t.Ready? && |t.rows| == |t.splits|
  {
    CommitTx(s, t.reward, t.amount, t.seen, t.rows, t.splits)
  }

  lemma CommitKeepsReward(config: Config, s: State, t: Attempt, r: nat)
    requires Inv(config, s) && Committing(config, s, t) && r < |s.rewards|
    ensures RewardOk(config, After(s, t), r)
  {
    var s' := After(s, t);
    assert RewardOk(config, s, r);
    CommitRows(s, t.reward, t.amount, t.seen, t.rows, t.splits, r);
    if r == t.reward {
      assert Explained(config, s', r, t.rows, t.splits);
    } else {
      assert SameReward(s, s', r);
      RewardOkFrame(config, s, s', r);
    }
  }

  lemma CommitKeepsAccrual(config: Config, s: State, t: Attempt, w: WalletId)
    requires Inv(config, s) && config.fee.Valid() && Committing(config, s, t)
    ensures AccruedOf(After(s, t).accrued, w) == RebateOf(After(s, t).rows, w)
  {
    var added := BuildRows(t.reward, t.rows, t.splits);
    ComputedSplits(config, s.shares, t.seen, t.start, t.end, t.amount, t.rows, t.splits);
    AccrueAddsRebates(s.accrued, added, w);
    RebateAppend(s.rows, added, w);
  }

  lemma CommitKeepsRows(config: Config, s: State, t: Attempt)
    requires Inv(config, s) && config.fee.Valid() && Committing(config, s, t)
    ensures var s' := After(s, t);
            && (forall i :: 0 <= i < |s'.rows| ==>
                              s'.rows[i].reward < |s'.rewards| && s'.rows[i].split.nachoAccrual >= 0)
            && (forall i :: 0 <= i < |s'.audit| ==> s'.audit[i].reward < |s'.rewards|)
  {
    ComputedSplits(config, s.shares, t.seen, t.start, t.end, t.amount, t.rows, t.splits);
  }

  lemma CommitKeepsAttempt(config: Config, s: State, t: Attempt, u: Attempt)
    requires Committing(config, s, t) && AttemptOk(config, s, u)
    ensures AttemptOk(config, After(s, t), u)
  {
  }

  lemma CommitKeeps(config: Config, s: State, t: Attempt)
    requires Inv(config, s) && config.fee.Valid() && Committing(config, s, t)
    ensures Inv(config, After(s, t))
  {
    var s' := After(s, t);
    forall r | 0 <= r < |s'.rewards|
      ensures RewardOk(config, s', r)
    {
      CommitKeepsReward(config, s, t, r);
    }
    forall w: WalletId
      ensures AccruedOf(s'.accrued, w) == RebateOf(s'.rows, w)
    {
      CommitKeepsAccrual(config, s, t, w);
    }
    forall b | b in s'.attempts
      ensures AttemptOk(config, s', s'.attempts[b])
    {
      CommitKeepsAttempt(config, s, t, s.attempts[b]);
    }
    CommitKeepsRows(config, s, t);
  }

  lemma CommitForKeeps(config: Config, s: State, a: nat)
    requires Inv(config, s) && config.fee.Valid()
    ensures Inv(config, CommitFor(s, a))
  {
    if a in s.attempts && s.attempts[a].Ready? {
      var t := s.attempts[a];
      assert AttemptOk(config, s, t);
      if Committing(config, s, t) {
        CommitKeeps(config, s, t);
      }
      DropKeeps(config, After(s, t), a);
    }
  }

  // The steps of an allocation attempt.
  lemma AttemptStepKeepsInv(config: Config, s: State, action: Action)
    requires Inv(config, s) && config.fee.Valid()
    requires !action.InsertShare? && !action.Observe? && !action.CloseRange?
    ensures Inv(config, Step(config, s, action))
  {
    match action
    case Begin(a, r) => BeginKeeps(config, s, a, r);
    case CloseFor(a, now) => CloseForKeeps(config, s, a, now);
    case ReadWindow(a, listing) => ReadKeeps(config, s, a, listing);
    case Compute(a, tiers) => ComputeKeeps(config, s, a, tiers);
    case Commit(a) => CommitForKeeps(config, s, a);
    case Crash(a) => DropKeeps(config, s, a);
  }

  lemma StepKeepsInv(config: Config, s: State, action: Action)
    requires Inv(config, s) && config.fee.Valid()
    ensures Inv(config, Step(config, s, action))
  {
    match action
    case InsertShare(x) => InsertKeeps(config, s, x);
    case Observe(virtualDaa, u) => ObserveKeeps(config, s, virtualDaa, u);
    case CloseRange(start, end, now) => CloseKeeps(config, s, start, end, now);
    case _ => AttemptStepKeepsInv(config, s, action);
  }

  lemma InitInv(config: Config)
    ensures Inv(config, INIT)
  {
    NothingClosed();
  }

  // Every interleaving keeps the ledger explained.
  lemma {:induction false} RunKeepsInv(config: Config, actions: seq<Action>)
    requires config.fee.Valid()
    ensures Inv(config, Run(config, INIT, actions))
  {
    if actions == [] {
      InitInv(config);
    } else {
      RunKeepsInv(config, actions[..|actions| - 1]);
      StepKeepsInv(config, Run(config, INIT, actions[..|actions| - 1]), actions[|actions| - 1]);
    }
  }
}

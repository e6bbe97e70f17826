/** The tier a row was split under is the one its attempt was given for that very wallet. */
module PayoutTiers {
  import opened Wrappers
  import opened FeeModel
  import opened ProRata
  import opened ShareWindow
  import opened Ledger
  import opened LedgerTheorems

  // Each wallet's split is under the tier at its own place.
  predicate TiersAre(tiers: seq<WalletTier>, splits: seq<Allocation>) {
    |tiers| == |splits| && forall i :: 0 <= i < |splits| ==> splits[i].tier == tiers[i]
  }

  lemma {:induction false} SplitsKeepTiers(fee: FeeConfig, grosses: seq<int>, tiers: seq<WalletTier>)
    requires |grosses| == |tiers|
    ensures var r := SplitGrosses(fee, grosses, tiers); r.Ok? ==> TiersAre(tiers, r.value)
  {
    if grosses != [] {
      SplitsKeepTiers(fee, grosses[..|grosses| - 1], tiers[..|grosses| - 1]);
    }
  }

  // The attempt has read these rows of the window of reward `r`.
  predicate HasRead(s: State, a: nat, r: nat, rows: seq<WindowRow>) {
    a in s.attempts && s.attempts[a].WindowRead? && s.attempts[a].reward == r && s.attempts[a].rows == rows
  }

  // A computed attempt was there before, or this action computed it from what it had read.
  ghost predicate ReadyTraced(s: State, action: Action, a: nat, t: Attempt)
    requires t.Ready?
  {
    || (a in s.attempts && s.attempts[a] == t)
    || (action.Compute? && action.attempt == a && HasRead(s, a, t.reward, t.rows)
        && (t.rows != [] ==> TiersAre(action.tiers, t.splits) && |t.splits| == |t.rows|))
  }

  lemma ComputedTiers(config: Config, t: Attempt, tiers: seq<WalletTier>)
    requires t.WindowRead? && (t.rows != [] ==> |tiers| == |t.rows|) && ComputeAttempt(config, t, tiers).Some?
    ensures var u := ComputeAttempt(config, t, tiers).value;
      && u.Ready? && u.reward == t.reward && u.rows == t.rows
      && (t.rows != [] ==> TiersAre(tiers, u.splits) && |u.splits| == |t.rows|)
  {
    if t.rows != [] {
      SplitsKeepTiers(config.fee, Grosses(t.amount, t.rows), tiers);
    }
  }

  lemma ComputeTraced(config: Config, s: State, a: nat, tiers: seq<WalletTier>, b: nat)
    requires var s' := ComputeFor(config, s, a, tiers); b in s'.attempts && s'.attempts[b].Ready?
    ensures ReadyTraced(s, Compute(a, tiers), b, ComputeFor(config, s, a, tiers).attempts[b])
  {
    if a in s.attempts && s.attempts[a].WindowRead? && a == b {
      var t := s.attempts[a];
      if (t.rows == [] || |tiers| == |t.rows|) && ComputeAttempt(config, t, tiers).Some? {
        ComputedTiers(config, t, tiers);
      }
    }
  }

  lemma CloseKeepsReady(s: State, a: nat, closed: Rollups, b: nat)
    requires a in s.attempts && s.attempts[a].Started? && b in CloseInto(s, a, closed).attempts
    ensures var s' := CloseInto(s, a, closed);
      s'.attempts[b].Ready? ==> b in s.attempts && s.attempts[b] == s'.attempts[b]
  {
  }

  lemma ReadKeepsReady(s: State, a: nat, listing: seq<WindowRow>, b: nat)
    requires var s' := ReadWindowFor(s, a, listing); b in s'.attempts && s'.attempts[b].Ready?
    ensures b in s.attempts && s.attempts[b] == ReadWindowFor(s, a, listing).attempts[b]
  {
  }

  lemma CommitKeepsReady(s: State, a: nat, b: nat)
    requires b in CommitFor(s, a).attempts
    ensures b in s.attempts && s.attempts[b] == CommitFor(s, a).attempts[b]
  {
  }

  lemma StepOnReady(config: Config, s: State, action: Action, a: nat)
    requires a in Step(config, s, action).attempts && Step(config, s, action).attempts[a].Ready?
    ensures ReadyTraced(s, action, a, Step(config, s, action).attempts[a])
  {
    match action
    case Compute(b, tiers) => ComputeTraced(config, s, b, tiers, a);
    case CloseFor(b, now) =>
      if b in s.attempts && s.attempts[b].Started? {
        var t := s.attempts[b];
        CloseKeepsReady(s, b, Closed(s.shares, s.rollups, t.start, t.end, now), a);
      }
    case ReadWindow(b, listing) => ReadKeepsReady(s, b, listing, a);
    case Commit(b) => CommitKeepsReady(s, b, a);
    case _ =>
  }

  // Action `n` gave the attempt a tier for each of the rows it had read.
  ghost predicate ComputedAt(config: Config, actions: seq<Action>, n: nat, t: Attempt)
    requires t.Ready?
  {
    && n < |actions| && actions[n].Compute?
    && HasRead(Run(config, INIT, actions[..n]), actions[n].attempt, t.reward, t.rows)
    && (t.rows != [] ==> TiersAre(actions[n].tiers, t.splits) && |t.splits| == |t.rows|)
  }

  lemma {:induction false} ReadyWasComputed(config: Config, actions: seq<Action>, a: nat) returns (n: nat)
    requires var s := Run(config, INIT, actions); a in s.attempts && s.attempts[a].Ready?
    ensures ComputedAt(config, actions, n, Run(config, INIT, actions).attempts[a])
  {
    var last := |actions| - 1;
    var init := actions[..last];
    var s, t := Run(config, INIT, init), Run(config, INIT, actions).attempts[a];
    StepOnReady(config, s, actions[last], a);
    if a in s.attempts && s.attempts[a] == t {
      n := ReadyWasComputed(config, init, a);
      assert init[..n] == actions[..n] && init[n] == actions[n];
    } else {
      n := last;
    }
  }

  // Action `n` gave this tier for the row's wallet, to an attempt that had read the wallet at place `j` of the
  // window of the row's reward.
  ghost predicate TieredAt(config: Config, actions: seq<Action>, n: nat, j: nat, row: AllocRow) {
    && n < |actions| && actions[n].Compute?
    && var s, a := Run(config, INIT, actions[..n]), actions[n].attempt;
       && a in s.attempts && s.attempts[a].WindowRead? && s.attempts[a].reward == row.reward
       && j < |s.attempts[a].rows| && s.attempts[a].rows[j].wallet == row.wallet
       && j < |actions[n].tiers| && actions[n].tiers[j] == row.split.tier
  }

  lemma NewRow(s: State, a: nat, i: nat) returns (j: nat)
    requires |s.rows| <= i < |CommitFor(s, a).rows|
    ensures a in s.attempts && s.attempts[a].Ready? && |s.attempts[a].splits| == |s.attempts[a].rows|
    ensures var t := s.attempts[a]; var row := CommitFor(s, a).rows[i];
      j < |t.rows| && row.reward == t.reward && row.wallet == t.rows[j].wallet && row.split == t.splits[j]
  {
    j := i - |s.rows|;
    var t := s.attempts[a];
    BuiltRowsList(t.reward, t.rows, t.splits);
  }

  lemma ComputedGivesTier(config: Config, actions: seq<Action>, n: nat, t: Attempt, j: nat, row: AllocRow)
    requires t.Ready? && ComputedAt(config, actions, n, t) && j < |t.rows| == |t.splits|
    requires row.reward == t.reward && row.wallet == t.rows[j].wallet && row.split == t.splits[j]
    ensures TieredAt(config, actions, n, j, row)
  {
  }

  lemma TieredLater(config: Config, actions: seq<Action>, n: nat, j: nat, row: AllocRow)
    requires actions != [] && TieredAt(config, actions[..|actions| - 1], n, j, row)
    ensures TieredAt(config, actions, n, j, row)
  {
    assert actions[..|actions| - 1][..n] == actions[..n];
  }

  lemma OtherStepsKeepRows(config: Config, s: State, action: Action)
    requires !action.Commit?
    ensures Step(config, s, action).rows == s.rows
  {
  }

  lemma CommitKeepsRows(s: State, a: nat)
    ensures s.rows <= CommitFor(s, a).rows
  {
  }

  /**
   In every run the tier of every row was given for its own wallet, to an attempt that had read that wallet in the
   window of the row's reward.
   */
  lemma {:induction false} TierWasGiven(config: Config, actions: seq<Action>, i: nat) returns (n: nat, j: nat)
    requires i < |Run(config, INIT, actions).rows|
    ensures TieredAt(config, actions, n, j, Run(config, INIT, actions).rows[i])
  {
    var last := |actions| - 1;
    var init, action := actions[..last], actions[last];
    var s, row := Run(config, INIT, init), Run(config, INIT, actions).rows[i];
    if action.Commit? {
      CommitKeepsRows(s, action.attempt);
    } else {
      OtherStepsKeepRows(config, s, action);
    }
    if i < |s.rows| {
      n, j := TierWasGiven(config, init, i);
    } else {
      j := NewRow(s, action.attempt, i);
      n := ReadyWasComputed(config, init, action.attempt);
      ComputedGivesTier(config, init, n, s.attempts[action.attempt], j, row);
    }
    TieredLater(config, actions, n, j, row);
  }
}

/**
 The reward ledger as a state machine. Sweeps record matured coinbase outputs; allocation attempts close
 a share window, read its rows, compute a split and commit it in one transaction that locks the reward
 row and is gated on `isAllocated`. Attempts of any number of sweeps interleave with each other, with share
 inserts and with crashes; a run is any sequence of actions, and an action that is not enabled does nothing.
 */
module Ledger {
  import opened Wrappers
  import opened Sums
  import opened FeeModel
  import opened ProRata
  import opened ShareWindow

  // ---- tables and attempts ----------------------------------------------------------------------

  datatype Outpoint = Outpoint(txid: nat, index: nat)

  datatype Utxo = Utxo(outpoint: Outpoint, amount: nat, daa: nat)

  datatype Reward = Reward(outpoint: Outpoint, amount: nat, daa: nat, isAllocated: bool)

  datatype AllocRow = AllocRow(reward: nat, wallet: WalletId, weight: real, windowTotal: real, split: Allocation)

  datatype AuditKind = Distributed(wallets: nat, totals: Totals, residue: int) | Retained

  datatype AuditEntry = AuditEntry(reward: nat, amount: nat, kind: AuditKind)

  datatype Config = Config(fee: FeeConfig, maturity: nat, span: nat, minDaa: nat)

  // `seen` is the number of shares in the table when the attempt closed its window.
  datatype Attempt =
    | Started(reward: nat, amount: nat, start: nat, end: nat)
    | WindowClosed(reward: nat, amount: nat, start: nat, end: nat, seen: nat)
    | WindowRead(reward: nat, amount: nat, start: nat, end: nat, seen: nat, rows: seq<WindowRow>)
    | Ready(reward: nat, amount: nat, start: nat, end: nat, seen: nat, rows: seq<WindowRow>, splits: seq<Allocation>)

  // Rows of `rewards` are identified by their position. Two records are kept beside the tables: how many
  // shares there were when each window was last closed, and, for each allocated reward, when the attempt
  // that allocated it closed its window.
  datatype State = State(
    shares: seq<Share>, rollups: Rollups, rewards: seq<Reward>, rows: seq<AllocRow>,
    accrued: map<WalletId, int>, audit: seq<AuditEntry>, attempts: map<nat, Attempt>,
    closures: ClosureMap, basis: map<nat, nat>)

  datatype Action =
    | InsertShare(share: Share)
    | Observe(virtualDaa: nat, utxo: Utxo)
    | Begin(attempt: nat, reward: nat)
    | CloseRange(start: nat, end: nat, now: int)
    | CloseFor(attempt: nat, now: int)
    | ReadWindow(attempt: nat, listing: seq<WindowRow>)
    | Compute(attempt: nat, tiers: seq<WalletTier>)
    | Commit(attempt: nat)
    | Crash(attempt: nat)

  const INIT := State([], map[], [], [], map[], [], map[], map[], map[])

  // ---- discovery: recording matured coinbase outputs --------------------------------------------

  const U31: nat := 0x8000_0000
  const U63: nat := 0x8000_0000_0000_0000

  function CheckedSub(a: nat, b: nat): Option<nat> {
    if a < b then None else Some(a - b)
  }

  predicate IsMature(virtualDaa: nat, blockDaa: nat, maturity: nat) {
    match CheckedSub(virtualDaa, blockDaa)
    case Some(depth) => depth >= maturity
    case None => false
  }

  // The overflow-free form of the check is the consensus rule.
  lemma MaturityRule(virtualDaa: nat, blockDaa: nat, maturity: nat)
    ensures IsMature(virtualDaa, blockDaa, maturity) <==> virtualDaa >= blockDaa + maturity
  {
  }

  predicate Known(rewards: seq<Reward>, o: Outpoint) {
    exists i :: 0 <= i < |rewards| && rewards[i].outpoint == o
  }

  datatype SweepStats = SweepStats(discovered: nat, belowFloor: nat, errors: nat)

  // One step of the recording loop. The column checks of the table refuse an index or a DAA score
  // that does not fit a non-negative signed column.
  function RecordUtxo(config: Config, virtualDaa: nat, rewards: seq<Reward>, stats: SweepStats, u: Utxo)
    : (seq<Reward>, SweepStats)
  {
    if !IsMature(virtualDaa, u.daa, config.maturity) then (rewards, stats)
    else if u.daa < config.minDaa then (rewards, stats.(belowFloor := stats.belowFloor + 1))
    else if u.amount > I64_MAX then (rewards, stats.(errors := stats.errors + 1))
    else if u.outpoint.index >= U31 || u.daa >= U63 then (rewards, stats.(errors := stats.errors + 1))
    else if Known(rewards, u.outpoint) then (rewards, stats)
    else (rewards + [Reward(u.outpoint, u.amount, u.daa, false)], stats.(discovered := stats.discovered + 1))
  }

  // What a sweep accepts for recording.
  predicate Eligible(config: Config, virtualDaa: nat, u: Utxo) {
    && virtualDaa >= u.daa + config.maturity
    && u.daa >= config.minDaa
    && u.amount < 0x8000_0000_0000_0000 && u.outpoint.index < 0x8000_0000 && u.daa < 0x8000_0000_0000_0000
  }

  predicate DistinctOutpoints(rewards: seq<Reward>) {
    forall i, j :: 0 <= i < j < |rewards| ==> rewards[i].outpoint != rewards[j].outpoint
  }

  // A new row: an eligible output of the node's reply, not yet allocated.
  predicate FromReply(config: Config, virtualDaa: nat, utxos: seq<Utxo>, r: Reward) {
    exists u :: u in utxos && Eligible(config, virtualDaa, u) && r == Reward(u.outpoint, u.amount, u.daa, false)
  }

  // Outputs that are mature but below the floor, and those that are above it but do not fit the table.
  predicate BelowFloor(config: Config, virtualDaa: nat, u: Utxo) {
    virtualDaa >= u.daa + config.maturity && u.daa < config.minDaa
  }

  predicate DoesNotFit(config: Config, virtualDaa: nat, u: Utxo) {
    && virtualDaa >= u.daa + config.maturity && u.daa >= config.minDaa
    && (u.amount >= 0x8000_0000_0000_0000 || u.outpoint.index >= 0x8000_0000 || u.daa >= 0x8000_0000_0000_0000)
  }

  ghost function Tally(config: Config, virtualDaa: nat, utxos: seq<Utxo>): (nat, nat) {
    if utxos == [] then (0, 0) else
    var rest, u := Tally(config, virtualDaa, utxos[..|utxos| - 1]), utxos[|utxos| - 1];
    (rest.0 + (if BelowFloor(config, virtualDaa, u) then 1 else 0),
     rest.1 + (if DoesNotFit(config, virtualDaa, u) then 1 else 0))
  }

  // The recording loop of a sweep: afterwards the table holds what it held, plus exactly the eligible
  // outputs of the node's reply, each once; re-running it with the same reply records nothing.
  method RecordMatured(config: Config, virtualDaa: nat, utxos: seq<Utxo>, rewards: seq<Reward>)
    returns (recorded: seq<Reward>, stats: SweepStats)
    requires DistinctOutpoints(rewards)
    ensures DistinctOutpoints(recorded)
    ensures rewards <= recorded && stats.discovered == |recorded| - |rewards|
    ensures forall i :: |rewards| <= i < |recorded| ==> FromReply(config, virtualDaa, utxos, recorded[i])
    ensures forall u :: u in utxos && Eligible(config, virtualDaa, u) ==>
                          exists i :: 0 <= i < |recorded| && recorded[i].outpoint == u.outpoint
    ensures (stats.belowFloor, stats.errors) == Tally(config, virtualDaa, utxos)
  {
    recorded, stats := rewards, SweepStats(0, 0, 0);
    for k := 0 to |utxos|
      invariant DistinctOutpoints(recorded)
      invariant rewards <= recorded && stats.discovered == |recorded| - |rewards|
      invariant forall i :: |rewards| <= i < |recorded| ==> FromReply(config, virtualDaa, utxos, recorded[i])
      invariant forall j :: 0 <= j < k && Eligible(config, virtualDaa, utxos[j]) ==> Known(recorded, utxos[j].outpoint)
      invariant (stats.belowFloor, stats.errors) == Tally(config, virtualDaa, utxos[..k])
    {
      assert utxos[..k + 1][..k] == utxos[..k];
      var next := RecordUtxo(config, virtualDaa, recorded, stats, utxos[k]);
      KnownGrows(config, virtualDaa, recorded, stats, utxos[k]);
      assert utxos[k] in utxos;
      assert Eligible(config, virtualDaa, utxos[k]) ==>
               FromReply(config, virtualDaa, utxos, Reward(utxos[k].outpoint, utxos[k].amount, utxos[k].daa, false));
      recorded, stats := next.0, next.1;
    }
    assert utxos[..|utxos|] == utxos;
  }

  lemma KnownGrows(config: Config, virtualDaa: nat, rewards: seq<Reward>, stats: SweepStats, u: Utxo)
    ensures var next := RecordUtxo(config, virtualDaa, rewards, stats, u).0;
            && (forall o :: Known(rewards, o) ==> Known(next, o))
            && (Eligible(config, virtualDaa, u) ==> Known(next, u.outpoint))
            && (next == rewards
                || (Eligible(config, virtualDaa, u) && !Known(rewards, u.outpoint)
                    && next == rewards + [Reward(u.outpoint, u.amount, u.daa, false)]))
  {
    var next := RecordUtxo(config, virtualDaa, rewards, stats, u).0;
    forall o | Known(rewards, o)
      ensures Known(next, o)
    {
      var i :| 0 <= i < |rewards| && rewards[i].outpoint == o;
      assert next[i].outpoint == o;
    }
    if next != rewards {
      assert next[|rewards|].outpoint == u.outpoint;
    }
  }

  // ---- the steps of an allocation attempt -------------------------------------------------------

  function SaturatingSub(a: nat, b: nat): nat {
    if a < b then 0 else a - b
  }

  // What `list_for_window` may return: every row of the window once, heaviest first, ties in any order.
  ghost predicate IsListing(rollups: Rollups, start: nat, end: nat, listing: seq<WindowRow>) {
    && DistinctWallets(listing)
    && (forall i, j :: 0 <= i < j < |listing| ==> listing[i].weight >= listing[j].weight)
    && (forall i :: 0 <= i < |listing| ==>
                      && Key(listing[i].wallet, start, end) in rollups
                      && rollups[Key(listing[i].wallet, start, end)].weight == listing[i].weight)
    && (forall w: WalletId :: Key(w, start, end) in rollups ==> HasWallet(listing, w))
  }

  ghost predicate HasWallet(listing: seq<WindowRow>, w: WalletId) {
    exists i :: 0 <= i < |listing| && listing[i].wallet == w
  }

  ghost function BuildRows(reward: nat, rows: seq<WindowRow>, splits: seq<Allocation>): (r: seq<AllocRow>)
    requires |rows| == |splits|
    ensures |r| == |rows|
  {
    seq(|rows|, i requires 0 <= i < |rows| =>
      AllocRow(reward, rows[i].wallet, rows[i].weight, TotalWeight(rows), splits[i]))
  }

  function AccruedOf(accrued: map<WalletId, int>, w: WalletId): int {
    if w in accrued then accrued[w] else 0
  }

  // One additive accrual per row with a positive rebate.
  function Accrue(accrued: map<WalletId, int>, rows: seq<AllocRow>): map<WalletId, int> {
    if rows == [] then accrued else
    var last := |rows| - 1;
    var before := Accrue(accrued, rows[..last]);
    var r := rows[last];
    if r.split.nachoAccrual > 0 then before[r.wallet := AccruedOf(before, r.wallet) + r.split.nachoAccrual]
    else before
  }

  ghost function AuditOf(reward: nat, amount: nat, rows: seq<WindowRow>, splits: seq<Allocation>): AuditEntry {
    if rows == [] then AuditEntry(reward, amount, Retained)
    else AuditEntry(reward, amount, Distributed(|rows|, TrueTotals(splits), Residue(amount, rows)))
  }

  // The transaction: nothing if the reward is unknown or already allocated, otherwise all of it.
  ghost function CommitTx(s: State, reward: nat, amount: nat, seen: nat, rows: seq<WindowRow>, splits: seq<Allocation>)
    : State
    requires |rows| == |splits|
  {
    if reward >= |s.rewards| || s.rewards[reward].isAllocated then s else
    var added := BuildRows(reward, rows, splits);
    s.(rewards := s.rewards[reward := s.rewards[reward].(isAllocated := true)],
       rows := s.rows + added,
       accrued := Accrue(s.accrued, added),
       audit := s.audit + [AuditOf(reward, amount, rows, splits)],
       basis := s.basis[reward := seen])
  }

  function Drop(s: State, a: nat): State {
    s.(attempts := s.attempts - {a})
  }

  function With(s: State, a: nat, t: Attempt): State {
    s.(attempts := s.attempts[a := t])
  }

  // `list_unallocated` hands an open reward to an attempt, with the window that ends at its DAA score.
  function BeginAttempt(config: Config, s: State, a: nat, r: nat): State {
    if a in s.attempts || r >= |s.rewards| || s.rewards[r].isAllocated then s else
    var end := s.rewards[r].daa;
    With(s, a, Started(r, s.rewards[r].amount, SaturatingSub(end, config.span), end))
  }

  // The database after a closure.
  function CloseTx(s: State, start: nat, end: nat, now: int): State {
    WithClosure(s, start, end, Closed(s.shares, s.rollups, start, end, now))
  }

  function WithClosure(s: State, start: nat, end: nat, closed: Rollups): State {
    s.(rollups := closed, closures := s.closures[(start, end) := |s.shares|])
  }

  // An empty range is an error, which ends the attempt.
  function CloseWindowFor(s: State, a: nat, now: int): State {
    if a !in s.attempts || !s.attempts[a].Started? then s
    else CloseInto(s, a, Closed(s.shares, s.rollups, s.attempts[a].start, s.attempts[a].end, now))
  }

  function CloseInto(s: State, a: nat, closed: Rollups): State
    requires a in s.attempts && s.attempts[a].Started?
  {
    var t := s.attempts[a];
    if t.end <= t.start then Drop(s, a)
    else With(WithClosure(s, t.start, t.end, closed), a, WindowClosed(t.reward, t.amount, t.start, t.end, |s.shares|))
  }

  ghost function ReadWindowFor(s: State, a: nat, listing: seq<WindowRow>): State {
    if a !in s.attempts || !s.attempts[a].WindowClosed? then s else
    var t := s.attempts[a];
    if !IsListing(s.rollups, t.start, t.end, listing) then s
    else With(s, a, WindowRead(t.reward, t.amount, t.start, t.end, t.seen, listing))
  }

  // The split outside the transaction: `Ready`, or nothing if an error ended the attempt.
  ghost function ComputeAttempt(config: Config, t: Attempt, tiers: seq<WalletTier>): Option<Attempt>
    requires t.WindowRead? && (t.rows != [] ==> |tiers| == |t.rows|)
  {
    if t.rows == [] then Some(Ready(t.reward, t.amount, t.start, t.end, t.seen, [], []))
    else if TotalWeight(t.rows) <= 0.0 then None
    else
      match SplitGrosses(config.fee, Grosses(t.amount, t.rows), tiers)
      case Err(_) => None
      case Ok(splits) => Some(Ready(t.reward, t.amount, t.start, t.end, t.seen, t.rows, splits))
  }

  ghost function ComputeFor(config: Config, s: State, a: nat, tiers: seq<WalletTier>): State {
    if a !in s.attempts || !s.attempts[a].WindowRead? then s else
    var t := s.attempts[a];
    if t.rows != [] && |tiers| != |t.rows| then s else
    match ComputeAttempt(config, t, tiers)
    case None => Drop(s, a)
    case Some(t') => With(s, a, t')
  }

  ghost function CommitFor(s: State, a: nat): State {
    if a !in s.attempts || !s.attempts[a].Ready? then s else
    var t := s.attempts[a];
    if |t.rows| != |t.splits| then s else Drop(CommitTx(s, t.reward, t.amount, t.seen, t.rows, t.splits), a)
  }

  ghost function Step(config: Config, s: State, action: Action): State {
    match action
    case InsertShare(share) => s.(shares := s.shares + [share])
    case Observe(virtualDaa, u) =>
      s.(rewards := RecordUtxo(config, virtualDaa, s.rewards, SweepStats(0, 0, 0), u).0)
    case Begin(a, r) => BeginAttempt(config, s, a, r)
    case CloseRange(start, end, now) =>
      if end <= start then s else CloseTx(s, start, end, now)
    case CloseFor(a, now) => CloseWindowFor(s, a, now)
    case ReadWindow(a, listing) => ReadWindowFor(s, a, listing)
    case Compute(a, tiers) => ComputeFor(config, s, a, tiers)
    case Commit(a) => CommitFor(s, a)
    case Crash(a) => Drop(s, a)
  }

  ghost function Run(config: Config, s: State, actions: seq<Action>): State {
    if actions == [] then s
    else Step(config, Run(config, s, actions[..|actions| - 1]), actions[|actions| - 1])
  }

  lemma {:induction false} RunAppend(config: Config, s: State, a: seq<Action>, b: seq<Action>)
    ensures Run(config, s, a + b) == Run(config, Run(config, s, a), b)
  {
    if b == [] {
      assert a + b == a;
    } else {
      var last := |b| - 1;
      assert (a + b)[..|a + b| - 1] == a + b[..last];
      RunAppend(config, s, a, b[..last]);
    }
  }

  // ---- the invariant -----------------------------------------------------------------------------

  ghost function ForReward(r: nat): AllocRow -> bool {
    (row: AllocRow) => row.reward == r
  }

  ghost function AuditForReward(r: nat): AuditEntry -> bool {
    (e: AuditEntry) => e.reward == r
  }

  ghost function RowsFor(s: State, r: nat): seq<AllocRow> { Filter(s.rows, ForReward(r)) }

  ghost function AuditFor(s: State, r: nat): seq<AuditEntry> { Filter(s.audit, AuditForReward(r)) }

  ghost function RebateOf(rows: seq<AllocRow>, w: WalletId): int {
    if rows == [] then 0
    else (if rows[0].wallet == w then rows[0].split.nachoAccrual else 0) + RebateOf(rows[1..], w)
  }

  // A listing of the PROP weights of one window over a given share table: each contributing wallet
  // once, with exactly its summed difficulty.
  ghost predicate ListsShares(shares: seq<Share>, start: nat, end: nat, listing: seq<WindowRow>) {
    && DistinctWallets(listing)
    && (forall i :: 0 <= i < |listing| ==>
                      && CountIn(shares, listing[i].wallet, start, end) > 0
                      && listing[i].weight == WeightIn(shares, listing[i].wallet, start, end) > 0.0)
    && (forall w: WalletId :: CountIn(shares, w, start, end) > 0 ==> HasWallet(listing, w))
  }

  // The listing is of the shares as they were at some moment, when at least `seen` of them were there.
  ghost predicate ListsPrefix(shares: seq<Share>, seen: nat, start: nat, end: nat, listing: seq<WindowRow>) {
    exists k :: seen <= k <= |shares| && ListsShares(shares[..k], start, end, listing)
  }

  // The splits are the engine's computation on that listing, for some tier of each wallet.
  ghost predicate Computed(config: Config, amount: nat, rows: seq<WindowRow>, splits: seq<Allocation>) {
    && |splits| == |rows|
    && (rows != [] ==> exists tiers: seq<WalletTier> :: SplitsAre(config, amount, rows, tiers, splits))
  }

  ghost predicate SplitsAre(config: Config, amount: nat, rows: seq<WindowRow>, tiers: seq<WalletTier>,
                            splits: seq<Allocation>)
  {
    rows != [] && |tiers| == |rows| && SplitGrosses(config.fee, Grosses(amount, rows), tiers) == Ok(splits)
  }

  ghost predicate AttemptOk(config: Config, s: State, t: Attempt) {
    && t.reward < |s.rewards|
    && t.amount == s.rewards[t.reward].amount
    && t.end == s.rewards[t.reward].daa && t.start == SaturatingSub(t.end, config.span)
    && (t.Started? || t.start < t.end)
    && (t.WindowClosed? ==> t.seen <= ClosedAt(s.closures, t.start, t.end))
    && (t.WindowRead? || t.Ready? ==> ListsPrefix(s.shares, t.seen, t.start, t.end, t.rows))
    && (t.Ready? ==> Computed(config, t.amount, t.rows, t.splits))
  }

  // An allocated reward is explained by one window listing and one computation on it, which account
  // for all its rows and its single audit entry; an empty listing leaves no rows.
  ghost predicate Explained(config: Config, s: State, r: nat, listing: seq<WindowRow>, splits: seq<Allocation>)
    requires r < |s.rewards|
  {
    var reward := s.rewards[r];
    && SaturatingSub(reward.daa, config.span) < reward.daa
    && r in s.basis && ListsPrefix(s.shares, s.basis[r], SaturatingSub(reward.daa, config.span), reward.daa, listing)
    && Computed(config, reward.amount, listing, splits)
    && RowsFor(s, r) == BuildRows(r, listing, splits)
    && AuditFor(s, r) == [AuditOf(r, reward.amount, listing, splits)]
  }

  ghost predicate RewardOk(config: Config, s: State, r: nat)
    requires r < |s.rewards|
  {
    if s.rewards[r].isAllocated
    then exists listing: seq<WindowRow>, splits: seq<Allocation> :: Explained(config, s, r, listing, splits)
    else RowsFor(s, r) == [] && AuditFor(s, r) == []
  }

  ghost predicate Inv(config: Config, s: State) {
    && SnapshotsAt(s.shares, s.rollups, s.closures)
    && DistinctOutpoints(s.rewards)
    && (forall i :: 0 <= i < |s.rewards| ==> s.rewards[i].amount <= I64_MAX)
    && (forall a :: a in s.attempts ==> AttemptOk(config, s, s.attempts[a]))
    && (forall i :: 0 <= i < |s.rows| ==> s.rows[i].reward < |s.rewards| && s.rows[i].split.nachoAccrual >= 0)
    && (forall i :: 0 <= i < |s.audit| ==> s.audit[i].reward < |s.rewards|)
    && (forall r :: 0 <= r < |s.rewards| ==> RewardOk(config, s, r))
    && (forall w: WalletId :: AccruedOf(s.accrued, w) == RebateOf(s.rows, w))
  }
}

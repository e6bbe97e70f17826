/** Closing a half-open DAA range: the per-wallet rollups that PROP allocation reads. */
module ShareWindow {
  import opened Wrappers
  import opened Sums
  import opened ProRata

  type Difficulty = d: real | d > 0.0 witness 1.0

  datatype Share = Share(wallet: WalletId, difficulty: Difficulty, daa: nat, creditedAt: int)

  datatype Key = Key(wallet: WalletId, start: nat, end: nat)

  datatype Rollup = Rollup(startedAt: int, endedAt: int, weight: real, count: nat)

  type Rollups = map<Key, Rollup>

  predicate InRange(s: Share, start: nat, end: nat) {
    start <= s.daa < end
  }

  // ---- the reference: one scan of the share table per wallet ------------------------------------

  ghost function WeightIn(shares: seq<Share>, w: WalletId, start: nat, end: nat): real {
    if shares == [] then 0.0 else
    var s := shares[|shares| - 1];
    WeightIn(shares[..|shares| - 1], w, start, end)
    + if s.wallet == w && InRange(s, start, end) then s.difficulty else 0.0
  }

  ghost function CountIn(shares: seq<Share>, w: WalletId, start: nat, end: nat): nat {
    if shares == [] then 0 else
    var s := shares[|shares| - 1];
    CountIn(shares[..|shares| - 1], w, start, end)
    + if s.wallet == w && InRange(s, start, end) then 1 else 0
  }

  // Shares in the range whose wallet is in `ws`: their number and their weight.
  ghost function CountFor(shares: seq<Share>, ws: set<WalletId>, start: nat, end: nat): nat {
    if shares == [] then 0 else
    var s := shares[|shares| - 1];
    CountFor(shares[..|shares| - 1], ws, start, end) + if s.wallet in ws && InRange(s, start, end) then 1 else 0
  }

  ghost function WeightFor(shares: seq<Share>, ws: set<WalletId>, start: nat, end: nat): real {
    if shares == [] then 0.0 else
    var s := shares[|shares| - 1];
    WeightFor(shares[..|shares| - 1], ws, start, end)
    + if s.wallet in ws && InRange(s, start, end) then s.difficulty else 0.0
  }

  ghost predicate EarliestCredit(shares: seq<Share>, w: WalletId, start: nat, end: nat, t: int) {
    && (exists s :: s in shares && s.wallet == w && InRange(s, start, end) && s.creditedAt == t)
    && (forall s :: s in shares && s.wallet == w && InRange(s, start, end) ==> t <= s.creditedAt)
  }

  // ---- the aggregation: one pass, grouping by wallet --------------------------------------------

  datatype Aggregate = Aggregate(weight: real, count: nat, firstCredit: int)

  function GroupByWallet(shares: seq<Share>, start: nat, end: nat): map<WalletId, Aggregate> {
    if shares == [] then map[] else
    var last := |shares| - 1;
    var s := shares[last];
    var agg := GroupByWallet(shares[..last], start, end);
    if !InRange(s, start, end) then agg
    else if s.wallet in agg then
      var a := agg[s.wallet];
      agg[s.wallet := Aggregate(a.weight + s.difficulty, a.count + 1, Min(a.firstCredit, s.creditedAt))]
    else agg[s.wallet := Aggregate(s.difficulty, 1, s.creditedAt)]
  }

  // The single pass gives each wallet what a scan of its own would.
  lemma {:induction false} GroupByWalletIsPerWallet(shares: seq<Share>, start: nat, end: nat, w: WalletId)
    ensures var agg := GroupByWallet(shares, start, end);
            && (w in agg <==> CountIn(shares, w, start, end) > 0)
            && (w in agg ==>
                  && agg[w].weight == WeightIn(shares, w, start, end) > 0.0
                  && agg[w].count == CountIn(shares, w, start, end)
                  && EarliestCredit(shares, w, start, end, agg[w].firstCredit))
    ensures CountIn(shares, w, start, end) == 0 ==> WeightIn(shares, w, start, end) == 0.0
  {
    if shares != [] {
      var last := |shares| - 1;
      var s, head := shares[last], shares[..last];
      GroupByWalletIsPerWallet(head, start, end, w);
      assert shares == head + [s];
      if s.wallet == w && InRange(s, start, end) {
        var before := GroupByWallet(head, start, end);
        var t := GroupByWallet(shares, start, end)[w].firstCredit;
        if w in before {
          var x :| x in head && x.wallet == w && InRange(x, start, end) && x.creditedAt == before[w].firstCredit;
          assert x in shares && s in shares;
        } else {
          NoShares(head, start, end, w);
          assert s in shares;
        }
        assert EarliestCredit(shares, w, start, end, t);
      } else if w in GroupByWallet(head, start, end) {
        var t := GroupByWallet(head, start, end)[w].firstCredit;
        var x :| x in head && x.wallet == w && InRange(x, start, end) && x.creditedAt == t;
        assert x in shares;
        assert EarliestCredit(shares, w, start, end, t);
      }
    }
  }

  lemma {:induction false} NoShares(shares: seq<Share>, start: nat, end: nat, w: WalletId)
    requires CountIn(shares, w, start, end) == 0
    ensures forall s :: s in shares ==> !(s.wallet == w && InRange(s, start, end))
  {
    if shares != [] {
      var last := |shares| - 1;
      NoShares(shares[..last], start, end, w);
      assert shares == shares[..last] + [shares[last]];
    }
  }

  // ---- the upsert --------------------------------------------------------------------------------

  // INSERT ... ON CONFLICT DO UPDATE: refreshes weight, count and end time; keeps the first start time.
  function Closed(shares: seq<Share>, rollups: Rollups, start: nat, end: nat, now: int): Rollups {
    var agg := GroupByWallet(shares, start, end);
    map k | k in rollups.Keys + WindowKeys(agg.Keys, start, end) ::
      if k == Key(k.wallet, start, end) && k.wallet in agg then
        Rollup(if k in rollups then rollups[k].startedAt else agg[k.wallet].firstCredit, now,
               agg[k.wallet].weight, agg[k.wallet].count)
      else rollups[k]
  }

  function WindowKeys(wallets: set<WalletId>, start: nat, end: nat): set<Key> {
    set w | w in wallets :: Key(w, start, end)
  }

  // The rows of one window are exactly the per-wallet sums of the given share table.
  ghost predicate RowsAre(shares: seq<Share>, rollups: Rollups, start: nat, end: nat) {
    forall w: WalletId ::
      var key := Key(w, start, end);
      && (key in rollups <==> CountIn(shares, w, start, end) > 0)
      && (key in rollups ==>
            && rollups[key].weight == WeightIn(shares, w, start, end)
            && rollups[key].count == CountIn(shares, w, start, end))
  }

  // Every window's rows are the exact sums of the share table as it stood at some earlier moment.
  ghost predicate Snapshots(shares: seq<Share>, rollups: Rollups) {
    forall start: nat, end: nat :: FromPrefix(shares, rollups, start, end)
  }

  ghost predicate FromPrefix(shares: seq<Share>, rollups: Rollups, start: nat, end: nat) {
    exists k :: 0 <= k <= |shares| && RowsAre(shares[..k], rollups, start, end)
  }

  lemma {:induction false} CountMonotone(shares: seq<Share>, k: nat, w: WalletId, start: nat, end: nat)
    requires k <= |shares|
    ensures CountIn(shares[..k], w, start, end) <= CountIn(shares, w, start, end)
  {
    if k == |shares| {
      assert shares[..k] == shares;
    } else {
      assert shares[..|shares| - 1][..k] == shares[..k];
      CountMonotone(shares[..|shares| - 1], k, w, start, end);
    }
  }

  // A closure leaves exactly the sums of the shares now in the table, whatever was closed before.
  lemma ClosedRowsAre(shares: seq<Share>, rollups: Rollups, start: nat, end: nat, now: int)
    requires Snapshots(shares, rollups)
    ensures RowsAre(shares, Closed(shares, rollups, start, end, now), start, end)
  {
    assert FromPrefix(shares, rollups, start, end);
    var k :| 0 <= k <= |shares| && RowsAre(shares[..k], rollups, start, end);
    forall w: WalletId
      ensures var key := Key(w, start, end);
              var closed := Closed(shares, rollups, start, end, now);
              && (key in closed <==> CountIn(shares, w, start, end) > 0)
              && (key in closed ==>
                    && closed[key].weight == WeightIn(shares, w, start, end)
                    && closed[key].count == CountIn(shares, w, start, end))
    {
      GroupByWalletIsPerWallet(shares, start, end, w);
      CountMonotone(shares, k, w, start, end);
    }
  }

  // ---- which moment a window's rows stand for -----------------------------------------------------

  // The number of shares that were in the table when each window was last closed.
  type ClosureMap = map<(nat, nat), nat>

  function ClosedAt(closures: ClosureMap, start: nat, end: nat): nat {
    if (start, end) in closures then closures[(start, end)] else 0
  }

  ghost predicate SnapshotAt(shares: seq<Share>, rollups: Rollups, closures: ClosureMap, start: nat, end: nat) {
    && ClosedAt(closures, start, end) <= |shares|
    && RowsAre(shares[..ClosedAt(closures, start, end)], rollups, start, end)
  }

  // Every window's rows are the exact sums of the shares that were there when it was last closed.
  ghost predicate SnapshotsAt(shares: seq<Share>, rollups: Rollups, closures: ClosureMap) {
    forall start: nat, end: nat :: SnapshotAt(shares, rollups, closures, start, end)
  }

  lemma SnapshotsAtAre(shares: seq<Share>, rollups: Rollups, closures: ClosureMap)
    requires SnapshotsAt(shares, rollups, closures)
    ensures Snapshots(shares, rollups)
  {
    forall start: nat, end: nat
      ensures FromPrefix(shares, rollups, start, end)
    {
      assert SnapshotAt(shares, rollups, closures, start, end);
    }
  }

  lemma NothingClosed()
    ensures SnapshotsAt([], map[], map[])
  {
    forall start: nat, end: nat
      ensures SnapshotAt([], map[], map[], start, end)
    {
      var none: seq<Share> := [];
      assert none[..0] == none;
    }
  }

  lemma ClosedKeepsSnapshotsAt(shares: seq<Share>, rollups: Rollups, closures: ClosureMap, start: nat, end: nat,
                               now: int)
    requires SnapshotsAt(shares, rollups, closures)
    ensures SnapshotsAt(shares, Closed(shares, rollups, start, end, now), closures[(start, end) := |shares|])
  {
    SnapshotsAtAre(shares, rollups, closures);
    var closed, after := Closed(shares, rollups, start, end, now), closures[(start, end) := |shares|];
    forall a: nat, b: nat
      ensures SnapshotAt(shares, closed, after, a, b)
    {
      if a == start && b == end {
        ClosedRowsAre(shares, rollups, start, end, now);
        ClosedStampsAre(shares, rollups, start, end, now);
        assert shares[..|shares|] == shares;
      } else {
        assert SnapshotAt(shares, rollups, closures, a, b);
        OtherWindowKept(shares[..ClosedAt(closures, a, b)], shares, rollups, start, end, now, a, b);
      }
    }
  }

  lemma OtherWindowKept(held: seq<Share>, shares: seq<Share>, rollups: Rollups, start: nat, end: nat, now: int,
                        a: nat, b: nat)
    requires (a, b) != (start, end) && RowsAre(held, rollups, a, b)
    ensures RowsAre(held, Closed(shares, rollups, start, end, now), a, b)
  {
  }

  lemma InsertKeepsSnapshotsAt(shares: seq<Share>, rollups: Rollups, closures: ClosureMap, s: Share)
    requires SnapshotsAt(shares, rollups, closures)
    ensures SnapshotsAt(shares + [s], rollups, closures)
  {
    forall a: nat, b: nat
      ensures SnapshotAt(shares + [s], rollups, closures, a, b)
    {
      assert SnapshotAt(shares, rollups, closures, a, b);
      assert (shares + [s])[..ClosedAt(closures, a, b)] == shares[..ClosedAt(closures, a, b)];
    }
  }

  // ---- histories: any interleaving of share inserts and closures --------------------------------

  datatype Op = Insert(share: Share) | Close(start: nat, end: nat, now: int)

  datatype Tables = Tables(shares: seq<Share>, rollups: Rollups)

  function ApplyOp(t: Tables, op: Op): Tables {
    match op
    case Insert(s) => Tables(t.shares + [s], t.rollups)
    case Close(start, end, now) =>
      if end <= start then t else Tables(t.shares, Closed(t.shares, t.rollups, start, end, now))
  }

  function Replay(t: Tables, ops: seq<Op>): Tables {
    if ops == [] then t else ApplyOp(Replay(t, ops[..|ops| - 1]), ops[|ops| - 1])
  }

  const EMPTY := Tables([], map[])

  // The number of shares in the table at each window's last closure in a history.
  function Closures(ops: seq<Op>): ClosureMap {
    if ops == [] then map[] else
    var before, op := Closures(ops[..|ops| - 1]), ops[|ops| - 1];
    if op.Close? && op.start < op.end
    then before[(op.start, op.end) := |Replay(EMPTY, ops[..|ops| - 1]).shares|] else before
  }

  // After any history every window's rows are the exact rollup of the shares that were there at its
  // last closure.
  lemma {:induction false} HistoryKeepsSnapshots(ops: seq<Op>)
    ensures SnapshotsAt(Replay(EMPTY, ops).shares, Replay(EMPTY, ops).rollups, Closures(ops))
  {
    if ops == [] {
      NothingClosed();
    } else {
      var t, op, closures := Replay(EMPTY, ops[..|ops| - 1]), ops[|ops| - 1], Closures(ops[..|ops| - 1]);
      HistoryKeepsSnapshots(ops[..|ops| - 1]);
      match op
      case Insert(s) => InsertKeepsSnapshotsAt(t.shares, t.rollups, closures, s);
      case Close(start, end, now) =>
        if start < end {
          ClosedKeepsSnapshotsAt(t.shares, t.rollups, closures, start, end, now);
        }
    }
  }

  lemma ClosuresBound(ops: seq<Op>, start: nat, end: nat)
    ensures ClosedAt(Closures(ops), start, end) <= |Replay(EMPTY, ops).shares|
  {
    HistoryKeepsSnapshots(ops);
    assert SnapshotAt(Replay(EMPTY, ops).shares, Replay(EMPTY, ops).rollups, Closures(ops), start, end);
  }

  lemma ClosuresSnoc(ops: seq<Op>, op: Op)
    ensures Closures(ops + [op])
         == if op.Close? && op.start < op.end then Closures(ops)[(op.start, op.end) := |Replay(EMPTY, ops).shares|]
            else Closures(ops)
  {
    assert (ops + [op])[..|ops|] == ops;
  }

  // That moment only ever moves forward.
  lemma ClosuresMoveForward(ops: seq<Op>, op: Op, start: nat, end: nat)
    ensures ClosedAt(Closures(ops), start, end) <= ClosedAt(Closures(ops + [op]), start, end)
  {
    ClosuresBound(ops, start, end);
    ClosuresSnoc(ops, op);
  }

  // The stamps a closure leaves: every row ends now; a row that was there keeps its start, and a new one
  // starts at its wallet's earliest credit in the window.
  ghost predicate StampsAre(shares: seq<Share>, before: Rollups, rollups: Rollups, start: nat, end: nat, now: int) {
    forall w: WalletId ::
      var key := Key(w, start, end);
      key in rollups ==>
        && rollups[key].endedAt == now
        && (if key in before then rollups[key].startedAt == before[key].startedAt
            else EarliestCredit(shares, w, start, end, rollups[key].startedAt))
  }

  lemma ClosedStampsAre(shares: seq<Share>, rollups: Rollups, start: nat, end: nat, now: int)
    requires RowsAre(shares, Closed(shares, rollups, start, end, now), start, end)
    ensures StampsAre(shares, rollups, Closed(shares, rollups, start, end, now), start, end, now)
  {
    forall w: WalletId | Key(w, start, end) in Closed(shares, rollups, start, end, now)
      ensures var key := Key(w, start, end); var row := Closed(shares, rollups, start, end, now)[key];
        && row.endedAt == now
        && (if key in rollups then row.startedAt == rollups[key].startedAt
            else EarliestCredit(shares, w, start, end, row.startedAt))
    {
      GroupByWalletIsPerWallet(shares, start, end, w);
    }
  }

  // After any history, closing a window leaves its rows equal to a direct aggregation of the shares, with
  // the right stamps.
  lemma ClosureIsExact(ops: seq<Op>, start: nat, end: nat, now: int)
    requires start < end
    ensures var t := Replay(EMPTY, ops + [Close(start, end, now)]);
            && RowsAre(t.shares, t.rollups, start, end)
            && StampsAre(t.shares, Replay(EMPTY, ops).rollups, t.rollups, start, end, now)
  {
    var more := ops + [Close(start, end, now)];
    var t := Replay(EMPTY, more);
    HistoryKeepsSnapshots(more);
    ClosedJustNow(ops, start, end, now);
    assert SnapshotAt(t.shares, t.rollups, Closures(more), start, end);
    assert t.shares[..|t.shares|] == t.shares;
    assert more[..|ops|] == ops;
    ClosedStampsAre(t.shares, Replay(EMPTY, ops).rollups, start, end, now);
  }

  lemma ClosedJustNow(ops: seq<Op>, start: nat, end: nat, now: int)
    requires start < end
    ensures var more := ops + [Close(start, end, now)];
            ClosedAt(Closures(more), start, end) == |Replay(EMPTY, more).shares|
  {
    assert (ops + [Close(start, end, now)])[..|ops|] == ops;
  }

  // Once a wallet has a row for a window, the row stays and keeps its first start time for ever.
  lemma {:induction false} FirstStartIsKept(t: Tables, ops: seq<Op>, key: Key)
    requires key in t.rollups
    ensures key in Replay(t, ops).rollups && Replay(t, ops).rollups[key].startedAt == t.rollups[key].startedAt
  {
    if ops != [] {
      FirstStartIsKept(t, ops[..|ops| - 1], key);
    }
  }

  // Closing again without new shares changes nothing but the end time.
  lemma ReclosureIsIdempotent(t: Tables, start: nat, end: nat, first: int, second: int)
    requires start < end
    ensures var once := ApplyOp(t, Close(start, end, first));
            var twice := ApplyOp(once, Close(start, end, second));
            && twice.rollups.Keys == once.rollups.Keys
            && (forall key :: key in once.rollups ==>
                                twice.rollups[key].(endedAt := once.rollups[key].endedAt) == once.rollups[key])
            && (first == second ==> twice == once)
  {
    var once := ApplyOp(t, Close(start, end, first));
    var twice := ApplyOp(once, Close(start, end, second));
    forall key | key in once.rollups
      ensures key in twice.rollups
      ensures twice.rollups[key].(endedAt := once.rollups[key].endedAt) == once.rollups[key]
      ensures first == second ==> twice.rollups[key] == once.rollups[key]
    {
    }
    assert twice.rollups.Keys == once.rollups.Keys;
    assert first == second ==> twice.rollups == once.rollups;
  }

  // Adjacent windows count every share exactly once.
  lemma {:induction false} AdjacentWindowsPartition(shares: seq<Share>, w: WalletId, a: nat, b: nat, c: nat)
    requires a <= b <= c
    ensures WeightIn(shares, w, a, c) == WeightIn(shares, w, a, b) + WeightIn(shares, w, b, c)
    ensures CountIn(shares, w, a, c) == CountIn(shares, w, a, b) + CountIn(shares, w, b, c)
  {
    if shares != [] {
      AdjacentWindowsPartition(shares[..|shares| - 1], w, a, b, c);
    }
  }

  lemma {:induction false} TakeOneWallet(shares: seq<Share>, ws: set<WalletId>, w: WalletId, start: nat, end: nat)
    requires w in ws
    ensures WeightFor(shares, ws, start, end)
         == WeightIn(shares, w, start, end) + WeightFor(shares, ws - {w}, start, end)
    ensures CountFor(shares, ws, start, end)
         == CountIn(shares, w, start, end) + CountFor(shares, ws - {w}, start, end)
  {
    if shares != [] {
      TakeOneWallet(shares[..|shares| - 1], ws, w, start, end);
    }
  }

  lemma {:induction false} NoWallet(shares: seq<Share>, start: nat, end: nat)
    ensures WeightFor(shares, {}, start, end) == 0.0 && CountFor(shares, {}, start, end) == 0
  {
    if shares != [] {
      NoWallet(shares[..|shares| - 1], start, end);
    }
  }

  // Shares of the range, whoever owns them.
  ghost function TotalCount(shares: seq<Share>, start: nat, end: nat): nat {
    if shares == [] then 0 else
    TotalCount(shares[..|shares| - 1], start, end) + if InRange(shares[|shares| - 1], start, end) then 1 else 0
  }

  ghost function TotalDifficulty(shares: seq<Share>, start: nat, end: nat): real {
    if shares == [] then 0.0 else
    var s := shares[|shares| - 1];
    TotalDifficulty(shares[..|shares| - 1], start, end) + if InRange(s, start, end) then s.difficulty else 0.0
  }

  lemma {:induction false} AllContributors(shares: seq<Share>, ws: set<WalletId>, start: nat, end: nat)
    requires forall s :: s in shares && InRange(s, start, end) ==> s.wallet in ws
    ensures WeightFor(shares, ws, start, end) == TotalDifficulty(shares, start, end)
    ensures CountFor(shares, ws, start, end) == TotalCount(shares, start, end)
  {
    if shares != [] {
      assert shares == shares[..|shares| - 1] + [shares[|shares| - 1]];
      AllContributors(shares[..|shares| - 1], ws, start, end);
    }
  }

  lemma {:induction false} ContributorsGrouped(shares: seq<Share>, start: nat, end: nat)
    ensures forall s :: s in shares && InRange(s, start, end) ==> s.wallet in GroupByWallet(shares, start, end)
  {
    if shares != [] {
      assert shares == shares[..|shares| - 1] + [shares[|shares| - 1]];
      ContributorsGrouped(shares[..|shares| - 1], start, end);
    }
  }

  lemma SomeWallet(ws: set<WalletId>)
    ensures ws == {} || exists w :: w in ws
  {
    if forall w :: w !in ws {
      assert ws == {};
    }
  }

  // The totals of the rows of one window, read back one row at a time.
  method ReadBack(shares: seq<Share>, agg: map<WalletId, Aggregate>, rollups: Rollups, start: nat, end: nat)
    returns (count: nat, total: real)
    requires agg == GroupByWallet(shares, start, end) && RowsAre(shares, rollups, start, end)
    ensures count == TotalCount(shares, start, end) && total == TotalDifficulty(shares, start, end)
  {
    count, total := 0, 0.0;
    var rest: set<WalletId> := agg.Keys;
    ghost var all := agg.Keys;
    while rest != {}
      invariant rest <= all
      invariant total + WeightFor(shares, rest, start, end) == WeightFor(shares, all, start, end)
      invariant count + CountFor(shares, rest, start, end) == CountFor(shares, all, start, end)
      decreases |rest|
    {
      SomeWallet(rest);
      var w :| w in rest;
      TakeOneWallet(shares, rest, w, start, end);
      GroupByWalletIsPerWallet(shares, start, end, w);
      total, count := total + rollups[Key(w, start, end)].weight, count + rollups[Key(w, start, end)].count;
      rest := rest - {w};
    }
    NoWallet(shares, start, end);
    ContributorsGrouped(shares, start, end);
    AllContributors(shares, all, start, end);
  }

  datatype CloseOutcome = CloseOutcome(wallets: nat, shares: nat, totalWeight: real)

  // The aggregator over the two tables it touches.
  class WindowAggregator {
    var shares: seq<Share>
    var rollups: Rollups
    ghost var closures: ClosureMap

    ghost predicate Valid()
      reads this
    {
      SnapshotsAt(shares, rollups, closures)
    }

    constructor ()
      ensures Valid() && shares == [] && rollups == map[] && closures == map[]
    {
      shares, rollups, closures := [], map[], map[];
      new;
      NothingClosed();
    }

    method InsertShare(s: Share)
      requires Valid()
      modifies this`shares
      ensures Valid() && shares == old(shares) + [s]
    {
      InsertKeepsSnapshotsAt(shares, rollups, closures, s);
      shares := shares + [s];
    }

    // The reported totals are read back from the rows just written, one row at a time; they are the
    // number and the weight of all shares in the range.
    method CloseWindow(start: nat, end: nat, now: int) returns (r: Result<CloseOutcome, string>)
      requires Valid()
      modifies this`rollups, this`closures
      ensures Valid()
      ensures r.Err? <==> end <= start
      ensures r.Err? ==> rollups == old(rollups) && closures == old(closures)
      ensures r.Ok? ==>
                && rollups == Closed(shares, old(rollups), start, end, now)
                && closures == old(closures)[(start, end) := |shares|]
                && RowsAre(shares, rollups, start, end)
                && StampsAre(shares, old(rollups), rollups, start, end, now)
                && r.value.wallets == |GroupByWallet(shares, start, end)|
                && r.value.shares == TotalCount(shares, start, end)
                && r.value.totalWeight == TotalDifficulty(shares, start, end)
    {
      if end <= start {
        return Err("close_window: daa_end must be > daa_start");
      }
      var agg := GroupByWallet(shares, start, end);
      var closed := Closed(shares, rollups, start, end, now);
      ClosedKeepsSnapshotsAt(shares, rollups, closures, start, end, now);
      SnapshotsAtAre(shares, rollups, closures);
      ClosedRowsAre(shares, rollups, start, end, now);
      ClosedStampsAre(shares, rollups, start, end, now);
      var count, total := ReadBack(shares, agg, closed, start, end);
      rollups := closed;
      closures := closures[(start, end) := |shares|];
      r := Ok(CloseOutcome(|agg|, count, total));
    }
  }
}

/**
 The duplicate guard over whole histories: its queue is the order of insertion, and what it answers is
 what was last recorded.
 */
module DuplicateHistory {
  import opened Wrappers
  import opened TtlQueue
  import opened TtlPruning
  import opened DuplicateGuard

  // The guard after a history, from empty.
  function After(ttl: nat, max: nat, ops: seq<Op>): Guard {
    RunOps(Queue(ttl, max, map[], []), ops)
  }

  // The last operation inserts `key` anew.
  predicate Inserts(ttl: nat, max: nat, ops: seq<Op>, key: SubmitKey)
    requires ops != []
  {
    var op := ops[|ops| - 1];
    op.DoInsert? && op.key == key && key !in Pruned(After(ttl, max, ops[..|ops| - 1]), op.now).entries
  }

  // The index of the insertion that began the latest stay of a key.
  function Began(ttl: nat, max: nat, ops: seq<Op>, key: SubmitKey): nat {
    if ops == [] then 0
    else if Inserts(ttl, max, ops, key) then |ops| - 1
    else Began(ttl, max, ops[..|ops| - 1], key)
  }

  // The last operation since index `begin` that records something for the key: a later outcome, or the
  // insertion itself.
  function LastTouch(ops: seq<Op>, key: SubmitKey, begin: nat): nat {
    if |ops| <= begin + 1 then begin
    else if ops[|ops| - 1].DoSet? && ops[|ops| - 1].key == key then |ops| - 1
    else LastTouch(ops[..|ops| - 1], key, begin)
  }

  function EntryOf(op: Op): Entry<Outcome> {
    Entry(op.now, if op.DoSet? then op.outcome else InFlight)
  }

  // From the insertion at `begin` until now the key has been in the guard without a break.
  ghost predicate Stays(ttl: nat, max: nat, ops: seq<Op>, key: SubmitKey, begin: nat) {
    && begin < |ops|
    && Inserts(ttl, max, ops[..begin + 1], key)
    && forall n :: begin < n <= |ops| ==> key in After(ttl, max, ops[..n]).entries
  }

  lemma AfterStep(ttl: nat, max: nat, ops: seq<Op>)
    requires ops != []
    ensures After(ttl, max, ops) == ApplyOp(After(ttl, max, ops[..|ops| - 1]), ops[|ops| - 1])
  {
  }

  // The operation on a guard that is already pruned.
  function OpOn(p: Guard, op: Op): Guard {
    match op
    case DoGet(_, _) => p
    case DoInsert(key, now) => InsertIn(p, key, now)
    case DoSet(key, now, outcome) => SetIn(p, key, now, outcome)
  }

  // The operation records something for the key.
  predicate Touches(p: Guard, op: Op, key: SubmitKey) {
    op.key == key && (op.DoSet? || (op.DoInsert? && key !in p.entries))
  }

  lemma OpOnFacts(p: Guard, op: Op, key: SubmitKey)
    ensures var g' := OpOn(p, op);
      && (key in g'.entries <==> key in p.entries || (op.DoInsert? && op.key == key))
      && g'.order == p.order + (if op.DoInsert? && op.key !in p.entries then [op.key] else [])
      && (key in g'.entries && Touches(p, op, key) ==> g'.entries[key] == EntryOf(op))
      && (key in g'.entries && !Touches(p, op, key) ==> g'.entries[key] == p.entries[key])
  {
  }

  // What one operation leaves of the queue and of one entry.
  lemma OpFacts(g: Guard, op: Op, key: SubmitKey)
    requires Listing(g)
    ensures var g', p := ApplyOp(g, op), Pruned(g, op.now);
      && (key in g'.entries <==> key in p.entries || (op.DoInsert? && op.key == key))
      && (key in p.entries ==> key in g.entries)
      && g'.order == p.order + (if op.DoInsert? && op.key !in p.entries then [op.key] else [])
      && (key in g'.entries && Touches(p, op, key) ==> g'.entries[key] == EntryOf(op))
      && (key in g'.entries && !Touches(p, op, key) ==> key in g.entries && g'.entries[key] == g.entries[key])
  {
    OpOnFacts(Pruned(g, op.now), op, key);
    assert ApplyOp(g, op) == OpOn(Pruned(g, op.now), op);
    PrunedEntry(g, op.now, key);
  }

  lemma PrunedEntry(g: Guard, now: int, key: SubmitKey)
    requires Listing(g)
    ensures key in Pruned(g, now).entries ==> key in g.entries && Pruned(g, now).entries[key] == g.entries[key]
  {
    PruneFacts(g, now);
  }

  lemma StayBegins(ttl: nat, max: nat, ops: seq<Op>, key: SubmitKey)
    requires ops != [] && Inserts(ttl, max, ops, key)
    ensures Stays(ttl, max, ops, key, |ops| - 1)
  {
    var last := |ops| - 1;
    assert ops[..last + 1] == ops;
    forall n | last < n <= |ops|
      ensures key in After(ttl, max, ops[..n]).entries
    {
      assert n == last + 1;
    }
  }

  lemma StayGoesOn(ttl: nat, max: nat, ops: seq<Op>, key: SubmitKey, begin: nat)
    requires ops != [] && Stays(ttl, max, ops[..|ops| - 1], key, begin) && key in After(ttl, max, ops).entries
    ensures Stays(ttl, max, ops, key, begin)
  {
    var init := ops[..|ops| - 1];
    assert ops[..begin + 1] == init[..begin + 1];
    forall n | begin < n <= |ops|
      ensures key in After(ttl, max, ops[..n]).entries
    {
      assert n < |ops| ==> ops[..n] == init[..n];
      assert n == |ops| ==> ops[..n] == ops;
    }
  }

  // A resident key has stayed since `Began`.
  lemma {:induction false} ResidentStays(ttl: nat, max: nat, ops: seq<Op>, key: SubmitKey)
    requires key in After(ttl, max, ops).entries
    ensures Stays(ttl, max, ops, key, Began(ttl, max, ops, key))
  {
    var init, op := ops[..|ops| - 1], ops[|ops| - 1];
    HistoryKeepsListing(ttl, max, init);
    AfterStep(ttl, max, ops);
    OpFacts(After(ttl, max, init), op, key);
    if Inserts(ttl, max, ops, key) {
      StayBegins(ttl, max, ops, key);
    } else {
      ResidentStays(ttl, max, init, key);
      StayGoesOn(ttl, max, ops, key, Began(ttl, max, init, key));
    }
  }

  // ---- the queue is the order of insertion ----------------------------------------------------------

  ghost predicate ByInsertion(ttl: nat, max: nat, ops: seq<Op>, order: seq<SubmitKey>) {
    forall i, j :: 0 <= i < j < |order| ==> Began(ttl, max, ops, order[i]) < Began(ttl, max, ops, order[j])
  }

  lemma BeganBound(ttl: nat, max: nat, ops: seq<Op>, key: SubmitKey)
    requires key in After(ttl, max, ops).entries
    ensures Began(ttl, max, ops, key) < |ops|
  {
    ResidentStays(ttl, max, ops, key);
  }

  /**
   After any history the queue lists exactly the resident keys, in the order in which their present
   stays began.
   */
  lemma {:induction false} QueueIsInsertionOrder(ttl: nat, max: nat, ops: seq<Op>)
    ensures var g := After(ttl, max, ops);
      Listing(g) && |g.entries| == |g.order| <= max + 1 && ByInsertion(ttl, max, ops, g.order)
  {
    HistoryKeepsListing(ttl, max, ops);
    if ops != [] {
      var init, op := ops[..|ops| - 1], ops[|ops| - 1];
      QueueIsInsertionOrder(ttl, max, init);
      var g, g' := After(ttl, max, init), After(ttl, max, ops);
      PrunedListing(g, op.now);
      PruneFacts(g, op.now);
      OpFacts(g, op, op.key);
      SuffixByInsertion(ttl, max, init, g.order, Pruned(g, op.now).order);
      OrderGrows(ttl, max, ops, Pruned(g, op.now).order);
    }
  }

  lemma SuffixByInsertion(ttl: nat, max: nat, ops: seq<Op>, order: seq<SubmitKey>, suffix: seq<SubmitKey>)
    requires ByInsertion(ttl, max, ops, order)
    requires |suffix| <= |order| && suffix == order[|order| - |suffix|..]
    ensures ByInsertion(ttl, max, ops, suffix)
  {
    var d := |order| - |suffix|;
    forall i, j | 0 <= i < j < |suffix|
      ensures Began(ttl, max, ops, suffix[i]) < Began(ttl, max, ops, suffix[j])
    {
      assert suffix[i] == order[d + i] && suffix[j] == order[d + j];
    }
  }

  // The new operation moves no key that stays, and puts a new key last.
  lemma OrderGrows(ttl: nat, max: nat, ops: seq<Op>, kept: seq<SubmitKey>)
    requires ops != [] && ByInsertion(ttl, max, ops[..|ops| - 1], kept)
    requires var g, op := After(ttl, max, ops[..|ops| - 1]), ops[|ops| - 1];
      && kept == Pruned(g, op.now).order && Listing(Pruned(g, op.now))
      && (forall key :: key in Pruned(g, op.now).entries ==> key in g.entries)
    ensures var g, op := After(ttl, max, ops[..|ops| - 1]), ops[|ops| - 1];
      var added := if op.DoInsert? && op.key !in Pruned(g, op.now).entries then [op.key] else [];
      ByInsertion(ttl, max, ops, kept + added)
  {
    var init, op := ops[..|ops| - 1], ops[|ops| - 1];
    var p := Pruned(After(ttl, max, init), op.now);
    forall i | 0 <= i < |kept|
      ensures Began(ttl, max, ops, kept[i]) == Began(ttl, max, init, kept[i]) < |init|
    {
      assert kept[i] in p.entries;
      BeganBound(ttl, max, init, kept[i]);
    }
    var order := kept + (if op.DoInsert? && op.key !in p.entries then [op.key] else []);
    forall i, j | 0 <= i < j < |order|
      ensures Began(ttl, max, ops, order[i]) < Began(ttl, max, ops, order[j])
    {
      assert order[i] == kept[i];
      if j < |kept| {
        assert order[j] == kept[j];
      }
    }
  }

  // ---- what is recorded is what came last -------------------------------------------------------------

  lemma {:induction false} LastTouchIsLast(ops: seq<Op>, key: SubmitKey, begin: nat)
    requires begin < |ops| && ops[begin].key == key
    ensures var t := LastTouch(ops, key, begin);
      && begin <= t < |ops| && ops[t].key == key && (t == begin || ops[t].DoSet?)
      && forall n :: t < n < |ops| ==> !(ops[n].DoSet? && ops[n].key == key)
    decreases |ops|
  {
    if |ops| > begin + 1 && !(ops[|ops| - 1].DoSet? && ops[|ops| - 1].key == key) {
      LastTouchIsLast(ops[..|ops| - 1], key, begin);
    }
  }

  /**
   The entry of a resident key is what the last operation of its present stay recorded: the latest
   outcome set, or in flight if none was.
   */
  lemma {:induction false} EntryIsLastTouch(ttl: nat, max: nat, ops: seq<Op>, key: SubmitKey)
    requires key in After(ttl, max, ops).entries
    ensures var begin := Began(ttl, max, ops, key); var t := LastTouch(ops, key, begin);
      && begin <= t < |ops| && ops[t].key == key && (t == begin || ops[t].DoSet?)
      && After(ttl, max, ops).entries[key] == EntryOf(ops[t])
      && forall n :: t < n < |ops| ==> !(ops[n].DoSet? && ops[n].key == key)
  {
    ResidentStays(ttl, max, ops, key);
    LastTouchIsLast(ops, key, Began(ttl, max, ops, key));
    EntryValue(ttl, max, ops, key);
  }

  lemma {:induction false} EntryValue(ttl: nat, max: nat, ops: seq<Op>, key: SubmitKey)
    requires key in After(ttl, max, ops).entries
    ensures var t := LastTouch(ops, key, Began(ttl, max, ops, key));
      t < |ops| && After(ttl, max, ops).entries[key] == EntryOf(ops[t])
  {
    var init, op := ops[..|ops| - 1], ops[|ops| - 1];
    HistoryKeepsListing(ttl, max, init);
    AfterStep(ttl, max, ops);
    OpFacts(After(ttl, max, init), op, key);
    if !Inserts(ttl, max, ops, key) {
      EntryValue(ttl, max, init, key);
      BeganBound(ttl, max, init, key);
    }
  }

  // ---- exactly when a key is forgotten ---------------------------------------------------------------------

  // When the entry of a resident key was last recorded.
  function TouchedAt(ttl: nat, max: nat, ops: seq<Op>, key: SubmitKey): int {
    var t := LastTouch(ops, key, Began(ttl, max, ops, key));
    if t < |ops| then ops[t].now else 0
  }

  // At `now` every resident key whose stay began no later was last recorded more than the TTL ago; or the
  // guard is over its capacity and no stay began earlier.
  ghost predicate Forgets(ttl: nat, max: nat, ops: seq<Op>, key: SubmitKey, now: int) {
    var g := After(ttl, max, ops);
    || (forall other :: other in g.entries && Began(ttl, max, ops, other) <= Began(ttl, max, ops, key) ==>
                          now - TouchedAt(ttl, max, ops, other) > ttl)
    || (|g.entries| > max
        && forall other :: other in g.entries ==> Began(ttl, max, ops, key) <= Began(ttl, max, ops, other))
  }

  lemma PositionOf(ttl: nat, max: nat, ops: seq<Op>, key: SubmitKey) returns (i: nat)
    requires key in After(ttl, max, ops).entries
    ensures var g := After(ttl, max, ops);
      && i < |g.order| && g.order[i] == key
      && (forall j :: 0 <= j < |g.order| && g.order[j] == key ==> j == i)
      && (forall j :: 0 <= j < |g.order| ==>
                        (j <= i <==> Began(ttl, max, ops, g.order[j]) <= Began(ttl, max, ops, key)))
  {
    QueueIsInsertionOrder(ttl, max, ops);
    var g := After(ttl, max, ops);
    i :| i < |g.order| && g.order[i] == key;
    forall j | 0 <= j < |g.order|
      ensures j <= i <==> Began(ttl, max, ops, g.order[j]) <= Began(ttl, max, ops, key)
    {
    }
  }

  lemma StampIsTouch(ttl: nat, max: nat, ops: seq<Op>, key: SubmitKey)
    requires key in After(ttl, max, ops).entries
    ensures After(ttl, max, ops).entries[key].ts == TouchedAt(ttl, max, ops, key)
  {
    EntryIsLastTouch(ttl, max, ops, key);
  }

  lemma OutdatedIff(ttl: nat, max: nat, ops: seq<Op>, key: SubmitKey, now: int, i: nat)
    requires var g := After(ttl, max, ops);
      && Listing(g) && g.ttl == ttl && i < |g.order| && g.order[i] == key
      && (forall j :: 0 <= j < |g.order| ==>
                        (j <= i <==> Began(ttl, max, ops, g.order[j]) <= Began(ttl, max, ops, key)))
    ensures var g := After(ttl, max, ops);
      OutdatedTo(g, now, i + 1)
      <==> forall other :: other in g.entries && Began(ttl, max, ops, other) <= Began(ttl, max, ops, key) ==>
                             now - TouchedAt(ttl, max, ops, other) > ttl
  {
    var g := After(ttl, max, ops);
    forall other | other in g.entries
      ensures g.entries[other].ts == TouchedAt(ttl, max, ops, other)
    {
      StampIsTouch(ttl, max, ops, other);
    }
    if OutdatedTo(g, now, i + 1) {
      forall other | other in g.entries && Began(ttl, max, ops, other) <= Began(ttl, max, ops, key)
        ensures now - TouchedAt(ttl, max, ops, other) > ttl
      {
        var j :| 0 <= j < |g.order| && g.order[j] == other;
        assert Outdated(g, now, g.order[j]);
      }
    }
  }

  lemma OverIff(ttl: nat, max: nat, ops: seq<Op>, key: SubmitKey, i: nat)
    requires var g := After(ttl, max, ops);
      && Listing(g) && g.max == max && |g.entries| == |g.order| <= max + 1 && i < |g.order| && g.order[i] == key
      && (forall j :: 0 <= j < |g.order| ==>
                        (j <= i <==> Began(ttl, max, ops, g.order[j]) <= Began(ttl, max, ops, key)))
    ensures var g := After(ttl, max, ops);
      OverAt(g, i)
      <==> |g.entries| > max
           && forall other :: other in g.entries ==> Began(ttl, max, ops, key) <= Began(ttl, max, ops, other)
  {
    var g := After(ttl, max, ops);
    OverInListing(g, i);
    QueueIsInsertionOrder(ttl, max, ops);
    if i == 0 {
      forall other | other in g.entries
        ensures Began(ttl, max, ops, key) <= Began(ttl, max, ops, other)
      {
        var j :| 0 <= j < |g.order| && g.order[j] == other;
      }
    } else {
      assert g.order[0] in g.entries && Began(ttl, max, ops, g.order[0]) < Began(ttl, max, ops, g.order[i]);
    }
  }

  /**
   A pruning at any time drops a resident key exactly when every key whose stay began no later is past its
   TTL, or when the guard is over its capacity and this stay began first.
   */
  lemma ForgetsIff(ttl: nat, max: nat, ops: seq<Op>, key: SubmitKey, now: int)
    requires key in After(ttl, max, ops).entries
    ensures key !in Pruned(After(ttl, max, ops), now).entries <==> Forgets(ttl, max, ops, key, now)
  {
    var g := After(ttl, max, ops);
    QueueIsInsertionOrder(ttl, max, ops);
    HistoryKeepsListing(ttl, max, ops);
    var i := PositionOf(ttl, max, ops, key);
    KeptIff(g, now, key);
    OutdatedIff(ttl, max, ops, key, now, i);
    OverIff(ttl, max, ops, key, i);
    assert Dropped(g, now, key) <==> Goes(g, now, i);
  }

  // The key whose stay began first does not outlive its TTL: the next operation of any kind drops it, and
  // it is there afterwards only if that operation inserts it anew.
  lemma FirstExpiredLeaves(ttl: nat, max: nat, ops: seq<Op>, op: Op, key: SubmitKey)
    requires key in After(ttl, max, ops).entries && op.now - TouchedAt(ttl, max, ops, key) > ttl
    requires forall other :: other in After(ttl, max, ops).entries && other != key ==>
                               Began(ttl, max, ops, key) < Began(ttl, max, ops, other)
    ensures key in After(ttl, max, ops + [op]).entries ==> Inserts(ttl, max, ops + [op], key)
  {
    assert (ops + [op])[..|ops|] == ops;
    ForgetsIff(ttl, max, ops, key, op.now);
    HistoryKeepsListing(ttl, max, ops);
    OpFacts(After(ttl, max, ops), op, key);
  }

  /**
   A lookup answers with the outcome last recorded in the key's unbroken stay, and with nothing exactly
   when the key is not resident or the time has come to forget it.
   */
  lemma GetReturnsLastRecorded(ttl: nat, max: nat, ops: seq<Op>, key: SubmitKey, now: int)
    ensures var g := After(ttl, max, ops); var r := Get(g, key, now).1;
      && (r.Some? <==> key in g.entries && !Forgets(ttl, max, ops, key, now))
      && (r.Some? ==>
            var begin := Began(ttl, max, ops, key); var t := LastTouch(ops, key, begin);
            Stays(ttl, max, ops, key, begin) && t < |ops| && r == Some(EntryOf(ops[t]).value))
  {
    var g := After(ttl, max, ops);
    HistoryKeepsListing(ttl, max, ops);
    PruneFacts(g, now);
    if key in g.entries {
      ForgetsIff(ttl, max, ops, key, now);
      ResidentStays(ttl, max, ops, key);
      EntryIsLastTouch(ttl, max, ops, key);
    }
  }

  // ---- why a key leaves --------------------------------------------------------------------------------

  /**
   A key leaves only when its last record is older than the TTL, or over capacity; and then every
   resident key whose stay began no later leaves with it, so capacity evicts the earliest-inserted keys.
   */
  lemma EvictedIsEarliest(ttl: nat, max: nat, ops: seq<Op>, now: int, key: SubmitKey)
    requires key in Lost(After(ttl, max, ops), now)
    ensures var g, t := After(ttl, max, ops), LastTouch(ops, key, Began(ttl, max, ops, key));
      || (t < |ops| && Elapsed(now, ops[t].now) > ttl)
      || (|g.entries| > max
          && forall other :: other in g.entries && Began(ttl, max, ops, other) <= Began(ttl, max, ops, key) ==>
                               other in Lost(g, now))
  {
    var g := After(ttl, max, ops);
    QueueIsInsertionOrder(ttl, max, ops);
    HistoryKeepsListing(ttl, max, ops);
    EntryIsLastTouch(ttl, max, ops, key);
    WhyAKeyLeaves(g, now, key);
    if !Expired(g, now, key) {
      forall other | other in g.entries && Began(ttl, max, ops, other) <= Began(ttl, max, ops, key)
        ensures other in Lost(g, now)
      {
        var i :| 0 <= i < |g.order| && g.order[i] == other;
        var j :| 0 <= j < |g.order| && g.order[j] == key;
        assert i <= j;
      }
    }
  }
}

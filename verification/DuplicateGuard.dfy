/** The duplicate-submission guard: which submissions were seen, and what came of them. */
module DuplicateGuard {
  import opened Wrappers
  import opened TtlQueue

  type SubmitKey = string

  datatype Outcome = InFlight | Accepted | Stale | LowDiff | Bad

  type Guard = Queue<SubmitKey, Outcome>

  function Get(g: Guard, key: SubmitKey, now: int): (Guard, Option<Outcome>) {
    var p := Pruned(g, now);
    (p, if key in p.entries then Some(p.entries[key].value) else None)
  }

  function InsertInFlight(g: Guard, key: SubmitKey, now: int): Guard {
    InsertIn(Pruned(g, now), key, now)
  }

  function SetOutcome(g: Guard, key: SubmitKey, now: int, outcome: Outcome): Guard {
    SetIn(Pruned(g, now), key, now, outcome)
  }

  // The same on a guard that is already pruned.
  function InsertIn(p: Guard, key: SubmitKey, now: int): Guard {
    if key in p.entries then p
    else p.(entries := p.entries[key := Entry(now, InFlight)], order := p.order + [key])
  }

  function SetIn(p: Guard, key: SubmitKey, now: int, outcome: Outcome): Guard {
    if key in p.entries then p.(entries := p.entries[key := Entry(now, outcome)]) else p
  }

  // A key leaves only because its last touch is older than the TTL, or, when the guard is over its
  // capacity, as one of the earliest-inserted keys: everything queued before it leaves with it.
  lemma WhyAKeyLeaves(g: Guard, now: int, key: SubmitKey)
    requires Listing(g) && key in g.entries && key !in Pruned(g, now).entries
    ensures Expired(g, now, key)
            || (|g.entries| > g.max
                && forall i, j :: 0 <= i <= j < |g.order| && g.order[j] == key ==>
                                    g.order[i] !in Pruned(g, now).entries)
  {
    PruneFacts(g, now);
    PrunedListing(g, now);
    var p := Pruned(g, now);
    if !Expired(g, now, key) {
      var d := |g.order| - |p.order|;
      var k :| 0 <= k < d && g.order[k] == key;
      forall i, j | 0 <= i <= j < |g.order| && g.order[j] == key
        ensures g.order[i] !in p.entries
      {
        assert j == k;
        NotInSuffix(g, p, i);
      }
    }
  }

  lemma NotInSuffix(g: Guard, p: Guard, i: nat)
    requires Listing(g) && Covered(p) && Shrinks(g, p) && i < |g.order| - |p.order|
    ensures g.order[i] !in p.entries
  {
    var d := |g.order| - |p.order|;
    forall m | 0 <= m < |p.order|
      ensures p.order[m] != g.order[i]
    {
      assert p.order[m] == g.order[d + m];
    }
  }

  // What is kept or changed by each operation on the entry of one key.
  lemma OutcomeIsLastSet(g: Guard, key: SubmitKey, other: SubmitKey, now: int, outcome: Outcome)
    requires Listing(g)
    ensures var s := SetOutcome(g, key, now, outcome);
            && (key in s.entries ==> s.entries[key] == Entry(now, outcome) && key in g.entries)
            && (other != key && other in s.entries ==> other in g.entries && s.entries[other] == g.entries[other])
    ensures var s := InsertInFlight(g, key, now);
            && key in s.entries
            && (s.entries[key] == Entry(now, InFlight) || (key in g.entries && s.entries[key] == g.entries[key]))
            && (other != key && other in s.entries ==> other in g.entries && s.entries[other] == g.entries[other])
    ensures var (s, r) := Get(g, key, now);
            && (r.Some? <==> key in s.entries)
            && (r.Some? ==> key in g.entries && r.value == g.entries[key].value)
  {
    PruneFacts(g, now);
  }

  // ---- histories ---------------------------------------------------------------------------------

  datatype Op =
    | DoGet(key: SubmitKey, now: int)
    | DoInsert(key: SubmitKey, now: int)
    | DoSet(key: SubmitKey, now: int, outcome: Outcome)

  function ApplyOp(g: Guard, op: Op): Guard {
    match op
    case DoGet(key, now) => Get(g, key, now).0
    case DoInsert(key, now) => InsertInFlight(g, key, now)
    case DoSet(key, now, outcome) => SetOutcome(g, key, now, outcome)
  }

  function RunOps(g: Guard, ops: seq<Op>): Guard {
    if ops == [] then g else ApplyOp(RunOps(g, ops[..|ops| - 1]), ops[|ops| - 1])
  }

  lemma ApplyKeepsListing(g: Guard, op: Op)
    requires Listing(g)
    ensures Listing(ApplyOp(g, op)) && |ApplyOp(g, op).entries| <= g.max + 1
    ensures ApplyOp(g, op).max == g.max && ApplyOp(g, op).ttl == g.ttl
  {
    PrunedListing(g, op.now);
    PruneFacts(g, op.now);
    var p := Pruned(g, op.now);
    match op
    case DoGet(_, _) =>
    case DoInsert(key, now) =>
      if key !in p.entries {
        AppendListing(p, key, Entry(now, InFlight));
      }
    case DoSet(key, now, outcome) =>
      if key in p.entries {
        UpdateListing(p, key, Entry(now, outcome));
      }
  }

  // After any history the queue is a duplicate-free listing of the map, and the map has at most one
  // entry more than the limit.
  lemma {:induction false} HistoryKeepsListing(ttl: nat, max: nat, ops: seq<Op>)
    ensures var g := RunOps(Queue(ttl, max, map[], []), ops);
            && Listing(g) && |g.entries| == |g.order| <= max + 1 && g.max == max && g.ttl == ttl
  {
    if ops != [] {
      HistoryKeepsListing(ttl, max, ops[..|ops| - 1]);
      ApplyKeepsListing(RunOps(Queue(ttl, max, map[], []), ops[..|ops| - 1]), ops[|ops| - 1]);
      ListingSize(RunOps(Queue(ttl, max, map[], []), ops));
    }
  }

  class DuplicateSubmitGuard {
    var queue: Guard

    ghost predicate Valid()
      reads this
    {
      Listing(queue) && |queue.entries| <= queue.max + 1
    }

    constructor (ttl: nat, maxEntries: nat)
      ensures Valid() && queue == Queue(ttl, maxEntries, map[], [])
    {
      queue := Queue(ttl, maxEntries, map[], []);
    }

    method Lookup(key: SubmitKey, now: int) returns (outcome: Option<Outcome>)
      requires Valid()
      modifies this
      ensures Valid() && (queue, outcome) == Get(old(queue), key, now)
    {
      ApplyKeepsListing(queue, DoGet(key, now));
      queue := Prune(queue, now);
      outcome := if key in queue.entries then Some(queue.entries[key].value) else None;
    }

    method Insert(key: SubmitKey, now: int)
      requires Valid()
      modifies this
      ensures Valid() && queue == InsertInFlight(old(queue), key, now)
    {
      ApplyKeepsListing(queue, DoInsert(key, now));
      queue := Prune(queue, now);
      if key in queue.entries {
        return;
      }
      queue := queue.(entries := queue.entries[key := Entry(now, InFlight)], order := queue.order + [key]);
    }

    method Set(key: SubmitKey, now: int, outcome: Outcome)
      requires Valid()
      modifies this
      ensures Valid() && queue == SetOutcome(old(queue), key, now, outcome)
    {
      ApplyKeepsListing(queue, DoSet(key, now, outcome));
      queue := Prune(queue, now);
      if key in queue.entries {
        queue := queue.(entries := queue.entries[key := Entry(now, outcome)]);
      }
    }
  }
}

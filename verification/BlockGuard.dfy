/** The block-submission guard, and the submission protocol built on it: at most one node call per block. */
module BlockGuard {
  import opened TtlPruning
  import opened TtlQueue

  type Hash = nat

  datatype Mark = Mark

  type Guard = Queue<Hash, Mark>

  function TryMark(g: Guard, h: Hash, now: int): (Guard, bool) {
    MarkIn(Pruned(g, now), h, now)
  }

  function MarkIn(p: Guard, h: Hash, now: int): (Guard, bool) {
    if h in p.entries then (p, false)
    else (p.(entries := p.entries[h := Entry(now, Mark)], order := p.order + [h]), true)
  }

  // The queue keeps the key: after a removal it holds keys the map has not, and after a new mark of
  // the same hash it holds the key twice.
  function Remove(g: Guard, h: Hash, now: int): Guard {
    var p := Pruned(g, now);
    p.(entries := p.entries - {h})
  }

  ghost predicate Valid(g: Guard) {
    Covered(g) && |g.entries| <= g.max + 1
  }

  // What the guard keeps of another hash: its mark, unless pruning drops it.
  ghost predicate KeepsMark(g: Guard, r: Guard, now: int, k: Hash) {
    && (k in r.entries <==> k in g.entries && !Dropped(g, now, k))
    && (k in r.entries ==> r.entries[k] == g.entries[k])
  }

  // A hash is marked exactly when it is not, or no longer, in the guard, and its age then counts from now.
  lemma TryMarkFacts(g: Guard, h: Hash, now: int)
    requires Covered(g)
    ensures var (r, ok) := TryMark(g, h, now);
            && Valid(r) && r.max == g.max && r.ttl == g.ttl
            && h in r.entries && (ok <==> h !in g.entries || Dropped(g, now, h))
            && r.entries[h] == (if ok then Entry(now, Mark) else g.entries[h])
            && (forall k :: k != h ==> KeepsMark(g, r, now, k))
  {
    PruneSizes(g, now);
    MarkFacts(Pruned(g, now), h, now);
    KeptIff(g, now, h);
    forall k: Hash | k != h
      ensures KeepsMark(g, TryMark(g, h, now).0, now, k)
    {
      KeptIff(g, now, k);
    }
  }

  lemma MarkFacts(p: Guard, h: Hash, now: int)
    requires Covered(p) && |p.entries| <= p.max
    ensures var (r, ok) := MarkIn(p, h, now);
            && Valid(r) && r.max == p.max && r.ttl == p.ttl
            && h in r.entries && (ok <==> h !in p.entries)
            && r.entries == if ok then p.entries[h := Entry(now, Mark)] else p.entries
  {
    if h !in p.entries {
      var r := MarkIn(p, h, now).0;
      assert r.entries.Keys == p.entries.Keys + {h};
      assert |r.entries| == |r.entries.Keys| && |p.entries| == |p.entries.Keys|;
      assert r.order[|p.order|] == h;
      assert forall k :: k in p.entries ==> k in p.order;
    }
  }

  lemma RemoveFacts(g: Guard, h: Hash, now: int)
    requires Covered(g)
    ensures var r := Remove(g, h, now);
            && Valid(r) && r.max == g.max && r.ttl == g.ttl
            && h !in r.entries && (forall k :: k != h ==> KeepsMark(g, r, now, k))
  {
    PruneSizes(g, now);
    RemoveIn(Pruned(g, now), h);
    forall k: Hash | k != h
      ensures KeepsMark(g, Remove(g, h, now), now, k)
    {
      KeptIff(g, now, k);
    }
  }

  lemma RemoveIn(p: Guard, h: Hash)
    requires Covered(p) && |p.entries| <= p.max
    ensures Valid(p.(entries := p.entries - {h}))
  {
    SubMapSize(p.entries - {h}, p.entries);
  }

  class BlockSubmitGuard {
    var queue: Guard

    ghost predicate Ok()
      reads this
    {
      Valid(queue)
    }

    constructor (ttl: nat, maxEntries: nat)
      ensures Ok() && queue == Queue(ttl, maxEntries, map[], [])
    {
      queue := Queue(ttl, maxEntries, map[], []);
    }

    method TryMarkHash(h: Hash, now: int) returns (marked: bool)
      requires Ok()
      modifies this
      ensures Ok() && (queue, marked) == TryMark(old(queue), h, now)
    {
      TryMarkFacts(queue, h, now);
      queue := Prune(queue, now);
      if h in queue.entries {
        return false;
      }
      queue := queue.(entries := queue.entries[h := Entry(now, Mark)], order := queue.order + [h]);
      marked := true;
    }

    method RemoveHash(h: Hash, now: int)
      requires Ok()
      modifies this
      ensures Ok() && queue == Remove(old(queue), h, now)
    {
      RemoveFacts(queue, h, now);
      queue := Prune(queue, now);
      queue := queue.(entries := queue.entries - {h});
    }
  }

  // ---- the submission protocol ------------------------------------------------------------------

  // The node's answer to one call: a verdict on the block, an error that names a duplicate, or any
  // other transport failure.
  datatype Reply = NodeAccepted | NodeRejected | DuplicateError | TransportError

  datatype Phase = Refused | InRpc | Answered(reply: Reply) | Released

  datatype Call = Call(hash: Hash, phase: Phase)

  // `evicted` collects the hashes that pruning ever dropped, by age or by capacity.
  datatype State = State(guard: Guard, calls: seq<Call>, evicted: set<Hash>)

  datatype Action =
    | Submit(hash: Hash, now: int)
    | NodeReplies(call: nat, reply: Reply)
    | Release(call: nat, now: int)

  function Step(s: State, a: Action): State {
    match a
    case Submit(h, now) =>
      var (g, marked) := TryMark(s.guard, h, now);
      State(g, s.calls + [Call(h, if marked then InRpc else Refused)], s.evicted + Lost(s.guard, now))
    case NodeReplies(i, reply) =>
      if i >= |s.calls| || !s.calls[i].phase.InRpc? then s
      else s.(calls := s.calls[i := s.calls[i].(phase := Answered(reply))])
    case Release(i, now) =>
      if i >= |s.calls| || s.calls[i].phase != Answered(TransportError) then s
      else State(Remove(s.guard, s.calls[i].hash, now), s.calls[i := s.calls[i].(phase := Released)],
                 s.evicted + Lost(s.guard, now))
  }

  function Run(s: State, actions: seq<Action>): State {
    if actions == [] then s else Step(Run(s, actions[..|actions| - 1]), actions[|actions| - 1])
  }

  function Start(ttl: nat, max: nat): State {
    State(Queue(ttl, max, map[], []), [], {})
  }

  // The call reached the node.
  predicate Reached(c: Call) {
    !c.phase.Refused?
  }

  // The call holds its hash: it is at the node, or the node has answered and the mark was not released.
  predicate Holds(c: Call) {
    c.phase.InRpc? || c.phase.Answered?
  }

  // Among the calls for `h`, a holder is the last that reached the node, and all others were released.
  ghost predicate OneHolder(calls: seq<Call>, h: Hash) {
    forall i, j :: 0 <= i < |calls| && 0 <= j < |calls| && i != j
                   && calls[i].hash == h && calls[j].hash == h && Holds(calls[i]) && Reached(calls[j]) ==>
                     j < i && calls[j].phase.Released?
  }

  ghost predicate HasHolder(calls: seq<Call>, h: Hash) {
    exists i :: 0 <= i < |calls| && calls[i].hash == h && Holds(calls[i])
  }

  // A hash is marked exactly while a call holds it.
  ghost predicate HashOk(calls: seq<Call>, marked: bool, h: Hash) {
    OneHolder(calls, h) && (marked <==> HasHolder(calls, h))
  }

  ghost predicate Inv(s: State) {
    Valid(s.guard) && forall h: Hash :: h !in s.evicted ==> HashOk(s.calls, h in s.guard.entries, h)
  }

  lemma NewCallKeeps(calls: seq<Call>, marked: bool, c: Call, h: Hash)
    requires HashOk(calls, marked, h)
    requires c.phase == if c.hash == h && marked then Refused else c.phase
    requires c.phase.Refused? || c.phase.InRpc?
    ensures HashOk(calls + [c], marked || (c.hash == h && c.phase.InRpc?), h)
  {
    var n, calls' := |calls|, calls + [c];
    assert forall i :: 0 <= i < n ==> calls'[i] == calls[i];
    assert calls'[n] == c;
    if HasHolder(calls, h) {
      var i :| 0 <= i < n && calls[i].hash == h && Holds(calls[i]);
      assert calls'[i].hash == h && Holds(calls'[i]);
    }
    if HasHolder(calls', h) {
      var i :| 0 <= i < |calls'| && calls'[i].hash == h && Holds(calls'[i]);
      assert i < n ==> HasHolder(calls, h);
    }
    if c.hash == h && c.phase.InRpc? {
      NoHolderAllReleased(calls, h);
    }
  }

  lemma NoHolderAllReleased(calls: seq<Call>, h: Hash)
    requires !HasHolder(calls, h)
    ensures forall j :: 0 <= j < |calls| && calls[j].hash == h && Reached(calls[j]) ==> calls[j].phase.Released?
  {
    forall j | 0 <= j < |calls| && calls[j].hash == h && Reached(calls[j])
      ensures calls[j].phase.Released?
    {
      assert !Holds(calls[j]);
    }
  }

  lemma AnswerKeeps(calls: seq<Call>, marked: bool, i: nat, reply: Reply, h: Hash)
    requires HashOk(calls, marked, h) && i < |calls| && calls[i].phase.InRpc?
    ensures HashOk(calls[i := calls[i].(phase := Answered(reply))], marked, h)
  {
    var calls' := calls[i := calls[i].(phase := Answered(reply))];
    SamePhases(calls, calls', h);
  }

  lemma SamePhases(calls: seq<Call>, calls': seq<Call>, h: Hash)
    requires |calls'| == |calls|
    requires forall k :: 0 <= k < |calls| ==>
                           && calls'[k].hash == calls[k].hash && Holds(calls'[k]) == Holds(calls[k])
                           && calls'[k].phase.Released? == calls[k].phase.Released?
    ensures OneHolder(calls, h) ==> OneHolder(calls', h)
    ensures HasHolder(calls, h) == HasHolder(calls', h)
  {
    if HasHolder(calls, h) {
      var k :| 0 <= k < |calls| && calls[k].hash == h && Holds(calls[k]);
      assert calls'[k].hash == h && Holds(calls'[k]);
    }
    if HasHolder(calls', h) {
      var k :| 0 <= k < |calls| && calls'[k].hash == h && Holds(calls'[k]);
      assert calls[k].hash == h && Holds(calls[k]);
    }
  }

  lemma ReleaseCallKeeps(calls: seq<Call>, marked: bool, i: nat, h: Hash)
    requires HashOk(calls, marked, h) && i < |calls| && Holds(calls[i])
    ensures HashOk(calls[i := calls[i].(phase := Released)], marked && calls[i].hash != h, h)
  {
    var calls' := calls[i := calls[i].(phase := Released)];
    assert forall k :: 0 <= k < |calls| && k != i ==> calls'[k] == calls[k];
    if calls[i].hash == h {
      assert forall k :: 0 <= k < |calls| && k != i && calls[k].hash == h && Reached(calls[k]) ==>
                           calls[k].phase.Released?;
    } else if HasHolder(calls, h) {
      var k :| 0 <= k < |calls| && calls[k].hash == h && Holds(calls[k]);
      assert calls'[k].hash == h && Holds(calls'[k]);
    }
    if HasHolder(calls', h) {
      var k :| 0 <= k < |calls| && calls'[k].hash == h && Holds(calls'[k]);
      assert k != i && calls[k].hash == h && Holds(calls[k]);
    }
  }

  // A hash that pruning does not drop here keeps its mark through the pruning.
  lemma UnlostStays(g: Guard, now: int, h: Hash)
    requires h !in Lost(g, now)
    ensures h in g.entries ==> !Dropped(g, now, h)
  {
    KeptIff(g, now, h);
  }

  lemma SubmitKeeps(s: State, h: Hash, now: int)
    requires Inv(s)
    ensures Inv(Step(s, Submit(h, now)))
  {
    var s' := Step(s, Submit(h, now));
    TryMarkFacts(s.guard, h, now);
    forall x: Hash | x !in s'.evicted
      ensures HashOk(s'.calls, x in s'.guard.entries, x)
    {
      UnlostStays(s.guard, now, x);
      assert x != h ==> KeepsMark(s.guard, s'.guard, now, x);
      NewCallKeeps(s.calls, x in s.guard.entries, s'.calls[|s.calls|], x);
    }
  }

  lemma RepliesKeeps(s: State, i: nat, reply: Reply)
    requires Inv(s)
    ensures Inv(Step(s, NodeReplies(i, reply)))
  {
    var s' := Step(s, NodeReplies(i, reply));
    if i < |s.calls| && s.calls[i].phase.InRpc? {
      forall x: Hash | x !in s'.evicted
        ensures HashOk(s'.calls, x in s'.guard.entries, x)
      {
        AnswerKeeps(s.calls, x in s.guard.entries, i, reply, x);
      }
    }
  }

  lemma ReleaseKeeps(s: State, i: nat, now: int)
    requires Inv(s)
    ensures Inv(Step(s, Release(i, now)))
  {
    if i < |s.calls| && s.calls[i].phase == Answered(TransportError) {
      var s' := Step(s, Release(i, now));
      RemoveFacts(s.guard, s.calls[i].hash, now);
      forall x: Hash | x !in s'.evicted
        ensures HashOk(s'.calls, x in s'.guard.entries, x)
      {
        UnlostStays(s.guard, now, x);
        assert x != s.calls[i].hash ==> KeepsMark(s.guard, s'.guard, now, x);
        ReleaseCallKeeps(s.calls, x in s.guard.entries, i, x);
      }
    }
  }

  lemma {:induction false} RunKeepsInv(ttl: nat, max: nat, actions: seq<Action>)
    ensures Inv(Run(Start(ttl, max), actions))
  {
    if actions != [] {
      RunKeepsInv(ttl, max, actions[..|actions| - 1]);
      var s := Run(Start(ttl, max), actions[..|actions| - 1]);
      match actions[|actions| - 1]
      case Submit(h, now) => SubmitKeeps(s, h, now);
      case NodeReplies(i, reply) => RepliesKeeps(s, i, reply);
      case Release(i, now) => ReleaseKeeps(s, i, now);
    }
  }

  // ---- what was evicted -------------------------------------------------------------------------

  // The action finds the hash marked, and prunes the guard at a time when that drops it.
  ghost predicate Drops(s: State, a: Action, h: Hash) {
    && h in s.guard.entries
    && match a
       case Submit(_, now) => Dropped(s.guard, now, h)
       case NodeReplies(_, _) => false
       case Release(i, now) =>
         i < |s.calls| && s.calls[i].phase == Answered(TransportError) && Dropped(s.guard, now, h)
  }

  ghost predicate DroppedAt(ttl: nat, max: nat, actions: seq<Action>, n: nat, h: Hash) {
    n < |actions| && Drops(Run(Start(ttl, max), actions[..n]), actions[n], h)
  }

  lemma StepEvicts(s: State, a: Action, h: Hash)
    ensures h in Step(s, a).evicted <==> h in s.evicted || Drops(s, a, h)
  {
    if a.Submit? || a.Release? {
      KeptIff(s.guard, a.now, h);
    }
  }

  lemma {:induction false} EvictedAt(ttl: nat, max: nat, actions: seq<Action>, h: Hash) returns (n: nat)
    requires h in Run(Start(ttl, max), actions).evicted
    ensures DroppedAt(ttl, max, actions, n, h)
  {
    var last := |actions| - 1;
    var init := actions[..last];
    StepEvicts(Run(Start(ttl, max), init), actions[last], h);
    if h in Run(Start(ttl, max), init).evicted {
      n := EvictedAt(ttl, max, init, h);
      assert init[..n] == actions[..n] && init[n] == actions[n];
    } else {
      n := last;
    }
  }

  lemma {:induction false} EvictedStays(ttl: nat, max: nat, actions: seq<Action>, m: nat, h: Hash)
    requires m <= |actions| && h in Run(Start(ttl, max), actions[..m]).evicted
    ensures h in Run(Start(ttl, max), actions).evicted
  {
    if m == |actions| {
      assert actions[..m] == actions;
    } else {
      var init := actions[..|actions| - 1];
      assert init[..m] == actions[..m];
      EvictedStays(ttl, max, init, m, h);
    }
  }

  lemma DroppedIsEvicted(ttl: nat, max: nat, actions: seq<Action>, n: nat, h: Hash)
    requires DroppedAt(ttl, max, actions, n, h)
    ensures h in Run(Start(ttl, max), actions).evicted
  {
    var upTo := actions[..n + 1];
    assert upTo[..n] == actions[..n];
    StepEvicts(Run(Start(ttl, max), actions[..n]), actions[n], h);
    assert Run(Start(ttl, max), upTo) == Step(Run(Start(ttl, max), upTo[..n]), upTo[n]);
    EvictedStays(ttl, max, actions, n + 1, h);
  }

  // In every run the evicted hashes are exactly those that were marked when an action's pruning dropped them.
  lemma EvictedWasDropped(ttl: nat, max: nat, actions: seq<Action>, h: Hash)
    ensures h in Run(Start(ttl, max), actions).evicted <==> exists n: nat :: DroppedAt(ttl, max, actions, n, h)
  {
    if h in Run(Start(ttl, max), actions).evicted {
      var n := EvictedAt(ttl, max, actions, h);
    } else if n: nat :| DroppedAt(ttl, max, actions, n, h) {
      DroppedIsEvicted(ttl, max, actions, n, h);
    }
  }

  // As long as pruning has not dropped a hash, no two node calls for it overlap, and after the node
  // has answered other than by a plain transport failure no later call reaches the node: of two calls
  // that did reach it, the earlier one was released after a transport failure.
  lemma AtMostOneNodeCall(ttl: nat, max: nat, actions: seq<Action>, i: nat, j: nat)
    requires var s := Run(Start(ttl, max), actions);
             && i < j < |s.calls| && s.calls[i].hash == s.calls[j].hash && s.calls[i].hash !in s.evicted
             && Reached(s.calls[i]) && Reached(s.calls[j])
    ensures Run(Start(ttl, max), actions).calls[i].phase.Released?
  {
    RunKeepsInv(ttl, max, actions);
    var s := Run(Start(ttl, max), actions);
    assert HashOk(s.calls, s.calls[i].hash in s.guard.entries, s.calls[i].hash);
    assert !Holds(s.calls[i]);
  }

  // An answer is the one the node gave, and a released call got a transport failure: nothing else
  // reopens a hash.
  lemma StepOnCall(s: State, a: Action, i: nat)
    requires i < |s.calls|
    ensures var s' := Step(s, a);
            && i < |s'.calls| && s'.calls[i].hash == s.calls[i].hash
            && (s'.calls[i].phase != s.calls[i].phase ==>
                  || (s.calls[i].phase.InRpc? && s'.calls[i].phase.Answered?
                      && a == NodeReplies(i, s'.calls[i].phase.reply))
                  || (s.calls[i].phase == Answered(TransportError) && s'.calls[i].phase.Released?))
  {
  }

  lemma {:induction false} VerdictIsFinal(s: State, actions: seq<Action>, i: nat)
    requires i < |s.calls| && s.calls[i].phase.Answered? && s.calls[i].phase.reply != TransportError
    ensures i < |Run(s, actions).calls| && Run(s, actions).calls[i] == s.calls[i]
  {
    if actions != [] {
      VerdictIsFinal(s, actions[..|actions| - 1], i);
      StepOnCall(Run(s, actions[..|actions| - 1]), actions[|actions| - 1], i);
    }
  }

  // ---- what the capacity does not bound ---------------------------------------------------------

  lemma FreshFrontStays(g: Guard, now: int)
    requires g.order != [] && g.order[0] in g.entries && g.entries[g.order[0]].ts == now && |g.entries| <= g.max
    ensures Pruned(g, now) == g
  {
  }

  predicate OnlyFresh(g: Guard, now: int) {
    g.max >= 2 && g.order != [] && g.order[0] == 0 && g.entries == map[0 := Entry(now, Mark)]
  }

  lemma OneRound(g: Guard, now: int)
    requires OnlyFresh(g, now)
    ensures Remove(TryMark(g, 1, now).0, 1, now) == g.(order := g.order + [1])
  {
    assert |g.entries| == |g.entries.Keys| && g.entries.Keys == {0};
    FreshFrontStays(g, now);
    var marked := g.(entries := g.entries[1 := Entry(now, Mark)], order := g.order + [1]);
    assert TryMark(g, 1, now).0 == marked;
    assert |marked.entries| == |marked.entries.Keys| && marked.entries.Keys == {0, 1};
    FreshFrontStays(marked, now);
    assert marked.entries - {1} == g.entries;
  }

  // ---- exactly when the queue is bounded ----------------------------------------------------------

  // Marking keeps the queue a duplicate-free listing of the map.
  lemma MarkKeepsListing(g: Guard, h: Hash, now: int)
    requires Listing(g)
    ensures Listing(TryMark(g, h, now).0)
  {
    PrunedListing(g, now);
    if h !in Pruned(g, now).entries {
      AppendListing(Pruned(g, now), h, Entry(now, Mark));
    }
  }

  // Removing keeps it one exactly when there was nothing to remove.
  lemma RemoveKeepsListingIff(g: Guard, h: Hash, now: int)
    requires Listing(Pruned(g, now))
    ensures Listing(Remove(g, h, now)) <==> h !in Pruned(g, now).entries
  {
    var p, r := Pruned(g, now), Remove(g, h, now);
    if h in p.entries {
      var i :| 0 <= i < |p.order| && p.order[i] == h;
      assert r.order[i] !in r.entries;
    } else {
      assert r.entries == p.entries;
    }
  }

  datatype Op = MarkOp(hash: Hash, now: int) | RemoveOp(hash: Hash, now: int)

  function ApplyOp(g: Guard, op: Op): Guard {
    match op
    case MarkOp(h, now) => TryMark(g, h, now).0
    case RemoveOp(h, now) => Remove(g, h, now)
  }

  function RunOps(g: Guard, ops: seq<Op>): Guard {
    if ops == [] then g else ApplyOp(RunOps(g, ops[..|ops| - 1]), ops[|ops| - 1])
  }

  // The removals that found their hash in the map.
  function EffectiveRemoves(g: Guard, ops: seq<Op>): nat {
    if ops == [] then 0 else
    var before, op := RunOps(g, ops[..|ops| - 1]), ops[|ops| - 1];
    EffectiveRemoves(g, ops[..|ops| - 1])
    + if op.RemoveOp? && op.hash in Pruned(before, op.now).entries then 1 else 0
  }

  // How many keys the queue holds beyond the map.
  function Excess<K, O>(q: Queue<K, O>): int {
    |q.order| - |q.entries|
  }

  lemma DropFrontExcess<K, O>(q: Queue<K, O>)
    requires q.order != []
    ensures Excess(DropFront(q)) <= Excess(q)
  {
    if q.order[0] in q.entries {
      RemoveKeySize(q.entries, q.order[0]);
    } else {
      assert q.entries - {q.order[0]} == q.entries;
    }
  }

  lemma {:induction false} DropExpiredExcess<K, O>(q: Queue<K, O>, now: int)
    ensures Excess(DropExpired(q, now)) <= Excess(q)
    decreases |q.order|
  {
    if q.order != [] && FrontGoes(q, now) {
      DropFrontExcess(q);
      DropExpiredExcess(DropFront(q), now);
    }
  }

  lemma {:induction false} DropExcessExcess<K, O>(q: Queue<K, O>)
    ensures Excess(DropExcess(q)) <= Excess(q)
    decreases |q.order|
  {
    if |q.entries| > q.max && q.order != [] {
      DropFrontExcess(q);
      DropExcessExcess(DropFront(q));
    }
  }

  lemma PruneExcess<K, O>(q: Queue<K, O>, now: int)
    ensures Excess(Pruned(q, now)) <= Excess(q)
  {
    DropExpiredExcess(q, now);
    DropExcessExcess(DropExpired(q, now));
  }

  lemma MarkExcess(p: Guard, h: Hash, now: int)
    ensures Excess(MarkIn(p, h, now).0) == Excess(p)
  {
    if h !in p.entries {
      var r := MarkIn(p, h, now).0;
      assert r.entries.Keys == p.entries.Keys + {h};
      assert |r.entries| == |r.entries.Keys| && |p.entries| == |p.entries.Keys|;
    }
  }

  lemma RemoveExcess(p: Guard, h: Hash)
    ensures Excess(p.(entries := p.entries - {h})) == Excess(p) + if h in p.entries then 1 else 0
  {
    if h in p.entries {
      RemoveKeySize(p.entries, h);
    } else {
      assert p.entries - {h} == p.entries;
    }
  }

  lemma OpExcess(g: Guard, op: Op)
    ensures Excess(ApplyOp(g, op))
         <= Excess(g) + if op.RemoveOp? && op.hash in Pruned(g, op.now).entries then 1 else 0
  {
    PruneExcess(g, op.now);
    match op
    case MarkOp(h, now) => MarkExcess(Pruned(g, now), h, now);
    case RemoveOp(h, now) => RemoveExcess(Pruned(g, now), h);
  }

  /**
   After any sequence of operations the queue holds at most max + 1 keys and one more for each removal
   that took effect; and without one it is a duplicate-free listing of the map.
   */
  lemma {:induction false} QueueBound(ttl: nat, max: nat, ops: seq<Op>)
    ensures var empty: Guard := Queue(ttl, max, map[], []); var g := RunOps(empty, ops);
      && Valid(g) && g.max == max
      && Excess(g) <= EffectiveRemoves(empty, ops)
      && |g.order| <= max + 1 + EffectiveRemoves(empty, ops)
      && (EffectiveRemoves(empty, ops) == 0 ==> Listing(g) && |g.order| == |g.entries|)
  {
    var empty: Guard := Queue(ttl, max, map[], []);
    if ops != [] {
      QueueBound(ttl, max, ops[..|ops| - 1]);
      var g, op := RunOps(empty, ops[..|ops| - 1]), ops[|ops| - 1];
      OpExcess(g, op);
      match op {
        case MarkOp(h, now) =>
          TryMarkFacts(g, h, now);
          if EffectiveRemoves(empty, ops) == 0 {
            MarkKeepsListing(g, h, now);
          }
        case RemoveOp(h, now) =>
          RemoveFacts(g, h, now);
          if EffectiveRemoves(empty, ops) == 0 {
            PrunedListing(g, now);
            RemoveKeepsListingIff(g, h, now);
          }
      }
      if EffectiveRemoves(empty, ops) == 0 {
        ListingSize(RunOps(empty, ops));
      }
    }
  }

  // Marking and removing a hash behind a fresh one leaves its key in the queue each time, so the bound
  // is attained: the capacity bounds the map, not the queue.
  function Rounds(now: int, n: nat): seq<Op> {
    if n == 0 then [MarkOp(0, now)] else Rounds(now, n - 1) + [MarkOp(1, now)] + [RemoveOp(1, now)]
  }

  lemma RunOpsSnoc(g: Guard, ops: seq<Op>, op: Op)
    ensures RunOps(g, ops + [op]) == ApplyOp(RunOps(g, ops), op)
    ensures EffectiveRemoves(g, ops + [op])
         == EffectiveRemoves(g, ops)
            + if op.RemoveOp? && op.hash in Pruned(RunOps(g, ops), op.now).entries then 1 else 0
  {
    assert (ops + [op])[..|ops|] == ops;
  }

  // After n rounds: one entry in the map, n + 1 keys in the queue, n removals that took effect.
  ghost predicate Grown(empty: Guard, now: int, n: nat) {
    var ops := Rounds(now, n);
    && OnlyFresh(RunOps(empty, ops), now)
    && |RunOps(empty, ops).order| == n + 1
    && EffectiveRemoves(empty, ops) == n
  }

  lemma GrowsFurther(empty: Guard, now: int, n: nat)
    requires Grown(empty, now, n)
    ensures Grown(empty, now, n + 1)
  {
    var ops := Rounds(now, n);
    RunOpsSnoc(empty, ops, MarkOp(1, now));
    RunOpsSnoc(empty, ops + [MarkOp(1, now)], RemoveOp(1, now));
    OneRound(RunOps(empty, ops), now);
    MarkStaysLive(RunOps(empty, ops), now);
  }

  lemma FirstMark(empty: Guard, now: int, n: nat)
    requires empty.entries == map[] && empty.order == [] && empty.max >= 2 && n == 0
    ensures Grown(empty, now, n)
  {
    assert Pruned(empty, now) == empty;
    RunOpsSnoc(empty, [], MarkOp(0, now));
    assert [] + [MarkOp(0, now)] == [MarkOp(0, now)];
  }

  lemma {:induction false} QueueCanOutgrowMap(empty: Guard, now: int, n: nat)
    requires empty.entries == map[] && empty.order == [] && empty.max >= 2
    ensures Grown(empty, now, n)
  {
    var k := 0;
    FirstMark(empty, now, k);
    while k < n
      invariant k <= n && Grown(empty, now, k)
    {
      GrowsFurther(empty, now, k);
      k := k + 1;
    }
  }

  lemma MarkStaysLive(g: Guard, now: int)
    requires OnlyFresh(g, now)
    ensures 1 in Pruned(TryMark(g, 1, now).0, now).entries
  {
    assert |g.entries| == |g.entries.Keys| && g.entries.Keys == {0};
    FreshFrontStays(g, now);
    var marked := TryMark(g, 1, now).0;
    assert |marked.entries| == |marked.entries.Keys| && marked.entries.Keys == {0, 1};
    FreshFrontStays(marked, now);
  }
}

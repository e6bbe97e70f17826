/** What every interleaving of submissions keeps. */
module SubmissionSafety {
  import opened TtlQueue
  import opened DuplicateGuard
  import opened Submission
  import BG = BlockGuard
  import JobRing

  // ---- bookkeeping of a grown or updated list of submissions ------------------------------------

  lemma {:induction false} TotalUpdate(subs: seq<Sub>, i: nat, x: Sub, c: Counter)
    requires i < |subs|
    ensures Total(subs[i := x], c) + Bumps(subs[i].done, c) == Total(subs, c) + Bumps(x.done, c)
  {
    var last := |subs| - 1;
    if i < last {
      assert subs[i := x][..last] == subs[..last][i := x];
      TotalUpdate(subs[..last], i, x, c);
    } else {
      assert subs[i := x][..last] == subs[..last];
    }
  }

  lemma TotalAppend(subs: seq<Sub>, x: Sub, c: Counter)
    ensures Total(subs + [x], c) == Total(subs, c) + Bumps(x.done, c)
  {
    assert (subs + [x])[..|subs|] == subs;
  }

  lemma {:induction false} AdmissionsUpdate(subs: seq<Sub>, i: nat, x: Sub, key: SubmitKey)
    requires i < |subs| && x.key == subs[i].key && Evaluated(x) == Evaluated(subs[i])
    ensures Admissions(subs[i := x], key) == Admissions(subs, key)
  {
    var last := |subs| - 1;
    if i < last {
      assert subs[i := x][..last] == subs[..last][i := x];
      AdmissionsUpdate(subs[..last], i, x, key);
    } else {
      assert subs[i := x][..last] == subs[..last];
    }
  }

  lemma AdmissionsAppend(subs: seq<Sub>, x: Sub, key: SubmitKey)
    ensures Admissions(subs + [x], key) == Admissions(subs, key) + if Evaluated(x) && x.key == key then 1 else 0
  {
    assert (subs + [x])[..|subs|] == subs;
  }

  lemma {:induction false} LogOfNone(log: seq<(nat, Event)>, i: nat)
    requires forall k :: 0 <= k < |log| ==> log[k].0 < i
    ensures LogOf(log, i) == []
  {
    if log != [] {
      LogOfNone(log[..|log| - 1], i);
    }
  }

  lemma LogAppend(log: seq<(nat, Event)>, i: nat, e: Event, j: nat)
    ensures LogOf(log + [(i, e)], j) == LogOf(log, j) + if i == j then [e] else []
  {
    assert (log + [(i, e)])[..|log|] == log;
  }

  lemma DoneSnoc(id: Identity, done: seq<Effect>, op: Effect, c: Counter)
    ensures Bumps(done + [op], c) == Bumps(done, c) + if op == Bump(c) then 1 else 0
    ensures EventsOf(id, done + [op])
         == EventsOf(id, done) + if op.Publish? && Builds(id, op.event) then [op.event] else []
  {
    assert (done + [op])[..|done|] == done;
  }

  lemma SettledGrows(subs: seq<Sub>, x: Sub, key: SubmitKey, outcome: Outcome)
    requires SettledBy(subs, key, outcome)
    ensures SettledBy(subs + [x], key, outcome)
  {
    var i :| 0 <= i < |subs| && subs[i].key == key && Settle(outcome) in subs[i].done;
    assert (subs + [x])[i] == subs[i];
  }

  lemma SettledUpdate(subs: seq<Sub>, i: nat, x: Sub, key: SubmitKey, outcome: Outcome)
    requires i < |subs| && x.key == subs[i].key && subs[i].done <= x.done && SettledBy(subs, key, outcome)
    ensures SettledBy(subs[i := x], key, outcome)
  {
    var k :| 0 <= k < |subs| && subs[k].key == key && Settle(outcome) in subs[k].done;
    assert subs[i := x][k].key == key && Settle(outcome) in subs[i := x][k].done;
  }

  // A key that leaves in a pruning is counted as evicted, so residency and evictions balance.
  lemma PruneBalance(g: Guard, now: int, key: SubmitKey)
    requires Listing(g)
    ensures Resident(g, key) == Resident(Pruned(g, now), key) + multiset(Lost(g, now))[key]
  {
    PruneFacts(g, now);
  }

  // ---- a new submission --------------------------------------------------------------------------

  lemma AppendKeepsLog(s: State, x: Sub, log: seq<(nat, Event)>)
    requires LogOk(s) && LogOf(log, |s.subs|) == EventsOf(x.identity, x.done)
    requires log == s.log || exists e :: log == s.log + [(|s.subs|, e)]
    ensures LogOk(s.(subs := s.subs + [x], log := log))
  {
    var s' := s.(subs := s.subs + [x], log := log);
    forall i | 0 <= i < |s'.subs|
      ensures LogOf(s'.log, i) == EventsOf(s'.subs[i].identity, s'.subs[i].done)
    {
      if i < |s.subs| && log != s.log {
        var e :| log == s.log + [(|s.subs|, e)];
        LogAppend(s.log, |s.subs|, e, i);
      }
    }
  }

  // Appending a submission that has done nothing but publish what the log now carries.
  lemma AppendKeepsSubs(env: Env, s: State, x: Sub, log: seq<(nat, Event)>)
    requires SubsOk(env, s) && LogOk(s) && CountersOk(s) && SubOk(env, x)
    requires forall c :: Bumps(x.done, c) == 0
    requires LogOf(log, |s.subs|) == EventsOf(x.identity, x.done)
    requires log == s.log || exists e :: log == s.log + [(|s.subs|, e)]
    ensures var s' := s.(subs := s.subs + [x], log := log); SubsOk(env, s') && LogOk(s') && CountersOk(s')
  {
    AppendKeepsLog(s, x, log);
    forall c
      ensures Value(s.counters, c) == Total(s.subs + [x], c)
    {
      TotalAppend(s.subs, x, c);
    }
  }

  lemma AppendKeepsOutcomes(s: State, x: Sub)
    requires OutcomesOk(s)
    requires x.phase.Duplicate? && x.phase.outcome != InFlight ==> SettledBy(s.subs, x.key, x.phase.outcome)
    ensures OutcomesOk(s.(subs := s.subs + [x]))
  {
    var s' := s.(subs := s.subs + [x]);
    forall key | key in s'.guard.entries && s'.guard.entries[key].value != InFlight
      ensures SettledBy(s'.subs, key, s'.guard.entries[key].value)
    {
      SettledGrows(s.subs, x, key, s.guard.entries[key].value);
    }
    forall i | 0 <= i < |s'.subs| && s'.subs[i].phase.Duplicate? && s'.subs[i].phase.outcome != InFlight
      ensures SettledBy(s'.subs, s'.subs[i].key, s'.subs[i].phase.outcome)
    {
      var y := s'.subs[i];
      if i < |s.subs| {
        assert s.subs[i] == y;
      }
      SettledGrows(s.subs, x, y.key, y.phase.outcome);
    }
  }

  lemma DismissKeeps(env: Env, s: State, id: Identity, effects: seq<Effect>)
    requires Inv(env, s) && OnlyRejects(effects)
    ensures Inv(env, Dismiss(s, id, effects))
  {
    var s' := Dismiss(s, id, effects);
    var n, x := |s.subs|, Sub("", id, Dismissed, effects, []);
    LogOfNone(s.log, n);
    if effects != [] {
      assert effects == [] + [effects[0]];
      DoneSnoc(id, [], effects[0], Shares);
      LogAppend(s.log, n, effects[0].event, n);
    }
    forall c
      ensures Bumps(x.done, c) == 0
    {
      if effects != [] {
        DoneSnoc(id, [], effects[0], c);
      }
    }
    AppendKeepsSubs(env, s, x, s'.log);
    AppendKeepsOutcomes(s, x);
    forall key
      ensures Admissions(s'.subs, key) == s'.evictions[key] + Resident(s'.guard, key)
    {
      AdmissionsAppend(s.subs, x, key);
    }
  }

  // The guard may be pruned at any time: what it keeps is unchanged.
  lemma PruneKeepsOutcomes(s: State, g: Guard)
    requires OutcomesOk(s)
    requires forall key :: key in g.entries ==>
                             || g.entries[key].value == InFlight
                             || (key in s.guard.entries && g.entries[key] == s.guard.entries[key])
    ensures OutcomesOk(s.(guard := g))
  {
  }

  lemma InsertResident(g: Guard, key: SubmitKey, now: int, k: SubmitKey)
    ensures Resident(InsertInFlight(g, key, now), k) == if k == key then 1 else Resident(Pruned(g, now), k)
  {
  }

  lemma DuplicateBalance(s: State, x: Sub, p: Guard, lost: set<SubmitKey>, k: SubmitKey)
    requires !Evaluated(x) && Resident(s.guard, k) == Resident(p, k) + multiset(lost)[k]
    requires Admissions(s.subs, k) == s.evictions[k] + Resident(s.guard, k)
    ensures Admissions(s.subs + [x], k) == (s.evictions + multiset(lost))[k] + Resident(p, k)
  {
    AdmissionsAppend(s.subs, x, k);
  }

  lemma FreshBalance(s: State, x: Sub, p: Guard, q: Guard, lost: set<SubmitKey>, lost2: set<SubmitKey>, k: SubmitKey)
    requires Evaluated(x) && Resident(s.guard, k) == Resident(p, k) + multiset(lost)[k]
    requires x.key !in p.entries
    requires Resident(p, k) + (if k == x.key then 1 else 0) == Resident(q, k) + multiset(lost2)[k]
    requires Admissions(s.subs, k) == s.evictions[k] + Resident(s.guard, k)
    ensures Admissions(s.subs + [x], k) == (s.evictions + multiset(lost) + multiset(lost2))[k] + Resident(q, k)
  {
    AdmissionsAppend(s.subs, x, k);
  }

  lemma AdmitBalance(s: State, key: SubmitKey, id: Identity, task: Task, now: int, k: SubmitKey)
    requires Listing(s.guard) && Listing(Pruned(s.guard, now))
    requires Admissions(s.subs, k) == s.evictions[k] + Resident(s.guard, k)
    ensures var s' := Admit(s, key, id, task, now);
            Admissions(s'.subs, k) == s'.evictions[k] + Resident(s'.guard, k)
  {
    var p := Pruned(s.guard, now);
    PruneBalance(s.guard, now, k);
    if key in p.entries {
      DuplicateBalance(s, Sub(key, id, Duplicate(p.entries[key].value), [], []), p, Lost(s.guard, now), k);
    } else {
      PruneBalance(p, now, k);
      PruneBalance(p, now, key);
      InsertResident(p, key, now, k);
      FreshBalance(s, Sub(key, id, Evaluating(task), [], []), p, InsertInFlight(p, key, now), Lost(s.guard, now),
                   Lost(p, now), k);
    }
  }

  lemma AdmitKeepsBalance(env: Env, s: State, key: SubmitKey, id: Identity, task: Task, now: int)
    requires Inv(env, s)
    ensures BalanceOk(Admit(s, key, id, task, now)) && Listing(Admit(s, key, id, task, now).guard)
  {
    PrunedListing(s.guard, now);
    ApplyKeepsListing(Pruned(s.guard, now), DoInsert(key, now));
    forall k
      ensures var s' := Admit(s, key, id, task, now); Admissions(s'.subs, k) == s'.evictions[k] + Resident(s'.guard, k)
    {
      AdmitBalance(s, key, id, task, now, k);
    }
  }

  lemma AdmitKeepsSubs(env: Env, s: State, key: SubmitKey, id: Identity, task: Task, now: int)
    requires Inv(env, s)
    ensures var s' := Admit(s, key, id, task, now); SubsOk(env, s') && LogOk(s') && CountersOk(s')
  {
    LogOfNone(s.log, |s.subs|);
    AppendKeepsSubs(env, s, Admit(s, key, id, task, now).subs[|s.subs|], s.log);
  }

  lemma PrunedEntries(g: Guard, now: int)
    requires Listing(g)
    ensures forall k :: k in Pruned(g, now).entries ==> k in g.entries && Pruned(g, now).entries[k] == g.entries[k]
  {
    PruneFacts(g, now);
  }

  lemma InsertedEntries(p: Guard, key: SubmitKey, now: int)
    requires Listing(p)
    ensures var g := InsertInFlight(p, key, now);
      forall k :: k in g.entries ==> g.entries[k].value == InFlight || (k in p.entries && g.entries[k] == p.entries[k])
  {
    PrunedEntries(p, now);
  }

  lemma AdmittedEntries(s: State, key: SubmitKey, id: Identity, task: Task, now: int)
    requires Listing(s.guard)
    ensures var g := Admit(s, key, id, task, now).guard;
      forall k :: k in g.entries ==>
                    g.entries[k].value == InFlight || (k in s.guard.entries && g.entries[k] == s.guard.entries[k])
  {
    PrunedEntries(s.guard, now);
    PrunedListing(s.guard, now);
    InsertedEntries(Pruned(s.guard, now), key, now);
  }

  lemma AdmitKeepsOutcomes(s: State, key: SubmitKey, id: Identity, task: Task, now: int)
    requires Listing(s.guard) && OutcomesOk(s)
    ensures OutcomesOk(Admit(s, key, id, task, now))
  {
    var s' := Admit(s, key, id, task, now);
    PrunedEntries(s.guard, now);
    AdmittedEntries(s, key, id, task, now);
    PruneKeepsOutcomes(s, s'.guard);
    AppendKeepsOutcomes(s.(guard := s'.guard), s'.subs[|s.subs|]);
  }

  lemma AdmitKeeps(env: Env, s: State, key: SubmitKey, id: Identity, task: Task, now: int)
    requires Inv(env, s)
    ensures Inv(env, Admit(s, key, id, task, now))
  {
    AdmitKeepsSubs(env, s, key, id, task, now);
    AdmitKeepsOutcomes(s, key, id, task, now);
    AdmitKeepsBalance(env, s, key, id, task, now);
  }

  // ---- steps of an existing submission -----------------------------------------------------------

  // A submission that only changes its phase and its plan.
  lemma ReplanKeeps(env: Env, s: State, i: nat, x: Sub)
    requires Inv(env, s) && i < |s.subs| && SubOk(env, x)
    requires x.key == s.subs[i].key && x.identity == s.subs[i].identity && x.done == s.subs[i].done
    requires Evaluated(x) && Evaluated(s.subs[i])
    ensures Inv(env, s.(subs := s.subs[i := x]))
  {
    var s' := s.(subs := s.subs[i := x]);
    forall c
      ensures Value(s'.counters, c) == Total(s'.subs, c)
    {
      TotalUpdate(s.subs, i, x, c);
    }
    forall key
      ensures Admissions(s'.subs, key) == s'.evictions[key] + Resident(s'.guard, key)
    {
      AdmissionsUpdate(s.subs, i, x, key);
    }
    UpdateKeepsOutcomes(s, i, x);
  }

  lemma UpdateKeepsOutcomes(s: State, i: nat, x: Sub)
    requires OutcomesOk(s) && i < |s.subs| && x.key == s.subs[i].key && s.subs[i].done <= x.done && !x.phase.Duplicate?
    ensures OutcomesOk(s.(subs := s.subs[i := x]))
  {
    var s' := s.(subs := s.subs[i := x]);
    forall key | key in s'.guard.entries && s'.guard.entries[key].value != InFlight
      ensures SettledBy(s'.subs, key, s'.guard.entries[key].value)
    {
      SettledUpdate(s.subs, i, x, key, s.guard.entries[key].value);
    }
    forall k | 0 <= k < |s'.subs| && s'.subs[k].phase.Duplicate? && s'.subs[k].phase.outcome != InFlight
      ensures SettledBy(s'.subs, s'.subs[k].key, s'.subs[k].phase.outcome)
    {
      SettledUpdate(s.subs, i, x, s.subs[k].key, s.subs[k].phase.outcome);
    }
  }

  lemma JudgedOk(env: Env, sub: Sub, j: Judgement)
    requires SubOk(env, sub) && sub.phase.Evaluating?
    ensures SubOk(env, Judged(env, sub, j)) && Evaluated(Judged(env, sub, j))
  {
    var x := Judged(env, sub, j);
    assert x.done + x.todo == x.todo;
  }

  lemma CalledOk(env: Env, sub: Sub, call: nat)
    requires SubOk(env, sub) && sub.phase.AtNode? && sub.todo == []
    ensures SubOk(env, sub.(phase := Calling(sub.phase.judgement, call)))
  {
    assert sub.done + [] == sub.done;
  }

  lemma ReturnedOk(env: Env, sub: Sub, reply: NodeReply)
    requires SubOk(env, sub) && sub.phase.Calling?
    ensures SubOk(env, Returned(env, sub, reply))
  {
  }

  lemma MovedOk(env: Env, sub: Sub)
    requires SubOk(env, sub) && sub.todo != []
    ensures SubOk(env, Moved(sub)) && Evaluated(Moved(sub)) && Evaluated(sub)
  {
    assert Moved(sub).done + Moved(sub).todo == sub.done + sub.todo;
  }

  lemma BumpedValue(counters: Counters, e: Effect, c: Counter)
    ensures Value(CountersAfter(counters, e), c) == Value(counters, c) + if e == Bump(c) then 1 else 0
  {
  }

  lemma MovedBumps(sub: Sub, c: Counter)
    requires sub.todo != []
    ensures Bumps(Moved(sub).done, c) == Bumps(sub.done, c) + if sub.todo[0] == Bump(c) then 1 else 0
  {
    DoneSnoc(sub.identity, sub.done, sub.todo[0], c);
  }

  lemma MovedCounter(counters: Counters, subs: seq<Sub>, i: nat, x: Sub, e: Effect, c: Counter)
    requires i < |subs| && Value(counters, c) == Total(subs, c)
    requires Bumps(x.done, c) == Bumps(subs[i].done, c) + if e == Bump(c) then 1 else 0
    ensures Value(CountersAfter(counters, e), c) == Total(subs[i := x], c)
  {
    TotalUpdate(subs, i, x, c);
    BumpedValue(counters, e, c);
  }

  lemma MovedLog(s: State, i: nat, k: nat)
    requires i < |s.subs| && s.subs[i].todo != [] && k < |s.subs|
    requires LogOf(s.log, k) == EventsOf(s.subs[k].identity, s.subs[k].done)
    ensures var sub := if k == i then Moved(s.subs[k]) else s.subs[k];
            LogOf(LogAfter(s, i, s.subs[i].identity, s.subs[i].todo[0]), k) == EventsOf(sub.identity, sub.done)
  {
    var sub, e := s.subs[i], s.subs[i].todo[0];
    DoneSnoc(sub.identity, sub.done, e, Shares);
    if e.Publish? && Builds(sub.identity, e.event) {
      LogAppend(s.log, i, e.event, k);
    }
  }

  lemma CounterStep(counters: Counters, subs: seq<Sub>, i: nat, c: Counter)
    requires i < |subs| && subs[i].todo != [] && Value(counters, c) == Total(subs, c)
    ensures Value(CountersAfter(counters, subs[i].todo[0]), c) == Total(subs[i := Moved(subs[i])], c)
  {
    MovedBumps(subs[i], c);
    MovedCounter(counters, subs, i, Moved(subs[i]), subs[i].todo[0], c);
  }

  lemma ExecutedLog(s: State, i: nat, now: int)
    requires LogOk(s) && i < |s.subs| && s.subs[i].todo != []
    ensures LogOk(Executed(s, i, now))
  {
    var s' := Executed(s, i, now);
    forall k | 0 <= k < |s'.subs|
      ensures LogOf(s'.log, k) == EventsOf(s'.subs[k].identity, s'.subs[k].done)
    {
      MovedLog(s, i, k);
    }
  }

  lemma ExecutedKeepsSubs(env: Env, s: State, i: nat, now: int)
    requires SubsOk(env, s) && LogOk(s) && CountersOk(s) && i < |s.subs| && s.subs[i].todo != []
    ensures SubsOk(env, Executed(s, i, now)) && LogOk(Executed(s, i, now)) && CountersOk(Executed(s, i, now))
  {
    var s' := Executed(s, i, now);
    MovedOk(env, s.subs[i]);
    ExecutedLog(s, i, now);
    forall c
      ensures Value(s'.counters, c) == Total(s'.subs, c)
    {
      CounterStep(s.counters, s.subs, i, c);
    }
  }

  lemma MoveBalance(s: State, i: nat, g: Guard, lost: set<SubmitKey>, k: SubmitKey)
    requires i < |s.subs| && s.subs[i].todo != [] && Evaluated(s.subs[i])
    requires Resident(s.guard, k) == Resident(g, k) + multiset(lost)[k]
    requires Admissions(s.subs, k) == s.evictions[k] + Resident(s.guard, k)
    ensures Admissions(s.subs[i := Moved(s.subs[i])], k) == (s.evictions + multiset(lost))[k] + Resident(g, k)
  {
    AdmissionsUpdate(s.subs, i, Moved(s.subs[i]), k);
  }

  lemma ExecutedBalance(s: State, i: nat, now: int, k: SubmitKey)
    requires Listing(s.guard) && i < |s.subs| && s.subs[i].todo != [] && Evaluated(s.subs[i])
    requires Admissions(s.subs, k) == s.evictions[k] + Resident(s.guard, k)
    ensures var s' := Executed(s, i, now); Admissions(s'.subs, k) == s'.evictions[k] + Resident(s'.guard, k)
  {
    if s.subs[i].todo[0].Settle? {
      PruneBalance(s.guard, now, k);
      MoveBalance(s, i, SetOutcome(s.guard, s.subs[i].key, now, s.subs[i].todo[0].outcome), Lost(s.guard, now), k);
    } else {
      MoveBalance(s, i, s.guard, {}, k);
    }
  }

  lemma ExecutedKeepsBalance(env: Env, s: State, i: nat, now: int)
    requires Listing(s.guard) && BalanceOk(s) && i < |s.subs| && s.subs[i].todo != [] && SubOk(env, s.subs[i])
    ensures Listing(Executed(s, i, now).guard) && BalanceOk(Executed(s, i, now))
  {
    var s', sub := Executed(s, i, now), s.subs[i];
    MovedOk(env, sub);
    if sub.todo[0].Settle? {
      ApplyKeepsListing(s.guard, DoSet(sub.key, now, sub.todo[0].outcome));
    }
    forall k
      ensures Admissions(s'.subs, k) == s'.evictions[k] + Resident(s'.guard, k)
    {
      ExecutedBalance(s, i, now, k);
    }
  }

  lemma ExecutedKeepsOutcomes(env: Env, s: State, i: nat, now: int)
    requires Inv(env, s) && i < |s.subs| && s.subs[i].todo != []
    ensures OutcomesOk(Executed(s, i, now))
  {
    var s', sub, op := Executed(s, i, now), s.subs[i], s.subs[i].todo[0];
    MovedOk(env, sub);
    UpdateKeepsOutcomes(s, i, Moved(sub));
    var mid := s.(subs := s.subs[i := Moved(sub)]);
    if op.Settle? {
      forall key | key in s'.guard.entries && s'.guard.entries[key].value != InFlight
        ensures SettledBy(s'.subs, key, s'.guard.entries[key].value)
      {
        OutcomeIsLastSet(s.guard, sub.key, key, now, op.outcome);
        if key == sub.key {
          assert s'.subs[i].key == key && op == s'.subs[i].done[|sub.done|];
        } else {
          assert mid.guard.entries[key] == s'.guard.entries[key];
        }
      }
    }
  }

  // The jobs and the block guard are no part of this invariant.
  lemma OtherFields(env: Env, s: State, jobs: map<nat, seq<JobRing.Job>>, node: BG.State, halted: bool)
    requires Inv(env, s)
    ensures Inv(env, s.(jobs := jobs, node := node, halted := halted))
  {
  }

  // An arrival adds at most one submission, which has not been judged.
  lemma ArrivedAppends(s: State, frame: Frame, now: int) returns (more: seq<Sub>)
    ensures Arrived(s, frame, now).subs == s.subs + more && |more| <= 1
    ensures more == [] || more[0].phase.Dismissed? || more[0].phase.Duplicate? || more[0].phase.Evaluating?
    ensures Arrived(s, frame, now).node == s.node
  {
    var s' := Arrived(s, frame, now);
    more := s'.subs[|s.subs|..];
  }

  lemma ArrivedKeeps(env: Env, s: State, frame: Frame, now: int)
    requires Inv(env, s)
    ensures Inv(env, Arrived(s, frame, now))
  {
    match frame
    case TooFewParams(id) => DismissKeeps(env, s, id, [Publish(Rejected(MalformedFrame))]);
    case Unparsable => DismissKeeps(env, s, NO_IDENTITY, []);
    case Submit(client, jobId, nonce, read, key, id) =>
      if read <= |JobsOf(s, client)| {
        var job := JobRing.Lookup(JobsOf(s, client)[..read], jobId);
        if job.Some? {
          AdmitKeeps(env, s, key, id, Task(client, jobId, nonce, JobsOf(s, client)[..read], job.value), now);
        } else {
          DismissKeeps(env, s, id, [Publish(Rejected(MissingJob))]);
        }
      }
  }

  lemma EvaluateKeeps(env: Env, s: State, i: nat, j: Judgement)
    requires Inv(env, s) && !s.halted
    ensures Inv(env, Step(env, s, Evaluate(i, j)))
  {
    if CanEvaluate(env, s, i, j) {
      JudgedOk(env, s.subs[i], j);
      ReplanKeeps(env, s, i, Judged(env, s.subs[i], j));
      OtherFields(env, s.(subs := s.subs[i := Judged(env, s.subs[i], j)]), s.jobs, s.node, j.verdict.Underflow?);
    }
  }

  lemma NodeStepKeeps(env: Env, s: State, i: nat, x: Sub, node: BG.State)
    requires Inv(env, s) && i < |s.subs| && SubOk(env, x)
    requires x.key == s.subs[i].key && x.identity == s.subs[i].identity && x.done == s.subs[i].done
    requires Evaluated(x) && Evaluated(s.subs[i])
    ensures Inv(env, s.(node := node, subs := s.subs[i := x]))
  {
    ReplanKeeps(env, s, i, x);
    OtherFields(env, s.(subs := s.subs[i := x]), s.jobs, node, s.halted);
  }

  lemma CallKeeps(env: Env, s: State, i: nat, now: int)
    requires Inv(env, s) && !s.halted
    ensures Inv(env, Step(env, s, CallNode(i, now)))
  {
    if CanCall(s, i) {
      var s' := Step(env, s, CallNode(i, now));
      CalledOk(env, s.subs[i], |s.node.calls|);
      NodeStepKeeps(env, s, i, s'.subs[i], s'.node);
    }
  }

  lemma ReturnKeeps(env: Env, s: State, i: nat, named: bool, now: int)
    requires Inv(env, s) && !s.halted
    ensures Inv(env, Step(env, s, NodeReturns(i, named, now)))
  {
    if CanReturn(s, i, named) {
      var s' := Step(env, s, NodeReturns(i, named, now));
      ReturnedOk(env, s.subs[i], ReplyOf(s.node.calls[s.subs[i].phase.call].phase, named).value);
      NodeStepKeeps(env, s, i, s'.subs[i], s'.node);
    }
  }

  lemma AdvanceKeeps(env: Env, s: State, i: nat, now: int)
    requires Inv(env, s) && !s.halted
    ensures Inv(env, Step(env, s, Advance(i, now)))
  {
    if i < |s.subs| && s.subs[i].todo != [] {
      ExecutedKeepsSubs(env, s, i, now);
      ExecutedKeepsBalance(env, s, i, now);
      ExecutedKeepsOutcomes(env, s, i, now);
    }
  }

  lemma StepKeepsInv(env: Env, s: State, a: Action)
    requires Inv(env, s)
    ensures Inv(env, Step(env, s, a))
  {
    if !s.halted {
      match a
      case Issue(client, job) => OtherFields(env, s, Step(env, s, a).jobs, s.node, s.halted);
      case Arrive(frame, now) => ArrivedKeeps(env, s, frame, now);
      case Evaluate(i, j) => EvaluateKeeps(env, s, i, j);
      case CallNode(i, now) => CallKeeps(env, s, i, now);
      case NodeAnswers(i, answer) => OtherFields(env, s, s.jobs, Step(env, s, a).node, s.halted);
      case NodeReturns(i, named, now) => ReturnKeeps(env, s, i, named, now);
      case Advance(i, now) => AdvanceKeeps(env, s, i, now);
    }
  }

  lemma {:induction false} RunKeepsInv(env: Env, l: Limits, actions: seq<Action>)
    ensures Inv(env, Run(env, Start(l), actions))
  {
    if actions != [] {
      RunKeepsInv(env, l, actions[..|actions| - 1]);
      StepKeepsInv(env, Run(env, Start(l), actions[..|actions| - 1]), actions[|actions| - 1]);
    }
  }
}

/**
 What the duplicate guard holds in a run, and so answers. The guard of the submission machine is the guard
 after the operations the run performed on it, so what is known of every history holds for every run.
 */
module DuplicateAnswers {
  import opened TtlQueue
  import opened DuplicateGuard
  import opened DuplicateHistory
  import opened JobRing
  import opened Submission
  import opened SubmissionSafety

  // ---- the operations of a run ---------------------------------------------------------------------------

  // A submission whose job is found looks its key up, and inserts it if it is not there; a submission that
  // settles records its outcome.
  ghost function OpsOf(s: State, a: Action): seq<Op> {
    if s.halted then [] else
    match a
    case Arrive(Submit(client, jobId, _, read, key, _), now) =>
      if read > |JobsOf(s, client)| || Lookup(JobsOf(s, client)[..read], jobId).None? then []
      else [DoGet(key, now)] + if Get(s.guard, key, now).1.Some? then [] else [DoInsert(key, now)]
    case Advance(i, now) =>
      if i < |s.subs| && s.subs[i].todo != [] && s.subs[i].todo[0].Settle?
      then [DoSet(s.subs[i].key, now, s.subs[i].todo[0].outcome)] else []
    case _ => []
  }

  ghost function GuardOps(env: Env, l: Limits, actions: seq<Action>): seq<Op> {
    if actions == [] then [] else
    var init := actions[..|actions| - 1];
    GuardOps(env, l, init) + OpsOf(Run(env, Start(l), init), actions[|actions| - 1])
  }

  // At most two operations, applied one after the other.
  ghost predicate Applied(g: Guard, ops: seq<Op>, r: Guard) {
    || (ops == [] && r == g)
    || (|ops| == 1 && AppliedOne(g, ops[0], r))
    || (|ops| == 2 && exists mid :: AppliedOne(g, ops[0], mid) && AppliedOne(mid, ops[1], r))
  }

  ghost predicate AppliedOne(g: Guard, op: Op, r: Guard) {
    ApplyOp(g, op) == r
  }

  ghost predicate Leads(empty: Guard, ops: seq<Op>, g: Guard) {
    RunOps(empty, ops) == g
  }

  lemma LeadsOn(empty: Guard, ops: seq<Op>, op: Op, all: seq<Op>, g: Guard, r: Guard)
    requires Leads(empty, ops, g) && AppliedOne(g, op, r) && all == ops + [op]
    ensures Leads(empty, all, r)
  {
    assert all[..|all| - 1] == ops;
  }

  lemma SplitsTwo(ops: seq<Op>, more: seq<Op>)
    ensures more == [] ==> ops + more == ops
    ensures |more| == 1 ==> ops + more == ops + [more[0]]
    ensures |more| == 2 ==> ops + more == ops + [more[0]] + [more[1]]
  {
    assert |more| == 2 ==> more == [more[0]] + [more[1]];
  }

  lemma HistoryGrows(empty: Guard, ops: seq<Op>, more: seq<Op>, g: Guard, r: Guard)
    requires Leads(empty, ops, g) && Applied(g, more, r)
    ensures Leads(empty, ops + more, r)
  {
    SplitsTwo(ops, more);
    if |more| == 1 {
      LeadsOn(empty, ops, more[0], ops + more, g, r);
    } else if |more| == 2 {
      var mid :| AppliedOne(g, more[0], mid) && AppliedOne(mid, more[1], r);
      LeadsOn(empty, ops, more[0], ops + [more[0]], g, mid);
      LeadsOn(empty, ops + [more[0]], more[1], ops + more, mid, r);
    }
  }

  lemma AdmitOnGuard(s: State, key: SubmitKey, id: Identity, task: Task, now: int)
    ensures var more := [DoGet(key, now)] + if Get(s.guard, key, now).1.Some? then [] else [DoInsert(key, now)];
      Applied(s.guard, more, Admit(s, key, id, task, now).guard)
  {
    var g := Get(s.guard, key, now).0;
    assert AppliedOne(s.guard, DoGet(key, now), g);
    assert AppliedOne(g, DoInsert(key, now), InsertInFlight(g, key, now));
  }

  lemma ArrivedOnGuard(s: State, frame: Frame, now: int)
    requires !s.halted
    ensures Applied(s.guard, OpsOf(s, Arrive(frame, now)), Arrived(s, frame, now).guard)
  {
    match frame
    case Submit(client, jobId, nonce, read, key, id) =>
      if read <= |JobsOf(s, client)| {
        var job := Lookup(JobsOf(s, client)[..read], jobId);
        if job.Some? {
          AdmitOnGuard(s, key, id, Task(client, jobId, nonce, JobsOf(s, client)[..read], job.value), now);
        }
      }
    case _ =>
  }

  lemma ExecutedOnGuard(s: State, i: nat, now: int)
    requires !s.halted && i < |s.subs| && s.subs[i].todo != []
    ensures Applied(s.guard, OpsOf(s, Advance(i, now)), Executed(s, i, now).guard)
  {
    if s.subs[i].todo[0].Settle? {
      assert AppliedOne(s.guard, DoSet(s.subs[i].key, now, s.subs[i].todo[0].outcome), Executed(s, i, now).guard);
    }
  }

  lemma OtherStepOnGuard(env: Env, s: State, a: Action)
    requires s.halted || (!a.Arrive? && !(a.Advance? && a.sub < |s.subs| && s.subs[a.sub].todo != []))
    ensures Step(env, s, a).guard == s.guard && OpsOf(s, a) == []
  {
  }

  lemma StepOnGuard(env: Env, s: State, a: Action)
    ensures Applied(s.guard, OpsOf(s, a), Step(env, s, a).guard)
  {
    if !s.halted && a.Arrive? {
      ArrivedOnGuard(s, a.frame, a.now);
    } else if !s.halted && a.Advance? && a.sub < |s.subs| && s.subs[a.sub].todo != [] {
      ExecutedOnGuard(s, a.sub, a.now);
    } else {
      OtherStepOnGuard(env, s, a);
    }
  }

  /**
   In every run the guard is the one after the operations the run performed on it, from empty.
   */
  lemma {:induction false} GuardIsHistory(env: Env, l: Limits, actions: seq<Action>)
    ensures Run(env, Start(l), actions).guard == After(l.ttl, l.max, GuardOps(env, l, actions))
  {
    if actions != [] {
      var init, a := actions[..|actions| - 1], actions[|actions| - 1];
      var s := Run(env, Start(l), init);
      GuardIsHistory(env, l, init);
      StepOnGuard(env, s, a);
      HistoryGrows(Queue(l.ttl, l.max, map[], []), GuardOps(env, l, init), OpsOf(s, a), s.guard,
                   Run(env, Start(l), actions).guard);
    }
  }

  // ---- outcomes that are recorded ------------------------------------------------------------------------

  ghost predicate RealSets(ops: seq<Op>) {
    forall n :: 0 <= n < |ops| && ops[n].DoSet? ==> ops[n].outcome != InFlight
  }

  lemma SettlesForReal(env: Env, sub: Sub)
    requires SubOk(env, sub) && sub.todo != [] && sub.todo[0].Settle?
    ensures sub.todo[0].outcome != InFlight
  {
    assert sub.todo[0] in sub.done + sub.todo;
  }

  lemma {:induction false} RunSetsForReal(env: Env, l: Limits, actions: seq<Action>)
    ensures RealSets(GuardOps(env, l, actions))
  {
    if actions != [] {
      var init, a := actions[..|actions| - 1], actions[|actions| - 1];
      var s := Run(env, Start(l), init);
      RunSetsForReal(env, l, init);
      RunKeepsInv(env, l, init);
      StepSetsForReal(env, s, a);
      AppendReal(GuardOps(env, l, init), OpsOf(s, a));
    }
  }

  lemma AppendReal(a: seq<Op>, b: seq<Op>)
    requires RealSets(a) && RealSets(b)
    ensures RealSets(a + b)
  {
  }

  lemma StepSetsForReal(env: Env, s: State, a: Action)
    requires SubsOk(env, s)
    ensures RealSets(OpsOf(s, a))
  {
    if a.Advance? && a.sub < |s.subs| && s.subs[a.sub].todo != [] && s.subs[a.sub].todo[0].Settle? {
      SettlesForReal(env, s.subs[a.sub]);
    }
  }

  // ---- what a duplicate is told ------------------------------------------------------------------------------

  ghost predicate NoSetSince(ops: seq<Op>, key: SubmitKey, begin: nat) {
    forall n :: begin < n < |ops| ==> !(ops[n].DoSet? && ops[n].key == key)
  }

  ghost predicate SetLast(ops: seq<Op>, key: SubmitKey, begin: nat, t: nat, outcome: Outcome) {
    begin < t < |ops| && ops[t].DoSet? && ops[t].key == key && ops[t].outcome == outcome && NoSetSince(ops, key, t)
  }

  // The key is in the guard and stays through the pruning at `now`; its stay began at `begin`. The outcome is
  // the last one recorded since, and in flight exactly if none was.
  ghost predicate LastOfStay(l: Limits, ops: seq<Op>, key: SubmitKey, now: int, begin: nat, outcome: Outcome) {
    var g := After(l.ttl, l.max, ops);
    && key in g.entries && !Forgets(l.ttl, l.max, ops, key, now) && Stays(l.ttl, l.max, ops, key, begin)
    && (outcome == InFlight <==> NoSetSince(ops, key, begin))
    && (outcome != InFlight ==> exists t: nat :: SetLast(ops, key, begin, t, outcome))
  }

  lemma GetIsLastOfStay(l: Limits, ops: seq<Op>, key: SubmitKey, now: int) returns (begin: nat)
    requires RealSets(ops) && Get(After(l.ttl, l.max, ops), key, now).1.Some?
    ensures LastOfStay(l, ops, key, now, begin, Get(After(l.ttl, l.max, ops), key, now).1.value)
  {
    begin := Began(l.ttl, l.max, ops, key);
    GetReturnsLastRecorded(l.ttl, l.max, ops, key, now);
    EntryIsLastTouch(l.ttl, l.max, ops, key);
    var t := LastTouch(ops, key, begin);
    assert ops[..begin + 1][begin] == ops[begin];
    if t == begin {
      assert NoSetSince(ops, key, begin);
    } else {
      assert SetLast(ops, key, begin, t, ops[t].outcome);
    }
  }
}

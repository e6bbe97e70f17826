/** Where every submission of a run comes from, and what its arrival made of it. */
module Arrivals {
  import opened Wrappers
  import opened DuplicateGuard
  import opened DuplicateHistory
  import opened DuplicateAnswers
  import opened JobRing
  import opened Submission
  import opened SubmissionSafety
  import opened SubmissionTheorems

  // ---- the jobs of a client are those issued to it ---------------------------------------------------------

  ghost function Issued(actions: seq<Action>, client: nat): seq<Job> {
    if actions == [] then [] else
    var a := actions[|actions| - 1];
    Issued(actions[..|actions| - 1], client) + if a.Issue? && a.client == client then [a.job] else []
  }

  lemma {:induction false} JobsAreIssued(env: Env, l: Limits, actions: seq<Action>, client: nat)
    requires !Run(env, Start(l), actions).halted
    ensures JobsOf(Run(env, Start(l), actions), client) == Issued(actions, client)
  {
    if actions != [] {
      var init, a := actions[..|actions| - 1], actions[|actions| - 1];
      JobsAreIssued(env, l, init, client);
      StepOnJobs(env, Run(env, Start(l), init), a, client);
    }
  }

  lemma StepOnJobs(env: Env, s: State, a: Action, client: nat)
    requires !s.halted
    ensures JobsOf(Step(env, s, a), client)
         == JobsOf(s, client) + if a.Issue? && a.client == client then [a.job] else []
  {
    if a.Arrive? {
      ArrivedKeepsJobs(s, a.frame, a.now);
    }
  }

  lemma ArrivedKeepsJobs(s: State, frame: Frame, now: int)
    ensures Arrived(s, frame, now).jobs == s.jobs
  {
  }

  // ---- what an arrival makes of a frame --------------------------------------------------------------------

  // What a submission is to evaluate, if it was admitted.
  function TaskOf(p: Phase): Option<Task> {
    match p
    case Evaluating(t) => Some(t)
    case Aborted(j) => Some(j.task)
    case AtNode(j) => Some(j.task)
    case Calling(j, _) => Some(j.task)
    case Finishing(j, _) => Some(j.task)
    case Duplicate(_) => None
    case Dismissed => None
  }

  // Refused before the guard, with this rejection if the wallet and worker names are valid.
  ghost predicate RefusedAs(sub: Sub, id: Identity, reason: Reason, log: seq<Event>) {
    && sub.phase.Dismissed? && sub.identity == id
    && log == if id.walletOk && id.workerOk then [Rejected(reason)] else []
  }

  // Told the last outcome of its key's present stay if the key is in the guard and not to be forgotten;
  // otherwise evaluated, from the job found.
  ghost predicate AnsweredAtDoor(l: Limits, ops: seq<Op>, frame: Frame, now: int, task: Task, sub: Sub)
    requires frame.Submit?
  {
    && sub.key == frame.key && sub.identity == frame.identity
    && (if frame.key in After(l.ttl, l.max, ops).entries && !Forgets(l.ttl, l.max, ops, frame.key, now) then
          && sub.phase.Duplicate? && sub.done == []
          && exists begin: nat :: LastOfStay(l, ops, frame.key, now, begin, sub.phase.outcome)
        else TaskOf(sub.phase) == Some(task))
  }

  // What becomes of a frame, where `jobs` are those issued to the client and `log` is what was published. A
  // lookup finds the newest job of the slot among the first `read` that were issued.
  ghost predicate BecomesOf(l: Limits, ops: seq<Op>, jobs: seq<Job>, frame: Frame, now: int, sub: Sub,
                            log: seq<Event>)
  {
    match frame
    case TooFewParams(id) => RefusedAs(sub, id, MalformedFrame, log)
    case Unparsable => sub.phase.Dismissed? && log == []
    case Submit(client, jobId, nonce, read, _, id) =>
      && read <= |jobs|
      && match Lookup(jobs[..read], jobId)
         case None => RefusedAs(sub, id, MissingJob, log)
         case Some(job) => AnsweredAtDoor(l, ops, frame, now, Task(client, jobId, nonce, jobs[..read], job), sub)
  }

  lemma RefusalLog(id: Identity, reason: Reason)
    ensures EventsOf(id, [Publish(Rejected(reason))]) == if id.walletOk && id.workerOk then [Rejected(reason)] else []
  {
    EventsOfOne(id, Publish(Rejected(reason)));
  }

  lemma AdmittedAtDoor(l: Limits, ops: seq<Op>, s: State, frame: Frame, now: int, task: Task)
    requires frame.Submit? && s.guard == After(l.ttl, l.max, ops) && RealSets(ops)
    ensures var s' := Admit(s, frame.key, frame.identity, task, now);
      |s'.subs| == |s.subs| + 1 && AnsweredAtDoor(l, ops, frame, now, task, s'.subs[|s.subs|])
  {
    GetReturnsLastRecorded(l.ttl, l.max, ops, frame.key, now);
    if Get(s.guard, frame.key, now).1.Some? {
      var begin := GetIsLastOfStay(l, ops, frame.key, now);
    }
  }

  lemma ArrivedBecomes(l: Limits, ops: seq<Op>, s: State, jobs: seq<Job>, frame: Frame, now: int)
    requires s.guard == After(l.ttl, l.max, ops) && RealSets(ops)
    requires frame.Submit? ==> jobs == JobsOf(s, frame.client)
    requires |Arrived(s, frame, now).subs| > |s.subs|
    ensures var sub := Arrived(s, frame, now).subs[|s.subs|];
      BecomesOf(l, ops, jobs, frame, now, sub, EventsOf(sub.identity, sub.done))
  {
    match frame
    case TooFewParams(id) => RefusalLog(id, MalformedFrame);
    case Unparsable =>
    case Submit(client, jobId, nonce, read, key, id) =>
      match Lookup(jobs[..read], jobId)
      case None => RefusalLog(id, MissingJob);
      case Some(job) => AdmittedAtDoor(l, ops, s, frame, now, Task(client, jobId, nonce, jobs[..read], job));
  }

  // The jobs that were issued to the client of a frame.
  ghost function JobsFor(actions: seq<Action>, frame: Frame): seq<Job> {
    if frame.Submit? then Issued(actions, frame.client) else []
  }

  // Action `n` brought submission `i`, and this is what became of it.
  ghost predicate CameAt(env: Env, l: Limits, actions: seq<Action>, i: nat, n: nat, sub: Sub, log: seq<Event>) {
    && n < |actions| && actions[n].Arrive? && |Run(env, Start(l), actions[..n]).subs| == i
    && BecomesOf(l, GuardOps(env, l, actions[..n]), JobsFor(actions[..n], actions[n].frame), actions[n].frame,
                 actions[n].now, sub, log)
  }

  /**
   In every run an arriving submission that looks its job up among the jobs issued so far, or does not get that
   far, is appended: refused with its reason, told the last outcome of its key's stay, or put under evaluation.
   */
  lemma ArrivalIsAnswered(env: Env, l: Limits, actions: seq<Action>, frame: Frame, now: int)
    requires !Run(env, Start(l), actions).halted
    requires frame.Submit? ==> frame.read <= |Issued(actions, frame.client)|
    ensures var s, s' := Run(env, Start(l), actions), Run(env, Start(l), actions + [Arrive(frame, now)]);
      && |s'.subs| == |s.subs| + 1 && s'.subs[..|s.subs|] == s.subs
      && var sub := s'.subs[|s.subs|];
         && (sub.phase.Dismissed? || sub.phase.Duplicate? || sub.phase.Evaluating?)
         && CameAt(env, l, actions + [Arrive(frame, now)], |s.subs|, |actions|, sub, EventsOf(sub.identity, sub.done))
  {
    var s := Run(env, Start(l), actions);
    RunSnoc(env, Start(l), actions, Arrive(frame, now));
    assert (actions + [Arrive(frame, now)])[..|actions|] == actions;
    var more := ArrivedAppends(s, frame, now);
    if frame.Submit? {
      JobsAreIssued(env, l, actions, frame.client);
    }
    GuardIsHistory(env, l, actions);
    RunSetsForReal(env, l, actions);
    ArrivedBecomes(l, GuardOps(env, l, actions), s, JobsFor(actions, frame), frame, now);
  }

  // ---- what becomes of it later ----------------------------------------------------------------------------

  // `y` is submission `x` further on: refused and duplicate ones stand, others keep what they evaluate.
  ghost predicate Further(x: Sub, y: Sub) {
    && y.key == x.key && y.identity == x.identity && TaskOf(y.phase) == TaskOf(x.phase)
    && (TaskOf(x.phase).None? ==> y.phase == x.phase && y.done == x.done)
  }

  lemma UpdateKeepsSub(subs: seq<Sub>, k: nat, y: Sub, i: nat)
    requires k < |subs| && i < |subs| && Further(subs[k], y)
    ensures Further(subs[i], subs[k := y][i])
  {
  }

  lemma ExecutedOnSub(env: Env, s: State, k: nat, now: int, i: nat)
    requires SubsOk(env, s) && k < |s.subs| && s.subs[k].todo != [] && i < |s.subs|
    ensures |Executed(s, k, now).subs| == |s.subs| && Further(s.subs[i], Executed(s, k, now).subs[i])
  {
    assert SubOk(env, s.subs[k]);
    UpdateKeepsSub(s.subs, k, Moved(s.subs[k]), i);
  }

  lemma NodeStepOnSub(env: Env, s: State, a: Action, i: nat)
    requires i < |s.subs| && (a.CallNode? || a.NodeAnswers? || a.NodeReturns?) && !s.halted
    ensures |Step(env, s, a).subs| == |s.subs| && Further(s.subs[i], Step(env, s, a).subs[i])
  {
    match a
    case CallNode(k, now) =>
      if CanCall(s, k) {
        var y := s.subs[k].(phase := Calling(s.subs[k].phase.judgement, |s.node.calls|));
        UpdateKeepsSub(s.subs, k, y, i);
      }
    case NodeAnswers(k, answer) =>
    case NodeReturns(k, named, now) =>
      if CanReturn(s, k, named) {
        var y := Returned(env, s.subs[k], ReplyOf(s.node.calls[s.subs[k].phase.call].phase, named).value);
        UpdateKeepsSub(s.subs, k, y, i);
      }
  }

  lemma OtherStepOnSub(env: Env, s: State, a: Action, i: nat)
    requires SubsOk(env, s) && i < |s.subs| && !a.Arrive? && !s.halted
    ensures |Step(env, s, a).subs| == |s.subs| && Further(s.subs[i], Step(env, s, a).subs[i])
  {
    match a
    case Issue(client, job) =>
    case Evaluate(k, j) =>
      if CanEvaluate(env, s, k, j) {
        UpdateKeepsSub(s.subs, k, Judged(env, s.subs[k], j), i);
      }
    case Advance(k, now) =>
      if k < |s.subs| && s.subs[k].todo != [] {
        ExecutedOnSub(env, s, k, now, i);
      }
    case _ => NodeStepOnSub(env, s, a, i);
  }

  lemma StepOnSub(env: Env, s: State, a: Action, i: nat)
    requires SubsOk(env, s) && i < |s.subs|
    ensures i < |Step(env, s, a).subs| && Further(s.subs[i], Step(env, s, a).subs[i])
  {
    if !s.halted && a.Arrive? {
      var more := ArrivedAppends(s, a.frame, a.now);
    } else if !s.halted {
      OtherStepOnSub(env, s, a, i);
    }
  }

  lemma NewSub(env: Env, s: State, a: Action, i: nat)
    requires |s.subs| <= i < |Step(env, s, a).subs|
    ensures i == |s.subs| && !s.halted && a.Arrive?
    ensures a.frame.Submit? ==> a.frame.read <= |JobsOf(s, a.frame.client)|
  {
  }

  // A submission further on is still what its frame became.
  lemma StillBecomes(l: Limits, ops: seq<Op>, jobs: seq<Job>, frame: Frame, now: int, x: Sub, y: Sub)
    requires Further(x, y) && BecomesOf(l, ops, jobs, frame, now, x, EventsOf(x.identity, x.done))
    ensures BecomesOf(l, ops, jobs, frame, now, y, EventsOf(y.identity, y.done))
  {
  }

  lemma CameEarlier(env: Env, l: Limits, actions: seq<Action>, i: nat, n: nat, x: Sub, y: Sub)
    requires actions != [] && Further(x, y)
    requires CameAt(env, l, actions[..|actions| - 1], i, n, x, EventsOf(x.identity, x.done))
    ensures CameAt(env, l, actions, i, n, y, EventsOf(y.identity, y.done))
  {
    var init := actions[..|actions| - 1];
    assert init[..n] == actions[..n] && init[n] == actions[n];
    StillBecomes(l, GuardOps(env, l, actions[..n]), JobsFor(actions[..n], actions[n].frame), actions[n].frame,
                 actions[n].now, x, y);
  }

  lemma CameNow(env: Env, l: Limits, actions: seq<Action>, i: nat)
    requires actions != []
    requires |Run(env, Start(l), actions[..|actions| - 1]).subs| <= i < |Run(env, Start(l), actions).subs|
    ensures var sub := Run(env, Start(l), actions).subs[i];
      CameAt(env, l, actions, i, |actions| - 1, sub, EventsOf(sub.identity, sub.done))
  {
    var init, a := actions[..|actions| - 1], actions[|actions| - 1];
    NewSub(env, Run(env, Start(l), init), a, i);
    if a.frame.Submit? {
      JobsAreIssued(env, l, init, a.frame.client);
    }
    assert actions == init + [Arrive(a.frame, a.now)];
    ArrivalIsAnswered(env, l, init, a.frame, a.now);
  }

  lemma {:induction false} SubCame(env: Env, l: Limits, actions: seq<Action>, i: nat) returns (n: nat)
    requires i < |Run(env, Start(l), actions).subs|
    ensures var sub := Run(env, Start(l), actions).subs[i];
      CameAt(env, l, actions, i, n, sub, EventsOf(sub.identity, sub.done))
  {
    var last := |actions| - 1;
    var init, a := actions[..last], actions[last];
    var s := Run(env, Start(l), init);
    if i < |s.subs| {
      RunKeepsInv(env, l, init);
      StepOnSub(env, s, a, i);
      n := SubCame(env, l, init, i);
      CameEarlier(env, l, actions, i, n, s.subs[i], Run(env, Start(l), actions).subs[i]);
    } else {
      CameNow(env, l, actions, i);
      n := last;
    }
  }

  /**
   Every submission of every run came by one arrival, and is and published what became of that frame: refused as
   malformed, as unparsable, or for a missing job; a duplicate told the last outcome of its key's stay, and with
   nothing published; or evaluated, for what the frame names among the jobs issued to its client.
   */
  lemma EverySubmissionArrived(env: Env, l: Limits, actions: seq<Action>, i: nat) returns (n: nat)
    requires i < |Run(env, Start(l), actions).subs|
    ensures var s := Run(env, Start(l), actions);
      CameAt(env, l, actions, i, n, s.subs[i], LogOf(s.log, i))
  {
    n := SubCame(env, l, actions, i);
    RunKeepsInv(env, l, actions);
  }

  // A submission of this key is told the last outcome of the key's present stay.
  ghost predicate ToldAt(l: Limits, ops: seq<Op>, now: int, sub: Sub) {
    && sub.phase.Duplicate? && sub.done == []
    && exists begin: nat :: LastOfStay(l, ops, sub.key, now, begin, sub.phase.outcome)
  }

  lemma DuplicateBecame(l: Limits, ops: seq<Op>, jobs: seq<Job>, frame: Frame, now: int, sub: Sub, log: seq<Event>)
    requires BecomesOf(l, ops, jobs, frame, now, sub, log) && sub.phase.Duplicate?
    ensures ToldAt(l, ops, now, sub)
  {
  }

  /**
   Every duplicate of every run publishes nothing and was told, when it arrived, the outcome last recorded in its
   key's present stay; unless that is in flight, an evaluation of the same key came to it.
   */
  lemma DuplicateWasToldTheLast(env: Env, l: Limits, actions: seq<Action>, i: nat) returns (n: nat)
    requires i < |Run(env, Start(l), actions).subs| && Run(env, Start(l), actions).subs[i].phase.Duplicate?
    ensures var s := Run(env, Start(l), actions);
      && n < |actions| && actions[n].Arrive? && |Run(env, Start(l), actions[..n]).subs| == i
      && ToldAt(l, GuardOps(env, l, actions[..n]), actions[n].now, s.subs[i]) && LogOf(s.log, i) == []
      && (s.subs[i].phase.outcome == InFlight || SettledBy(s.subs, s.subs[i].key, s.subs[i].phase.outcome))
  {
    DuplicateGetsARealOutcome(env, l, actions, i);
    n := EverySubmissionArrived(env, l, actions, i);
    var s, before := Run(env, Start(l), actions), actions[..n];
    DuplicateBecame(l, GuardOps(env, l, before), JobsFor(before, actions[n].frame), actions[n].frame, actions[n].now,
                    s.subs[i], LogOf(s.log, i));
    RunKeepsInv(env, l, actions);
  }
}

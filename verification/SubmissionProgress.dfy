/**
 Submissions get through. From every reachable state a new submission runs to its end, whatever the pool
 targets are and whatever the node answers.
 */
module SubmissionProgress {
  import opened Wrappers
  import opened TtlQueue
  import opened DuplicateGuard
  import opened JobRing
  import opened Submission
  import opened SubmissionTheorems
  import WalkBack
  import BG = BlockGuard

  // ---- a judgement exists ---------------------------------------------------------------------------------

  // A walk during which no job is issued.
  ghost function Still(task: Task, log: seq<Job>, targets: nat -> nat, verdict: WalkBack.Verdict): Judgement {
    var ring := RingOf(log);
    Judgement(task, log, (k: nat) => |log|, (k: nat) => ring, targets, verdict)
  }

  lemma StillJudgement(env: Env, task: Task, log: seq<Job>, targets: nat -> nat) returns (j: Judgement)
    requires ValidTask(task) && task.seen <= log
    ensures j.task == task && j.log == log && j.targets == targets && Judges(env, j)
  {
    var blank := Still(task, log, targets, WalkBack.Underflow);
    var v := WalkBack.WalkHasVerdict(WalkOf(env, blank));
    j := blank.(verdict := v);
    WalkBack.SameWalk(WalkOf(env, blank), WalkOf(env, j), v);
    assert log[..|log|] == log;
  }

  // ---- working off the effects ------------------------------------------------------------------------------

  // Submission `i` of a live process, in the given phase.
  ghost predicate At(s: State, i: nat, key: SubmitKey, id: Identity, phase: Phase) {
    !s.halted && i < |s.subs| && s.subs[i].key == key && s.subs[i].identity == id && s.subs[i].phase == phase
  }

  lemma AdvanceStep(env: Env, s: State, i: nat, key: SubmitKey, id: Identity, phase: Phase, now: int)
    requires At(s, i, key, id, phase) && s.subs[i].todo != []
    ensures At(Step(env, s, Advance(i, now)), i, key, id, phase)
    ensures |Step(env, s, Advance(i, now)).subs[i].todo| == |s.subs[i].todo| - 1
    ensures Step(env, s, Advance(i, now)).node == s.node
  {
  }

  lemma WorksOff(env: Env, s: State, acts: seq<Action>, i: nat, key: SubmitKey, id: Identity, phase: Phase, now: int)
    returns (more: seq<Action>)
    requires At(Run(env, s, acts), i, key, id, phase)
    ensures acts <= more && At(Run(env, s, more), i, key, id, phase) && Run(env, s, more).subs[i].todo == []
    ensures Run(env, s, more).node == Run(env, s, acts).node
  {
    more := acts;
    while Run(env, s, more).subs[i].todo != []
      invariant acts <= more && At(Run(env, s, more), i, key, id, phase)
      invariant Run(env, s, more).node == Run(env, s, acts).node
      decreases |Run(env, s, more).subs[i].todo|
    {
      AdvanceStep(env, Run(env, s, more), i, key, id, phase, now);
      RunSnoc(env, s, more, Advance(i, now));
      more := more + [Advance(i, now)];
    }
  }

  // ---- at the node ------------------------------------------------------------------------------------------

  lemma CallStep(env: Env, s: State, i: nat, key: SubmitKey, id: Identity, j: Judgement, now: int)
    requires At(s, i, key, id, AtNode(j)) && s.subs[i].todo == [] && j.verdict.BlockCandidate?
    ensures var s' := Step(env, s, CallNode(i, now)); var call := |s.node.calls|;
      && At(s', i, key, id, Calling(j, call)) && call < |s'.node.calls|
      && (s'.node.calls[call].phase.InRpc? || s'.node.calls[call].phase.Refused?)
  {
  }

  // The call is over for the node: the guard refused it, or it got this answer.
  ghost predicate Over(s: State, call: nat, answer: BG.Reply) {
    && call < |s.node.calls|
    && (s.node.calls[call].phase.Refused? || s.node.calls[call].phase == BG.Answered(answer))
  }

  // The submission ended on such a call; one that failed has been released.
  ghost predicate EndedOn(s: State, i: nat, answer: BG.Reply) {
    && i < |s.subs| && s.subs[i].phase.Finishing? && s.subs[i].phase.ending.ByNode?
    && var call := s.subs[i].phase.ending.call;
       && call < |s.node.calls|
       && (Over(s, call, answer) || (answer == BG.TransportError && s.node.calls[call].phase.Released?))
  }

  lemma AnswerStep(env: Env, s: State, i: nat, key: SubmitKey, id: Identity, j: Judgement, call: nat, answer: BG.Reply)
    requires At(s, i, key, id, Calling(j, call)) && j.verdict.BlockCandidate? && call < |s.node.calls|
    requires s.node.calls[call].phase.InRpc? || s.node.calls[call].phase.Refused?
    ensures var s' := Step(env, s, NodeAnswers(i, answer));
      At(s', i, key, id, Calling(j, call)) && Over(s', call, answer)
  {
  }

  lemma ReturnStep(env: Env, s: State, i: nat, key: SubmitKey, id: Identity, j: Judgement, call: nat,
                   answer: BG.Reply, named: bool, now: int)
    requires At(s, i, key, id, Calling(j, call)) && j.verdict.BlockCandidate? && Over(s, call, answer)
    ensures var s' := Step(env, s, NodeReturns(i, named, now));
      && i < |s'.subs| && At(s', i, key, id, s'.subs[i].phase) && EndedOn(s', i, answer)
      && s'.subs[i].phase.judgement == j
  {
    assert CanReturn(s, i, named);
  }

  lemma BlockFinishes(env: Env, s: State, acts: seq<Action>, i: nat, key: SubmitKey, id: Identity, j: Judgement,
                      answer: BG.Reply, named: bool, now: int) returns (more: seq<Action>)
    requires At(Run(env, s, acts), i, key, id, AtNode(j)) && j.verdict.BlockCandidate?
    ensures acts <= more && FinishedWith(Run(env, s, more), i, key, id, j) && EndedOn(Run(env, s, more), i, answer)
  {
    var found := WorksOff(env, s, acts, i, key, id, AtNode(j), now);
    var call := |Run(env, s, found).node.calls|;
    CallStep(env, Run(env, s, found), i, key, id, j, now);
    RunSnoc(env, s, found, CallNode(i, now));
    var called := found + [CallNode(i, now)];
    AnswerStep(env, Run(env, s, called), i, key, id, j, call, answer);
    RunSnoc(env, s, called, NodeAnswers(i, answer));
    var answered := called + [NodeAnswers(i, answer)];
    ReturnStep(env, Run(env, s, answered), i, key, id, j, call, answer, named, now);
    RunSnoc(env, s, answered, NodeReturns(i, named, now));
    var back := answered + [NodeReturns(i, named, now)];
    more := WorksOff(env, s, back, i, key, id, Run(env, s, back).subs[i].phase, now);
  }

  ghost predicate FinishedWith(s: State, i: nat, key: SubmitKey, id: Identity, j: Judgement) {
    && !s.halted && i < |s.subs| && s.subs[i].key == key && s.subs[i].identity == id
    && Finished(s.subs[i]) && s.subs[i].phase.judgement == j
  }

  // ---- from arrival to the end --------------------------------------------------------------------------------

  lemma ArrivalStep(env: Env, s: State, frame: Frame, now: int, task: Task)
    requires !s.halted && frame.Submit? && frame.read <= |JobsOf(s, frame.client)|
    requires task.seen == JobsOf(s, frame.client)[..frame.read] && Lookup(task.seen, frame.jobId) == Some(task.first)
    requires task.client == frame.client && task.jobId == frame.jobId && task.nonce == frame.nonce
    requires frame.key !in Pruned(s.guard, now).entries
    ensures var s' := Step(env, s, Arrive(frame, now));
      && At(s', |s.subs|, frame.key, frame.identity, Evaluating(task)) && s'.jobs == s.jobs
  {
  }

  lemma EvaluateStep(env: Env, s: State, i: nat, key: SubmitKey, id: Identity, j: Judgement)
    requires At(s, i, key, id, Evaluating(j.task)) && j.log == JobsOf(s, j.task.client) && Judges(env, j)
    ensures var s' := Step(env, s, Evaluate(i, j)); i < |s'.subs|
    ensures var s' := Step(env, s, Evaluate(i, j));
      match j.verdict
      case Underflow => s'.halted && s'.subs[i].key == key && s'.subs[i].phase == Aborted(j)
      case BlockCandidate(_, _) => At(s', i, key, id, AtNode(j))
      case _ => At(s', i, key, id, Finishing(j, ByWalk))
  {
  }

  // The submission aborted the process: it named id 0 and the job it found there misses both targets.
  ghost predicate AbortedWith(s: State, i: nat, key: SubmitKey, j: Judgement) {
    s.halted && i < |s.subs| && s.subs[i].key == key && s.subs[i].phase == Aborted(j)
  }

  lemma EvaluatedEnds(env: Env, s: State, acts: seq<Action>, i: nat, key: SubmitKey, id: Identity, j: Judgement,
                      answer: BG.Reply, named: bool, now: int) returns (more: seq<Action>)
    requires At(Run(env, s, acts), i, key, id, Evaluating(j.task)) && Judges(env, j)
    requires j.log == JobsOf(Run(env, s, acts), j.task.client)
    ensures acts <= more && (j.verdict.BlockCandidate? ==> EndedOn(Run(env, s, more), i, answer))
    ensures if j.verdict.Underflow? then AbortedWith(Run(env, s, more), i, key, j)
            else FinishedWith(Run(env, s, more), i, key, id, j)
  {
    EvaluateStep(env, Run(env, s, acts), i, key, id, j);
    RunSnoc(env, s, acts, Evaluate(i, j));
    var judged := acts + [Evaluate(i, j)];
    match j.verdict
    case Underflow => more := judged;
    case BlockCandidate(_, _) => more := BlockFinishes(env, s, judged, i, key, id, j, answer, named, now);
    case _ => more := WorksOff(env, s, judged, i, key, id, Finishing(j, ByWalk), now);
  }

  /**
   From every reachable state of a live process, a submission with a key that is not in the guard and a job
   at its slot runs to its end: finished with the verdict of its walk over the client's jobs, or, for id 0
   with a job that misses both targets, an abort. This holds for all pool targets and every answer of the node.
   */
  lemma NewSubmissionEnds(env: Env, l: Limits, actions: seq<Action>, frame: Frame, now: int, targets: nat -> nat,
                          answer: BG.Reply, named: bool) returns (more: seq<Action>, j: Judgement)
    requires var s := Run(env, Start(l), actions);
      && !s.halted && frame.Submit? && frame.read <= |JobsOf(s, frame.client)|
      && Lookup(JobsOf(s, frame.client)[..frame.read], frame.jobId).Some?
      && frame.key !in Pruned(s.guard, now).entries
    ensures var s, s' := Run(env, Start(l), actions), Run(env, Start(l), more);
      var log := JobsOf(s, frame.client);
      var first := Lookup(log[..frame.read], frame.jobId).value;
      && j.task == Task(frame.client, frame.jobId, frame.nonce, log[..frame.read], first)
      && j.log == log && j.targets == targets && Judges(env, j)
      && actions <= more && (j.verdict.BlockCandidate? ==> EndedOn(s', |s.subs|, answer))
      && (if frame.jobId == 0 && env.pow(first, frame.nonce) > first.networkTarget
             && env.pow(first, frame.nonce) >= targets(0)
          then AbortedWith(s', |s.subs|, frame.key, j)
          else FinishedWith(s', |s.subs|, frame.key, frame.identity, j))
  {
    var s := Run(env, Start(l), actions);
    var log := JobsOf(s, frame.client);
    var first := Lookup(log[..frame.read], frame.jobId).value;
    var task := Task(frame.client, frame.jobId, frame.nonce, log[..frame.read], first);
    j := StillJudgement(env, task, log, targets);
    ArrivalStep(env, s, frame, now, task);
    RunSnoc(env, Start(l), actions, Arrive(frame, now));
    WalkBack.UnderflowExactly(WalkOf(env, j), j.verdict);
    more := EvaluatedEnds(env, Start(l), actions + [Arrive(frame, now)], |s.subs|, frame.key, frame.identity, j,
                          answer, named, now);
  }
}

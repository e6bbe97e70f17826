/** What every run of concurrent submissions comes to, in terms of each submission's walk and node reply. */
module SubmissionTheorems {
  import opened Wrappers
  import opened DuplicateGuard
  import opened JobRing
  import opened Submission
  import opened SubmissionSafety
  import TtlQueue
  import WalkBack

  // Each stay of a key in the guard accounts for exactly one evaluation: over any interleaving, a key
  // has been evaluated once per eviction, plus once if it is resident now.
  lemma OneEvaluationPerResidency(env: Env, l: Limits, actions: seq<Action>, key: SubmitKey)
    ensures var s := Run(env, Start(l), actions);
            Admissions(s.subs, key) == s.evictions[key] + Resident(s.guard, key)
  {
    RunKeepsInv(env, l, actions);
  }

  // A duplicate is answered with an outcome that an evaluation of the same key came to, or as in flight.
  lemma DuplicateGetsARealOutcome(env: Env, l: Limits, actions: seq<Action>, i: nat)
    requires var s := Run(env, Start(l), actions); i < |s.subs| && s.subs[i].phase.Duplicate?
    ensures var s := Run(env, Start(l), actions);
            s.subs[i].phase.outcome == InFlight || SettledBy(s.subs, s.subs[i].key, s.subs[i].phase.outcome)
  {
    RunKeepsInv(env, l, actions);
  }

  // ---- every judgement is that of a walk over the client's own ring ---------------------------------

  ghost predicate PhaseOk(env: Env, jobs: map<nat, seq<Job>>, p: Phase) {
    match p
    case Evaluating(t) => ValidTask(t) && t.seen <= LogIn(jobs, t.client)
    case Aborted(j) => Judges(env, j) && j.log <= LogIn(jobs, j.task.client)
    case AtNode(j) => Judges(env, j) && j.log <= LogIn(jobs, j.task.client)
    case Calling(j, _) => Judges(env, j) && j.log <= LogIn(jobs, j.task.client)
    case Finishing(j, _) => Judges(env, j) && j.log <= LogIn(jobs, j.task.client)
    case _ => true
  }

  function LogIn(jobs: map<nat, seq<Job>>, client: nat): seq<Job> {
    if client in jobs then jobs[client] else []
  }

  ghost predicate PhasesOk(env: Env, s: State) {
    forall i :: 0 <= i < |s.subs| ==> PhaseOk(env, s.jobs, s.subs[i].phase)
  }

  lemma PhaseKept(env: Env, jobs: map<nat, seq<Job>>, client: nat, job: Job, p: Phase)
    requires PhaseOk(env, jobs, p)
    ensures PhaseOk(env, jobs[client := LogIn(jobs, client) + [job]], p)
  {
  }

  // The phase of a submission after a step: unchanged, the next with the same judgement, or entered
  // by an arrival or an evaluation.
  lemma StepKeepsPhases(env: Env, s: State, a: Action)
    requires PhasesOk(env, s)
    ensures PhasesOk(env, Step(env, s, a))
  {
    if !s.halted {
      match a
      case Issue(client, job) =>
        forall i | 0 <= i < |s.subs|
          ensures PhaseOk(env, Step(env, s, a).jobs, s.subs[i].phase)
        {
          PhaseKept(env, s.jobs, client, job, s.subs[i].phase);
        }
      case Arrive(frame, now) => ArrivedPhases(env, s, frame, now);
      case Evaluate(i, j) => EvaluatedPhases(env, s, i, j);
      case CallNode(i, now) =>
      case NodeAnswers(i, answer) =>
      case NodeReturns(i, named, now) =>
      case Advance(i, now) =>
    }
  }

  ghost predicate AllPhases(env: Env, jobs: map<nat, seq<Job>>, subs: seq<Sub>) {
    forall i :: 0 <= i < |subs| ==> PhaseOk(env, jobs, subs[i].phase)
  }

  lemma AppendPhase(env: Env, jobs: map<nat, seq<Job>>, subs: seq<Sub>, x: Sub)
    requires AllPhases(env, jobs, subs) && PhaseOk(env, jobs, x.phase)
    ensures AllPhases(env, jobs, subs + [x])
  {
  }

  lemma UpdatePhase(env: Env, jobs: map<nat, seq<Job>>, subs: seq<Sub>, i: nat, x: Sub)
    requires AllPhases(env, jobs, subs) && i < |subs| && PhaseOk(env, jobs, x.phase)
    ensures AllPhases(env, jobs, subs[i := x])
  {
  }

  lemma AdmitPhase(env: Env, s: State, key: SubmitKey, id: Identity, task: Task, now: int)
    requires AllPhases(env, s.jobs, s.subs) && ValidTask(task) && task.seen <= LogIn(s.jobs, task.client)
    ensures AllPhases(env, s.jobs, Admit(s, key, id, task, now).subs) && Admit(s, key, id, task, now).jobs == s.jobs
  {
    AppendPhase(env, s.jobs, s.subs, Admit(s, key, id, task, now).subs[|s.subs|]);
  }

  lemma ArrivedPhases(env: Env, s: State, frame: Frame, now: int)
    requires PhasesOk(env, s)
    ensures PhasesOk(env, Arrived(s, frame, now))
  {
    match frame
    case TooFewParams(id) => AppendPhase(env, s.jobs, s.subs, Arrived(s, frame, now).subs[|s.subs|]);
    case Unparsable => AppendPhase(env, s.jobs, s.subs, Arrived(s, frame, now).subs[|s.subs|]);
    case Submit(client, jobId, nonce, read, key, id) =>
      if read <= |JobsOf(s, client)| {
        var job := Lookup(JobsOf(s, client)[..read], jobId);
        if job.Some? {
          AdmitPhase(env, s, key, id, Task(client, jobId, nonce, JobsOf(s, client)[..read], job.value), now);
        } else {
          AppendPhase(env, s.jobs, s.subs, Arrived(s, frame, now).subs[|s.subs|]);
        }
      }
  }

  lemma JudgedPhase(env: Env, jobs: map<nat, seq<Job>>, sub: Sub, j: Judgement)
    requires Judges(env, j) && j.log <= LogIn(jobs, j.task.client)
    ensures PhaseOk(env, jobs, Judged(env, sub, j).phase)
  {
  }

  lemma EvaluatedPhases(env: Env, s: State, i: nat, j: Judgement)
    requires PhasesOk(env, s) && !s.halted
    ensures PhasesOk(env, Step(env, s, Evaluate(i, j)))
  {
    if CanEvaluate(env, s, i, j) {
      JudgedPhase(env, s.jobs, s.subs[i], j);
      UpdatePhase(env, s.jobs, s.subs, i, Judged(env, s.subs[i], j));
    }
  }

  lemma {:induction false} RunKeepsPhases(env: Env, l: Limits, actions: seq<Action>)
    ensures PhasesOk(env, Run(env, Start(l), actions))
  {
    if actions != [] {
      RunKeepsPhases(env, l, actions[..|actions| - 1]);
      StepKeepsPhases(env, Run(env, Start(l), actions[..|actions| - 1]), actions[|actions| - 1]);
    }
  }

  // ---- what each verdict and reply comes to -----------------------------------------------------------

  // The log, the counter and the outcome that belong to a verdict and, for a block, the node's reply. An
  // event that names the wallet and the worker needs both names to be valid, and a credit a valid difficulty
  // besides; an accepted block is announced in any case.
  function ExpectedLog(env: Env, id: Identity, j: Judgement, ending: Ending): seq<Event>
    requires EndingFits(j, ending)
  {
    var named := id.walletOk && id.workerOk;
    var credited := named && id.difficultyOk;
    match j.verdict
    case PoolShare(_, job) => if credited then [Credited(job.daa)] else []
    case LowDifficulty(_) => if named then [Rejected(LowDifficulty)] else []
    case BlockCandidate(_, job) =>
      var hash := env.hash(job, j.task.nonce);
      var found := if named then [Found(hash, job.daa)] else [];
      match ending.reply
      case AcceptedByNode => found + [BlockAccepted(hash)] + if credited then [Credited(job.daa)] else []
      case RejectedByNode => found + if credited then [Credited(job.daa)] else []
      case DuplicateBlock => if named then [Found(hash, job.daa), Rejected(StaleBlock)] else []
      case OtherError => if named then [Found(hash, job.daa), Rejected(BadPow)] else []
  }

  function ExpectedCounter(j: Judgement, ending: Ending): Counter
    requires EndingFits(j, ending)
  {
    match j.verdict
    case PoolShare(_, _) => Shares
    case LowDifficulty(_) => InvalidShares
    case BlockCandidate(_, _) =>
      match ending.reply
      case AcceptedByNode => Shares
      case RejectedByNode => Shares
      case DuplicateBlock => StaleShares
      case OtherError => InvalidShares
  }

  function ExpectedOutcome(j: Judgement, ending: Ending): Outcome
    requires EndingFits(j, ending)
  {
    match j.verdict
    case PoolShare(_, _) => Accepted
    case LowDifficulty(_) => LowDiff
    case BlockCandidate(_, _) =>
      match ending.reply
      case AcceptedByNode => Accepted
      case RejectedByNode => Accepted
      case DuplicateBlock => Stale
      case OtherError => Bad
  }

  // The event of an effect, if it is published and the identity allows it to be built.
  function EventIn(id: Identity, e: Effect): seq<Event> {
    if e.Publish? && Builds(id, e.event) then [e.event] else []
  }

  lemma EventsOfOne(id: Identity, e: Effect)
    ensures EventsOf(id, [e]) == EventIn(id, e)
    ensures forall c :: Bumps([e], c) == if e == Bump(c) then 1 else 0
  {
    assert [e][..0] == [];
    assert forall c :: Bumps([e][..0], c) == 0;
  }

  lemma {:induction false} EffectsAppend(id: Identity, a: seq<Effect>, b: seq<Effect>, c: Counter)
    ensures EventsOf(id, a + b) == EventsOf(id, a) + EventsOf(id, b)
    ensures Bumps(a + b, c) == Bumps(a, c) + Bumps(b, c)
  {
    if b == [] {
      assert a + b == a;
    } else {
      var last := |b| - 1;
      assert (a + b)[..|a| + last] == a + b[..last];
      EffectsAppend(id, a, b[..last], c);
    }
  }

  // The events and counter bumps of a concrete plan, one effect after the other.
  lemma EffectsCons(id: Identity, e: Effect, rest: seq<Effect>, c: Counter)
    ensures EventsOf(id, [e] + rest) == EventIn(id, e) + EventsOf(id, rest)
    ensures Bumps([e] + rest, c) == (if e == Bump(c) then 1 else 0) + Bumps(rest, c)
  {
    EventsOfOne(id, e);
    EffectsAppend(id, [e], rest, c);
  }

  lemma ThreeEffects(id: Identity, x: Effect, y: Effect, z: Effect, c: Counter)
    ensures EventsOf(id, [x, y, z]) == EventIn(id, x) + EventIn(id, y) + EventIn(id, z)
    ensures Bumps([x, y, z], c)
         == (if x == Bump(c) then 1 else 0) + (if y == Bump(c) then 1 else 0) + (if z == Bump(c) then 1 else 0)
  {
    assert [x, y, z] == [x] + ([y] + [z]);
    EffectsCons(id, x, [y] + [z], c);
    EffectsCons(id, y, [z], c);
    EventsOfOne(id, z);
  }

  // The events and bumps of a list of effects are these.
  ghost predicate Yields(id: Identity, effects: seq<Effect>, events: seq<Event>, counter: Counter, outcome: Outcome) {
    && EventsOf(id, effects) == events
    && (forall c :: Bumps(effects, c) == if c == counter then 1 else 0)
    && (forall o :: Settle(o) in effects <==> o == outcome)
  }

  lemma OneEventPlan(id: Identity, x: Effect, y: Effect, z: Effect, e: Event, counter: Counter, outcome: Outcome)
    requires multiset{x, y, z} == multiset{Bump(counter), Publish(e), Settle(outcome)}
    ensures Yields(id, [x, y, z], EventIn(id, Publish(e)), counter, outcome)
  {
    assert x in multiset{x, y, z} && y in multiset{x, y, z} && z in multiset{x, y, z};
    assert multiset{x, y, z}[Publish(e)] == 1 && multiset{x, y, z}[Bump(counter)] == 1;
    assert multiset{x, y, z}[Settle(outcome)] == 1;
    forall c
      ensures Bumps([x, y, z], c) == if c == counter then 1 else 0
    {
      ThreeEffects(id, x, y, z, c);
    }
    ThreeEffects(id, x, y, z, counter);
  }

  lemma WalkYields(env: Env, id: Identity, j: Judgement)
    requires EndingFits(j, ByWalk)
    ensures Yields(id, AfterWalk(j.verdict),
                   ExpectedLog(env, id, j, ByWalk), ExpectedCounter(j, ByWalk), ExpectedOutcome(j, ByWalk))
  {
    match j.verdict
    case PoolShare(_, job) =>
      var e := Credited(job.daa);
      OneEventPlan(id, Bump(Shares), Publish(e), Settle(Accepted), e, Shares, Accepted);
    case LowDifficulty(_) =>
      var e := Rejected(LowDifficulty);
      OneEventPlan(id, Bump(InvalidShares), Publish(e), Settle(LowDiff), e, InvalidShares, LowDiff);
  }

  // A published event in front adds itself and nothing else.
  lemma PublishedFirst(id: Identity, e: Event, rest: seq<Effect>, events: seq<Event>, counter: Counter,
                       outcome: Outcome)
    requires Yields(id, rest, events, counter, outcome)
    ensures Yields(id, [Publish(e)] + rest, EventIn(id, Publish(e)) + events, counter, outcome)
  {
    forall c
      ensures Bumps([Publish(e)] + rest, c) == if c == counter then 1 else 0
    {
      EffectsCons(id, Publish(e), rest, c);
    }
    EffectsCons(id, Publish(e), rest, counter);
  }

  function NodeEvents(id: Identity, hash: nat, daa: nat, reply: NodeReply): seq<Event> {
    match reply
    case AcceptedByNode => EventIn(id, Publish(BlockAccepted(hash))) + EventIn(id, Publish(Credited(daa)))
    case RejectedByNode => EventIn(id, Publish(Credited(daa)))
    case DuplicateBlock => EventIn(id, Publish(Rejected(StaleBlock)))
    case OtherError => EventIn(id, Publish(Rejected(BadPow)))
  }

  lemma NodeYields(id: Identity, hash: nat, daa: nat, reply: NodeReply, counter: Counter, outcome: Outcome)
    requires counter == match reply {
                          case DuplicateBlock => StaleShares case OtherError => InvalidShares case _ => Shares }
    requires outcome == match reply { case DuplicateBlock => Stale case OtherError => Bad case _ => Accepted }
    ensures Yields(id, AfterNode(hash, daa, reply), NodeEvents(id, hash, daa, reply), counter, outcome)
  {
    match reply
    case AcceptedByNode =>
      OneEventPlan(id, Bump(Shares), Publish(Credited(daa)), Settle(Accepted), Credited(daa), Shares, Accepted);
      var rest := [Bump(Shares), Publish(Credited(daa)), Settle(Accepted)];
      PublishedFirst(id, BlockAccepted(hash), rest, EventIn(id, Publish(Credited(daa))), Shares, Accepted);
      assert AfterNode(hash, daa, reply) == [Publish(BlockAccepted(hash))] + rest;
    case RejectedByNode =>
      OneEventPlan(id, Bump(Shares), Publish(Credited(daa)), Settle(Accepted), Credited(daa), Shares, Accepted);
    case DuplicateBlock =>
      var e := Rejected(StaleBlock);
      OneEventPlan(id, Settle(Stale), Bump(StaleShares), Publish(e), e, StaleShares, Stale);
    case OtherError =>
      var e := Rejected(BadPow);
      OneEventPlan(id, Bump(InvalidShares), Publish(e), Settle(Bad), e, InvalidShares, Bad);
  }

  lemma BlockLog(env: Env, id: Identity, j: Judgement, ending: Ending)
    requires EndingFits(j, ending) && ending.ByNode?
    ensures var hash, daa := HashOf(env, j), j.verdict.job.daa;
      EventIn(id, Publish(Found(hash, daa))) + NodeEvents(id, hash, daa, ending.reply)
      == ExpectedLog(env, id, j, ending)
  {
  }

  // The whole work of a submission yields exactly what its verdict and reply call for.
  lemma PlanEffects(env: Env, id: Identity, j: Judgement, ending: Ending)
    requires EndingFits(j, ending)
    ensures Yields(id, Plan(env, j, ending),
                   ExpectedLog(env, id, j, ending), ExpectedCounter(j, ending), ExpectedOutcome(j, ending))
  {
    if ending.ByWalk? {
      WalkYields(env, id, j);
    } else {
      var hash, daa := HashOf(env, j), j.verdict.job.daa;
      NodeYields(id, hash, daa, ending.reply, ExpectedCounter(j, ending), ExpectedOutcome(j, ending));
      PublishedFirst(id, Found(hash, daa), AfterNode(hash, daa, ending.reply), NodeEvents(id, hash, daa, ending.reply),
                     ExpectedCounter(j, ending), ExpectedOutcome(j, ending));
      BlockLog(env, id, j, ending);
    }
  }

  // ---- finished submissions --------------------------------------------------------------------------

  predicate Finished(sub: Sub) {
    sub.phase.Finishing? && sub.todo == []
  }

  /**
   In every run a finished submission was judged by the walk over its client's ring, and its verdict says what
   that walk found.
   */
  lemma FinishedIsJudged(env: Env, l: Limits, actions: seq<Action>, i: nat)
    requires i < |Run(env, Start(l), actions).subs| && Finished(Run(env, Start(l), actions).subs[i])
    ensures var s := Run(env, Start(l), actions); var j := s.subs[i].phase.judgement;
      Judges(env, j) && j.log <= JobsOf(s, j.task.client) && VerdictMeans(env, j)
  {
    RunKeepsPhases(env, l, actions);
    var s := Run(env, Start(l), actions);
    assert PhaseOk(env, s.jobs, s.subs[i].phase);
    JudgedMeans(env, s.subs[i].phase.judgement);
  }

  /**
   In every run the events, the one counter and the settled outcome of a finished submission are exactly
   those of its verdict and the node's reply.
   */
  lemma FinishedIsExactly(env: Env, l: Limits, actions: seq<Action>, i: nat)
    requires i < |Run(env, Start(l), actions).subs| && Finished(Run(env, Start(l), actions).subs[i])
    ensures var s := Run(env, Start(l), actions);
      var sub := s.subs[i]; var j, ending := sub.phase.judgement, sub.phase.ending;
      && EndingFits(j, ending)
      && LogOf(s.log, i) == ExpectedLog(env, sub.identity, j, ending)
      && (forall c :: Bumps(sub.done, c) == if c == ExpectedCounter(j, ending) then 1 else 0)
      && (forall o :: Settle(o) in sub.done <==> o == ExpectedOutcome(j, ending))
  {
    RunKeepsInv(env, l, actions);
    FinishedPlan(env, Run(env, Start(l), actions), i);
  }

  lemma FinishedPlan(env: Env, s: State, i: nat)
    requires Inv(env, s) && i < |s.subs| && Finished(s.subs[i])
    ensures var sub := s.subs[i]; var j, ending := sub.phase.judgement, sub.phase.ending;
      && EndingFits(j, ending)
      && Yields(sub.identity, sub.done,
                ExpectedLog(env, sub.identity, j, ending), ExpectedCounter(j, ending), ExpectedOutcome(j, ending))
      && LogOf(s.log, i) == EventsOf(sub.identity, sub.done)
  {
    var sub := s.subs[i];
    assert SubOk(env, sub) && sub.done + sub.todo == sub.done;
    PlanEffects(env, sub.identity, sub.phase.judgement, sub.phase.ending);
  }

  // ---- the walk, in terms of the ring and the proof of work ------------------------------------------

  // The job that check `k` tries: the one submitted, then the entry of the client's ring, as it is at the
  // check before, for the k-th id below it.
  ghost function JobAt(j: Judgement, k: nat): Option<Job>
    requires RingsFit(j)
  {
    if k == 0 then Some(j.task.first)
    else if k > j.task.jobId then None
    else
      var ring, slot := RingOf(j.log[..j.progress(k - 1)]), (j.task.jobId - k) % 300;
      if slot in ring then Some(ring[slot]) else None
  }

  // With the submitted nonce it misses the job's network target, and the pool target of the check.
  ghost predicate MissesBoth(env: Env, j: Judgement, k: nat)
    requires RingsFit(j)
  {
    && JobAt(j, k).Some?
    && env.pow(JobAt(j, k).value, j.task.nonce) > JobAt(j, k).value.networkTarget
    && env.pow(JobAt(j, k).value, j.task.nonce) >= j.targets(k)
  }

  // Check `k` tries `job`, which meets a target, and every check before it misses both.
  ghost predicate FirstToPass(env: Env, j: Judgement, k: nat, job: Job)
    requires RingsFit(j)
  {
    && JobAt(j, k) == Some(job)
    && (env.pow(job, j.task.nonce) <= job.networkTarget || env.pow(job, j.task.nonce) < j.targets(k))
    && forall i :: 0 <= i < k ==> MissesBoth(env, j, i)
  }

  // Every check misses both targets, down to id 1, around the ring, or to an empty slot.
  ghost predicate NothingPasses(env: Env, j: Judgement, checks: nat)
    requires RingsFit(j)
  {
    && (forall i :: 0 <= i < checks ==> MissesBoth(env, j, i))
    && (checks == j.task.jobId || checks == 300 || JobAt(j, checks).None?)
  }

  ghost predicate AllMiss(env: Env, j: Judgement) {
    RingsFit(j) && exists checks: nat :: checks >= 1 && NothingPasses(env, j, checks)
  }

  lemma ChecksAgree(env: Env, j: Judgement, k: nat)
    requires RingsFit(j)
    ensures WalkBack.Tried(WalkOf(env, j), k) == JobAt(j, k)
    ensures WalkBack.MissedAt(WalkOf(env, j), k) <==> MissesBoth(env, j, k)
  {
  }

  // The verdict is a hit exactly for the first job that passes: a block if it meets its network target, a
  // pool share otherwise. It is of low difficulty exactly if nothing passes.
  ghost predicate VerdictMeans(env: Env, j: Judgement)
    requires RingsFit(j)
  {
    match j.verdict
    case BlockCandidate(n, job) =>
      n >= 1 && FirstToPass(env, j, n - 1, job) && env.pow(job, j.task.nonce) <= job.networkTarget
    case PoolShare(n, job) =>
      n >= 1 && FirstToPass(env, j, n - 1, job) && env.pow(job, j.task.nonce) > job.networkTarget
    case LowDifficulty(n) => n >= 1 && NothingPasses(env, j, n)
    case Underflow => j.task.jobId == 0 && MissesBoth(env, j, 0)
  }

  lemma ChecksMiss(env: Env, j: Judgement, n: nat)
    requires RingsFit(j) && forall i :: 0 <= i < n ==> WalkBack.MissedAt(WalkOf(env, j), i)
    ensures forall i :: 0 <= i < n ==> MissesBoth(env, j, i)
  {
    forall i | 0 <= i < n
      ensures MissesBoth(env, j, i)
    {
      ChecksAgree(env, j, i);
    }
  }

  lemma HitMeansPassed(env: Env, j: Judgement)
    requires Judges(env, j) && (j.verdict.BlockCandidate? || j.verdict.PoolShare?)
    ensures VerdictMeans(env, j)
  {
    WalkBack.HitIsFirstThatPasses(WalkOf(env, j), j.verdict);
    ChecksAgree(env, j, j.verdict.checks - 1);
    ChecksMiss(env, j, j.verdict.checks - 1);
  }

  lemma LowMeansNothing(env: Env, j: Judgement)
    requires Judges(env, j) && j.verdict.LowDifficulty?
    ensures VerdictMeans(env, j)
  {
    WalkBack.LowExactlyWhenAllMiss(WalkOf(env, j), j.verdict);
    ChecksAgree(env, j, j.verdict.checks);
    ChecksMiss(env, j, j.verdict.checks);
  }

  lemma JudgedMeans(env: Env, j: Judgement)
    requires Judges(env, j)
    ensures VerdictMeans(env, j)
  {
    match j.verdict
    case LowDifficulty(_) => LowMeansNothing(env, j);
    case Underflow => ChecksAgree(env, j, 0);
    case _ => HitMeansPassed(env, j);
  }

  /**
   In every run a rejection for low difficulty is published exactly when nothing on the walk passes and the
   wallet and worker names are valid.
   */
  lemma LowDifficultyExactlyWhenAllMiss(env: Env, l: Limits, actions: seq<Action>, i: nat)
    requires i < |Run(env, Start(l), actions).subs| && Finished(Run(env, Start(l), actions).subs[i])
    ensures var s := Run(env, Start(l), actions); var sub := s.subs[i]; var j := sub.phase.judgement;
      Rejected(LowDifficulty) in LogOf(s.log, i) <==>
        AllMiss(env, j) && sub.identity.walletOk && sub.identity.workerOk
  {
    var sub := Run(env, Start(l), actions).subs[i];
    FinishedIsExactly(env, l, actions, i);
    LowIsLogged(env, sub.identity, sub.phase.judgement, sub.phase.ending);
    FinishedIsJudged(env, l, actions, i);
    LowMeans(env, sub.phase.judgement);
  }

  lemma LowIsLogged(env: Env, id: Identity, j: Judgement, ending: Ending)
    requires EndingFits(j, ending)
    ensures Rejected(LowDifficulty) in ExpectedLog(env, id, j, ending)
       <==> j.verdict.LowDifficulty? && id.walletOk && id.workerOk
  {
  }

  lemma LowMeans(env: Env, j: Judgement)
    requires Judges(env, j) && !j.verdict.Underflow?
    ensures j.verdict.LowDifficulty? <==> AllMiss(env, j)
  {
    JudgedMeans(env, j);
    if !j.verdict.LowDifficulty? {
      forall checks: nat | checks >= 1
        ensures !NothingPasses(env, j, checks)
      {
        HitIsNotNothing(env, j, checks);
      }
    }
  }

  lemma EndsInTime(env: Env, j: Judgement)
    requires Judges(env, j) && !j.verdict.Underflow? && j.verdict.checks > 1
    ensures j.verdict.checks <= j.task.jobId && j.verdict.checks <= MAX_JOBS
  {
  }

  lemma HitIsNotNothing(env: Env, j: Judgement, checks: nat)
    requires Judges(env, j) && (j.verdict.BlockCandidate? || j.verdict.PoolShare?) && checks >= 1
    ensures !NothingPasses(env, j, checks)
  {
    JudgedMeans(env, j);
    var n := j.verdict.checks;
    if n <= checks {
      assert !MissesBoth(env, j, n - 1);
    } else {
      EndsInTime(env, j);
      assert checks < n - 1 ==> MissesBoth(env, j, checks);
      assert JobAt(j, checks).Some?;
    }
  }

  lemma CreditIsForTheHit(env: Env, id: Identity, j: Judgement, ending: Ending, daa: nat)
    requires EndingFits(j, ending) && Credited(daa) in ExpectedLog(env, id, j, ending)
    ensures (j.verdict.PoolShare? || j.verdict.BlockCandidate?) && j.verdict.job.daa == daa
  {
  }

  // `daa` is the score of the first job on the walk that passes.
  ghost predicate CreditsFirst(env: Env, j: Judgement, daa: nat) {
    && RingsFit(j) && (j.verdict.PoolShare? || j.verdict.BlockCandidate?) && j.verdict.checks >= 1
    && FirstToPass(env, j, j.verdict.checks - 1, j.verdict.job) && j.verdict.job.daa == daa
  }

  /**
   In every run what is credited is the DAA score of the first job on the walk that passes, as a block or as a
   pool share.
   */
  lemma CreditedIsFirstThatPasses(env: Env, l: Limits, actions: seq<Action>, i: nat, daa: nat)
    requires i < |Run(env, Start(l), actions).subs| && Finished(Run(env, Start(l), actions).subs[i])
    requires Credited(daa) in LogOf(Run(env, Start(l), actions).log, i)
    ensures CreditsFirst(env, Run(env, Start(l), actions).subs[i].phase.judgement, daa)
  {
    var sub := Run(env, Start(l), actions).subs[i];
    FinishedIsExactly(env, l, actions, i);
    CreditIsForTheHit(env, sub.identity, sub.phase.judgement, sub.phase.ending, daa);
    FinishedIsJudged(env, l, actions, i);
    HitMeans(env, sub.phase.judgement, daa);
  }

  lemma HitMeans(env: Env, j: Judgement, daa: nat)
    requires Judges(env, j) && (j.verdict.PoolShare? || j.verdict.BlockCandidate?) && j.verdict.job.daa == daa
    ensures CreditsFirst(env, j, daa)
  {
    JudgedMeans(env, j);
  }

  // ---- the counters ----------------------------------------------------------------------------------

  function CounterOf(sub: Sub): Option<Counter> {
    if sub.phase.Finishing? && EndingFits(sub.phase.judgement, sub.phase.ending)
    then Some(ExpectedCounter(sub.phase.judgement, sub.phase.ending)) else None
  }

  // Submissions that are to raise the counter, and those of them that are through.
  ghost function Due(subs: seq<Sub>, c: Counter): nat {
    if subs == [] then 0 else Due(subs[..|subs| - 1], c) + if CounterOf(subs[|subs| - 1]) == Some(c) then 1 else 0
  }

  ghost function Through(subs: seq<Sub>, c: Counter): nat {
    if subs == [] then 0 else
    var sub := subs[|subs| - 1];
    Through(subs[..|subs| - 1], c) + if Finished(sub) && CounterOf(sub) == Some(c) then 1 else 0
  }

  lemma BumpsOfPart(id: Identity, done: seq<Effect>, todo: seq<Effect>, c: Counter)
    ensures Bumps(done, c) <= Bumps(done + todo, c)
    ensures todo == [] ==> Bumps(done, c) == Bumps(done + todo, c)
  {
    EffectsAppend(id, done, todo, c);
  }

  lemma NoBumps(id: Identity, done: seq<Effect>, todo: seq<Effect>, e: Effect, c: Counter)
    requires done + todo == [e] && e.Publish?
    ensures Bumps(done, c) == 0
  {
    BumpsOfPart(id, done, todo, c);
    EventsOfOne(id, e);
  }

  lemma FinishingBumps(env: Env, sub: Sub, c: Counter)
    requires SubOk(env, sub) && sub.phase.Finishing?
    ensures Bumps(sub.done, c) <= if CounterOf(sub) == Some(c) then 1 else 0
    ensures sub.todo == [] && CounterOf(sub) == Some(c) ==> Bumps(sub.done, c) == 1
  {
    PlanEffects(env, sub.identity, sub.phase.judgement, sub.phase.ending);
    BumpsOfPart(sub.identity, sub.done, sub.todo, c);
  }

  lemma SubBumps(env: Env, sub: Sub, c: Counter)
    requires SubOk(env, sub)
    ensures Bumps(sub.done, c) <= if CounterOf(sub) == Some(c) then 1 else 0
    ensures Finished(sub) && CounterOf(sub) == Some(c) ==> Bumps(sub.done, c) == 1
  {
    match sub.phase
    case Finishing(_, _) => FinishingBumps(env, sub, c);
    case AtNode(j) => NoBumps(sub.identity, sub.done, sub.todo, FoundEffect(env, j), c);
    case Calling(j, _) =>
      assert sub.done + sub.todo == [FoundEffect(env, j)];
      NoBumps(sub.identity, sub.done, sub.todo, FoundEffect(env, j), c);
    case Dismissed =>
      if sub.done != [] {
        assert sub.done + sub.todo == [sub.done[0]];
        NoBumps(sub.identity, sub.done, sub.todo, sub.done[0], c);
      }
    case Evaluating(_) =>
    case Aborted(_) =>
    case Duplicate(_) =>
  }

  lemma {:induction false} TotalsBetween(env: Env, subs: seq<Sub>, c: Counter)
    requires forall i :: 0 <= i < |subs| ==> SubOk(env, subs[i])
    ensures Through(subs, c) <= Total(subs, c) <= Due(subs, c)
  {
    if subs != [] {
      TotalsBetween(env, subs[..|subs| - 1], c);
      SubBumps(env, subs[|subs| - 1], c);
    }
  }

  /**
   In every run each counter lies between the finished submissions whose verdict and reply call for it
   and those that are to raise it; nothing else, no duplicate and no refused frame, moves it.
   */
  lemma CountersCountSubmissions(env: Env, l: Limits, actions: seq<Action>, c: Counter)
    ensures var s := Run(env, Start(l), actions); Through(s.subs, c) <= Value(s.counters, c) <= Due(s.subs, c)
  {
    RunKeepsInv(env, l, actions);
    TotalsBetween(env, Run(env, Start(l), actions).subs, c);
  }

  // When no submission is under way, each counter is exactly the number of submissions it stands for.
  lemma CountersExactAtRest(env: Env, l: Limits, actions: seq<Action>, c: Counter)
    requires forall sub :: sub in Run(env, Start(l), actions).subs && sub.phase.Finishing? ==> Finished(sub)
    ensures var s := Run(env, Start(l), actions); Value(s.counters, c) == Due(s.subs, c)
  {
    CountersCountSubmissions(env, l, actions, c);
    AllThrough(Run(env, Start(l), actions).subs, c);
  }

  lemma {:induction false} AllThrough(subs: seq<Sub>, c: Counter)
    requires forall sub :: sub in subs && sub.phase.Finishing? ==> Finished(sub)
    ensures Through(subs, c) == Due(subs, c)
  {
    if subs != [] {
      assert subs[|subs| - 1] in subs;
      AllThrough(subs[..|subs| - 1], c);
    }
  }

  // ---- the abort from job id 0 -------------------------------------------------------------------------

  ghost predicate SomeAborted(subs: seq<Sub>) {
    exists i :: 0 <= i < |subs| && subs[i].phase.Aborted?
  }

  // A walk underflows exactly for job id 0, which is found once 300 jobs were issued, when the job of
  // slot 0 misses both targets.
  lemma JudgedUnderflow(env: Env, j: Judgement)
    requires Judges(env, j)
    ensures j.verdict.Underflow? <==> ZeroMisses(env, j)
  {
    WalkBack.UnderflowExactly(WalkOf(env, j), j.verdict);
    LookupOfZero(j.task.seen);
  }

  ghost predicate ZeroMisses(env: Env, j: Judgement) {
    j.task.jobId == 0 && |j.task.seen| >= MAX_JOBS && WalkBack.Misses(WalkOf(env, j), 0, j.task.first)
  }

  // An evaluation ends the process exactly then.
  lemma AbortsExactly(env: Env, s: State, i: nat, j: Judgement)
    requires !s.halted && CanEvaluate(env, s, i, j)
    ensures Step(env, s, Evaluate(i, j)).halted <==> ZeroMisses(env, j)
  {
    JudgedUnderflow(env, j);
  }

  // In every run the process has ended exactly if some submission aborted it.
  lemma {:induction false} HaltedMeans(env: Env, l: Limits, actions: seq<Action>)
    ensures var s := Run(env, Start(l), actions); s.halted <==> SomeAborted(s.subs)
  {
    if actions != [] {
      HaltedMeans(env, l, actions[..|actions| - 1]);
      HaltedStep(env, Run(env, Start(l), actions[..|actions| - 1]), actions[|actions| - 1]);
    }
  }

  lemma SameAborted(subs: seq<Sub>, more: seq<Sub>)
    requires |subs| <= |more|
    requires forall i :: 0 <= i < |subs| ==> (subs[i].phase.Aborted? <==> more[i].phase.Aborted?)
    requires forall i :: |subs| <= i < |more| ==> !more[i].phase.Aborted?
    ensures SomeAborted(subs) <==> SomeAborted(more)
  {
    if SomeAborted(subs) {
      var i :| 0 <= i < |subs| && subs[i].phase.Aborted?;
      assert more[i].phase.Aborted?;
    }
  }

  lemma ArrivedAborted(s: State, frame: Frame, now: int)
    ensures SomeAborted(Arrived(s, frame, now).subs) <==> SomeAborted(s.subs)
  {
    var more := ArrivedAppends(s, frame, now);
    SameAborted(s.subs, s.subs + more);
  }

  lemma EvaluatedAborted(env: Env, s: State, i: nat, j: Judgement)
    requires i < |s.subs| && s.subs[i].phase.Evaluating? && !SomeAborted(s.subs)
    ensures SomeAborted(s.subs[i := Judged(env, s.subs[i], j)]) <==> j.verdict.Underflow?
  {
    var subs := s.subs[i := Judged(env, s.subs[i], j)];
    if j.verdict.Underflow? {
      assert subs[i].phase.Aborted?;
    } else {
      SameAborted(s.subs, subs);
    }
  }

  lemma MovedAborted(s: State, i: nat, x: Sub)
    requires i < |s.subs| && (x.phase.Aborted? <==> s.subs[i].phase.Aborted?)
    ensures SomeAborted(s.subs[i := x]) <==> SomeAborted(s.subs)
  {
    SameAborted(s.subs, s.subs[i := x]);
  }

  lemma HaltedStep(env: Env, s: State, a: Action)
    requires s.halted <==> SomeAborted(s.subs)
    ensures var s' := Step(env, s, a); s'.halted <==> SomeAborted(s'.subs)
  {
    if !s.halted {
      match a
      case Arrive(frame, now) => ArrivedAborted(s, frame, now);
      case Evaluate(i, j) =>
        if CanEvaluate(env, s, i, j) {
          EvaluatedAborted(env, s, i, j);
        }
      case CallNode(i, now) =>
        if CanCall(s, i) {
          MovedAborted(s, i, Step(env, s, a).subs[i]);
        }
      case NodeReturns(i, named, now) =>
        if CanReturn(s, i, named) {
          MovedAborted(s, i, Step(env, s, a).subs[i]);
        }
      case Advance(i, now) =>
        if i < |s.subs| && s.subs[i].todo != [] {
          MovedAborted(s, i, Moved(s.subs[i]));
        }
      case Issue(client, job) =>
      case NodeAnswers(i, answer) =>
    }
  }

  // The submission that did it named id 0 when at least 300 jobs had been issued to its client.
  lemma AbortedNamedZero(env: Env, l: Limits, actions: seq<Action>, i: nat)
    requires var s := Run(env, Start(l), actions); i < |s.subs| && s.subs[i].phase.Aborted?
    ensures var s := Run(env, Start(l), actions); var j := s.subs[i].phase.judgement;
      Judges(env, j) && ZeroMisses(env, j) && |JobsOf(s, j.task.client)| >= MAX_JOBS
  {
    RunKeepsInv(env, l, actions);
    RunKeepsPhases(env, l, actions);
    var s := Run(env, Start(l), actions);
    assert SubOk(env, s.subs[i]) && PhaseOk(env, s.jobs, s.subs[i].phase);
    JudgedUnderflow(env, s.subs[i].phase.judgement);
  }

  // ---- and it does happen ------------------------------------------------------------------------------

  const SOME_JOB := Job(0, 0, 0)

  // Every nonce of every job misses.
  const HARD: Env := Env((job, nonce) => 1, (job, nonce) => 0)

  function Issues(n: nat): seq<Action> {
    if n == 0 then [] else Issues(n - 1) + [Issue(0, SOME_JOB)]
  }

  function Copies(n: nat): (log: seq<Job>)
    ensures |log| == n
  {
    seq(n, i => SOME_JOB)
  }

  lemma RunSnoc(env: Env, s: State, actions: seq<Action>, a: Action)
    ensures Run(env, s, actions + [a]) == Step(env, Run(env, s, actions), a)
  {
    assert (actions + [a])[..|actions|] == actions;
  }

  ghost predicate OnlyIssued(l: Limits, s: State, n: nat) {
    s == Start(l).(jobs := s.jobs) && JobsOf(s, 0) == Copies(n)
  }

  lemma IssueOne(l: Limits, s: State, n: nat)
    requires OnlyIssued(l, s, n)
    ensures OnlyIssued(l, Step(HARD, s, Issue(0, SOME_JOB)), n + 1)
  {
    assert Copies(n) + [SOME_JOB] == Copies(n + 1);
  }

  lemma {:induction false} IssuesRun(l: Limits, n: nat)
    ensures OnlyIssued(l, Run(HARD, Start(l), Issues(n)), n)
    decreases n
  {
    if n > 0 {
      IssuesRun(l, n - 1);
      RunSnoc(HARD, Start(l), Issues(n - 1), Issue(0, SOME_JOB));
      IssueOne(l, Run(HARD, Start(l), Issues(n - 1)), n - 1);
    }
  }

  function ZeroTask(log: seq<Job>, first: Job): Task {
    Task(0, 0, 0, log, first)
  }

  ghost function ZeroJudgement(log: seq<Job>, first: Job): Judgement {
    var ring := RingOf(log);
    Judgement(ZeroTask(log, first), log, (k: nat) => |log|, (k: nat) => ring, (k: nat) => 0, WalkBack.Underflow)
  }

  lemma ZeroJudges(log: seq<Job>, first: Job)
    requires Lookup(log, 0) == Some(first) && first == SOME_JOB
    ensures Judges(HARD, ZeroJudgement(log, first))
  {
    assert log[..|log|] == log;
  }

  lemma {:induction false} LookupInCopies(n: nat)
    requires n >= MAX_JOBS
    ensures Lookup(Copies(n), 0) == Some(SOME_JOB)
  {
    LookupOfZero(Copies(n));
    NewestInSlotIsNewest(n, 0);
  }

  lemma FirstSubmission(s: State, l: Limits, key: SubmitKey, id: Identity, task: Task)
    requires s == Start(l).(jobs := s.jobs)
    ensures Admit(s, key, id, task, 0).subs == [Sub(key, id, Evaluating(task), [], [])]
    ensures Admit(s, key, id, task, 0).jobs == s.jobs && !Admit(s, key, id, task, 0).halted
  {
    assert TtlQueue.Pruned(s.guard, 0) == s.guard;
  }

  /**
   The abort is reachable: 300 issued jobs, a submission naming id 0, and its evaluation end the process.
   */
  lemma AbortIsReachable(l: Limits) returns (actions: seq<Action>)
    ensures Run(HARD, Start(l), actions).halted
  {
    var n, id, log := MAX_JOBS, Identity(true, true, true), Copies(MAX_JOBS);
    var s := Run(HARD, Start(l), Issues(n));
    IssuesRun(l, n);
    LookupInCopies(n);
    var frame := Submit(0, 0, 0, n, "key", id);
    var task := ZeroTask(log, SOME_JOB);
    assert JobsOf(s, 0)[..n] == log;
    FirstSubmission(s, l, "key", id, task);
    RunSnoc(HARD, Start(l), Issues(n), Arrive(frame, 0));
    var s1 := Run(HARD, Start(l), Issues(n) + [Arrive(frame, 0)]);
    var j := ZeroJudgement(log, SOME_JOB);
    ZeroEvaluation(s1, Sub("key", id, Evaluating(task), [], []), j, log);
    RunSnoc(HARD, Start(l), Issues(n) + [Arrive(frame, 0)], Evaluate(0, j));
    actions := Issues(n) + [Arrive(frame, 0)] + [Evaluate(0, j)];
  }

  lemma ZeroEvaluation(s: State, sub: Sub, j: Judgement, log: seq<Job>)
    requires !s.halted && s.subs == [sub] && sub.phase == Evaluating(j.task) && JobsOf(s, 0) == log
    requires j == ZeroJudgement(log, SOME_JOB) && Lookup(log, 0) == Some(SOME_JOB)
    ensures Step(HARD, s, Evaluate(0, j)).halted
  {
    ZeroJudges(log, SOME_JOB);
  }
}

/**
 Concurrent share submissions. Every submission runs through the handler on its own; the guards, the
 counters and the event bus are shared, the job rings belong to the clients, and each access to shared
 state is one atomic step. A run is any sequence of steps of any number of submissions; a step that is
 not enabled does nothing.
 */
module Submission {
  import opened Wrappers
  import opened TtlQueue
  import opened DuplicateGuard
  import opened JobRing
  import WalkBack
  import BG = BlockGuard

  // Proof-of-work value and block hash of a job with a nonce.
  datatype Env = Env(pow: (Job, nat) -> nat, hash: (Job, nat) -> nat)

  datatype Reason = MalformedFrame | MissingJob | StaleBlock | BadPow | LowDifficulty

  datatype Event = Credited(daa: nat) | Rejected(reason: Reason) | Found(hash: nat, daa: nat) | BlockAccepted(hash: nat)

  datatype Counter = Shares | StaleShares | InvalidShares

  datatype Counters = Counters(shares: nat, stale: nat, invalid: nat)

  // One access to shared state: bump a counter, publish an event, record the outcome in the guard.
  datatype Effect = Bump(counter: Counter) | Publish(event: Event) | Settle(outcome: Outcome)

  // Whether the wallet, the worker name and the assigned difficulty pass domain validation; an event
  // that would carry an invalid value is not built.
  datatype Identity = Identity(walletOk: bool, workerOk: bool, difficultyOk: bool)

  // What arrives. A submission looks its job up when `read` jobs have been issued to its client.
  datatype Frame =
    | TooFewParams(identity: Identity)
    | Unparsable
    | Submit(client: nat, jobId: nat, nonce: nat, read: nat, key: SubmitKey, identity: Identity)

  datatype NodeReply = AcceptedByNode | RejectedByNode | DuplicateBlock | OtherError

  // A submission under evaluation: `seen` is the client's job log at the time of the lookup, `first` the
  // job found.
  datatype Task = Task(client: nat, jobId: nat, nonce: nat, seen: seq<Job>, first: Job)

  // The walk that was made: the log when it ended, how much of it had been issued at each check, the
  // ring and the pool target that each check found, and the verdict.
  datatype Judgement = Judgement(
    task: Task, log: seq<Job>, progress: nat -> nat, rings: nat -> WalkBack.Ring, targets: nat -> nat,
    verdict: WalkBack.Verdict)

  datatype Ending = ByWalk | ByNode(reply: NodeReply, call: nat)

  datatype Phase =
    | Evaluating(task: Task)
    | Aborted(judgement: Judgement)
    | AtNode(judgement: Judgement)
    | Calling(judgement: Judgement, call: nat)
    | Finishing(judgement: Judgement, ending: Ending)
    | Duplicate(outcome: Outcome)
    | Dismissed

  datatype Sub = Sub(key: SubmitKey, identity: Identity, phase: Phase, done: seq<Effect>, todo: seq<Effect>)

  // `evictions` counts, per key, how often pruning dropped it from the guard.
  datatype State = State(
    guard: Guard, subs: seq<Sub>, counters: Counters, log: seq<(nat, Event)>, evictions: multiset<SubmitKey>,
    jobs: map<nat, seq<Job>>, node: BG.State, halted: bool)

  datatype Action =
    | Issue(client: nat, job: Job)
    | Arrive(frame: Frame, now: int)
    | Evaluate(sub: nat, judgement: Judgement)
    | CallNode(sub: nat, now: int)
    | NodeAnswers(sub: nat, answer: BG.Reply)
    | NodeReturns(sub: nat, named: bool, now: int)
    | Advance(sub: nat, now: int)

  const NO_IDENTITY := Identity(false, false, false)

  predicate Builds(id: Identity, e: Event) {
    match e
    case Credited(_) => id.walletOk && id.workerOk && id.difficultyOk
    case Rejected(_) => id.walletOk && id.workerOk
    case Found(_, _) => id.walletOk && id.workerOk
    case BlockAccepted(_) => true
  }

  // ---- the walk of a submission -------------------------------------------------------------------

  ghost predicate ValidTask(t: Task) {
    Lookup(t.seen, t.jobId) == Some(t.first)
  }

  ghost function WalkOf(env: Env, j: Judgement): WalkBack.Walk {
    WalkBack.Walk((job: Job) => env.pow(job, j.task.nonce), j.task.jobId, j.task.first, j.rings, j.targets)
  }

  // Each check finds the client's ring as it then is, and the log only grows.
  ghost predicate RingsFit(j: Judgement) {
    && (forall k: nat {:trigger j.progress(k)} ::
          |j.task.seen| <= j.progress(k) <= |j.log| && j.rings(k) == RingOf(j.log[..j.progress(k)]))
    && (forall k: nat, l: nat :: k <= l ==> j.progress(k) <= j.progress(l))
  }

  // The verdict is that of the walk over the client's ring as each check finds it.
  ghost predicate Judges(env: Env, j: Judgement) {
    && ValidTask(j.task) && j.task.seen <= j.log && RingsFit(j)
    && WalkBack.VerdictOf(WalkOf(env, j), j.verdict)
  }

  function HashOf(env: Env, j: Judgement): nat
    requires j.verdict.BlockCandidate?
  {
    env.hash(j.verdict.job, j.task.nonce)
  }

  // What is left to do once the walk has ended, and once the node has answered a block.
  function AfterWalk(verdict: WalkBack.Verdict): seq<Effect>
    requires verdict.PoolShare? || verdict.LowDifficulty?
  {
    match verdict
    case PoolShare(_, job) => [Bump(Shares), Publish(Credited(job.daa)), Settle(Accepted)]
    case LowDifficulty(_) => [Bump(InvalidShares), Publish(Rejected(LowDifficulty)), Settle(LowDiff)]
  }

  function AfterNode(hash: nat, daa: nat, reply: NodeReply): seq<Effect> {
    match reply
    case AcceptedByNode => [Publish(BlockAccepted(hash)), Bump(Shares), Publish(Credited(daa)), Settle(Accepted)]
    case RejectedByNode => [Bump(Shares), Publish(Credited(daa)), Settle(Accepted)]
    case DuplicateBlock => [Settle(Stale), Bump(StaleShares), Publish(Rejected(StaleBlock))]
    case OtherError => [Bump(InvalidShares), Publish(Rejected(BadPow)), Settle(Bad)]
  }

  function FoundEffect(env: Env, j: Judgement): Effect
    requires j.verdict.BlockCandidate?
  {
    Publish(Found(HashOf(env, j), j.verdict.job.daa))
  }

  function Bumped(c: Counters, which: Counter): Counters {
    match which
    case Shares => c.(shares := c.shares + 1)
    case StaleShares => c.(stale := c.stale + 1)
    case InvalidShares => c.(invalid := c.invalid + 1)
  }

  function Published(s: State, i: nat, id: Identity, e: Event): seq<(nat, Event)> {
    if Builds(id, e) then s.log + [(i, e)] else s.log
  }

  function JobsOf(s: State, client: nat): seq<Job> {
    if client in s.jobs then s.jobs[client] else []
  }

  predicate OnlyRejects(effects: seq<Effect>) {
    effects == [] || (|effects| == 1 && effects[0].Publish? && effects[0].event.Rejected?)
  }

  // A frame refused before the guard: at most one rejection, no counter, no guard entry.
  function Dismiss(s: State, id: Identity, effects: seq<Effect>): State
    requires OnlyRejects(effects)
  {
    s.(subs := s.subs + [Sub("", id, Dismissed, effects, [])],
       log := if effects == [] then s.log else Published(s, |s.subs|, id, effects[0].event))
  }

  // The guarded section: look the key up and, if it is absent, insert it, under one lock.
  function Admit(s: State, key: SubmitKey, id: Identity, task: Task, now: int): State {
    var (g, seen) := Get(s.guard, key, now);
    var evictions := s.evictions + multiset(Lost(s.guard, now));
    match seen
    case Some(outcome) =>
      s.(guard := g, evictions := evictions, subs := s.subs + [Sub(key, id, Duplicate(outcome), [], [])])
    case None =>
      s.(guard := InsertInFlight(g, key, now), evictions := evictions + multiset(Lost(g, now)),
         subs := s.subs + [Sub(key, id, Evaluating(task), [], [])])
  }

  ghost function Arrived(s: State, frame: Frame, now: int): State {
    match frame
    case TooFewParams(id) => Dismiss(s, id, [Publish(Rejected(MalformedFrame))])
    case Unparsable => Dismiss(s, NO_IDENTITY, [])
    case Submit(client, jobId, nonce, read, key, id) =>
      if read > |JobsOf(s, client)| then s else
      match Lookup(JobsOf(s, client)[..read], jobId)
      case Some(job) => Admit(s, key, id, Task(client, jobId, nonce, JobsOf(s, client)[..read], job), now)
      case None => Dismiss(s, id, [Publish(Rejected(MissingJob))])
  }

  function Judged(env: Env, sub: Sub, j: Judgement): Sub {
    match j.verdict
    case BlockCandidate(_, _) => sub.(phase := AtNode(j), todo := [FoundEffect(env, j)])
    case Underflow => sub.(phase := Aborted(j))
    case _ => sub.(phase := Finishing(j, ByWalk), todo := AfterWalk(j.verdict))
  }

  // What the handler makes of the call's end. Of the errors, only a text that names the guard's own
  // duplicate error counts as a duplicate.
  function ReplyOf(phase: BG.Phase, named: bool): Option<NodeReply> {
    match phase
    case Refused => Some(DuplicateBlock)
    case Answered(NodeAccepted) => Some(AcceptedByNode)
    case Answered(NodeRejected) => Some(RejectedByNode)
    case Answered(DuplicateError) => Some(if named then DuplicateBlock else OtherError)
    case Answered(TransportError) => Some(OtherError)
    case InRpc => None
    case Released => None
  }

  function Returned(env: Env, sub: Sub, reply: NodeReply): Sub
    requires sub.phase.Calling? && sub.phase.judgement.verdict.BlockCandidate?
  {
    var j := sub.phase.judgement;
    sub.(phase := Finishing(j, ByNode(reply, sub.phase.call)),
         todo := AfterNode(HashOf(env, j), j.verdict.job.daa, reply))
  }

  function Moved(sub: Sub): Sub
    requires sub.todo != []
  {
    sub.(done := sub.done + [sub.todo[0]], todo := sub.todo[1..])
  }

  function CountersAfter(c: Counters, e: Effect): Counters {
    if e.Bump? then Bumped(c, e.counter) else c
  }

  function LogAfter(s: State, i: nat, id: Identity, e: Effect): seq<(nat, Event)> {
    if e.Publish? then Published(s, i, id, e.event) else s.log
  }

  // The next effect of a submission, as one atomic access.
  function Executed(s: State, i: nat, now: int): State
    requires i < |s.subs| && s.subs[i].todo != []
  {
    var sub, e := s.subs[i], s.subs[i].todo[0];
    var s' := s.(subs := s.subs[i := Moved(sub)],
                 counters := CountersAfter(s.counters, e),
                 log := LogAfter(s, i, sub.identity, e));
    if e.Settle? then
      s'.(guard := SetOutcome(s.guard, sub.key, now, e.outcome),
          evictions := s.evictions + multiset(Lost(s.guard, now)))
    else s'
  }

  // ---- enabling conditions --------------------------------------------------------------------------

  ghost predicate CanEvaluate(env: Env, s: State, i: nat, j: Judgement) {
    && i < |s.subs| && s.subs[i].phase == Evaluating(j.task)
    && j.log == JobsOf(s, j.task.client) && Judges(env, j)
  }

  predicate CanCall(s: State, i: nat) {
    i < |s.subs| && s.subs[i].phase.AtNode? && s.subs[i].todo == [] && s.subs[i].phase.judgement.verdict.BlockCandidate?
  }

  predicate InCall(s: State, i: nat) {
    && i < |s.subs| && s.subs[i].phase.Calling? && s.subs[i].phase.call < |s.node.calls|
    && s.subs[i].phase.judgement.verdict.BlockCandidate?
  }

  predicate CanReturn(s: State, i: nat, named: bool) {
    InCall(s, i) && ReplyOf(s.node.calls[s.subs[i].phase.call].phase, named).Some?
  }

  // An underflow in the walk ends the process: no step is taken after it.
  ghost function Step(env: Env, s: State, a: Action): State {
    if s.halted then s else
    match a
    case Issue(client, job) => s.(jobs := s.jobs[client := JobsOf(s, client) + [job]])
    case Arrive(frame, now) => Arrived(s, frame, now)
    case Evaluate(i, j) =>
      if !CanEvaluate(env, s, i, j) then s
      else s.(subs := s.subs[i := Judged(env, s.subs[i], j)], halted := j.verdict.Underflow?)
    case CallNode(i, now) =>
      if !CanCall(s, i) then s
      else
        var j := s.subs[i].phase.judgement;
        s.(node := BG.Step(s.node, BG.Submit(HashOf(env, j), now)),
           subs := s.subs[i := s.subs[i].(phase := Calling(j, |s.node.calls|))])
    case NodeAnswers(i, answer) =>
      if !InCall(s, i) then s
      else s.(node := BG.Step(s.node, BG.NodeReplies(s.subs[i].phase.call, answer)))
    case NodeReturns(i, named, now) =>
      if !CanReturn(s, i, named) then s
      else
        var call := s.subs[i].phase.call;
        s.(node := BG.Step(s.node, BG.Release(call, now)),
           subs := s.subs[i := Returned(env, s.subs[i], ReplyOf(s.node.calls[call].phase, named).value)])
    case Advance(i, now) =>
      if i >= |s.subs| || s.subs[i].todo == [] then s else Executed(s, i, now)
  }

  ghost function Run(env: Env, s: State, actions: seq<Action>): State {
    if actions == [] then s else Step(env, Run(env, s, actions[..|actions| - 1]), actions[|actions| - 1])
  }

  // The two guards have their own limits.
  datatype Limits = Limits(ttl: nat, max: nat, blockTtl: nat, blockMax: nat)

  function Start(l: Limits): State {
    State(Queue(l.ttl, l.max, map[], []), [], Counters(0, 0, 0), [], multiset{}, map[],
          BG.Start(l.blockTtl, l.blockMax), false)
  }

  // ---- what a submission has done so far --------------------------------------------------------

  ghost function Bumps(effects: seq<Effect>, c: Counter): nat {
    if effects == [] then 0 else Bumps(effects[..|effects| - 1], c) + if effects[|effects| - 1] == Bump(c) then 1 else 0
  }

  ghost function EventsOf(id: Identity, effects: seq<Effect>): seq<Event> {
    if effects == [] then [] else
    var op := effects[|effects| - 1];
    EventsOf(id, effects[..|effects| - 1]) + if op.Publish? && Builds(id, op.event) then [op.event] else []
  }

  ghost function LogOf(log: seq<(nat, Event)>, i: nat): seq<Event> {
    if log == [] then [] else
    LogOf(log[..|log| - 1], i) + if log[|log| - 1].0 == i then [log[|log| - 1].1] else []
  }

  // The ending fits the verdict: blocks end at the node, everything else with the walk.
  predicate EndingFits(j: Judgement, ending: Ending) {
    !j.verdict.Underflow? && (ending.ByNode? <==> j.verdict.BlockCandidate?)
  }

  // The whole work of a submission: the walk's own, or a block found and then the node's answer.
  function Plan(env: Env, j: Judgement, ending: Ending): seq<Effect>
    requires EndingFits(j, ending)
  {
    if ending.ByWalk? then AfterWalk(j.verdict)
    else [FoundEffect(env, j)] + AfterNode(HashOf(env, j), j.verdict.job.daa, ending.reply)
  }

  // What a submission has done and still has to do fits the verdict and the node's reply.
  ghost predicate SubOk(env: Env, sub: Sub) {
    match sub.phase
    case Evaluating(_) => sub.done == [] && sub.todo == []
    case Aborted(j) => j.verdict.Underflow? && sub.done == [] && sub.todo == []
    case AtNode(j) => j.verdict.BlockCandidate? && sub.done + sub.todo == [FoundEffect(env, j)]
    case Calling(j, _) => j.verdict.BlockCandidate? && sub.done == [FoundEffect(env, j)] && sub.todo == []
    case Finishing(j, ending) => EndingFits(j, ending) && sub.done + sub.todo == Plan(env, j, ending)
    case Duplicate(_) => sub.done == [] && sub.todo == []
    case Dismissed => sub.todo == [] && OnlyRejects(sub.done)
  }

  // The submission passed the guard.
  predicate Evaluated(sub: Sub) {
    !sub.phase.Duplicate? && !sub.phase.Dismissed?
  }

  ghost function Total(subs: seq<Sub>, c: Counter): nat {
    if subs == [] then 0 else Total(subs[..|subs| - 1], c) + Bumps(subs[|subs| - 1].done, c)
  }

  ghost function Admissions(subs: seq<Sub>, key: SubmitKey): nat {
    if subs == [] then 0 else
    var last := subs[|subs| - 1];
    Admissions(subs[..|subs| - 1], key) + if Evaluated(last) && last.key == key then 1 else 0
  }

  function Value(c: Counters, which: Counter): nat {
    match which
    case Shares => c.shares
    case StaleShares => c.stale
    case InvalidShares => c.invalid
  }

  ghost predicate SettledBy(subs: seq<Sub>, key: SubmitKey, outcome: Outcome) {
    exists i :: 0 <= i < |subs| && subs[i].key == key && Settle(outcome) in subs[i].done
  }

  ghost predicate SubsOk(env: Env, s: State) {
    forall i :: 0 <= i < |s.subs| ==> SubOk(env, s.subs[i])
  }

  // The bus carries, per submission, exactly the events its finished operations publish.
  ghost predicate LogOk(s: State) {
    && (forall i :: 0 <= i < |s.subs| ==> LogOf(s.log, i) == EventsOf(s.subs[i].identity, s.subs[i].done))
    && (forall k :: 0 <= k < |s.log| ==> s.log[k].0 < |s.subs|)
  }

  ghost predicate CountersOk(s: State) {
    forall c :: Value(s.counters, c) == Total(s.subs, c)
  }

  function Resident(g: Guard, key: SubmitKey): nat {
    if key in g.entries then 1 else 0
  }

  // Every evaluation of a key is accounted for by one stay of the key in the guard.
  ghost predicate BalanceOk(s: State) {
    forall key :: Admissions(s.subs, key) == s.evictions[key] + Resident(s.guard, key)
  }

  // A recorded outcome is one that an evaluation of the same key came to.
  ghost predicate OutcomesOk(s: State) {
    && (forall key :: key in s.guard.entries && s.guard.entries[key].value != InFlight ==>
                        SettledBy(s.subs, key, s.guard.entries[key].value))
    && (forall i :: 0 <= i < |s.subs| && s.subs[i].phase.Duplicate? && s.subs[i].phase.outcome != InFlight ==>
                      SettledBy(s.subs, s.subs[i].key, s.subs[i].phase.outcome))
  }

  ghost predicate Inv(env: Env, s: State) {
    Listing(s.guard) && SubsOk(env, s) && LogOk(s) && CountersOk(s) && BalanceOk(s) && OutcomesOk(s)
  }
}

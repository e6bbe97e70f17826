/** What every run publishes, counts and settles for a block, by what the node answered. */
module BlockAnswers {
  import opened Wrappers
  import opened DuplicateGuard
  import opened Submission
  import opened SubmissionSafety
  import opened SubmissionTheorems
  import opened BlockPublication
  import BG = BlockGuard

  // ---- the recorded answer is the one the node gave --------------------------------------------------

  // How a call of submission `i` stands, by the answers that were given to it.
  ghost predicate AnswerGiven(actions: seq<Action>, i: nat, phase: BG.Phase) {
    match phase
    case Answered(reply) => NodeAnswers(i, reply) in actions
    case Released => NodeAnswers(i, BG.TransportError) in actions
    case _ => true
  }

  ghost predicate AnswersGiven(actions: seq<Action>, s: State) {
    forall i: nat :: i < |s.subs| && CallOf(s.subs[i]).Some? && CallOf(s.subs[i]).value < |s.node.calls| ==>
                       AnswerGiven(actions, i, s.node.calls[CallOf(s.subs[i]).value].phase)
  }

  // What a step does to the calls and to the submission that made one of them.
  ghost predicate CallMoves(s: State, a: Action, s': State, i: nat, call: nat)
    requires call < |s'.node.calls|
  {
    || (call < |s.node.calls| && i < |s.subs| && CallOf(s.subs[i]) == Some(call)
        && (|| s'.node.calls[call].phase == s.node.calls[call].phase
            || (exists reply :: a == NodeAnswers(i, reply) && s'.node.calls[call].phase == BG.Answered(reply))
            || (s.node.calls[call].phase == BG.Answered(BG.TransportError) && s'.node.calls[call].phase.Released?)))
    || s'.node.calls[call].phase.InRpc? || s'.node.calls[call].phase.Refused?
  }

  // The same for whatever call submission `i` has afterwards.
  ghost predicate Traced(s: State, a: Action, s': State, i: nat) {
    i < |s'.subs| && CallOf(s'.subs[i]).Some? && CallOf(s'.subs[i]).value < |s'.node.calls| ==>
      CallMoves(s, a, s', i, CallOf(s'.subs[i]).value)
  }

  lemma AnswerMoves(env: Env, s: State, k: nat, answer: BG.Reply, i: nat)
    requires CallsOk(env, s.node.calls, s.subs) && !s.halted && i < |s.subs|
    ensures Traced(s, NodeAnswers(k, answer), Step(env, s, NodeAnswers(k, answer)), i)
  {
    assert CallOk(env, s.node.calls, s.subs[i]);
    if InCall(s, k) && CallOf(s.subs[i]).Some? {
      var call, a := CallOf(s.subs[i]).value, BG.NodeReplies(s.subs[k].phase.call, answer);
      BG.StepOnCall(s.node, a, call);
      if BG.Step(s.node, a).calls[call].phase != s.node.calls[call].phase {
        assert CallOf(s.subs[k]) == CallOf(s.subs[i]);
        assert k == i;
      }
    }
  }

  lemma NewCallMoves(env: Env, s: State, k: nat, now: int, i: nat)
    requires CallsOk(env, s.node.calls, s.subs) && !s.halted && i < |s.subs|
    ensures Traced(s, CallNode(k, now), Step(env, s, CallNode(k, now)), i)
  {
    assert CallOk(env, s.node.calls, s.subs[i]);
    if CanCall(s, k) && CallOf(s.subs[i]).Some? {
      BG.StepOnCall(s.node, BG.Submit(HashOf(env, s.subs[k].phase.judgement), now), CallOf(s.subs[i]).value);
    }
  }

  lemma ReturnMoves(env: Env, s: State, k: nat, named: bool, now: int, i: nat)
    requires CallsOk(env, s.node.calls, s.subs) && !s.halted && i < |s.subs|
    ensures Traced(s, NodeReturns(k, named, now), Step(env, s, NodeReturns(k, named, now)), i)
  {
    assert CallOk(env, s.node.calls, s.subs[i]);
    if CanReturn(s, k, named) {
      var a := BG.Release(s.subs[k].phase.call, now);
      ReturnStep(env, s, k, named, now, BG.Step(s.node, a), BackFrom(env, s, k, named));
      if CallOf(s.subs[i]).Some? {
        BG.StepOnCall(s.node, a, CallOf(s.subs[i]).value);
      }
    }
  }

  lemma SameCalls(s: State, a: Action, s': State, i: nat)
    requires s'.node == s.node
    requires i < |s'.subs| && CallOf(s'.subs[i]).Some? ==> i < |s.subs| && CallOf(s.subs[i]) == CallOf(s'.subs[i])
    ensures Traced(s, a, s', i)
  {
  }

  lemma ArrivalMoves(env: Env, s: State, frame: Frame, now: int, i: nat)
    requires !s.halted
    ensures Traced(s, Arrive(frame, now), Step(env, s, Arrive(frame, now)), i)
  {
    var more := ArrivedAppends(s, frame, now);
    SameCalls(s, Arrive(frame, now), Arrived(s, frame, now), i);
  }

  lemma UpdateMoves(s: State, a: Action, s': State, k: nat, y: Sub, i: nat)
    requires k < |s.subs| && CallOf(y) == CallOf(s.subs[k]) && s'.node == s.node && s'.subs == s.subs[k := y]
    ensures Traced(s, a, s', i)
  {
    SameCalls(s, a, s', i);
  }

  lemma ExecutedParts(s: State, k: nat, now: int)
    requires k < |s.subs| && s.subs[k].todo != []
    ensures Executed(s, k, now).node == s.node && Executed(s, k, now).subs == s.subs[k := Moved(s.subs[k])]
  {
  }

  lemma AdvanceMoves(env: Env, s: State, k: nat, now: int, i: nat)
    requires !s.halted
    ensures Traced(s, Advance(k, now), Step(env, s, Advance(k, now)), i)
  {
    if k < |s.subs| && s.subs[k].todo != [] {
      ExecutedParts(s, k, now);
      UpdateMoves(s, Advance(k, now), Executed(s, k, now), k, Moved(s.subs[k]), i);
    } else {
      SameCalls(s, Advance(k, now), s, i);
    }
  }

  lemma OtherMoves(env: Env, s: State, a: Action, i: nat)
    requires (a.Issue? || a.Evaluate?) && !s.halted
    ensures Traced(s, a, Step(env, s, a), i)
  {
    if a.Evaluate? && CanEvaluate(env, s, a.sub, a.judgement) {
      UpdateMoves(s, a, Step(env, s, a), a.sub, Judged(env, s.subs[a.sub], a.judgement), i);
    } else {
      SameCalls(s, a, Step(env, s, a), i);
    }
  }

  lemma StepIsTraced(env: Env, s: State, a: Action, i: nat)
    requires NodeInv(env, s)
    ensures Traced(s, a, Step(env, s, a), i)
  {
    if s.halted {
      SameCalls(s, a, s, i);
    } else if a.Arrive? {
      ArrivalMoves(env, s, a.frame, a.now, i);
    } else if a.Advance? {
      AdvanceMoves(env, s, a.sub, a.now, i);
    } else if a.Issue? || a.Evaluate? {
      OtherMoves(env, s, a, i);
    } else if i < |s.subs| {
      match a
      case NodeAnswers(k, answer) => AnswerMoves(env, s, k, answer, i);
      case CallNode(k, now) => NewCallMoves(env, s, k, now, i);
      case NodeReturns(k, named, now) => ReturnMoves(env, s, k, named, now, i);
    }
  }

  lemma MovedIsGiven(actions: seq<Action>, s: State, a: Action, s': State, i: nat, call: nat)
    requires AnswersGiven(actions, s) && call < |s'.node.calls| && CallMoves(s, a, s', i, call)
    ensures AnswerGiven(actions + [a], i, s'.node.calls[call].phase)
  {
    if call < |s.node.calls| && i < |s.subs| && CallOf(s.subs[i]) == Some(call) {
      assert AnswerGiven(actions, i, s.node.calls[call].phase);
    }
  }

  lemma StepIsGiven(env: Env, actions: seq<Action>, s: State, a: Action, s': State)
    requires NodeInv(env, s) && AnswersGiven(actions, s) && s' == Step(env, s, a)
    ensures AnswersGiven(actions + [a], s')
  {
    forall i: nat | i < |s'.subs| && CallOf(s'.subs[i]).Some? && CallOf(s'.subs[i]).value < |s'.node.calls|
      ensures AnswerGiven(actions + [a], i, s'.node.calls[CallOf(s'.subs[i]).value].phase)
    {
      StepIsTraced(env, s, a, i);
      MovedIsGiven(actions, s, a, s', i, CallOf(s'.subs[i]).value);
    }
  }

  /**
   In every run the answer recorded for a submission's call is one that the node gave to that submission.
   */
  lemma {:induction false} AnswersWereGiven(env: Env, l: Limits, actions: seq<Action>)
    ensures AnswersGiven(actions, Run(env, Start(l), actions))
  {
    if actions != [] {
      var init, a := actions[..|actions| - 1], actions[|actions| - 1];
      var s := Run(env, Start(l), init);
      AnswersWereGiven(env, l, init);
      RunKeepsNode(env, l, init);
      assert actions == init + [a];
      StepIsGiven(env, init, s, a, Run(env, Start(l), actions));
    }
  }

  // ---- the reply is what the call had come to when it returned -------------------------------------------

  // Action `n` ended the call of submission `sub`, the i-th, and the handler made of it what its text said.
  ghost predicate ReturnedAt(env: Env, l: Limits, actions: seq<Action>, i: nat, n: nat, sub: Sub)
    requires sub.phase.Finishing? && sub.phase.ending.ByNode?
  {
    && n < |actions| && actions[n].NodeReturns? && actions[n].sub == i
    && var s, call := Run(env, Start(l), actions[..n]), sub.phase.ending.call;
       && i < |s.subs| && s.subs[i].identity == sub.identity
       && s.subs[i].phase == Calling(sub.phase.judgement, call) && call < |s.node.calls|
       && ReplyOf(s.node.calls[call].phase, actions[n].named) == Some(sub.phase.ending.reply)
  }

  // How a submission came to be finishing a block.
  ghost predicate FinishTraced(s: State, a: Action, i: nat, y: Sub) {
    y.phase.Finishing? && y.phase.ending.ByNode? ==>
      || (i < |s.subs| && s.subs[i].phase == y.phase && s.subs[i].identity == y.identity)
      || (&& a.NodeReturns? && a.sub == i && CanReturn(s, i, a.named) && s.subs[i].identity == y.identity
          && s.subs[i].phase == Calling(y.phase.judgement, y.phase.ending.call)
          && ReplyOf(s.node.calls[y.phase.ending.call].phase, a.named) == Some(y.phase.ending.reply))
  }

  lemma UpdateTraced(s: State, a: Action, k: nat, y: Sub, i: nat)
    requires k < |s.subs| && i < |s.subs| && FinishTraced(s, a, k, y)
    ensures FinishTraced(s, a, i, s.subs[k := y][i])
  {
  }

  lemma EvaluateTraced(env: Env, s: State, k: nat, j: Judgement, i: nat)
    requires i < |s.subs| && !s.halted
    ensures FinishTraced(s, Evaluate(k, j), i, Step(env, s, Evaluate(k, j)).subs[i])
  {
    if CanEvaluate(env, s, k, j) {
      UpdateTraced(s, Evaluate(k, j), k, Judged(env, s.subs[k], j), i);
    }
  }

  lemma ReturnTraced(env: Env, s: State, k: nat, named: bool, now: int, i: nat)
    requires i < |s.subs| && !s.halted
    ensures FinishTraced(s, NodeReturns(k, named, now), i, Step(env, s, NodeReturns(k, named, now)).subs[i])
  {
    if CanReturn(s, k, named) {
      var reply := ReplyOf(s.node.calls[s.subs[k].phase.call].phase, named).value;
      UpdateTraced(s, NodeReturns(k, named, now), k, Returned(env, s.subs[k], reply), i);
    }
  }

  lemma AdvanceTraced(env: Env, s: State, k: nat, now: int, i: nat)
    requires i < |s.subs| && !s.halted
    ensures FinishTraced(s, Advance(k, now), i, Step(env, s, Advance(k, now)).subs[i])
  {
    if k < |s.subs| && s.subs[k].todo != [] {
      UpdateTraced(s, Advance(k, now), k, Moved(s.subs[k]), i);
    }
  }

  lemma ArriveTraced(env: Env, s: State, frame: Frame, now: int, i: nat)
    requires !s.halted && i < |Arrived(s, frame, now).subs|
    ensures FinishTraced(s, Arrive(frame, now), i, Arrived(s, frame, now).subs[i])
  {
    var more := ArrivedAppends(s, frame, now);
  }

  lemma FinishStep(env: Env, s: State, a: Action, i: nat)
    requires !s.halted && i < |Step(env, s, a).subs|
    ensures FinishTraced(s, a, i, Step(env, s, a).subs[i])
  {
    match a
    case Issue(client, job) =>
    case Arrive(frame, now) => ArriveTraced(env, s, frame, now, i);
    case Evaluate(k, j) => EvaluateTraced(env, s, k, j, i);
    case CallNode(k, now) =>
    case NodeAnswers(k, answer) =>
    case NodeReturns(k, named, now) => ReturnTraced(env, s, k, named, now, i);
    case Advance(k, now) => AdvanceTraced(env, s, k, now, i);
  }

  lemma {:induction false} BlockWasReturned(env: Env, l: Limits, actions: seq<Action>, i: nat) returns (n: nat)
    requires i < |Run(env, Start(l), actions).subs|
    requires var sub := Run(env, Start(l), actions).subs[i]; sub.phase.Finishing? && sub.phase.ending.ByNode?
    ensures ReturnedAt(env, l, actions, i, n, Run(env, Start(l), actions).subs[i])
  {
    var last := |actions| - 1;
    var init, a := actions[..last], actions[last];
    var s, sub := Run(env, Start(l), init), Run(env, Start(l), actions).subs[i];
    if !s.halted {
      FinishStep(env, s, a, i);
    }
    if i < |s.subs| && s.subs[i].phase == sub.phase && s.subs[i].identity == sub.identity {
      n := BlockWasReturned(env, l, init, i);
      assert init[..n] == actions[..n] && init[n] == actions[n];
    } else {
      n := last;
    }
  }

  // ---- what a block comes to, by the node's answer -----------------------------------------------------

  datatype BlockResult = BlockResult(log: seq<Event>, counter: Counter, outcome: Outcome)

  // A call refused by the guard is stale; a block the node accepted is announced and credited, one it
  // rejected is credited, and a failed call is neither. Of the errors that name a duplicate, only one with
  // the guard's own text is stale.
  ghost predicate ComesTo(phase: BG.Phase, named: bool, id: Identity, hash: nat, daa: nat, r: BlockResult) {
    var valid := id.walletOk && id.workerOk;
    var found := if valid then [Found(hash, daa)] else [];
    var credit := if valid && id.difficultyOk then [Credited(daa)] else [];
    var stale := BlockResult(if valid then [Found(hash, daa), Rejected(StaleBlock)] else [], StaleShares, Stale);
    var bad := BlockResult(if valid then [Found(hash, daa), Rejected(BadPow)] else [], InvalidShares, Bad);
    match phase
    case Refused => r == stale
    case InRpc => false
    case Answered(NodeAccepted) => r == BlockResult(found + [BlockAccepted(hash)] + credit, Shares, Accepted)
    case Answered(NodeRejected) => r == BlockResult(found + credit, Shares, Accepted)
    case Answered(DuplicateError) => r == if named then stale else bad
    case Answered(TransportError) => r == bad
    case Released => false
  }

  lemma FittingReply(env: Env, id: Identity, j: Judgement, ending: Ending, phase: BG.Phase, named: bool)
    requires EndingFits(j, ending) && j.verdict.BlockCandidate? && ReplyOf(phase, named) == Some(ending.reply)
    ensures ComesTo(phase, named, id, env.hash(j.verdict.job, j.task.nonce), j.verdict.job.daa,
                    BlockResult(ExpectedLog(env, id, j, ending), ExpectedCounter(j, ending),
                                ExpectedOutcome(j, ending)))
  {
  }

  // Action `n` ended the call of submission `i`, which was for the block `hash`, and what the call had come to
  // by then, an answer being one the node had given to this submission, makes `r` of it.
  ghost predicate EndsAt(env: Env, l: Limits, actions: seq<Action>, i: nat, n: nat, hash: nat, daa: nat,
                         r: BlockResult)
  {
    && n < |actions| && actions[n].NodeReturns? && actions[n].sub == i
    && var s := Run(env, Start(l), actions[..n]);
       && i < |s.subs| && s.subs[i].phase.Calling? && s.subs[i].phase.call < |s.node.calls|
       && var call := s.node.calls[s.subs[i].phase.call];
          && call.hash == hash && AnswerGiven(actions[..n], i, call.phase)
          && ComesTo(call.phase, actions[n].named, s.subs[i].identity, hash, daa, r)
  }

  lemma ReturnedEnds(env: Env, l: Limits, actions: seq<Action>, i: nat, n: nat, sub: Sub, r: BlockResult)
    requires sub.phase.Finishing? && sub.phase.ending.ByNode? && ReturnedAt(env, l, actions, i, n, sub)
    requires var j, ending := sub.phase.judgement, sub.phase.ending;
      && EndingFits(j, ending)
      && r == BlockResult(ExpectedLog(env, sub.identity, j, ending), ExpectedCounter(j, ending),
                          ExpectedOutcome(j, ending))
    ensures var j := sub.phase.judgement;
      EndsAt(env, l, actions, i, n, env.hash(j.verdict.job, j.task.nonce), j.verdict.job.daa, r)
  {
    var s, j, ending := Run(env, Start(l), actions[..n]), sub.phase.judgement, sub.phase.ending;
    RunKeepsNode(env, l, actions[..n]);
    AnswersWereGiven(env, l, actions[..n]);
    assert CallOk(env, s.node.calls, s.subs[i]);
    FittingReply(env, sub.identity, j, ending, s.node.calls[ending.call].phase, actions[n].named);
  }

  /**
   In every run a finished block is the first job on its walk that passes, with a proof of work that meets that
   job's network target; its call was for that job's hash with the submitted nonce, and its log, its one counter
   and its settled outcome are those of how the call ended, about that hash and that job's score.
   */
  lemma BlockEndsAsAnswered(env: Env, l: Limits, actions: seq<Action>, i: nat) returns (n: nat, r: BlockResult)
    requires i < |Run(env, Start(l), actions).subs| && Finished(Run(env, Start(l), actions).subs[i])
    requires Run(env, Start(l), actions).subs[i].phase.judgement.verdict.BlockCandidate?
    ensures var s := Run(env, Start(l), actions); var sub := s.subs[i];
      var j := sub.phase.judgement; var job := j.verdict.job;
      && RingsFit(j) && j.verdict.checks >= 1 && FirstToPass(env, j, j.verdict.checks - 1, job)
      && env.pow(job, j.task.nonce) <= job.networkTarget
      && EndsAt(env, l, actions, i, n, env.hash(job, j.task.nonce), job.daa, r)
      && LogOf(s.log, i) == r.log
      && (forall c :: Bumps(sub.done, c) == if c == r.counter then 1 else 0)
      && (forall o :: Settle(o) in sub.done <==> o == r.outcome)
  {
    var sub := Run(env, Start(l), actions).subs[i];
    var j, ending := sub.phase.judgement, sub.phase.ending;
    FinishedIsExactly(env, l, actions, i);
    FinishedIsJudged(env, l, actions, i);
    n := BlockWasReturned(env, l, actions, i);
    r := BlockResult(ExpectedLog(env, sub.identity, j, ending), ExpectedCounter(j, ending),
                     ExpectedOutcome(j, ending));
    ReturnedEnds(env, l, actions, i, n, sub, r);
  }
}

/**
 Submissions and the block guard together: over all submissions, a block is published as accepted by at
 most one of them.
 */
module BlockPublication {
  import opened Wrappers
  import opened Submission
  import opened SubmissionSafety
  import BG = BlockGuard

  // The node call a submission has made.
  function CallOf(sub: Sub): Option<nat> {
    match sub.phase
    case Calling(_, call) => Some(call)
    case Finishing(_, ByNode(_, call)) => Some(call)
    case _ => None
  }

  predicate SawAccepted(sub: Sub) {
    sub.phase.Finishing? && sub.phase.ending.ByNode? && sub.phase.ending.reply == AcceptedByNode
  }

  // What a handler may report of a call, by how the call stands.
  predicate ReplyFits(phase: BG.Phase, reply: NodeReply) {
    match phase
    case Refused => reply == DuplicateBlock
    case InRpc => false
    case Answered(NodeAccepted) => reply == AcceptedByNode
    case Answered(NodeRejected) => reply == RejectedByNode
    case Answered(DuplicateError) => reply == DuplicateBlock || reply == OtherError
    case Answered(TransportError) => reply == OtherError
    case Released => reply == OtherError
  }

  // The call is for the submission's block, and what was reported of it is what the node answered.
  ghost predicate CallOk(env: Env, calls: seq<BG.Call>, sub: Sub) {
    CallOf(sub).Some? ==>
      var call, j := CallOf(sub).value, sub.phase.judgement;
      && call < |calls| && j.verdict.BlockCandidate? && calls[call].hash == env.hash(j.verdict.job, j.task.nonce)
      && (sub.phase.Finishing? ==> ReplyFits(calls[call].phase, sub.phase.ending.reply))
  }

  ghost predicate CallsOk(env: Env, calls: seq<BG.Call>, subs: seq<Sub>) {
    && (forall i :: 0 <= i < |subs| ==> CallOk(env, calls, subs[i]))
    && (forall i, j :: 0 <= i < j < |subs| && CallOf(subs[i]).Some? ==> CallOf(subs[i]) != CallOf(subs[j]))
  }

  ghost predicate NodeInv(env: Env, s: State) {
    BG.Inv(s.node) && CallsOk(env, s.node.calls, s.subs)
  }

  // ---- preservation ------------------------------------------------------------------------------------

  // A submission without a call changes nothing here.
  lemma AppendKeepsCalls(env: Env, calls: seq<BG.Call>, subs: seq<Sub>, x: Sub)
    requires CallsOk(env, calls, subs) && CallOf(x).None?
    ensures CallsOk(env, calls, subs + [x])
  {
  }

  lemma UpdateKeepsCalls(env: Env, calls: seq<BG.Call>, subs: seq<Sub>, i: nat, x: Sub)
    requires CallsOk(env, calls, subs) && i < |subs| && CallOf(x) == CallOf(subs[i]) && CallOk(env, calls, x)
    ensures CallsOk(env, calls, subs[i := x])
  {
  }

  // Calls only grow in number, keep their hash, and keep what was reported of them.
  lemma NodeStepKeepsCalls(env: Env, node: BG.State, a: BG.Action, subs: seq<Sub>)
    requires CallsOk(env, node.calls, subs)
    ensures CallsOk(env, BG.Step(node, a).calls, subs)
  {
    var calls := BG.Step(node, a).calls;
    forall i | 0 <= i < |subs|
      ensures CallOk(env, calls, subs[i])
    {
      assert CallOk(env, node.calls, subs[i]);
      if CallOf(subs[i]).Some? {
        BG.StepOnCall(node, a, CallOf(subs[i]).value);
      }
    }
  }

  lemma NewCallKeepsCalls(env: Env, node: BG.State, subs: seq<Sub>, i: nat, x: Sub, now: int)
    requires CallsOk(env, node.calls, subs) && i < |subs| && x.phase.Calling? && x.phase.call == |node.calls|
    requires x.phase.judgement.verdict.BlockCandidate?
    ensures CallsOk(env, BG.Step(node, BG.Submit(HashOf(env, x.phase.judgement), now)).calls, subs[i := x])
  {
    NodeStepKeepsCalls(env, node, BG.Submit(HashOf(env, x.phase.judgement), now), subs);
    assert forall k :: 0 <= k < |subs| ==> CallOk(env, node.calls, subs[k]);
  }

  lemma ArrivedKeepsCalls(env: Env, s: State, frame: Frame, now: int)
    requires CallsOk(env, s.node.calls, s.subs)
    ensures CallsOk(env, s.node.calls, Arrived(s, frame, now).subs) && Arrived(s, frame, now).node == s.node
  {
    var more := ArrivedAppends(s, frame, now);
    if more != [] {
      AppendKeepsCalls(env, s.node.calls, s.subs, more[0]);
      assert s.subs + more == s.subs + [more[0]];
    } else {
      assert s.subs + more == s.subs;
    }
  }

  lemma NodeKeepsInv(node: BG.State, a: BG.Action)
    requires BG.Inv(node)
    ensures BG.Inv(BG.Step(node, a))
  {
    match a
    case Submit(h, now) => BG.SubmitKeeps(node, h, now);
    case NodeReplies(i, reply) => BG.RepliesKeeps(node, i, reply);
    case Release(i, now) => BG.ReleaseKeeps(node, i, now);
  }

  lemma ReturnKeepsCalls(env: Env, s: State, i: nat, named: bool)
    requires CallsOk(env, s.node.calls, s.subs) && CanReturn(s, i, named)
    ensures var x := Returned(env, s.subs[i], ReplyOf(s.node.calls[s.subs[i].phase.call].phase, named).value);
      CallsOk(env, s.node.calls, s.subs[i := x])
  {
    var x := Returned(env, s.subs[i], ReplyOf(s.node.calls[s.subs[i].phase.call].phase, named).value);
    assert CallOk(env, s.node.calls, s.subs[i]);
    UpdateKeepsCalls(env, s.node.calls, s.subs, i, x);
  }

  lemma NodeInvFrom(env: Env, s: State, node: BG.State, subs: seq<Sub>)
    requires BG.Inv(node) && CallsOk(env, node.calls, subs) && s.node == node && s.subs == subs
    ensures NodeInv(env, s)
  {
  }

  lemma CallKeepsNode(env: Env, s: State, i: nat, now: int)
    requires NodeInv(env, s) && !s.halted
    ensures NodeInv(env, Step(env, s, CallNode(i, now)))
  {
    if CanCall(s, i) {
      var j := s.subs[i].phase.judgement;
      var x, a := s.subs[i].(phase := Calling(j, |s.node.calls|)), BG.Submit(HashOf(env, j), now);
      NodeKeepsInv(s.node, a);
      NewCallKeepsCalls(env, s.node, s.subs, i, x, now);
      NodeInvFrom(env, Step(env, s, CallNode(i, now)), BG.Step(s.node, a), s.subs[i := x]);
    }
  }

  lemma AnswerKeepsNode(env: Env, s: State, i: nat, answer: BG.Reply)
    requires NodeInv(env, s) && !s.halted
    ensures NodeInv(env, Step(env, s, NodeAnswers(i, answer)))
  {
    if InCall(s, i) {
      var a := BG.NodeReplies(s.subs[i].phase.call, answer);
      NodeKeepsInv(s.node, a);
      NodeStepKeepsCalls(env, s.node, a, s.subs);
      NodeInvFrom(env, Step(env, s, NodeAnswers(i, answer)), BG.Step(s.node, a), s.subs);
    }
  }

  ghost function BackFrom(env: Env, s: State, i: nat, named: bool): Sub
    requires CanReturn(s, i, named)
  {
    Returned(env, s.subs[i], ReplyOf(s.node.calls[s.subs[i].phase.call].phase, named).value)
  }

  lemma ReturnedParts(env: Env, s: State, i: nat, named: bool, now: int)
    requires NodeInv(env, s) && CanReturn(s, i, named)
    ensures var node := BG.Step(s.node, BG.Release(s.subs[i].phase.call, now));
      BG.Inv(node) && CallsOk(env, node.calls, s.subs[i := BackFrom(env, s, i, named)])
  {
    var a := BG.Release(s.subs[i].phase.call, now);
    NodeKeepsInv(s.node, a);
    ReturnKeepsCalls(env, s, i, named);
    NodeStepKeepsCalls(env, s.node, a, s.subs[i := BackFrom(env, s, i, named)]);
  }

  lemma ReturnStep(env: Env, s: State, i: nat, named: bool, now: int, node: BG.State, x: Sub)
    requires !s.halted && CanReturn(s, i, named) && x == BackFrom(env, s, i, named)
    requires node == BG.Step(s.node, BG.Release(s.subs[i].phase.call, now))
    ensures Step(env, s, NodeReturns(i, named, now)) == s.(node := node, subs := s.subs[i := x])
  {
  }

  lemma ReturnKeepsNode(env: Env, s: State, i: nat, named: bool, now: int)
    requires NodeInv(env, s) && !s.halted
    ensures NodeInv(env, Step(env, s, NodeReturns(i, named, now)))
  {
    if CanReturn(s, i, named) {
      ReturnStep(env, s, i, named, now, BG.Step(s.node, BG.Release(s.subs[i].phase.call, now)),
                 BackFrom(env, s, i, named));
      ReturnedParts(env, s, i, named, now);
    }
  }

  lemma MoveKeepsNode(env: Env, s: State, a: Action)
    requires NodeInv(env, s) && !s.halted && (a.Evaluate? || a.Advance?)
    ensures NodeInv(env, Step(env, s, a))
  {
    match a
    case Evaluate(i, j) =>
      if CanEvaluate(env, s, i, j) {
        UpdateKeepsCalls(env, s.node.calls, s.subs, i, Judged(env, s.subs[i], j));
      }
    case Advance(i, now) =>
      if i < |s.subs| && s.subs[i].todo != [] {
        assert CallOk(env, s.node.calls, s.subs[i]);
        UpdateKeepsCalls(env, s.node.calls, s.subs, i, Moved(s.subs[i]));
      }
  }

  lemma StepKeepsNode(env: Env, s: State, a: Action)
    requires NodeInv(env, s)
    ensures NodeInv(env, Step(env, s, a))
  {
    if !s.halted {
      match a
      case Issue(client, job) =>
      case Arrive(frame, now) => ArrivedKeepsCalls(env, s, frame, now);
      case CallNode(i, now) => CallKeepsNode(env, s, i, now);
      case NodeAnswers(i, answer) => AnswerKeepsNode(env, s, i, answer);
      case NodeReturns(i, named, now) => ReturnKeepsNode(env, s, i, named, now);
      case _ => MoveKeepsNode(env, s, a);
    }
  }

  lemma {:induction false} RunKeepsNode(env: Env, l: Limits, actions: seq<Action>)
    ensures NodeInv(env, Run(env, Start(l), actions))
  {
    if actions != [] {
      RunKeepsNode(env, l, actions[..|actions| - 1]);
      StepKeepsNode(env, Run(env, Start(l), actions[..|actions| - 1]), actions[|actions| - 1]);
    } else {
      BG.RunKeepsInv(l.blockTtl, l.blockMax, []);
    }
  }

  // ---- at most one acceptance per block -------------------------------------------------------------------

  lemma {:induction false} PublishedWasDone(id: Identity, done: seq<Effect>, e: Event)
    requires e in EventsOf(id, done)
    ensures Publish(e) in done
  {
    var last := |done| - 1;
    if e in EventsOf(id, done[..last]) {
      PublishedWasDone(id, done[..last], e);
    }
  }

  // Only a submission that the node told so publishes an acceptance, for its own block.
  lemma AcceptanceWasSeen(env: Env, sub: Sub, h: nat)
    requires SubOk(env, sub) && Publish(BlockAccepted(h)) in sub.done
    ensures SawAccepted(sub) && sub.phase.judgement.verdict.BlockCandidate?
    ensures env.hash(sub.phase.judgement.verdict.job, sub.phase.judgement.task.nonce) == h
  {
    assert Publish(BlockAccepted(h)) in sub.done + sub.todo;
  }

  /**
   Over all submissions of a run, a block whose hash pruning has not dropped from the block guard is
   published as accepted by at most one submission.
   */
  lemma OneSubmissionPublishesAcceptance(env: Env, l: Limits, actions: seq<Action>, i: nat, j: nat, h: nat)
    requires var s := Run(env, Start(l), actions);
      && i < |s.subs| && j < |s.subs| && h !in s.node.evicted
      && BlockAccepted(h) in LogOf(s.log, i) && BlockAccepted(h) in LogOf(s.log, j)
    ensures i == j
  {
    RunKeepsInv(env, l, actions);
    RunKeepsNode(env, l, actions);
    var s := Run(env, Start(l), actions);
    PublishedWasDone(s.subs[i].identity, s.subs[i].done, BlockAccepted(h));
    PublishedWasDone(s.subs[j].identity, s.subs[j].done, BlockAccepted(h));
    AcceptanceWasSeen(env, s.subs[i], h);
    AcceptanceWasSeen(env, s.subs[j], h);
    assert CallOk(env, s.node.calls, s.subs[i]) && CallOk(env, s.node.calls, s.subs[j]);
    assert BG.HashOk(s.node.calls, h in s.node.guard.entries, h);
    OneAccepted(s.node.calls, h, CallOf(s.subs[i]).value, CallOf(s.subs[j]).value);
  }

  lemma OneAccepted(calls: seq<BG.Call>, h: nat, c: nat, d: nat)
    requires BG.OneHolder(calls, h) && c < |calls| && d < |calls|
    requires calls[c] == calls[d] == BG.Call(h, BG.Answered(BG.NodeAccepted))
    ensures c == d
  {
    assert BG.Holds(calls[c]) && BG.Reached(calls[d]);
  }
}

/**
 How many probes the cooldown lets through. The breaker counts replies, not starts, so every call that
 reaches the gate after the cooldown and before the next reply goes upstream.
 */
module TierProbes {
  import opened Wrappers
  import CB = CircuitBreaker
  import opened TierClassifier

  // ---- a run with two probes in flight -------------------------------------------------------------------

  const ALL_FAIL := Replies(Err(Upstream), Err(Upstream), Err(Upstream))

  // `n` calls, one after the other, each failing at time zero.
  function FailingCalls(n: nat): seq<Action> {
    if n == 0 then []
    else FailingCalls(n - 1) + [Lookup(n - 1, 0, 0.0)] + [Gate(n - 1, 0.0)] + [Reply(n - 1, ALL_FAIL, 0.0)]
  }

  ghost predicate AfterFailures(c: Config, s: State, n: nat) {
    && s.cache == map[] && (forall call :: call in s.calls ==> call < n)
    && s.breaker == if n < CB.Trip(c.breaker) then CB.Breaker(CB.Closed, n, None) else CB.Breaker(CB.Open, n, Some(0.0))
  }

  lemma RunNext(c: Config, acts: seq<Action>, a: Action)
    ensures Run(c, acts + [a]) == Step(c, Run(c, acts), a)
  {
    assert (acts + [a])[..|acts|] == acts;
  }

  lemma RunThree(c: Config, acts: seq<Action>, a1: Action, a2: Action, a3: Action)
    ensures Run(c, acts + [a1] + [a2] + [a3]) == Step(c, Step(c, Step(c, Run(c, acts), a1), a2), a3)
  {
    RunNext(c, acts, a1);
    RunNext(c, acts + [a1], a2);
    RunNext(c, acts + [a1] + [a2], a3);
  }

  lemma FailingCall(c: Config, s: State, n: nat)
    requires ValidConfig(c) && n < CB.Trip(c.breaker) && AfterFailures(c, s, n)
    ensures var s2 := Step(c, Step(c, s, Lookup(n, 0, 0.0)), Gate(n, 0.0));
      AfterFailures(c, Step(c, s2, Reply(n, ALL_FAIL, 0.0)), n + 1)
  {
  }

  lemma NextFails(c: Config, n: nat)
    requires ValidConfig(c) && n < CB.Trip(c.breaker) && AfterFailures(c, Run(c, FailingCalls(n)), n)
    ensures AfterFailures(c, Run(c, FailingCalls(n + 1)), n + 1)
  {
    FailingCall(c, Run(c, FailingCalls(n)), n);
    RunThree(c, FailingCalls(n), Lookup(n, 0, 0.0), Gate(n, 0.0), Reply(n, ALL_FAIL, 0.0));
  }

  lemma {:induction false} Failing(c: Config, n: nat)
    requires ValidConfig(c) && n <= CB.Trip(c.breaker)
    ensures AfterFailures(c, Run(c, FailingCalls(n)), n)
  {
    var k := 0;
    while k < n
      invariant k <= n && AfterFailures(c, Run(c, FailingCalls(k)), k)
    {
      NextFails(c, k);
      k := k + 1;
    }
  }

  // Enough failures to trip, then two calls that both miss the cache and both reach the gate as it reopens.
  function TwoProbes(c: Config): seq<Action> {
    var n, now := CB.Trip(c.breaker), c.breaker.cooldown;
    FailingCalls(n) + [Lookup(n, 0, now)] + [Lookup(n + 1, 0, now)] + [Gate(n, now)] + [Gate(n + 1, now)]
  }

  lemma BothPass(c: Config, s: State, n: nat, now: real)
    requires ValidConfig(c) && n == CB.Trip(c.breaker) && AfterFailures(c, s, n) && now == c.breaker.cooldown
    ensures var s2 := Step(c, Step(c, s, Lookup(n, 0, now)), Lookup(n + 1, 0, now));
      var s' := Step(c, Step(c, s2, Gate(n, now)), Gate(n + 1, now));
      s'.breaker.phase.Open? && s'.calls == s.calls[n := InFlight(0)][n + 1 := InFlight(0)]
  {
    var s2 := Step(c, Step(c, s, Lookup(n, 0, now)), Lookup(n + 1, 0, now));
    assert s2.calls == s.calls[n := Missed(0)][n + 1 := Missed(0)] && s2.breaker == s.breaker;
  }

  // "The cooldown lets one probe through" is false under every configuration.
  lemma TwoProbesInFlight(c: Config)
    requires ValidConfig(c)
    ensures var s, n := Run(c, TwoProbes(c)), CB.Trip(c.breaker);
      && s.breaker.phase.Open? && n in s.calls && n + 1 in s.calls && s.calls[n].InFlight? && s.calls[n + 1].InFlight?
  {
    var n, now := CB.Trip(c.breaker), c.breaker.cooldown;
    Failing(c, n);
    BothPass(c, Run(c, FailingCalls(n)), n, now);
    RunThree(c, FailingCalls(n), Lookup(n, 0, now), Lookup(n + 1, 0, now), Gate(n, now));
    RunNext(c, FailingCalls(n) + [Lookup(n, 0, now)] + [Lookup(n + 1, 0, now)] + [Gate(n, now)], Gate(n + 1, now));
  }

  // ---- one call at a time: one probe ------------------------------------------------------------------------

  ghost predicate AllFinished(s: State) {
    forall call :: call in s.calls ==> s.calls[call].Finished?
  }

  // Every new call's lookup comes after all earlier calls are finished.
  ghost predicate Sequential(c: Config, acts: seq<Action>) {
    forall n :: 0 <= n < |acts| && acts[n].Lookup? && acts[n].call !in Run(c, acts[..n]).calls ==>
                  AllFinished(Run(c, acts[..n]))
  }

  // The call that was started and has not been replied to.
  function Awaiting(log: seq<Event>): Option<CallId> {
    if log == [] then None else
    match log[|log| - 1]
    case Started(call, _, _) => Some(call)
    case Replied(_, _, _, _) => None
    case _ => Awaiting(log[..|log| - 1])
  }

  // Starts and replies take turns, each reply to the start before it.
  ghost predicate TakesTurns(log: seq<Event>) {
    forall j :: 0 <= j < |log| ==>
                  && (log[j].Started? ==> Awaiting(log[..j]).None?)
                  && (log[j].Replied? ==> Awaiting(log[..j]) == Some(log[j].call))
  }

  ghost predicate OneAtATime(s: State) {
    && (forall x, y :: x in s.calls && y in s.calls && !s.calls[x].Finished? && !s.calls[y].Finished? ==> x == y)
    && (forall x :: x in s.calls && s.calls[x].InFlight? ==> Awaiting(s.log) == Some(x))
    && (Awaiting(s.log).Some? ==> Awaiting(s.log).value in s.calls && s.calls[Awaiting(s.log).value].InFlight?)
    && TakesTurns(s.log)
  }

  lemma TurnTaken(log: seq<Event>, e: Event)
    requires TakesTurns(log)
    requires e.Started? ==> Awaiting(log).None?
    requires e.Replied? ==> Awaiting(log) == Some(e.call)
    ensures TakesTurns(log + [e])
    ensures Awaiting(log + [e]) == if e.Started? then Some(e.call) else if e.Replied? then None else Awaiting(log)
  {
    var more := log + [e];
    assert more[..|log|] == log;
    forall j | 0 <= j < |more|
      ensures more[j].Started? ==> Awaiting(more[..j]).None?
      ensures more[j].Replied? ==> Awaiting(more[..j]) == Some(more[j].call)
    {
      if j < |log| {
        assert more[..j] == log[..j] && more[j] == log[j];
      }
    }
  }

  lemma TurnsTaken(log: seq<Event>, e: Event, e2: Event)
    requires TakesTurns(log) && !e.Started? && (e.Replied? ==> Awaiting(log) == Some(e.call))
    requires !e2.Started? && !e2.Replied?
    ensures TakesTurns(log + [e, e2])
    ensures Awaiting(log + [e, e2]) == if e.Replied? then None else Awaiting(log)
  {
    TurnTaken(log, e);
    TurnTaken(log + [e], e2);
    assert log + [e] + [e2] == log + [e, e2];
  }

  // The one open call moves on, or a new one opens when none is.
  lemma OneMoves(s: State, s': State, call: CallId, phase: Phase)
    requires OneAtATime(s) && s'.calls == s.calls[call := phase]
    requires (call in s.calls && !s.calls[call].Finished?) || AllFinished(s)
    requires TakesTurns(s'.log) && Awaiting(s'.log) == if phase.InFlight? then Some(call) else None
    ensures OneAtATime(s')
  {
  }

  lemma LookupKeepsOne(s: State, call: CallId, w: Wallet, now: real)
    requires OneAtATime(s) && AllFinished(s)
    ensures OneAtATime(LookupStep(s, call, w, now))
  {
    var s' := LookupStep(s, call, w, now);
    if CachedTier(s.cache, w, now).Some? {
      TurnTaken(s.log, Answered(call, w, CachedTier(s.cache, w, now).value, now, FromCache));
    } else {
      assert s'.log == s.log;
    }
    OneMoves(s, s', call, s'.calls[call]);
  }

  lemma GateKeepsOne(c: Config, s: State, call: CallId, now: real)
    requires OneAtATime(s) && call in s.calls && s.calls[call].Missed?
    ensures OneAtATime(GateStep(c, s, call, s.calls[call].wallet, now))
  {
    var w := s.calls[call].wallet;
    var s' := GateStep(c, s, call, w, now);
    assert Awaiting(s.log).None?;
    TurnTaken(s.log, if CB.Allows(s.breaker, c.breaker, now) then Started(call, w, now)
                     else Answered(call, w, Standard, now, FromGate));
    OneMoves(s, s', call, s'.calls[call]);
  }

  lemma ReplyKeepsOne(c: Config, s: State, call: CallId, r: Replies, now: real)
    requires OneAtATime(s) && call in s.calls && s.calls[call].InFlight?
    ensures OneAtATime(ReplyStep(c, s, call, s.calls[call].wallet, r, now))
  {
    var w := s.calls[call].wallet;
    var s' := ReplyStep(c, s, call, w, r, now);
    if Verdict(r).Some? {
      TurnTaken(s.log, Replied(call, w, r, now));
    } else {
      TurnsTaken(s.log, Replied(call, w, r, now), Answered(call, w, Standard, now, FromReplies));
    }
    OneMoves(s, s', call, s'.calls[call]);
  }

  lemma StoreKeepsOne(c: Config, s: State, call: CallId, now: real)
    requires OneAtATime(s) && call in s.calls && s.calls[call].Storing?
    ensures OneAtATime(StoreStep(c, s, call, s.calls[call].wallet, s.calls[call].tier, now))
  {
    var w, tier := s.calls[call].wallet, s.calls[call].tier;
    var s' := StoreStep(c, s, call, w, tier, now);
    assert Awaiting(s.log).None?;
    TurnsTaken(s.log, Stored(call, w, tier, now), Answered(call, w, tier, now, FromReplies));
    OneMoves(s, s', call, s'.calls[call]);
  }

  lemma StepKeepsOne(c: Config, s: State, a: Action)
    requires OneAtATime(s) && (a.Lookup? && a.call !in s.calls ==> AllFinished(s))
    ensures OneAtATime(Step(c, s, a))
  {
    if a.Lookup? && a.call !in s.calls {
      LookupKeepsOne(s, a.call, a.wallet, a.now);
    } else if a.Gate? && a.call in s.calls && s.calls[a.call].Missed? {
      GateKeepsOne(c, s, a.call, a.now);
    } else if a.Reply? && a.call in s.calls && s.calls[a.call].InFlight? {
      ReplyKeepsOne(c, s, a.call, a.replies, a.now);
    } else if a.Store? && a.call in s.calls && s.calls[a.call].Storing? {
      StoreKeepsOne(c, s, a.call, a.now);
    }
  }

  lemma {:induction false} SequentialKeepsOne(c: Config, acts: seq<Action>)
    requires Sequential(c, acts)
    ensures OneAtATime(Run(c, acts))
  {
    if acts != [] {
      var last := |acts| - 1;
      forall n | 0 <= n < last
        ensures acts[..last][..n] == acts[..n]
      {
      }
      SequentialKeepsOne(c, acts[..last]);
      StepKeepsOne(c, Run(c, acts[..last]), acts[last]);
    }
  }

  lemma {:induction false} ReplyBetween(log: seq<Event>, i: nat, j: nat) returns (m: nat)
    requires i < j <= |log| && log[i].Started? && Awaiting(log[..j]) != Some(log[i].call)
    requires TakesTurns(log)
    ensures i < m < j && log[m].Replied? && log[m].call == log[i].call
    decreases j
  {
    assert log[..j][..j - 1] == log[..j - 1] && log[..j][j - 1] == log[j - 1];
    if j - 1 > i {
      if Awaiting(log[..j - 1]) != Some(log[i].call) {
        m := ReplyBetween(log, i, j - 1);
      } else {
        m := j - 1;
      }
    } else {
      assert false;
    }
  }

  /**
   When calls come one at a time, a probe is answered before the next one starts: between two starts lies
   the reply to the first, so at most one start lies between two replies.
   */
  lemma SequentialCallsProbeOnce(c: Config, acts: seq<Action>, i: nat, j: nat) returns (m: nat)
    requires Sequential(c, acts)
    requires var log := Run(c, acts).log; i < j < |log| && log[i].Started? && log[j].Started?
    ensures var log := Run(c, acts).log; i < m < j && log[m].Replied? && log[m].call == log[i].call
  {
    var log := Run(c, acts).log;
    SequentialKeepsOne(c, acts);
    m := ReplyBetween(log, i, j);
  }

  // ---- between two replies: one probe per call at the gate --------------------------------------------------

  function Starts(log: seq<Event>): nat {
    if log == [] then 0 else Starts(log[..|log| - 1]) + if log[|log| - 1].Started? then 1 else 0
  }

  // The log after `more` has no reply that was not there before.
  ghost predicate NoReply(c: Config, acts: seq<Action>, more: seq<Action>) {
    var n, log := |Run(c, acts).log|, Run(c, acts + more).log;
    forall k :: n <= k < |log| ==> !log[k].Replied?
  }

  // Action `i` of `more` brings a waiting call to the gate once the breaker of `acts` has cooled down.
  ghost predicate ReachesGate(c: Config, acts: seq<Action>, more: seq<Action>, i: nat)
    requires i < |more|
  {
    var s := Run(c, acts + more[..i]);
    && more[i].Gate? && more[i].call in s.calls && s.calls[more[i].call].Missed?
    && CooledDown(c, Run(c, acts).log, more[i].now)
  }

  ghost function Gated(c: Config, acts: seq<Action>, more: seq<Action>, n: nat): nat
    requires n <= |more|
  {
    if n == 0 then 0 else Gated(c, acts, more, n - 1) + if ReachesGate(c, acts, more, n - 1) then 1 else 0
  }

  lemma StartsNext(log: seq<Event>, e: Event)
    ensures Starts(log + [e]) == Starts(log) + if e.Started? then 1 else 0
  {
    assert (log + [e])[..|log|] == log;
  }

  lemma StartsTwo(log: seq<Event>, e: Event, e2: Event)
    requires !e.Started? && !e2.Started?
    ensures Starts(log + [e, e2]) == Starts(log)
  {
    StartsNext(log, e);
    StartsNext(log + [e], e2);
    assert log + [e] + [e2] == log + [e, e2];
  }

  ghost predicate PassesGate(c: Config, s: State, a: Action) {
    a.Gate? && a.call in s.calls && s.calls[a.call].Missed? && CB.Allows(s.breaker, c.breaker, a.now)
  }

  // What a step appends.
  lemma StepAppends(c: Config, s: State, a: Action) returns (more: seq<Event>)
    ensures Step(c, s, a).log == s.log + more
    ensures more == [] || |more| == 1 || (|more| == 2 && !more[0].Started? && !more[1].Started?)
    ensures PassesGate(c, s, a) <==> |more| == 1 && more[0].Started?
  {
    more := Step(c, s, a).log[|s.log|..];
  }

  // The starts of a run are the gates passed.
  lemma StepStarts(c: Config, s: State, a: Action)
    ensures s.log <= Step(c, s, a).log
    ensures Starts(Step(c, s, a).log) == Starts(s.log) + if PassesGate(c, s, a) then 1 else 0
  {
    var more := StepAppends(c, s, a);
    if |more| == 1 {
      StartsNext(s.log, more[0]);
    } else if |more| == 2 {
      StartsTwo(s.log, more[0], more[1]);
      assert [more[0], more[1]] == more;
    } else {
      assert s.log + more == s.log;
    }
  }

  lemma {:induction false} QuietHistory(log: seq<Event>, n: nat)
    requires n <= |log| && forall k :: n <= k < |log| ==> !log[k].Replied?
    ensures BreakerHistory(log) == BreakerHistory(log[..n])
  {
    if n == |log| {
      assert log[..n] == log;
    } else {
      var init := log[..|log| - 1];
      QuietHistory(init, n);
      assert init[..n] == log[..n];
    }
  }

  // A gate admits, during a span without a reply, exactly what the breaker at its beginning would.
  lemma GateInSpan(c: Config, acts: seq<Action>, more: seq<Action>, now: real)
    requires ValidConfig(c) && Run(c, acts).log <= Run(c, acts + more).log && NoReply(c, acts, more)
    ensures CB.Allows(Run(c, acts + more).breaker, c.breaker, now) <==> CooledDown(c, Run(c, acts).log, now)
  {
    var s, s' := Run(c, acts), Run(c, acts + more);
    RunKeepsInv(c, acts + more);
    QuietHistory(s'.log, |s.log|);
    assert s'.log[..|s.log|] == s.log;
    CB.AllowsIff(c.breaker, BreakerHistory(s'.log), now);
  }

  lemma SpanNext(c: Config, acts: seq<Action>, more: seq<Action>, n: nat)
    requires 0 < n <= |more|
    ensures Run(c, acts + more[..n]) == Step(c, Run(c, acts + more[..n - 1]), more[n - 1])
  {
    assert acts + more[..n] == acts + more[..n - 1] + [more[n - 1]];
    RunNext(c, acts + more[..n - 1], more[n - 1]);
  }

  lemma NoReplyBefore(c: Config, acts: seq<Action>, more: seq<Action>, less: seq<Action>)
    requires NoReply(c, acts, more) && Run(c, acts + less).log <= Run(c, acts + more).log
    ensures NoReply(c, acts, less)
  {
  }

  lemma GatedNext(c: Config, acts: seq<Action>, more: seq<Action>, n: nat)
    requires 0 < n <= |more| && ValidConfig(c)
    requires Run(c, acts).log <= Run(c, acts + more[..n - 1]).log && NoReply(c, acts, more[..n - 1])
    ensures PassesGate(c, Run(c, acts + more[..n - 1]), more[n - 1]) <==> ReachesGate(c, acts, more, n - 1)
  {
    if more[n - 1].Gate? {
      GateInSpan(c, acts, more[..n - 1], more[n - 1].now);
    }
  }

  lemma {:induction false} CountedSpan(c: Config, acts: seq<Action>, more: seq<Action>, n: nat)
    requires ValidConfig(c) && n <= |more| && NoReply(c, acts, more[..n])
    ensures Run(c, acts).log <= Run(c, acts + more[..n]).log
    ensures Starts(Run(c, acts + more[..n]).log) == Starts(Run(c, acts).log) + Gated(c, acts, more, n)
  {
    if n == 0 {
      assert acts + more[..0] == acts;
    } else {
      SpanNext(c, acts, more, n);
      StepStarts(c, Run(c, acts + more[..n - 1]), more[n - 1]);
      NoReplyBefore(c, acts, more[..n], more[..n - 1]);
      CountedSpan(c, acts, more, n - 1);
      GatedNext(c, acts, more, n);
    }
  }

  /**
   In a span without a reply the breaker does not move, and the number of upstream starts is the number of
   calls that reached the gate after the cooldown.
   */
  lemma ProbesBetweenReplies(c: Config, acts: seq<Action>, more: seq<Action>)
    requires ValidConfig(c) && NoReply(c, acts, more)
    ensures Starts(Run(c, acts + more).log) == Starts(Run(c, acts).log) + Gated(c, acts, more, |more|)
  {
    assert more[..|more|] == more;
    CountedSpan(c, acts, more, |more|);
  }

  // ---- two probes exactly when two calls were at the gate -----------------------------------------------------

  ghost predicate TwoReach(c: Config, acts: seq<Action>, more: seq<Action>, n: nat)
    requires n <= |more|
  {
    exists i: nat, j: nat :: BothReach(c, acts, more, i, j) && j < n
  }

  ghost predicate BothReach(c: Config, acts: seq<Action>, more: seq<Action>, i: nat, j: nat) {
    i < j < |more| && ReachesGate(c, acts, more, i) && ReachesGate(c, acts, more, j) && more[i].call != more[j].call
  }

  ghost predicate OneReaches(c: Config, acts: seq<Action>, more: seq<Action>, n: nat)
    requires n <= |more|
  {
    exists i: nat :: i < n && ReachesGate(c, acts, more, i)
  }

  ghost predicate Past(s: State, call: CallId) {
    call in s.calls && !s.calls[call].Missed?
  }

  lemma StepKeepsPast(c: Config, s: State, a: Action, call: CallId)
    requires Past(s, call) || (a.Gate? && a.call == call && call in s.calls && s.calls[call].Missed?)
    ensures Past(Step(c, s, a), call)
  {
  }

  // A call passes the gate once.
  lemma {:induction false} PastTheGate(c: Config, acts: seq<Action>, more: seq<Action>, i: nat, n: nat)
    requires i < n <= |more| && ReachesGate(c, acts, more, i)
    ensures Past(Run(c, acts + more[..n]), more[i].call)
    decreases n
  {
    if i < n - 1 {
      PastTheGate(c, acts, more, i, n - 1);
    }
    SpanNext(c, acts, more, n);
    StepKeepsPast(c, Run(c, acts + more[..n - 1]), more[n - 1], more[i].call);
  }

  lemma {:induction false} GatedCounts(c: Config, acts: seq<Action>, more: seq<Action>, n: nat)
    requires n <= |more|
    ensures Gated(c, acts, more, n) >= 1 <==> OneReaches(c, acts, more, n)
    ensures Gated(c, acts, more, n) >= 2 <==> TwoReach(c, acts, more, n)
  {
    if n > 0 {
      GatedCounts(c, acts, more, n - 1);
      if ReachesGate(c, acts, more, n - 1) && OneReaches(c, acts, more, n - 1) {
        var i: nat :| i < n - 1 && ReachesGate(c, acts, more, i);
        PastTheGate(c, acts, more, i, n - 1);
        assert BothReach(c, acts, more, i, n - 1);
      }
    }
  }

  /**
   The exact condition under which more than one probe goes out before a reply: two different calls reached
   the gate, cooled down, in the span.
   */
  lemma TwoProbesIffTwoReach(c: Config, acts: seq<Action>, more: seq<Action>)
    requires ValidConfig(c) && NoReply(c, acts, more)
    ensures Starts(Run(c, acts + more).log) >= Starts(Run(c, acts).log) + 2 <==> TwoReach(c, acts, more, |more|)
  {
    ProbesBetweenReplies(c, acts, more);
    GatedCounts(c, acts, more, |more|);
  }
}

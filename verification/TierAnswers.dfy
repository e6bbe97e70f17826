/** A call that heard its triggers answers what they show, in every interleaving. */
module TierAnswers {
  import opened Wrappers
  import opened TierClassifier

  // The tier a reply calls for: Elite exactly when one of the three triggers is true.
  function Deserved(r: Replies): Tier {
    if Ok(true) in Triggers(r) then Elite else Standard
  }

  ghost predicate AnswersTo(reply: Event, answer: Event)
    requires reply.Replied? && answer.Answered?
  {
    answer.source == FromReplies && answer.wallet == reply.wallet && answer.tier == Deserved(reply.replies)
  }

  // ---- what the log holds of a call, by its phase ------------------------------------------------------

  // The call has heard nothing and has not answered.
  ghost predicate Unheard(log: seq<Event>, call: CallId) {
    forall k :: 0 <= k < |log| && log[k].call == call ==> log[k].Started?
  }

  ghost predicate Heard(log: seq<Event>, call: CallId, w: Wallet, tier: Tier) {
    forall k :: 0 <= k < |log| && log[k].call == call ==>
                  log[k].Started? || (log[k].Replied? && log[k].wallet == w && Deserved(log[k].replies) == tier)
  }

  ghost predicate Consistent(log: seq<Event>, call: CallId) {
    forall i, j :: 0 <= i < |log| && 0 <= j < |log| && log[i].call == call && log[j].call == call ==>
                     log[i].Replied? && log[j].Answered? ==> AnswersTo(log[i], log[j])
  }

  ghost predicate CallLog(log: seq<Event>, calls: map<CallId, Phase>, call: CallId) {
    if call !in calls then Unheard(log, call)
    else
      match calls[call]
      case Storing(w, tier) => Heard(log, call, w, tier)
      case Finished => Consistent(log, call)
      case _ => Unheard(log, call)
  }

  ghost predicate CallLogs(s: State) {
    forall call :: CallLog(s.log, s.calls, call)
  }

  // ---- preservation -----------------------------------------------------------------------------------------

  // Events of one call say nothing of the others.
  lemma OthersKept(s: State, call: CallId, phase: Phase, more: seq<Event>, x: CallId)
    requires CallLog(s.log, s.calls, x) && x != call && forall k :: 0 <= k < |more| ==> more[k].call == call
    ensures CallLog(s.log + more, s.calls[call := phase], x)
  {
    var log := s.log + more;
    forall k | 0 <= k < |log| && log[k].call == x
      ensures k < |s.log| && log[k] == s.log[k]
    {
    }
  }

  lemma RecordKeeps(s: State, call: CallId, phase: Phase, more: seq<Event>)
    requires CallLogs(s) && (forall k :: 0 <= k < |more| ==> more[k].call == call)
    requires CallLog(s.log + more, s.calls[call := phase], call)
    ensures CallLogs(Record(s, call, phase, more))
  {
    var s' := Record(s, call, phase, more);
    forall x
      ensures CallLog(s'.log, s'.calls, x)
    {
      if x != call {
        OthersKept(s, call, phase, more, x);
      }
    }
  }

  lemma LookupKeeps(s: State, call: CallId, w: Wallet, now: real)
    requires CallLogs(s) && call !in s.calls
    ensures CallLogs(LookupStep(s, call, w, now))
  {
    var s1 := s.(cache := AfterLookup(s.cache, w, now));
    assert CallLog(s.log, s.calls, call);
    match CachedTier(s.cache, w, now)
    case Some(tier) => RecordKeeps(s1, call, Finished, [Answered(call, w, tier, now, FromCache)]);
    case None =>
      assert s.log + [] == s.log;
      RecordKeeps(s1, call, Missed(w), []);
  }

  lemma GateKeeps(c: Config, s: State, call: CallId, now: real)
    requires CallLogs(s) && call in s.calls && s.calls[call].Missed?
    ensures CallLogs(GateStep(c, s, call, s.calls[call].wallet, now))
  {
    var w := s.calls[call].wallet;
    assert CallLog(s.log, s.calls, call);
    RecordKeeps(s, call, InFlight(w), [Started(call, w, now)]);
    RecordKeeps(s, call, Finished, [Answered(call, w, Standard, now, FromGate)]);
  }

  lemma ReplyKeeps(c: Config, s: State, call: CallId, r: Replies, now: real)
    requires CallLogs(s) && call in s.calls && s.calls[call].InFlight?
    ensures CallLogs(ReplyStep(c, s, call, s.calls[call].wallet, r, now))
  {
    var w := s.calls[call].wallet;
    assert CallLog(s.log, s.calls, call);
    VerdictIsShown(r, Elite);
    VerdictIsShown(r, Standard);
    var s1 := s.(breaker := ReplyStep(c, s, call, w, r, now).breaker);
    if Verdict(r).Some? {
      assert Deserved(r) == Verdict(r).value;
      RecordKeeps(s1, call, Storing(w, Verdict(r).value), [Replied(call, w, r, now)]);
    } else {
      RecordKeeps(s1, call, Finished, [Replied(call, w, r, now), Answered(call, w, Standard, now, FromReplies)]);
    }
  }

  lemma StoreKeeps(c: Config, s: State, call: CallId, now: real)
    requires CallLogs(s) && call in s.calls && s.calls[call].Storing?
    ensures CallLogs(StoreStep(c, s, call, s.calls[call].wallet, s.calls[call].tier, now))
  {
    var w, tier := s.calls[call].wallet, s.calls[call].tier;
    assert CallLog(s.log, s.calls, call);
    RecordKeeps(s.(cache := s.cache[w := CacheEntry(tier, now + c.ttl)]), call, Finished,
                [Stored(call, w, tier, now), Answered(call, w, tier, now, FromReplies)]);
  }

  lemma StepKeeps(c: Config, s: State, a: Action)
    requires CallLogs(s)
    ensures CallLogs(Step(c, s, a))
  {
    if a.Lookup? && a.call !in s.calls {
      LookupKeeps(s, a.call, a.wallet, a.now);
    } else if a.Gate? && a.call in s.calls && s.calls[a.call].Missed? {
      GateKeeps(c, s, a.call, a.now);
    } else if a.Reply? && a.call in s.calls && s.calls[a.call].InFlight? {
      ReplyKeeps(c, s, a.call, a.replies, a.now);
    } else if a.Store? && a.call in s.calls && s.calls[a.call].Storing? {
      StoreKeeps(c, s, a.call, a.now);
    } else {
      assert Step(c, s, a).log == s.log && Step(c, s, a).calls == s.calls;
    }
  }

  lemma {:induction false} RunKeepsCallLogs(c: Config, acts: seq<Action>)
    ensures CallLogs(Run(c, acts))
  {
    if acts != [] {
      RunKeepsCallLogs(c, acts[..|acts| - 1]);
      StepKeeps(c, Run(c, acts[..|acts| - 1]), acts[|acts| - 1]);
    }
  }

  // ---- the theorems ---------------------------------------------------------------------------------------------

  lemma AnsweredIsFinished(c: Config, acts: seq<Action>, j: nat)
    requires j < |Run(c, acts).log| && Run(c, acts).log[j].Answered?
    ensures var s := Run(c, acts); s.log[j].call in s.calls && s.calls[s.log[j].call].Finished?
  {
    RunKeepsCallLogs(c, acts);
    var s := Run(c, acts);
    assert CallLog(s.log, s.calls, s.log[j].call);
  }

  /**
   In every run a call that heard its triggers and answered, answered from them, for the same wallet: Elite
   exactly when one of the three was true.
   */
  lemma AnsweredAsShown(c: Config, acts: seq<Action>, i: nat, j: nat)
    requires var log := Run(c, acts).log;
      i < |log| && j < |log| && log[i].Replied? && log[j].Answered? && log[i].call == log[j].call
    ensures var log := Run(c, acts).log; AnswersTo(log[i], log[j])
  {
    RunKeepsCallLogs(c, acts);
    AnsweredIsFinished(c, acts, j);
    var s := Run(c, acts);
    assert CallLog(s.log, s.calls, s.log[j].call);
  }

  // The answer a call ends with.
  ghost predicate Ends(s: State, call: CallId, w: Wallet, tier: Tier) {
    && call in s.calls && s.calls[call].Finished? && s.log != []
    && var e := s.log[|s.log| - 1];
       e.Answered? && e.call == call && e.wallet == w && e.tier == tier && e.source == FromReplies
  }

  lemma RunOne(c: Config, acts: seq<Action>, a: Action)
    ensures Run(c, acts + [a]) == Step(c, Run(c, acts), a)
  {
    assert (acts + [a])[..|acts|] == acts;
  }

  lemma RunTwo(c: Config, acts: seq<Action>, a: Action, b: Action)
    ensures Run(c, acts + [a] + [b]) == Step(c, Step(c, Run(c, acts), a), b)
  {
    RunOne(c, acts, a);
    RunOne(c, acts + [a], b);
  }

  lemma ReplyThenStore(c: Config, s: State, call: CallId, w: Wallet, r: Replies, now: real, later: real)
    requires call in s.calls && s.calls[call] == InFlight(w)
    ensures var s' := Step(c, Step(c, s, Reply(call, r, now)), Store(call, later));
      && Ends(s', call, w, Deserved(r))
      && s'.cache == if Fails(r) then s.cache else s.cache[w := CacheEntry(Deserved(r), later + c.ttl)]
  {
    VerdictIsShown(r, Elite);
    VerdictIsShown(r, Standard);
  }

  /**
   From every reachable state a call in flight that hears its triggers and goes on to its store answers
   what they show. The tier is then served until the TTL has passed if the triggers established it, and the
   cache is left alone if they did not.
   */
  lemma RepliedCallIsAnswered(c: Config, acts: seq<Action>, call: CallId, r: Replies, now: real, later: real, t: real)
    requires call in Run(c, acts).calls && Run(c, acts).calls[call].InFlight?
    ensures var s, s' := Run(c, acts), Run(c, acts + [Reply(call, r, now)] + [Store(call, later)]);
      var w := s.calls[call].wallet;
      && Ends(s', call, w, Deserved(r))
      && (Fails(r) ==> s'.cache == s.cache)
      && (!Fails(r) ==> CachedTier(s'.cache, w, t) == if t < later + c.ttl then Some(Deserved(r)) else None)
  {
    var s := Run(c, acts);
    RunTwo(c, acts, Reply(call, r, now), Store(call, later));
    ReplyThenStore(c, s, call, s.calls[call].wallet, r, now, later);
  }

  // ---- where a cached tier comes from ------------------------------------------------------------------------

  // The action stores a tier for the wallet.
  predicate StoresFor(s: State, a: Action, w: Wallet) {
    a.Store? && a.call in s.calls && s.calls[a.call].Storing? && s.calls[a.call].wallet == w
  }

  // Action `n` stored the entry, and since then none stored another or cleared the cache.
  ghost predicate CachedAt(c: Config, acts: seq<Action>, n: nat, w: Wallet, entry: CacheEntry) {
    && n < |acts| && StoresFor(Run(c, acts[..n]), acts[n], w)
    && entry == CacheEntry(Run(c, acts[..n]).calls[acts[n].call].tier, acts[n].now + c.ttl)
    && forall m :: n < m < |acts| ==> Leaves(c, acts, m, w)
  }

  ghost predicate Leaves(c: Config, acts: seq<Action>, m: nat, w: Wallet)
    requires m < |acts|
  {
    !acts[m].ClearCache? && !StoresFor(Run(c, acts[..m]), acts[m], w)
  }

  lemma StepOnEntry(c: Config, s: State, a: Action, w: Wallet)
    requires w in Step(c, s, a).cache
    ensures var entry := Step(c, s, a).cache[w];
      if StoresFor(s, a, w) then entry == CacheEntry(s.calls[a.call].tier, a.now + c.ttl)
      else w in s.cache && entry == s.cache[w] && !a.ClearCache?
  {
  }

  lemma CachedOn(c: Config, acts: seq<Action>, n: nat, w: Wallet, entry: CacheEntry)
    requires acts != [] && CachedAt(c, acts[..|acts| - 1], n, w, entry) && Leaves(c, acts, |acts| - 1, w)
    ensures CachedAt(c, acts, n, w, entry)
  {
    var init := acts[..|acts| - 1];
    assert init[..n] == acts[..n];
    forall m | n < m < |acts|
      ensures Leaves(c, acts, m, w)
    {
      if m < |init| {
        assert Leaves(c, init, m, w) && init[..m] == acts[..m];
      }
    }
  }

  /**
   In every run a cached entry is what the last call to store a tier for the wallet established, good for the TTL
   from then, and the cache was not cleared since.
   */
  lemma {:induction false} CachedIsLastStored(c: Config, acts: seq<Action>, w: Wallet) returns (n: nat)
    requires w in Run(c, acts).cache
    ensures CachedAt(c, acts, n, w, Run(c, acts).cache[w])
  {
    var last := |acts| - 1;
    var s, a := Run(c, acts[..last]), acts[last];
    StepOnEntry(c, s, a, w);
    if StoresFor(s, a, w) {
      n := last;
    } else {
      n := CachedIsLastStored(c, acts[..last], w);
      CachedOn(c, acts, n, w, s.cache[w]);
    }
  }

  // The step of a lookup: answered from a fresh entry, which stays, or on its way without one.
  ghost predicate LooksUp(s: State, call: CallId, w: Wallet, now: real, s': State) {
    if w in s.cache && now < s.cache[w].expiresAt then
      && s'.log == s.log + [Answered(call, w, s.cache[w].tier, now, FromCache)]
      && s'.calls == s.calls[call := Finished] && s'.cache == s.cache
    else
      s'.log == s.log && s'.calls == s.calls[call := Missed(w)] && s'.cache == s.cache - {w}
  }

  lemma LookupLooksUp(c: Config, s: State, call: CallId, w: Wallet, now: real)
    requires call !in s.calls
    ensures LooksUp(s, call, w, now, Step(c, s, Lookup(call, w, now)))
  {
    if w !in s.cache {
      assert s.cache - {w} == s.cache;
    }
  }

  /**
   From every reachable state a lookup of a new call is answered from the cache, with the tier last stored, exactly
   while its TTL has not passed; otherwise the call goes on, and only the looked-up entry is dropped.
   */
  lemma LookupIsExact(c: Config, acts: seq<Action>, call: CallId, w: Wallet, now: real) returns (n: nat)
    requires call !in Run(c, acts).calls
    ensures LooksUp(Run(c, acts), call, w, now, Run(c, acts + [Lookup(call, w, now)]))
    ensures w in Run(c, acts).cache ==> CachedAt(c, acts, n, w, Run(c, acts).cache[w])
  {
    RunOne(c, acts, Lookup(call, w, now));
    LookupLooksUp(c, Run(c, acts), call, w, now);
    n := 0;
    if w in Run(c, acts).cache {
      n := CachedIsLastStored(c, acts, w);
    }
  }
}

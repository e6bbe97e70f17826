/**
 Concurrent tier classification: a TTL cache in front of a breaker-guarded upstream. Each classify call
 is four atomic steps, at its await points; calls interleave freely. The log records what happened.
 */
module TierClassifier {
  import opened Wrappers
  import CB = CircuitBreaker

  type Wallet = nat
  type CallId = nat

  datatype Tier = Standard | Elite

  datatype ClassifierError = Upstream | Malformed

  datatype Config = Config(ttl: real, breaker: CB.Config)

  predicate ValidConfig(c: Config) {
    c.ttl >= 0.0 && CB.ValidConfig(c.breaker)
  }

  // The answers of the three endpoints, joined.
  datatype Replies = Replies(nachoNft: Result<bool, ClassifierError>,
                             katclaimNft: Result<bool, ClassifierError>,
                             krc20: Result<bool, ClassifierError>)

  predicate AnyTrue(r: Replies) {
    r.nachoNft == Ok(true) || r.katclaimNft == Ok(true) || r.krc20 == Ok(true)
  }

  predicate AnyError(r: Replies) {
    r.nachoNft.Err? || r.katclaimNft.Err? || r.krc20.Err?
  }

  // The tier the replies establish, if any: one true trigger is enough, whatever the others did.
  function Verdict(r: Replies): Option<Tier> {
    if AnyTrue(r) then Some(Elite) else if !AnyError(r) then Some(Standard) else None
  }

  // ---- the cache ---------------------------------------------------------------------------------------

  datatype CacheEntry = CacheEntry(tier: Tier, expiresAt: real)

  type Cache = map<Wallet, CacheEntry>

  function CachedTier(cache: Cache, w: Wallet, now: real): Option<Tier> {
    if w in cache && cache[w].expiresAt > now then Some(cache[w].tier) else None
  }

  // A lookup drops the entry it finds expired.
  function AfterLookup(cache: Cache, w: Wallet, now: real): Cache {
    if w in cache && cache[w].expiresAt <= now then cache - {w} else cache
  }

  class TierCache {
    const ttl: real
    var entries: Cache

    constructor (ttl: real)
      ensures this.ttl == ttl && entries == map[]
    {
      this.ttl := ttl;
      entries := map[];
    }

    method Lookup(key: Wallet, now: real) returns (tier: Option<Tier>)
      modifies this
      ensures tier == CachedTier(old(entries), key, now)
      ensures entries == AfterLookup(old(entries), key, now)
      ensures tier.None? <==> key !in entries
      ensures forall t :: CachedTier(entries, key, t).Some? ==>
                            CachedTier(entries, key, t) == CachedTier(old(entries), key, t)
    {
      if key in entries {
        var entry := entries[key];
        if entry.expiresAt > now {
          return Some(entry.tier);
        }
        entries := entries - {key};
      }
      return None;
    }

    method Store(key: Wallet, tier: Tier, now: real)
      modifies this
      ensures entries == old(entries)[key := CacheEntry(tier, now + ttl)]
      ensures forall t :: CachedTier(entries, key, t) == if t < now + ttl then Some(tier) else None
    {
      var entry := CacheEntry(tier, now + ttl);
      entries := entries[key := entry];
    }
  }

  // ---- the protocol --------------------------------------------------------------------------------------

  datatype Phase = Missed(wallet: Wallet) | InFlight(wallet: Wallet) | Storing(wallet: Wallet, tier: Tier) | Finished

  datatype Source = FromCache | FromGate | FromReplies

  datatype Event =
    | Started(call: CallId, wallet: Wallet, now: real)
    | Replied(call: CallId, wallet: Wallet, replies: Replies, now: real)
    | Stored(call: CallId, wallet: Wallet, tier: Tier, now: real)
    | Answered(call: CallId, wallet: Wallet, tier: Tier, now: real, source: Source)

  datatype State = State(breaker: CB.Breaker, cache: Cache, calls: map<CallId, Phase>, log: seq<Event>)

  const START := State(CB.NEW, map[], map[], [])

  datatype Action =
    | Lookup(call: CallId, wallet: Wallet, now: real)
    | Gate(call: CallId, now: real)
    | Reply(call: CallId, replies: Replies, now: real)
    | Store(call: CallId, now: real)
    | ClearCache

  function Record(s: State, call: CallId, phase: Phase, events: seq<Event>): State {
    s.(calls := s.calls[call := phase], log := s.log + events)
  }

  function LookupStep(s: State, call: CallId, w: Wallet, now: real): State {
    var s1 := s.(cache := AfterLookup(s.cache, w, now));
    match CachedTier(s.cache, w, now)
    case Some(tier) => Record(s1, call, Finished, [Answered(call, w, tier, now, FromCache)])
    case None => Record(s1, call, Missed(w), [])
  }

  function GateStep(c: Config, s: State, call: CallId, w: Wallet, now: real): State {
    if CB.Allows(s.breaker, c.breaker, now)
    then Record(s, call, InFlight(w), [Started(call, w, now)])
    else Record(s, call, Finished, [Answered(call, w, Standard, now, FromGate)])
  }

  function ReplyStep(c: Config, s: State, call: CallId, w: Wallet, r: Replies, now: real): State {
    match Verdict(r)
    case Some(tier) =>
      Record(s.(breaker := CB.NEW), call, Storing(w, tier), [Replied(call, w, r, now)])
    case None =>
      Record(s.(breaker := CB.OnFailure(s.breaker, c.breaker, now)), call, Finished,
             [Replied(call, w, r, now), Answered(call, w, Standard, now, FromReplies)])
  }

  function StoreStep(c: Config, s: State, call: CallId, w: Wallet, tier: Tier, now: real): State {
    Record(s.(cache := s.cache[w := CacheEntry(tier, now + c.ttl)]), call, Finished,
           [Stored(call, w, tier, now), Answered(call, w, tier, now, FromReplies)])
  }

  // A step that is not the call's next one changes nothing.
  function Step(c: Config, s: State, a: Action): State {
    match a
    case Lookup(call, w, now) => if call in s.calls then s else LookupStep(s, call, w, now)
    case Gate(call, now) =>
      if call in s.calls && s.calls[call].Missed? then GateStep(c, s, call, s.calls[call].wallet, now) else s
    case Reply(call, r, now) =>
      if call in s.calls && s.calls[call].InFlight? then ReplyStep(c, s, call, s.calls[call].wallet, r, now) else s
    case Store(call, now) =>
      if call in s.calls && s.calls[call].Storing?
      then StoreStep(c, s, call, s.calls[call].wallet, s.calls[call].tier, now) else s
    case ClearCache => s.(cache := map[])
  }

  function Run(c: Config, acts: seq<Action>): State {
    if acts == [] then START else Step(c, Run(c, acts[..|acts| - 1]), acts[|acts| - 1])
  }

  // ---- what each logged event must be justified by --------------------------------------------------------

  function Triggers(r: Replies): seq<Result<bool, ClassifierError>> {
    [r.nachoNft, r.katclaimNft, r.krc20]
  }

  // What the triggers show: Elite when one is true, Standard when all are known to be false.
  predicate Shows(r: Replies, tier: Tier) {
    match tier
    case Elite => Ok(true) in Triggers(r)
    case Standard => forall t :: t in Triggers(r) ==> t == Ok(false)
  }

  // No trigger is true and some endpoint failed: nothing is established.
  predicate Fails(r: Replies) {
    Ok(true) !in Triggers(r) && exists t :: t in Triggers(r) && t.Err?
  }

  lemma OneOfThree(t: Result<bool, ClassifierError>)
    ensures t == Ok(true) || t == Ok(false) || t.Err?
  {
    if t.Ok? {
      assert t == Ok(t.value);
      assert if t.value then t == Ok(true) else t == Ok(false);
    }
  }

  // The branches of the code take the triggers for what they show.
  lemma VerdictIsShown(r: Replies, tier: Tier)
    ensures Verdict(r) == Some(tier) <==> Shows(r, tier)
    ensures Verdict(r).None? <==> Fails(r)
  {
    OneOfThree(r.nachoNft);
    OneOfThree(r.katclaimNft);
    OneOfThree(r.krc20);
    assert r.nachoNft in Triggers(r) && r.katclaimNft in Triggers(r) && r.krc20 in Triggers(r);
    assert forall t :: t in Triggers(r) ==> t == r.nachoNft || t == r.katclaimNft || t == r.krc20;
  }

  // What the breaker saw: a failure is a reply that establishes nothing.
  function BreakerHistory(log: seq<Event>): seq<CB.Event> {
    if log == [] then [] else
    var e := log[|log| - 1];
    BreakerHistory(log[..|log| - 1])
    + if !e.Replied? then [] else if Fails(e.replies) then [CB.Failure(e.now)] else [CB.Success]
  }

  // The call's own triggers, asked for this wallet, showed the tier; or they failed.
  ghost predicate ShownBy(log: seq<Event>, call: CallId, w: Wallet, tier: Tier) {
    exists j :: 0 <= j < |log| && RepliedFor(log[j], call, w) && Shows(log[j].replies, tier)
  }

  ghost predicate FailedFor(log: seq<Event>, call: CallId, w: Wallet) {
    exists j :: 0 <= j < |log| && RepliedFor(log[j], call, w) && Fails(log[j].replies)
  }

  predicate RepliedFor(e: Event, call: CallId, w: Wallet) {
    e.Replied? && e.call == call && e.wallet == w
  }

  // Some call established the tier and stored it at `at`.
  ghost predicate StoredFor(log: seq<Event>, w: Wallet, tier: Tier, at: real) {
    exists j :: 0 <= j < |log| && log[j].Stored? && log[j].wallet == w && log[j].tier == tier && log[j].now == at
  }

  ghost predicate CooledDown(c: Config, log: seq<Event>, now: real) {
    var h := BreakerHistory(log);
    || CB.FailuresSince(h) < CB.Trip(c.breaker)
    || (CB.LastFailure(h).Some?
        && (c.breaker.cooldown == 0.0 || now - CB.LastFailure(h).value >= c.breaker.cooldown))
  }

  ghost predicate FromFreshEntry(c: Config, log: seq<Event>, w: Wallet, tier: Tier, now: real) {
    exists at :: StoredFor(log, w, tier, at) && now < at + c.ttl
  }

  ghost predicate Justified(c: Config, log: seq<Event>, e: Event) {
    match e
    case Started(call, w, now) => CooledDown(c, log, now)
    case Replied(call, w, r, now) => true
    case Stored(call, w, tier, now) => ShownBy(log, call, w, tier)
    case Answered(call, w, tier, now, source) =>
      match source
      case FromCache => FromFreshEntry(c, log, w, tier, now)
      case FromGate => tier == Standard && !CooledDown(c, log, now)
      case FromReplies => ShownBy(log, call, w, tier) || (tier == Standard && FailedFor(log, call, w))
  }

  ghost predicate LogOk(c: Config, log: seq<Event>) {
    forall k :: 0 <= k < |log| ==> Justified(c, log[..k], log[k])
  }

  ghost predicate CacheOk(c: Config, s: State, w: Wallet) {
    w in s.cache ==> StoredFor(s.log, w, s.cache[w].tier, s.cache[w].expiresAt - c.ttl)
  }

  ghost predicate CallOk(s: State, call: CallId) {
    call in s.calls && s.calls[call].Storing? ==> ShownBy(s.log, call, s.calls[call].wallet, s.calls[call].tier)
  }

  ghost predicate LogInv(c: Config, b: CB.Breaker, log: seq<Event>) {
    b == CB.Replay(c.breaker, BreakerHistory(log)) && LogOk(c, log)
  }

  ghost predicate EntriesInv(c: Config, s: State) {
    (forall w :: CacheOk(c, s, w)) && (forall call :: CallOk(s, call))
  }

  ghost predicate Inv(c: Config, s: State) {
    LogInv(c, s.breaker, s.log) && EntriesInv(c, s)
  }

  lemma LogGrows(log: seq<Event>, more: seq<Event>)
    ensures forall call, w, tier :: ShownBy(log, call, w, tier) ==> ShownBy(log + more, call, w, tier)
    ensures forall w, tier, at :: StoredFor(log, w, tier, at) ==> StoredFor(log + more, w, tier, at)
  {
    forall call, w, tier | ShownBy(log, call, w, tier)
      ensures ShownBy(log + more, call, w, tier)
    {
      var j :| 0 <= j < |log| && RepliedFor(log[j], call, w) && Shows(log[j].replies, tier);
      assert (log + more)[j] == log[j];
    }
    forall w, tier, at | StoredFor(log, w, tier, at)
      ensures StoredFor(log + more, w, tier, at)
    {
      var j :| 0 <= j < |log| && log[j].Stored? && log[j].wallet == w && log[j].tier == tier && log[j].now == at;
      assert (log + more)[j] == log[j];
    }
  }

  lemma AppendOk(c: Config, log: seq<Event>, e: Event)
    requires LogOk(c, log) && Justified(c, log, e)
    ensures LogOk(c, log + [e])
  {
    var more := log + [e];
    forall k | 0 <= k < |more|
      ensures Justified(c, more[..k], more[k])
    {
      assert more[..k] == log[..k];
      if k == |log| {
        assert log[..k] == log;
      }
    }
  }

  // Only replies reach the breaker.
  lemma QuietEvent(c: Config, b: CB.Breaker, log: seq<Event>, e: Event)
    requires LogInv(c, b, log) && !e.Replied? && Justified(c, log, e)
    ensures LogInv(c, b, log + [e])
  {
    AppendOk(c, log, e);
    assert (log + [e])[..|log|] == log;
    assert BreakerHistory(log + [e]) == BreakerHistory(log);
  }

  function Heard(e: Event): CB.Event
    requires e.Replied?
  {
    if Fails(e.replies) then CB.Failure(e.now) else CB.Success
  }

  lemma HistoryAfterReply(log: seq<Event>, e: Event)
    requires e.Replied?
    ensures BreakerHistory(log + [e]) == BreakerHistory(log) + [Heard(e)]
  {
    assert (log + [e])[..|log|] == log;
  }

  lemma BreakerAfterReply(c: CB.Config, log: seq<Event>, e: Event)
    requires e.Replied?
    ensures CB.Replay(c, BreakerHistory(log + [e])) == CB.Apply(CB.Replay(c, BreakerHistory(log)), c, Heard(e))
  {
    HistoryAfterReply(log, e);
    CB.ReplayAppend(c, BreakerHistory(log), Heard(e));
  }

  lemma ReplyEvent(c: Config, log: seq<Event>, e: Event)
    requires LogOk(c, log) && e.Replied?
    ensures LogInv(c, CB.Apply(CB.Replay(c.breaker, BreakerHistory(log)), c.breaker, Heard(e)), log + [e])
  {
    AppendOk(c, log, e);
    BreakerAfterReply(c.breaker, log, e);
  }

  // ---- every step keeps the invariant ---------------------------------------------------------------------

  // Cache entries that were there, and calls other than `call`, stay justified as the log grows.
  lemma KeepsEntries(c: Config, s: State, s': State, call: CallId, more: seq<Event>)
    requires EntriesInv(c, s) && s'.log == s.log + more && CallOk(s', call)
    requires forall w :: w in s'.cache ==> w in s.cache && s'.cache[w] == s.cache[w]
    requires forall x :: x != call && x in s'.calls ==> x in s.calls && s'.calls[x] == s.calls[x]
    ensures EntriesInv(c, s')
  {
    LogGrows(s.log, more);
    forall w
      ensures CacheOk(c, s', w)
    {
      assert CacheOk(c, s, w);
    }
    forall x
      ensures CallOk(s', x)
    {
      assert CallOk(s, x);
    }
  }

  lemma HitIsFresh(c: Config, s: State, w: Wallet, now: real)
    requires EntriesInv(c, s) && CachedTier(s.cache, w, now).Some?
    ensures FromFreshEntry(c, s.log, w, s.cache[w].tier, now)
  {
    assert CacheOk(c, s, w);
    var at := s.cache[w].expiresAt - c.ttl;
    assert StoredFor(s.log, w, s.cache[w].tier, at) && now < at + c.ttl;
  }

  lemma LookupKeeps(c: Config, s: State, call: CallId, w: Wallet, now: real)
    requires Inv(c, s)
    ensures Inv(c, LookupStep(s, call, w, now))
  {
    var s' := LookupStep(s, call, w, now);
    if CachedTier(s.cache, w, now).Some? {
      HitIsFresh(c, s, w, now);
      var e := Answered(call, w, s.cache[w].tier, now, FromCache);
      QuietEvent(c, s.breaker, s.log, e);
      KeepsEntries(c, s, s', call, [e]);
    } else {
      assert s'.log == s.log;
      KeepsEntries(c, s, s', call, []);
    }
  }

  lemma GateKeeps(c: Config, s: State, call: CallId, w: Wallet, now: real)
    requires ValidConfig(c) && Inv(c, s)
    ensures Inv(c, GateStep(c, s, call, w, now))
  {
    var s' := GateStep(c, s, call, w, now);
    CB.AllowsIff(c.breaker, BreakerHistory(s.log), now);
    var e := if CB.Allows(s.breaker, c.breaker, now) then Started(call, w, now)
             else Answered(call, w, Standard, now, FromGate);
    QuietEvent(c, s.breaker, s.log, e);
    KeepsEntries(c, s, s', call, [e]);
  }

  lemma LastReply(log: seq<Event>, e: Event)
    requires e.Replied?
    ensures forall tier :: Shows(e.replies, tier) ==> ShownBy(log + [e], e.call, e.wallet, tier)
    ensures Fails(e.replies) ==> FailedFor(log + [e], e.call, e.wallet)
  {
    assert (log + [e])[|log|] == e;
  }

  // The degraded answer that follows a reply without a verdict.
  lemma DegradedAnswer(c: Config, b: CB.Breaker, log: seq<Event>, e: Event, e2: Event)
    requires LogInv(c, b, log + [e]) && e.Replied? && Fails(e.replies)
    requires e2 == Answered(e.call, e.wallet, Standard, e.now, FromReplies)
    ensures LogInv(c, b, log + [e, e2])
  {
    LastReply(log, e);
    QuietEvent(c, b, log + [e], e2);
    assert log + [e, e2] == log + [e] + [e2];
  }

  lemma ReplyLog(c: Config, s: State, call: CallId, w: Wallet, r: Replies, now: real)
    requires LogInv(c, s.breaker, s.log)
    ensures LogInv(c, ReplyStep(c, s, call, w, r, now).breaker, s.log + [Replied(call, w, r, now)])
  {
    VerdictIsShown(r, Elite);
    ReplyEvent(c, s.log, Replied(call, w, r, now));
  }

  lemma ReplyEntries(c: Config, s: State, call: CallId, w: Wallet, r: Replies, now: real)
    requires EntriesInv(c, s)
    ensures EntriesInv(c, ReplyStep(c, s, call, w, r, now))
  {
    var s', e := ReplyStep(c, s, call, w, r, now), Replied(call, w, r, now);
    LastReply(s.log, e);
    VerdictIsShown(r, Elite);
    VerdictIsShown(r, Standard);
    var more := if Verdict(r).Some? then [e] else [e, Answered(call, w, Standard, now, FromReplies)];
    KeepsEntries(c, s, s', call, more);
  }

  lemma ReplyKeeps(c: Config, s: State, call: CallId, w: Wallet, r: Replies, now: real)
    requires Inv(c, s)
    ensures Inv(c, ReplyStep(c, s, call, w, r, now))
  {
    ReplyLog(c, s, call, w, r, now);
    ReplyEntries(c, s, call, w, r, now);
    VerdictIsShown(r, Elite);
    if Verdict(r).None? {
      DegradedAnswer(c, ReplyStep(c, s, call, w, r, now).breaker, s.log,
                     Replied(call, w, r, now), Answered(call, w, Standard, now, FromReplies));
    }
  }

  lemma StoreLog(c: Config, b: CB.Breaker, log: seq<Event>, e: Event, e2: Event)
    requires LogInv(c, b, log) && e.Stored? && ShownBy(log, e.call, e.wallet, e.tier)
    requires e2 == Answered(e.call, e.wallet, e.tier, e.now, FromReplies)
    ensures LogInv(c, b, log + [e, e2])
    ensures StoredFor(log + [e, e2], e.wallet, e.tier, e.now)
  {
    QuietEvent(c, b, log, e);
    LogGrows(log, [e]);
    QuietEvent(c, b, log + [e], e2);
    assert log + [e, e2] == log + [e] + [e2];
    assert (log + [e, e2])[|log|] == e;
  }

  lemma StoreEntries(c: Config, s: State, call: CallId, w: Wallet, tier: Tier, now: real, more: seq<Event>)
    requires EntriesInv(c, s) && StoredFor(s.log + more, w, tier, now)
    ensures EntriesInv(c, Record(s.(cache := s.cache[w := CacheEntry(tier, now + c.ttl)]), call, Finished, more))
  {
    var mid := Record(s, call, Finished, more);
    KeepsEntries(c, s, mid, call, more);
    ReplacesEntry(c, mid, w, CacheEntry(tier, now + c.ttl));
  }

  lemma StoreKeeps(c: Config, s: State, call: CallId, w: Wallet, tier: Tier, now: real)
    requires Inv(c, s) && call in s.calls && s.calls[call] == Storing(w, tier)
    ensures Inv(c, StoreStep(c, s, call, w, tier, now))
  {
    var e, e2 := Stored(call, w, tier, now), Answered(call, w, tier, now, FromReplies);
    assert CallOk(s, call);
    StoreLog(c, s.breaker, s.log, e, e2);
    StoreEntries(c, s, call, w, tier, now, [e, e2]);
  }

  lemma ReplacesEntry(c: Config, s: State, w: Wallet, entry: CacheEntry)
    requires EntriesInv(c, s) && StoredFor(s.log, w, entry.tier, entry.expiresAt - c.ttl)
    ensures EntriesInv(c, s.(cache := s.cache[w := entry]))
  {
    var s' := s.(cache := s.cache[w := entry]);
    forall x
      ensures CacheOk(c, s', x)
    {
      assert CacheOk(c, s, x);
    }
    forall x
      ensures CallOk(s', x)
    {
      assert CallOk(s, x);
    }
  }

  lemma StepKeepsInv(c: Config, s: State, a: Action)
    requires ValidConfig(c) && Inv(c, s)
    ensures Inv(c, Step(c, s, a))
  {
    match a
    case Lookup(call, w, now) =>
      if call !in s.calls {
        LookupKeeps(c, s, call, w, now);
      }
    case Gate(call, now) =>
      if call in s.calls && s.calls[call].Missed? {
        GateKeeps(c, s, call, s.calls[call].wallet, now);
      }
    case Reply(call, r, now) =>
      if call in s.calls && s.calls[call].InFlight? {
        ReplyKeeps(c, s, call, s.calls[call].wallet, r, now);
      }
    case Store(call, now) =>
      if call in s.calls && s.calls[call].Storing? {
        StoreKeeps(c, s, call, s.calls[call].wallet, s.calls[call].tier, now);
      }
    case ClearCache =>
      forall call
        ensures CallOk(s.(cache := map[]), call)
      {
        assert CallOk(s, call);
      }
  }

  lemma {:induction false} RunKeepsInv(c: Config, acts: seq<Action>)
    requires ValidConfig(c)
    ensures Inv(c, Run(c, acts))
  {
    if acts != [] {
      RunKeepsInv(c, acts[..|acts| - 1]);
      StepKeepsInv(c, Run(c, acts[..|acts| - 1]), acts[|acts| - 1]);
    }
  }

  // ---- theorems over every interleaving ---------------------------------------------------------------------

  /**
   Elite is answered only when a trigger of that wallet was true: in this call's own replies, or in the
   replies of a call that stored it less than the TTL before.
   */
  lemma EliteIsEarned(c: Config, acts: seq<Action>, k: nat)
    requires ValidConfig(c)
    requires var log := Run(c, acts).log; k < |log| && log[k].Answered? && log[k].tier == Elite
    ensures var log := Run(c, acts).log; var e := log[k];
      || (e.source == FromReplies && ShownBy(log[..k], e.call, e.wallet, Elite))
      || (e.source == FromCache && EarnedAndStored(c, log[..k], e.wallet, Elite, e.now))
  {
    RunKeepsInv(c, acts);
    var log := Run(c, acts).log;
    assert Justified(c, log[..k], log[k]);
    if log[k].source == FromCache {
      CachedWasEarned(c, log, k);
    }
  }

  // A tier served from the cache was established by replies and stored within the TTL; in particular a
  // degraded answer is never cached.
  lemma CachedWasEarned(c: Config, log: seq<Event>, k: nat)
    requires LogOk(c, log) && k < |log| && log[k].Answered? && log[k].source == FromCache
    ensures EarnedAndStored(c, log[..k], log[k].wallet, log[k].tier, log[k].now)
  {
    var e := log[k];
    assert Justified(c, log[..k], e);
    var at :| StoredFor(log[..k], e.wallet, e.tier, at) && e.now < at + c.ttl;
    var j :| 0 <= j < |log[..k]| && log[..k][j].Stored? && log[..k][j].wallet == e.wallet
             && log[..k][j].tier == e.tier && log[..k][j].now == at;
    StoredWasShown(c, log, k, j);
  }

  lemma StoredWasShown(c: Config, log: seq<Event>, k: nat, j: nat)
    requires LogOk(c, log) && j < k <= |log| && log[j].Stored?
    ensures StoredBy(log[..k], log[j].call, log[j].wallet, log[j].tier, log[j].now)
  {
    assert Justified(c, log[..j], log[j]);
    LogGrows(log[..j], log[j..k]);
    assert log[..j] + log[j..k] == log[..k];
    assert log[..k][j] == log[j];
  }

  ghost predicate StoredBy(log: seq<Event>, call: CallId, w: Wallet, tier: Tier, at: real) {
    Stored(call, w, tier, at) in log && ShownBy(log, call, w, tier)
  }

  ghost predicate EarnedAndStored(c: Config, log: seq<Event>, w: Wallet, tier: Tier, now: real) {
    exists call, at :: StoredBy(log, call, w, tier, at) && now < at + c.ttl
  }

  /**
   No upstream call starts while the breaker is tripped and inside its cooldown, and the breaker refuses
   only then.
   */
  lemma UpstreamOnlyWhenCooledDown(c: Config, acts: seq<Action>, k: nat)
    requires ValidConfig(c)
    requires k < |Run(c, acts).log|
    ensures var log := Run(c, acts).log;
      && (log[k].Started? ==> CooledDown(c, log[..k], log[k].now))
      && (log[k].Answered? && log[k].source == FromGate ==>
            !CooledDown(c, log[..k], log[k].now) && log[k].tier == Standard)
  {
    RunKeepsInv(c, acts);
    var log := Run(c, acts).log;
    assert Justified(c, log[..k], log[k]);
  }
}

/**
 The upstream circuit breaker of the tier classifier, with injected time.
 */
module CircuitBreaker {
  import opened Wrappers

  const U32_MAX: nat := 0xffff_ffff

  datatype Phase = Closed | Open | HalfOpen

  datatype Config = Config(threshold: nat, cooldown: real)

  predicate ValidConfig(c: Config) {
    c.threshold <= U32_MAX && c.cooldown >= 0.0
  }

  datatype Breaker = Breaker(phase: Phase, failures: nat, openedAt: Option<real>)

  const NEW := Breaker(Closed, 0, None)

  // Elapsed time saturates at zero.
  function Since(now: real, start: real): real {
    if now > start then now - start else 0.0
  }

  function Effective(b: Breaker, c: Config, now: real): Phase {
    if b.phase.Open? && b.openedAt.Some? && Since(now, b.openedAt.value) >= c.cooldown then HalfOpen else b.phase
  }

  predicate Allows(b: Breaker, c: Config, now: real) {
    Effective(b, c, now) != Open
  }

  function SaturatingSucc(n: nat): nat {
    if n >= U32_MAX then U32_MAX else n + 1
  }

  function OnFailure(b: Breaker, c: Config, now: real): Breaker {
    if Effective(b, c, now).HalfOpen? then b.(phase := Open, openedAt := Some(now)) else
    var failures := SaturatingSucc(b.failures);
    if failures >= c.threshold then Breaker(Open, failures, Some(now)) else b.(failures := failures)
  }

  // ---- the breaker as a function of what happened ----------------------------------------------------

  datatype Event = Success | Failure(now: real)

  function Apply(b: Breaker, c: Config, e: Event): Breaker {
    match e
    case Success => NEW
    case Failure(now) => OnFailure(b, c, now)
  }

  function Replay(c: Config, events: seq<Event>): Breaker {
    if events == [] then NEW else Apply(Replay(c, events[..|events| - 1]), c, events[|events| - 1])
  }

  lemma ReplayAppend(c: Config, events: seq<Event>, e: Event)
    ensures Replay(c, events + [e]) == Apply(Replay(c, events), c, e)
  {
    assert (events + [e])[..|events|] == events;
  }

  // Failures since the last success, and when the latest of them was.
  function FailuresSince(events: seq<Event>): nat {
    if events == [] || events[|events| - 1].Success? then 0
    else FailuresSince(events[..|events| - 1]) + 1
  }

  function LastFailure(events: seq<Event>): Option<real> {
    if events == [] || events[|events| - 1].Success? then None else Some(events[|events| - 1].now)
  }

  function Trip(c: Config): nat {
    if c.threshold == 0 then 1 else c.threshold
  }

  /**
   After any history the breaker is open exactly when at least `threshold` failures came without a
   success between them, and it then dates from the latest failure.
   */
  lemma {:induction false} OpenIffEnoughFailures(c: Config, events: seq<Event>)
    requires ValidConfig(c)
    ensures var b := Replay(c, events);
      && b.phase == (if FailuresSince(events) >= Trip(c) then Open else Closed)
      && b.openedAt == (if b.phase.Open? then LastFailure(events) else None)
      && (b.phase.Closed? ==> b.failures == FailuresSince(events))
      && (b.phase.Open? ==> b.failures >= c.threshold)
  {
    if events != [] {
      OpenIffEnoughFailures(c, events[..|events| - 1]);
    }
  }

  // A request is let through exactly when fewer than `threshold` failures have come since the last
  // success, or the cooldown has passed since the latest of them.
  lemma AllowsIff(c: Config, events: seq<Event>, now: real)
    requires ValidConfig(c)
    ensures Allows(Replay(c, events), c, now)
       <==> (FailuresSince(events) < Trip(c)
             || (LastFailure(events).Some? && (c.cooldown == 0.0 || now - LastFailure(events).value >= c.cooldown)))
  {
    OpenIffEnoughFailures(c, events);
  }

  class BreakerCell {
    const config: Config
    var phase: Phase
    var failures: nat
    var openedAt: Option<real>
    ghost var history: seq<Event>

    ghost predicate Valid()
      reads this
    {
      ValidConfig(config) && Breaker(phase, failures, openedAt) == Replay(config, history)
    }

    constructor (config: Config)
      requires ValidConfig(config)
      ensures Valid() && this.config == config && history == []
    {
      this.config := config;
      phase, failures, openedAt := Closed, 0, None;
      history := [];
    }

    method AllowsRequest(now: real) returns (ok: bool)
      requires Valid()
      ensures ok <==> (FailuresSince(history) < Trip(config)
                       || (LastFailure(history).Some?
                           && (config.cooldown == 0.0 || now - LastFailure(history).value >= config.cooldown)))
    {
      AllowsIff(config, history, now);
      ok := Effective(Breaker(phase, failures, openedAt), config, now) != Open;
    }

    method OnSuccess()
      requires Valid()
      modifies this
      ensures Valid() && history == old(history) + [Success] && phase.Closed?
    {
      phase, failures, openedAt := Closed, 0, None;
      history := history + [Success];
    }

    method OnFailureAt(now: real)
      requires Valid()
      modifies this
      ensures Valid() && history == old(history) + [Failure(now)]
      ensures phase.Open? <==> FailuresSince(history) >= Trip(config)
      ensures phase.Open? ==> openedAt == Some(now)
    {
      ghost var before := history;
      if Effective(Breaker(phase, failures, openedAt), config, now).HalfOpen? {
        phase, openedAt := Open, Some(now);
      } else {
        failures := SaturatingSucc(failures);
        if failures >= config.threshold {
          phase, openedAt := Open, Some(now);
        }
      }
      history := history + [Failure(now)];
      assert history[..|history| - 1] == before;
      OpenIffEnoughFailures(config, history);
    }
  }
}

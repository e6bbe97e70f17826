/**
 The per-IP connection and frame guard: connection tickets counted per source address, and one token
 bucket for each address that holds a ticket.
 */
module AntiAbuse {
  import opened Wrappers
  import opened TokenBucket

  type Ip = nat

  datatype Config = Config(connCap: nat, trackedCap: nat, limits: Limits)

  datatype ConfigError = ZeroConnCap | ZeroIpCap | InvalidFrameRate(value: real) | InvalidFrameBurst(value: real)

  predicate ValidConfig(c: Config) {
    c.connCap > 0 && c.trackedCap > 0 && ValidLimits(c.limits)
  }

  // The first limit, in this order, that is not positive.
  predicate Blames(e: ConfigError, connCap: nat, trackedCap: nat, rate: real, burst: real) {
    match e
    case ZeroConnCap => connCap == 0
    case ZeroIpCap => connCap > 0 && trackedCap == 0
    case InvalidFrameRate(x) => connCap > 0 && trackedCap > 0 && x == rate <= 0.0
    case InvalidFrameBurst(x) => connCap > 0 && trackedCap > 0 && rate > 0.0 && x == burst <= 0.0
  }

  function NewConfig(connCap: nat, trackedCap: nat, rate: real, burst: real): (r: Result<Config, ConfigError>)
    ensures r.Ok? <==> ValidConfig(Config(connCap, trackedCap, Limits(rate, burst)))
    ensures r.Ok? ==> r.value == Config(connCap, trackedCap, Limits(rate, burst))
    ensures r.Err? ==> Blames(r.error, connCap, trackedCap, rate, burst)
  {
    if connCap == 0 then Err(ZeroConnCap)
    else if trackedCap == 0 then Err(ZeroIpCap)
    else if rate <= 0.0 then Err(InvalidFrameRate(rate))
    else if burst <= 0.0 then Err(InvalidFrameBurst(burst))
    else Ok(Config(connCap, trackedCap, Limits(rate, burst)))
  }

  datatype IpEntry = IpEntry(connCount: nat, bucket: Bucket)

  datatype Accepted = Ticket | IpCapReached | ConnCapPerIp(active: nat, cap: nat)

  // The table, and the tickets that connections hold.
  datatype Guard = Guard(entries: map<Ip, IpEntry>, tickets: multiset<Ip>)

  const START := Guard(map[], multiset{})

  function EntryFor(c: Config, g: Guard, ip: Ip, now: real): IpEntry {
    if ip in g.entries then g.entries[ip] else IpEntry(0, Bucket(c.limits.burst, now))
  }

  function AcceptAnswer(c: Config, g: Guard, ip: Ip, now: real): Accepted {
    if ip !in g.entries && |g.entries| >= c.trackedCap then IpCapReached
    else if EntryFor(c, g, ip, now).connCount >= c.connCap
    then ConnCapPerIp(EntryFor(c, g, ip, now).connCount, c.connCap)
    else Ticket
  }

  function Accept(c: Config, g: Guard, ip: Ip, now: real): Guard {
    var e := EntryFor(c, g, ip, now);
    match AcceptAnswer(c, g, ip, now)
    case IpCapReached => g
    case ConnCapPerIp(_, _) => g.(entries := g.entries[ip := e])
    case Ticket => Guard(g.entries[ip := e.(connCount := e.connCount + 1)], g.tickets + multiset{ip})
  }

  predicate FrameAnswer(c: Config, g: Guard, ip: Ip, now: real) {
    ip in g.entries && Admits(g.entries[ip].bucket, now, c.limits)
  }

  function Frame(c: Config, g: Guard, ip: Ip, now: real): Guard {
    if ip !in g.entries then g
    else g.(entries := g.entries[ip := g.entries[ip].(bucket := Consume(g.entries[ip].bucket, now, c.limits))])
  }

  function SaturatingPred(n: nat): nat {
    if n == 0 then 0 else n - 1
  }

  // Dropping a ticket. A ticket can be dropped only by its holder, so only while one is held.
  function Release(g: Guard, ip: Ip): Guard {
    if ip !in g.tickets then g else
    var tickets := g.tickets - multiset{ip};
    if ip !in g.entries then Guard(g.entries, tickets) else
    var n := SaturatingPred(g.entries[ip].connCount);
    if n == 0 then Guard(g.entries - {ip}, tickets)
    else Guard(g.entries[ip := g.entries[ip].(connCount := n)], tickets)
  }

  // ---- the guard as the bridge holds it ------------------------------------------------------------

  predicate Counted(c: Config, g: Guard, ip: Ip) {
    if ip in g.entries
    then g.entries[ip].connCount == g.tickets[ip] && 1 <= g.tickets[ip] <= c.connCap
    else g.tickets[ip] == 0
  }

  predicate TokensInRange(c: Config, g: Guard, ip: Ip) {
    ip in g.entries ==> 0.0 <= g.entries[ip].bucket.tokens <= c.limits.burst
  }

  ghost predicate Inv(c: Config, g: Guard) {
    && (forall ip :: Counted(c, g, ip))
    && (forall ip :: TokensInRange(c, g, ip))
    && |g.entries| <= c.trackedCap
  }

  class AntiAbuseGuard {
    const config: Config
    var entries: map<Ip, IpEntry>
    ghost var tickets: multiset<Ip>

    ghost function State(): Guard
      reads this
    {
      Guard(entries, tickets)
    }

    ghost predicate Valid()
      reads this
    {
      ValidConfig(config) && Inv(config, State())
    }

    constructor (config: Config)
      requires ValidConfig(config)
      ensures Valid() && this.config == config && State() == START
    {
      this.config := config;
      entries := map[];
      tickets := multiset{};
    }

    method TryAccept(ip: Ip, now: real) returns (answer: Accepted)
      requires Valid()
      modifies this
      ensures Valid() && State() == Accept(config, old(State()), ip, now)
      ensures answer == if ip !in old(tickets) && |old(entries)| >= config.trackedCap then IpCapReached
                        else if old(tickets)[ip] >= config.connCap then ConnCapPerIp(old(tickets)[ip], config.connCap)
                        else Ticket
      ensures answer.Ticket? <==> tickets == old(tickets) + multiset{ip}
      ensures !answer.Ticket? ==> State() == old(State())
    {
      ghost var before := State();
      AcceptKeepsInv(config, before, ip, now);
      AnswerByTickets(config, before, ip, now);
      var known := ip in entries;
      if !known && |entries| >= config.trackedCap {
        return IpCapReached;
      }
      if !known {
        entries := entries[ip := IpEntry(0, Bucket(config.limits.burst, now))];
      }
      var entry := entries[ip];
      if entry.connCount >= config.connCap {
        assert entries == old(entries);
        return ConnCapPerIp(entry.connCount, config.connCap);
      }
      entries := entries[ip := entry.(connCount := entry.connCount + 1)];
      tickets := tickets + multiset{ip};
      assert tickets[ip] == old(tickets)[ip] + 1;
      assert State() == Accept(config, before, ip, now);
      return Ticket;
    }

    method TryConsumeFrame(ip: Ip, now: real) returns (ok: bool)
      requires Valid()
      modifies this
      ensures Valid() && State() == Frame(config, old(State()), ip, now)
      ensures ok == FrameAnswer(config, old(State()), ip, now)
      ensures tickets == old(tickets) && (ip !in tickets ==> !ok)
    {
      FrameKeepsInv(config, State(), ip, now);
      assert Counted(config, State(), ip);
      if ip in entries {
        var entry := entries[ip];
        ok := Admits(entry.bucket, now, config.limits);
        entries := entries[ip := entry.(bucket := Consume(entry.bucket, now, config.limits))];
      } else {
        ok := false;
      }
    }

    method ReleaseTicket(ip: Ip)
      requires Valid() && ip in tickets
      modifies this
      ensures Valid() && State() == Release(old(State()), ip)
      ensures tickets == old(tickets) - multiset{ip}
    {
      ReleaseKeepsInv(config, State(), ip);
      if ip in entries {
        var entry := entries[ip];
        var n := SaturatingPred(entry.connCount);
        if n == 0 {
          entries := entries - {ip};
        } else {
          entries := entries[ip := entry.(connCount := n)];
        }
      }
      tickets := tickets - multiset{ip};
    }
  }

  // ---- the invariant over every run -----------------------------------------------------------------

  lemma AcceptKeepsInv(c: Config, g: Guard, ip: Ip, now: real)
    requires ValidConfig(c) && Inv(c, g)
    ensures Inv(c, Accept(c, g, ip, now))
    ensures !AcceptAnswer(c, g, ip, now).Ticket? ==> Accept(c, g, ip, now) == g
  {
    var g' := Accept(c, g, ip, now);
    assert Counted(c, g, ip) && TokensInRange(c, g, ip);
    if AcceptAnswer(c, g, ip, now).Ticket? {
      assert g'.entries.Keys == g.entries.Keys + {ip};
      forall x
        ensures Counted(c, g', x) && TokensInRange(c, g', x)
      {
        assert Counted(c, g, x) && TokensInRange(c, g, x);
      }
    } else {
      assert g'.entries == g.entries;
    }
  }

  lemma LevelInRange(b: Bucket, now: real, l: Limits)
    requires ValidLimits(l) && 0.0 <= b.tokens <= l.burst
    ensures 0.0 <= Consume(b, now, l).tokens <= l.burst
  {
    if now > b.lastRefill {
      RefillGrows(l, b.lastRefill, now);
    }
  }

  lemma FrameKeepsInv(c: Config, g: Guard, ip: Ip, now: real)
    requires ValidConfig(c) && Inv(c, g)
    ensures Inv(c, Frame(c, g, ip, now))
  {
    if ip in g.entries {
      var g' := Frame(c, g, ip, now);
      assert TokensInRange(c, g, ip);
      LevelInRange(g.entries[ip].bucket, now, c.limits);
      assert g'.entries.Keys == g.entries.Keys;
      forall x
        ensures Counted(c, g', x) && TokensInRange(c, g', x)
      {
        assert Counted(c, g, x) && TokensInRange(c, g, x);
      }
    }
  }

  lemma ReleaseKeepsInv(c: Config, g: Guard, ip: Ip)
    requires ValidConfig(c) && Inv(c, g)
    ensures Inv(c, Release(g, ip))
  {
    if ip in g.tickets {
      var g' := Release(g, ip);
      assert Counted(c, g, ip);
      assert g'.entries.Keys == g.entries.Keys || g'.entries.Keys == g.entries.Keys - {ip};
      assert |g'.entries| == |g'.entries.Keys| && |g.entries| == |g.entries.Keys|;
      forall x
        ensures Counted(c, g', x) && TokensInRange(c, g', x)
      {
        assert Counted(c, g, x) && TokensInRange(c, g, x);
      }
    }
  }

  datatype Action = AcceptFrom(ip: Ip, now: real) | FrameFrom(ip: Ip, now: real) | DropTicket(ip: Ip)

  function Step(c: Config, g: Guard, a: Action): Guard {
    match a
    case AcceptFrom(ip, now) => Accept(c, g, ip, now)
    case FrameFrom(ip, now) => Frame(c, g, ip, now)
    case DropTicket(ip) => Release(g, ip)
  }

  function Run(c: Config, g: Guard, acts: seq<Action>): Guard {
    if acts == [] then g else Step(c, Run(c, g, acts[..|acts| - 1]), acts[|acts| - 1])
  }

  lemma {:induction false} RunKeepsInv(c: Config, g: Guard, acts: seq<Action>)
    requires ValidConfig(c) && Inv(c, g)
    ensures Inv(c, Run(c, g, acts))
  {
    if acts != [] {
      RunKeepsInv(c, g, acts[..|acts| - 1]);
      var before := Run(c, g, acts[..|acts| - 1]);
      match acts[|acts| - 1]
      case AcceptFrom(ip, now) => AcceptKeepsInv(c, before, ip, now);
      case FrameFrom(ip, now) => FrameKeepsInv(c, before, ip, now);
      case DropTicket(ip) => ReleaseKeepsInv(c, before, ip);
    }
  }

  /**
   In every run, the tracked addresses are exactly the ticket holders, each count is the number of live
   tickets and within the cap, and the table stays within its own cap.
   */
  lemma TableMatchesTickets(c: Config, acts: seq<Action>)
    requires ValidConfig(c)
    ensures var g := Run(c, START, acts);
      && (forall ip :: ip in g.entries <==> ip in g.tickets)
      && (forall ip :: ip in g.entries ==> g.entries[ip].connCount == g.tickets[ip] <= c.connCap)
      && |g.entries| <= c.trackedCap
  {
    RunKeepsInv(c, START, acts);
    var g := Run(c, START, acts);
    forall ip
      ensures ip in g.entries <==> ip in g.tickets
      ensures ip in g.entries ==> g.entries[ip].connCount == g.tickets[ip] <= c.connCap
    {
      assert Counted(c, g, ip);
    }
  }

  // What an accept is to answer, by the tickets that are held.
  ghost predicate Answers(c: Config, g: Guard, ip: Ip, answer: Accepted) {
    if ip !in g.tickets && |g.entries| >= c.trackedCap then answer == IpCapReached
    else if g.tickets[ip] >= c.connCap then answer == ConnCapPerIp(g.tickets[ip], c.connCap)
    else answer == Ticket
  }

  lemma AnswerByTickets(c: Config, g: Guard, ip: Ip, now: real)
    requires ValidConfig(c) && Inv(c, g)
    ensures Answers(c, g, ip, AcceptAnswer(c, g, ip, now))
  {
    assert Counted(c, g, ip);
  }

  /**
   In every run an accept gets a ticket exactly when its address holds fewer than the cap, and either holds one
   already or there is room for one more address; otherwise the refusal names the limit that was met, with the
   tickets held. The tickets change by exactly what is granted and dropped, a refusal changes nothing, and no
   frame of an address without a ticket is let through.
   */
  lemma AcceptIsExact(c: Config, acts: seq<Action>, ip: Ip, now: real)
    requires ValidConfig(c)
    ensures var g := Run(c, START, acts); var answer, g' := AcceptAnswer(c, g, ip, now), Accept(c, g, ip, now);
      && g.entries.Keys == (set x | x in g.tickets) && Answers(c, g, ip, answer)
      && (if answer.Ticket? then g'.tickets == g.tickets + multiset{ip} else g' == g)
      && Frame(c, g, ip, now).tickets == g.tickets && Release(g, ip).tickets == g.tickets - multiset{ip}
      && (ip !in g.tickets ==> !FrameAnswer(c, g, ip, now))
  {
    TableMatchesTickets(c, acts);
    RunKeepsInv(c, START, acts);
    AnswerByTickets(c, Run(c, START, acts), ip, now);
    AcceptKeepsInv(c, Run(c, START, acts), ip, now);
  }

  // ---- frames of one address inside one residency ---------------------------------------------------

  ghost predicate Resident(c: Config, g: Guard, acts: seq<Action>, ip: Ip) {
    forall n :: 0 <= n <= |acts| ==> ip in Run(c, g, acts[..n]).entries
  }

  function FrameTimes(acts: seq<Action>, ip: Ip): seq<real> {
    if acts == [] then [] else
    var a := acts[|acts| - 1];
    FrameTimes(acts[..|acts| - 1], ip) + if a.FrameFrom? && a.ip == ip then [a.now] else []
  }

  // Frames of `ip` answered with true in the run.
  function FramesAdmitted(c: Config, g: Guard, acts: seq<Action>, ip: Ip): nat {
    if acts == [] then 0 else
    var a := acts[|acts| - 1];
    FramesAdmitted(c, g, acts[..|acts| - 1], ip)
    + if a.FrameFrom? && a.ip == ip && FrameAnswer(c, Run(c, g, acts[..|acts| - 1]), ip, a.now) then 1 else 0
  }

  // Nothing but its own frames touches the bucket of a resident address.
  lemma StepOnBucket(c: Config, g: Guard, a: Action, ip: Ip)
    requires ip in g.entries && ip in Step(c, g, a).entries
    ensures Step(c, g, a).entries[ip].bucket
         == if a.FrameFrom? && a.ip == ip then Consume(g.entries[ip].bucket, a.now, c.limits)
            else g.entries[ip].bucket
  {
  }

  lemma ResidentPrefix(c: Config, g: Guard, acts: seq<Action>, ip: Ip, m: nat)
    requires Resident(c, g, acts, ip) && m <= |acts|
    ensures Resident(c, g, acts[..m], ip) && ip in Run(c, g, acts[..m]).entries
  {
    forall n | 0 <= n <= m
      ensures ip in Run(c, g, acts[..m][..n]).entries
    {
      assert acts[..m][..n] == acts[..n];
    }
  }

  /**
   Refinement: through any interleaving with other addresses, further accepts and drops, a resident
   address sees exactly the token bucket played on its own frame times.
   */
  lemma {:induction false} RunProjectsToBucket(c: Config, g: Guard, acts: seq<Action>, ip: Ip)
    requires Resident(c, g, acts, ip) && ip in g.entries && ip in Run(c, g, acts).entries
    ensures var b, times := g.entries[ip].bucket, FrameTimes(acts, ip);
      && Run(c, g, acts).entries[ip].bucket == Play(b, times, c.limits)
      && FramesAdmitted(c, g, acts, ip) == Count(b, times, c.limits, 0, |times|)
  {
    if acts != [] {
      var m, a := |acts| - 1, acts[|acts| - 1];
      ResidentPrefix(c, g, acts, ip, m);
      RunProjectsToBucket(c, g, acts[..m], ip);
      StepOnBucket(c, Run(c, g, acts[..m]), a, ip);
      if a.FrameFrom? && a.ip == ip {
        ExtendPlay(g.entries[ip].bucket, FrameTimes(acts[..m], ip), a.now, c.limits);
      } else {
        assert FrameTimes(acts, ip) == FrameTimes(acts[..m], ip);
      }
    }
  }

  /**
   After any history, while an address stays resident, the frames admitted for it between times s and t
   number at most the burst plus what the rate produces from s to t.
   */
  lemma FramesAreBounded(c: Config, history: seq<Action>, acts: seq<Action>, ip: Ip, s: real, t: real)
    requires ValidConfig(c) && Resident(c, Run(c, START, history), acts, ip)
    requires Nondecreasing(FrameTimes(acts, ip)) && s <= t
    requires forall x :: x in FrameTimes(acts, ip) ==> s <= x <= t
    ensures FramesAdmitted(c, Run(c, START, history), acts, ip) as real
         <= c.limits.burst + Refill(c.limits, s, t)
  {
    var g, times := Run(c, START, history), FrameTimes(acts, ip);
    assert acts[..0] == [] && acts[..|acts|] == acts;
    RunProjectsToBucket(c, g, acts, ip);
    SpanBound(g.entries[ip].bucket, times, c.limits, s, t);
  }

  lemma SpanBound(b: Bucket, times: seq<real>, l: Limits, s: real, t: real)
    requires ValidLimits(l) && Nondecreasing(times) && s <= t
    requires forall x :: x in times ==> s <= x <= t
    ensures Count(b, times, l, 0, |times|) as real <= l.burst + Refill(l, s, t)
  {
    RefillGrows(l, s, t);
    if times != [] {
      var first, last := times[0], times[|times| - 1];
      IntervalBound(b, times, l, 0, |times|);
      assert first in times && last in times;
      RefillGrows(l, s, first);
      RefillGrows(l, last, t);
    }
  }

  /**
   From the accept that creates the entry, a frame is admitted exactly when no interval of the address's
   own frames ending now would then exceed the burst plus what its stamps refill.
   */
  lemma AdmittedIffWithinBudget(c: Config, g: Guard, ip: Ip, t0: real, acts: seq<Action>, now: real)
    requires ValidConfig(c) && ip !in g.entries && AcceptAnswer(c, g, ip, t0).Ticket?
    requires Resident(c, Accept(c, g, ip, t0), acts, ip)
    ensures FrameAnswer(c, Run(c, Accept(c, g, ip, t0), acts), ip, now)
       <==> Conforms(Bucket(c.limits.burst, t0), FrameTimes(acts, ip) + [now], c.limits, |FrameTimes(acts, ip)|)
  {
    var g1 := Accept(c, g, ip, t0);
    assert acts[..0] == [] && acts[..|acts|] == acts;
    RunProjectsToBucket(c, g1, acts, ip);
    var b, times := Bucket(c.limits.burst, t0), FrameTimes(acts, ip) + [now];
    assert times[..|FrameTimes(acts, ip)|] == FrameTimes(acts, ip);
    AdmittedIffConforming(b, times, c.limits, |FrameTimes(acts, ip)|);
  }
}

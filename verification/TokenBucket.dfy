/**
 The per-IP frame budget: a token bucket refilled lazily at each check, over real time and tokens.
 */
module TokenBucket {
  datatype Bucket = Bucket(tokens: real, lastRefill: real)

  datatype Limits = Limits(rate: real, burst: real)

  predicate ValidLimits(l: Limits) {
    l.rate > 0.0 && l.burst > 0.0
  }

  function MinReal(a: real, b: real): real {
    if a < b then a else b
  }

  // Tokens the rate produces by time t, and over an interval.
  function Produced(l: Limits, t: real): real {
    l.rate * t
  }

  function Refill(l: Limits, from: real, to: real): real {
    Produced(l, to) - Produced(l, from)
  }

  // A stamp that goes back refills nothing.
  function Upward(l: Limits, from: real, to: real): real {
    if to > from then Refill(l, from, to) else 0.0
  }

  function Level(b: Bucket, now: real, l: Limits): real {
    MinReal(b.tokens + Upward(l, b.lastRefill, now), l.burst)
  }

  predicate Admits(b: Bucket, now: real, l: Limits) {
    Level(b, now, l) >= 1.0
  }

  function Consume(b: Bucket, now: real, l: Limits): Bucket {
    Bucket(Level(b, now, l) - if Admits(b, now, l) then 1.0 else 0.0, now)
  }

  // The bucket after frames at the given times, and how many of frames i, .., k - 1 it admitted.
  function Play(b: Bucket, times: seq<real>, l: Limits): Bucket {
    if times == [] then b else Consume(Play(b, times[..|times| - 1], l), times[|times| - 1], l)
  }

  predicate AdmitsFrame(b: Bucket, times: seq<real>, l: Limits, k: nat)
    requires k < |times|
  {
    Admits(Play(b, times[..k], l), times[k], l)
  }

  function Count(b: Bucket, times: seq<real>, l: Limits, i: nat, k: nat): nat
    requires i <= k <= |times|
    decreases k
  {
    if i == k then 0 else Count(b, times, l, i, k - 1) + if AdmitsFrame(b, times, l, k - 1) then 1 else 0
  }

  // ---- refinement of the conformance definition -----------------------------------------------------

  lemma RefillIsRateTimesElapsed(l: Limits, from: real, to: real)
    ensures Refill(l, from, to) == l.rate * (to - from)
  {
  }

  lemma RefillGrows(l: Limits, a: real, b: real)
    requires l.rate > 0.0
    ensures a <= b <==> Refill(l, a, b) >= 0.0
  {
    RefillIsRateTimesElapsed(l, a, b);
    SameSign(l.rate, b - a);
  }

  lemma SameSign(rate: real, x: real)
    requires rate > 0.0
    ensures x >= 0.0 <==> rate * x >= 0.0
  {
  }

  // What the stamps refill from frame i to frame k: the rate over every upward move between them.
  function Gain(times: seq<real>, l: Limits, i: nat, k: nat): real
    requires i <= k < |times|
    decreases k
  {
    if i == k then 0.0 else Gain(times, l, i, k - 1) + Upward(l, times[k - 1], times[k])
  }

  predicate NondecreasingFrom(times: seq<real>, i: nat, k: nat)
    requires i <= k < |times|
  {
    forall j :: i < j <= k ==> times[j - 1] <= times[j]
  }

  predicate Nondecreasing(times: seq<real>) {
    times != [] ==> NondecreasingFrom(times, 0, |times| - 1)
  }

  // The gain is at least the rate times the elapsed time, and exactly that when no stamp in between goes back.
  lemma {:induction false} GainIsElapsedIff(times: seq<real>, l: Limits, i: nat, k: nat)
    requires i <= k < |times| && l.rate > 0.0
    ensures Gain(times, l, i, k) >= Refill(l, times[i], times[k])
    ensures Gain(times, l, i, k) == Refill(l, times[i], times[k]) <==> NondecreasingFrom(times, i, k)
    decreases k
  {
    if i < k {
      GainIsElapsedIff(times, l, i, k - 1);
      RefillGrows(l, times[k - 1], times[k]);
      assert NondecreasingFrom(times, i, k) <==> NondecreasingFrom(times, i, k - 1) && times[k - 1] <= times[k];
    }
  }

  // What is left at frame k of the budget that opened at frame i.
  function Slack(b: Bucket, times: seq<real>, l: Limits, i: nat, k: nat): real
    requires i <= k < |times|
  {
    l.burst + Gain(times, l, i, k) - Count(b, times, l, i, k) as real
  }

  function LevelAt(b: Bucket, times: seq<real>, l: Limits, k: nat): real
    requires k < |times|
  {
    Level(Play(b, times[..k], l), times[k], l)
  }

  lemma LevelStep(b: Bucket, times: seq<real>, l: Limits, k: nat)
    requires 0 < k < |times|
    ensures LevelAt(b, times, l, k)
         == MinReal(LevelAt(b, times, l, k - 1) - (if AdmitsFrame(b, times, l, k - 1) then 1.0 else 0.0)
                    + Upward(l, times[k - 1], times[k]), l.burst)
  {
    PlayNext(b, times, l, k - 1);
  }

  lemma SlackStep(b: Bucket, times: seq<real>, l: Limits, i: nat, k: nat)
    requires i < k < |times|
    ensures Slack(b, times, l, i, k)
         == Slack(b, times, l, i, k - 1) - (if AdmitsFrame(b, times, l, k - 1) then 1.0 else 0.0)
            + Upward(l, times[k - 1], times[k])
  {
  }

  // The level never exceeds what any earlier opening of the budget has left, whatever the stamps.
  lemma {:induction false} LevelWithinSlack(b: Bucket, times: seq<real>, l: Limits, i: nat, k: nat)
    requires i <= k < |times|
    ensures LevelAt(b, times, l, k) <= Slack(b, times, l, i, k)
    decreases k
  {
    if i < k {
      LevelWithinSlack(b, times, l, i, k - 1);
      LevelStep(b, times, l, k);
      SlackStep(b, times, l, i, k);
    }
  }

  lemma FullAtFirst(b: Bucket, now: real, l: Limits)
    requires b.tokens == l.burst && l.rate > 0.0
    ensures Level(b, now, l) == l.burst
  {
    RefillGrows(l, b.lastRefill, now);
  }

  // Starting full, the level is exactly the tightest of those budgets.
  lemma {:induction false} LevelIsSomeSlack(b: Bucket, times: seq<real>, l: Limits, k: nat) returns (i: nat)
    requires k < |times| && b.tokens == l.burst && l.rate > 0.0
    ensures i <= k && LevelAt(b, times, l, k) == Slack(b, times, l, i, k)
    decreases k
  {
    if k == 0 {
      i := 0;
      FullAtFirst(b, times[0], l);
    } else {
      i := LevelIsSomeSlack(b, times, l, k - 1);
      LevelStep(b, times, l, k);
      SlackStep(b, times, l, i, k);
      if LevelAt(b, times, l, k) == l.burst {
        i := k;
      }
    }
  }

  lemma AdmittedConforms(b: Bucket, times: seq<real>, l: Limits, i: nat, k: nat)
    requires i <= k < |times| && AdmitsFrame(b, times, l, k)
    ensures Slack(b, times, l, i, k) >= 1.0
  {
    LevelWithinSlack(b, times, l, i, k);
  }

  lemma RefusedExceeds(b: Bucket, times: seq<real>, l: Limits, k: nat) returns (i: nat)
    requires k < |times| && b.tokens == l.burst && l.rate > 0.0
    requires !AdmitsFrame(b, times, l, k)
    ensures i <= k && Slack(b, times, l, i, k) < 1.0
  {
    i := LevelIsSomeSlack(b, times, l, k);
  }

  // No budget, whenever it opened, would be exceeded by admitting frame k.
  ghost predicate Conforms(b: Bucket, times: seq<real>, l: Limits, k: nat)
    requires k < |times|
  {
    forall i :: 0 <= i <= k ==> Slack(b, times, l, i, k) >= 1.0
  }

  /**
   A full bucket admits a frame exactly when no interval ending at it would then exceed the burst plus
   what its stamps refill. The stamps are arbitrary.
   */
  lemma AdmittedIffConforming(b: Bucket, times: seq<real>, l: Limits, k: nat)
    requires k < |times| && b.tokens == l.burst && l.rate > 0.0
    ensures AdmitsFrame(b, times, l, k) <==> Conforms(b, times, l, k)
  {
    if AdmitsFrame(b, times, l, k) {
      forall i | 0 <= i <= k
        ensures Slack(b, times, l, i, k) >= 1.0
      {
        AdmittedConforms(b, times, l, i, k);
      }
    } else {
      var i := RefusedExceeds(b, times, l, k);
    }
  }

  // Whatever the bucket held and whatever the stamps, an interval admits at most the burst plus its gain.
  lemma {:induction false} GainBound(b: Bucket, times: seq<real>, l: Limits, i: nat, k: nat)
    requires i < k <= |times| && ValidLimits(l)
    ensures Count(b, times, l, i, k) as real <= l.burst + Gain(times, l, i, k - 1)
    decreases k
  {
    if AdmitsFrame(b, times, l, k - 1) {
      LevelWithinSlack(b, times, l, i, k - 1);
    } else if i < k - 1 {
      GainBound(b, times, l, i, k - 1);
      RefillGrows(l, times[k - 2], times[k - 1]);
    }
  }

  // So where no stamp goes back, at most burst + rate * length frames are admitted in any interval.
  lemma IntervalBound(b: Bucket, times: seq<real>, l: Limits, i: nat, k: nat)
    requires i < k <= |times| && NondecreasingFrom(times, i, k - 1) && ValidLimits(l)
    ensures Count(b, times, l, i, k) as real <= l.burst + Refill(l, times[i], times[k - 1])
  {
    GainBound(b, times, l, i, k);
    GainIsElapsedIff(times, l, i, k - 1);
  }

  // Traffic no faster than the rate is never refused by a bucket that starts full and can hold a token.
  lemma {:induction false} ConformingTrafficPasses(b: Bucket, times: seq<real>, l: Limits, k: nat)
    requires k < |times| && b.tokens == l.burst && l.rate > 0.0 && l.burst >= 1.0
    requires forall i :: 0 < i < |times| ==> Upward(l, times[i - 1], times[i]) >= 1.0
    ensures AdmitsFrame(b, times, l, k)
    decreases k
  {
    if k == 0 {
      FullAtFirst(b, times[0], l);
    } else {
      ConformingTrafficPasses(b, times, l, k - 1);
      LevelStep(b, times, l, k);
    }
  }

  lemma PlayNext(b: Bucket, times: seq<real>, l: Limits, k: nat)
    requires k < |times|
    ensures Play(b, times[..k + 1], l) == Consume(Play(b, times[..k], l), times[k], l)
  {
    assert times[..k + 1][..k] == times[..k];
  }

  lemma ExtendPlay(b: Bucket, times: seq<real>, now: real, l: Limits)
    ensures Play(b, times + [now], l) == Consume(Play(b, times, l), now, l)
    ensures Count(b, times + [now], l, 0, |times| + 1)
         == Count(b, times, l, 0, |times|) + if Admits(Play(b, times, l), now, l) then 1 else 0
  {
    var more := times + [now];
    assert more[..|times|] == times;
    CountOfPrefix(b, times, more, l, |times|);
  }

  lemma {:induction false} CountOfPrefix(b: Bucket, times: seq<real>, more: seq<real>, l: Limits, k: nat)
    requires times <= more && k <= |times|
    ensures Count(b, times, l, 0, k) == Count(b, more, l, 0, k)
    decreases k
  {
    if k > 0 {
      CountOfPrefix(b, times, more, l, k - 1);
      assert times[..k - 1] == more[..k - 1];
    }
  }

  // ---- stamps that go back ----------------------------------------------------------------------------

  const UNIT := Limits(1.0, 1.0)

  // Stamps that keep dipping from 10 back to 9.
  function Dips(n: nat): seq<real> {
    if n == 0 then [10.0] else Dips(n - 1) + [9.0] + [10.0]
  }

  lemma UnitRefill(l: Limits, from: real, to: real)
    requires l.rate == 1.0
    ensures Refill(l, from, to) == to - from
  {
    ByOne(l.rate, to);
    ByOne(l.rate, from);
  }

  lemma ByOne(rate: real, t: real)
    requires rate == 1.0
    ensures rate * t == t
  {
  }

  lemma UnitConsume(b: Bucket, now: real)
    requires b.tokens == 0.0
    ensures now <= b.lastRefill ==> Consume(b, now, UNIT) == Bucket(0.0, now) && !Admits(b, now, UNIT)
    ensures now == b.lastRefill + 1.0 ==> Consume(b, now, UNIT) == Bucket(0.0, now) && Admits(b, now, UNIT)
  {
    UnitRefill(UNIT, b.lastRefill, now);
  }

  // One dip: the frame at 9 is refused, and the next one at 10 is admitted again.
  lemma Dip(b: Bucket, n: nat)
    requires Played(b, n)
    ensures Played(b, n + 1)
  {
    var times := Dips(n);
    UnitConsume(Bucket(0.0, 10.0), 9.0);
    ExtendPlay(b, times, 9.0, UNIT);
    UnitConsume(Bucket(0.0, 9.0), 10.0);
    ExtendPlay(b, times + [9.0], 10.0, UNIT);
  }

  lemma {:induction false} DipsWithinOneSecond(n: nat)
    ensures forall x :: x in Dips(n) ==> 9.0 <= x <= 10.0
    decreases n
  {
    if n > 0 {
      DipsWithinOneSecond(n - 1);
    }
  }

  // With stamps that go back the interval bound fails: every dip is refilled again, so any number of
  // frames is admitted within one second.
  lemma {:induction false} ClockMustNotGoBack(b: Bucket, n: nat)
    requires b.tokens == 1.0
    ensures Played(b, n)
  {
    var k := 0;
    FirstDip(b, k);
    while k < n
      invariant k <= n && Played(b, k)
    {
      Dip(b, k);
      k := k + 1;
    }
  }

  // All n + 1 frames at 10 were admitted.
  ghost predicate Played(b: Bucket, n: nat) {
    Play(b, Dips(n), UNIT) == Bucket(0.0, 10.0) && Count(b, Dips(n), UNIT, 0, |Dips(n)|) == n + 1
  }

  lemma FirstDip(b: Bucket, n: nat)
    requires b.tokens == 1.0 && n == 0
    ensures Played(b, n)
  {
    FullAtFirst(b, 10.0, UNIT);
    ExtendPlay(b, [], 10.0, UNIT);
    assert [] + [10.0] == Dips(n);
  }

  // ---- exactly when the interval bound holds ----------------------------------------------------------

  // At most the burst plus the rate times the length of the stamps is admitted.
  ghost predicate WithinBudget(b: Bucket, times: seq<real>, l: Limits)
    requires times != []
  {
    Count(b, times, l, 0, |times|) as real <= l.burst + Refill(l, times[0], times[|times| - 1])
  }

  lemma {:induction false} CountAtMost(b: Bucket, times: seq<real>, l: Limits, i: nat, k: nat)
    requires i <= k <= |times|
    ensures Count(b, times, l, i, k) <= k - i
    decreases k
  {
    if i < k {
      CountAtMost(b, times, l, i, k - 1);
    }
  }

  lemma {:induction false} CountAll(b: Bucket, times: seq<real>, l: Limits, n: nat)
    requires n <= |times| && forall k: nat :: k < n ==> AdmitsFrame(b, times, l, k)
    ensures Count(b, times, l, 0, n) == n
    decreases n
  {
    if n > 0 {
      CountAll(b, times, l, n - 1);
    }
  }

  lemma {:induction false} CountFirst(b: Bucket, times: seq<real>, l: Limits, n: nat)
    requires 1 <= n <= |times| && AdmitsFrame(b, times, l, 0)
    ensures Count(b, times, l, 0, n) >= 1
    decreases n
  {
    if n > 1 {
      CountFirst(b, times, l, n - 1);
    }
  }

  lemma {:induction false} GainNonNegative(times: seq<real>, l: Limits, i: nat, k: nat)
    requires i <= k < |times| && l.rate > 0.0
    ensures Gain(times, l, i, k) >= 0.0
    decreases k
  {
    if i < k {
      GainNonNegative(times, l, i, k - 1);
      RefillGrows(l, times[k - 1], times[k]);
    }
  }

  lemma UpwardScales(l: Limits, from: real, to: real)
    ensures Upward(l, from, to) == l.rate * Upward(UNIT, from, to)
  {
    UnitRefill(UNIT, from, to);
    RefillIsRateTimesElapsed(l, from, to);
  }

  lemma Distributes(r: real, x: real, y: real)
    ensures r * (x + y) == r * x + r * y
  {
  }

  lemma {:induction false} GainScales(times: seq<real>, l: Limits, i: nat, k: nat)
    requires i <= k < |times|
    ensures Gain(times, l, i, k) == l.rate * Gain(times, UNIT, i, k)
    decreases k
  {
    if i < k {
      GainScales(times, l, i, k - 1);
      UpwardScales(l, times[k - 1], times[k]);
      Distributes(l.rate, Gain(times, UNIT, i, k - 1), Upward(UNIT, times[k - 1], times[k]));
    }
  }

  lemma SlackLeft(b: Bucket, times: seq<real>, l: Limits, i: nat, k: nat)
    requires i <= k < |times| && l.rate > 0.0 && l.burst == (|times| - 1) as real
    requires Gain(times, l, 0, |times| - 1) >= 1.0
    ensures Slack(b, times, l, i, k) >= 1.0
  {
    CountAtMost(b, times, l, i, k);
    GainNonNegative(times, l, i, k);
  }

  // With a burst of one less than the number of frames and a refill of one over all of them, a full
  // bucket admits every frame.
  lemma AllAdmitted(b: Bucket, times: seq<real>, l: Limits)
    requires times != [] && l.rate > 0.0 && b.tokens == l.burst == (|times| - 1) as real
    requires Gain(times, l, 0, |times| - 1) >= 1.0
    ensures Count(b, times, l, 0, |times|) == |times|
  {
    forall k: nat | k < |times|
      ensures AdmitsFrame(b, times, l, k)
    {
      forall i | 0 <= i <= k
        ensures Slack(b, times, l, i, k) >= 1.0
      {
        SlackLeft(b, times, l, i, k);
      }
      AdmittedIffConforming(b, times, l, k);
    }
    CountAll(b, times, l, |times|);
  }

  // What a backward stamp takes off the length, the refill does not notice.
  lemma RefillBelowGain(times: seq<real>, l: Limits)
    requires times != [] && !Nondecreasing(times) && l.rate > 0.0
    ensures Refill(l, times[0], times[|times| - 1]) < Gain(times, l, 0, |times| - 1)
  {
    GainIsElapsedIff(times, l, 0, |times| - 1);
  }

  lemma RisingExceeds(b: Bucket, times: seq<real>, l: Limits)
    requires times != [] && !Nondecreasing(times) && l.rate > 0.0 && Gain(times, l, 0, |times| - 1) == 1.0
    requires b.tokens == l.burst == (|times| - 1) as real
    ensures !WithinBudget(b, times, l)
  {
    AllAdmitted(b, times, l);
    RefillBelowGain(times, l);
  }

  lemma Inverse(x: real)
    requires x > 0.0
    ensures 1.0 / x > 0.0 && 1.0 / x * x == 1.0
  {
  }

  lemma FallingExceeds(b: Bucket, times: seq<real>)
    requires |times| >= 2 && !Nondecreasing(times) && Gain(times, UNIT, 0, |times| - 1) == 0.0 && b.tokens == 1.0
    ensures !WithinBudget(b, times, UNIT)
  {
    var last := |times| - 1;
    assert times[..0] == [];
    FullAtFirst(b, times[0], UNIT);
    CountFirst(b, times, UNIT, |times|);
    GainIsElapsedIff(times, UNIT, 0, last);
  }

  // Where some stamp goes back there are limits under which a full bucket breaks the bound.
  lemma SomeLimitsExceed(times: seq<real>) returns (l: Limits)
    requires times != [] && !Nondecreasing(times)
    ensures ValidLimits(l) && forall t0 :: !WithinBudget(Bucket(l.burst, t0), times, l)
  {
    var last := |times| - 1;
    var rise := Gain(times, UNIT, 0, last);
    GainNonNegative(times, UNIT, 0, last);
    if rise > 0.0 {
      Inverse(rise);
      l := Limits(1.0 / rise, last as real);
      GainScales(times, l, 0, last);
      forall t0
        ensures !WithinBudget(Bucket(l.burst, t0), times, l)
      {
        RisingExceeds(Bucket(l.burst, t0), times, l);
      }
    } else {
      l := UNIT;
      forall t0
        ensures !WithinBudget(Bucket(l.burst, t0), times, l)
      {
        FallingExceeds(Bucket(l.burst, t0), times);
      }
    }
  }

  /**
   The stamps never go back exactly when, under all limits and from every full bucket, at most the burst
   plus the rate times their length is admitted.
   */
  lemma BudgetIffNondecreasing(times: seq<real>)
    requires times != []
    ensures Nondecreasing(times)
       <==> forall l: Limits, t0: real :: ValidLimits(l) ==> WithinBudget(Bucket(l.burst, t0), times, l)
  {
    if Nondecreasing(times) {
      forall l: Limits, t0: real | ValidLimits(l)
        ensures WithinBudget(Bucket(l.burst, t0), times, l)
      {
        IntervalBound(Bucket(l.burst, t0), times, l, 0, |times|);
      }
    } else {
      var l := SomeLimitsExceed(times);
      assert !WithinBudget(Bucket(l.burst, 0.0), times, l);
    }
  }
}

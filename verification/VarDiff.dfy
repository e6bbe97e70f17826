/**
 The variable-difficulty controller, in exact real arithmetic. The square root of the observed ratio is
 taken as a given real whose square is the ratio.
 */
module VarDiff {
  import opened Wrappers

  const MIN_ELAPSED: real := 30.0
  const MAX_ELAPSED_NO_SHARES: real := 90.0
  const MIN_SHARES: real := 3.0
  const LOWER: real := 0.75
  const UPPER: real := 1.25
  const MAX_UP: real := 2.0
  const MAX_DOWN: real := 0.5
  const EPSILON: real := 1.0 / 4_503_599_627_370_496.0

  function Max(a: real, b: real): real {
    if a < b then b else a
  }

  function Clamp(x: real, lo: real, hi: real): real {
    if x < lo then lo else if x > hi then hi else x
  }

  function Abs(x: real): real {
    if x < 0.0 then -x else x
  }

  // ---- powers of two -----------------------------------------------------------------------------

  function Pow2(n: nat): real {
    if n == 0 then 1.0 else 2.0 * Pow2(n - 1)
  }

  // The largest power of two that is at most `x`, and the smallest that is at least `x`.
  function FloorPow2(x: real): real
    requires x >= 1.0
    decreases x.Floor
  {
    if x < 2.0 then 1.0 else 2.0 * FloorPow2(x / 2.0)
  }

  function CeilPow2(x: real): real
    requires x > 0.0
    decreases x.Floor
  {
    if x <= 1.0 then 1.0 else 2.0 * CeilPow2(x / 2.0)
  }

  // Rounds to a power of two away from the current difficulty, never below 1.
  function ClampTowards(current: real, next: real): real {
    if next <= 0.0 then 1.0
    else if next >= current then CeilPow2(next)
    else if next < 1.0 then 1.0
    else FloorPow2(next)
  }

  // ---- one adjustment ----------------------------------------------------------------------------

  function Ratio(shares: real, elapsed: real, expected: real): real
    requires elapsed > 0.0
  {
    shares / elapsed * 60.0 / Max(expected, 1.0)
  }

  predicate IsRoot(root: real, x: real) {
    root >= 0.0 && root * root == x
  }

  function Candidate(current: real, step: real, clamp: bool): real {
    var next := Max(current * step, 1.0);
    if clamp then ClampTowards(current, next) else next
  }

  function Step(root: real): real {
    Clamp(root, MAX_DOWN, MAX_UP)
  }

  // The part after the window has been found long enough: decide by the ratio alone.
  function Adjust(current: real, ratio: real, root: real, clamp: bool): Option<real>
    requires current > 0.0
  {
    if ratio <= 0.0 || LOWER < ratio < UPPER then None else
    Decide(current, Candidate(current, Step(root), clamp))
  }

  // Changes of less than a tenth are dropped.
  function Decide(current: real, next: real): Option<real>
    requires current > 0.0
  {
    if Abs(next - current) / Max(current, 1.0) < 0.10 then None
    else if Abs(next - current) > EPSILON then Some(next)
    else None
  }

  function NextDiff(current: real, shares: real, elapsed: real, expected: real, clamp: bool, root: real): Option<real> {
    if current <= 0.0 || elapsed <= 0.0 then None
    else if shares == 0.0 && elapsed >= MAX_ELAPSED_NO_SHARES then
      var next := Candidate(current, MAX_DOWN, clamp);
      if Abs(next - current) > EPSILON then Some(next) else None
    else if elapsed < MIN_ELAPSED || shares < MIN_SHARES then None
    else Adjust(current, Ratio(shares, elapsed, expected), root, clamp)
  }

  // ---- with the power-of-two clamp ---------------------------------------------------------------

  lemma {:induction false} Pow2AtLeastOne(n: nat)
    ensures Pow2(n) >= 1.0
  {
    if n > 0 {
      Pow2AtLeastOne(n - 1);
    }
  }

  lemma {:induction false} FloorPow2Between(x: real, n: nat)
    requires Pow2(n) <= x < 2.0 * Pow2(n)
    ensures x >= 1.0 && FloorPow2(x) == Pow2(n)
    decreases n
  {
    Pow2AtLeastOne(n);
    if n > 0 {
      Pow2AtLeastOne(n - 1);
      FloorPow2Between(x / 2.0, n - 1);
    }
  }

  lemma {:induction false} CeilPow2Between(x: real, n: nat)
    requires Pow2(n) < x <= 2.0 * Pow2(n)
    ensures CeilPow2(x) == 2.0 * Pow2(n)
    decreases n
  {
    Pow2AtLeastOne(n);
    if n > 0 {
      CeilPow2Between(x / 2.0, n - 1);
    } else {
      assert x / 2.0 <= 1.0;
    }
  }

  lemma SquareMonotone(a: real, b: real)
    requires 0.0 <= a <= b
    ensures a * a <= b * b
  {
    assert a * a <= b * a;
    assert b * a <= b * b;
  }

  lemma RootAbove(root: real, x: real, bound: real)
    requires IsRoot(root, x) && bound >= 0.0 && x > bound * bound
    ensures root > bound
  {
    if root <= bound {
      SquareMonotone(root, bound);
    }
  }

  lemma RootBelow(root: real, x: real, bound: real)
    requires IsRoot(root, x) && bound >= 0.0 && x < bound * bound
    ensures root < bound
  {
    if root >= bound {
      SquareMonotone(bound, root);
    }
  }

  // How the clamp rounds around a current value `c`, with the powers of two kept out of sight.
  ghost predicate RoundsAround(c: real) {
    && (forall next :: c < next <= 2.0 * c ==> ClampTowards(c, next) == 2.0 * c)
    && (forall next :: Max(0.5 * c, 1.0) <= next < c ==> ClampTowards(c, next) == 0.5 * c)
    && (c == 1.0 || c >= 2.0)
  }

  lemma PowersRound(n: nat)
    ensures RoundsAround(Pow2(n))
  {
    var c := Pow2(n);
    Pow2AtLeastOne(n);
    forall next | c < next <= 2.0 * c
      ensures ClampTowards(c, next) == 2.0 * c
    {
      CeilPow2Between(next, n);
    }
    if n > 0 {
      Pow2AtLeastOne(n - 1);
      forall next | Max(0.5 * c, 1.0) <= next < c
        ensures ClampTowards(c, next) == 0.5 * c
      {
        FloorPow2Between(next, n - 1);
      }
    }
  }

  lemma ScaledUp(c: real, step: real, scaled: real)
    requires c >= 1.0 && 1.0 < step <= 2.0 && scaled == c * step
    ensures c < scaled <= 2.0 * c
  {
    assert c * (step - 1.0) > 0.0;
    assert c * (2.0 - step) >= 0.0;
  }

  lemma ScaledDown(c: real, step: real, scaled: real)
    requires c >= 1.0 && 0.5 <= step < 1.0 && scaled == c * step
    ensures 0.5 * c <= scaled < c
  {
    assert c * (1.0 - step) > 0.0;
    assert c * (step - 0.5) >= 0.0;
  }

  lemma UpStep(c: real, step: real)
    requires RoundsAround(c) && 1.0 < step <= 2.0
    ensures Candidate(c, step, true) == 2.0 * c
  {
    var scaled := c * step;
    ScaledUp(c, step, scaled);
    var next := Max(scaled, 1.0);
    assert ClampTowards(c, next) == 2.0 * c;
  }

  lemma DownStep(c: real, step: real)
    requires RoundsAround(c) && 0.5 <= step < 1.0
    ensures Candidate(c, step, true) == Max(0.5 * c, 1.0)
  {
    var scaled := c * step;
    ScaledDown(c, step, scaled);
    var next := Max(scaled, 1.0);
    assert c >= 2.0 ==> ClampTowards(c, next) == 0.5 * c;
  }

  // What the miner did over the window, against the target.
  datatype Observation = TooFast | TooSlow | OnTarget

  function Observe(shares: real, elapsed: real, expected: real): Observation {
    if elapsed <= 0.0 then OnTarget
    else if shares == 0.0 && elapsed >= 90.0 then TooSlow
    else if elapsed < 30.0 || shares < 3.0 then OnTarget
    else if Ratio(shares, elapsed, expected) >= 1.25 then TooFast
    else if Ratio(shares, elapsed, expected) <= 0.75 then TooSlow
    else OnTarget
  }

  lemma RatioPositive(shares: real, elapsed: real, expected: real)
    requires elapsed > 0.0 && shares > 0.0
    ensures Ratio(shares, elapsed, expected) > 0.0
  {
    assert shares / elapsed > 0.0;
  }

  lemma RelativeChange(current: real, next: real, part: real)
    requires current >= 1.0 && Abs(next - current) == current * part
    ensures Abs(next - current) / Max(current, 1.0) == part
  {
  }

  lemma ClampedAdjust(c: real, ratio: real, root: real)
    requires RoundsAround(c) && ratio > 0.0 && IsRoot(root, ratio)
    ensures ratio >= UPPER ==> Adjust(c, ratio, root, true) == Some(2.0 * c)
    ensures ratio <= LOWER ==> Adjust(c, ratio, root, true) == if c == 1.0 then None else Some(0.5 * c)
  {
    if ratio >= UPPER {
      RootAbove(root, ratio, 1.0);
      UpStep(c, Step(root));
      RelativeChange(c, 2.0 * c, 1.0);
    } else if ratio <= LOWER {
      RootBelow(root, ratio, 1.0);
      DownStep(c, Step(root));
      if c != 1.0 {
        RelativeChange(c, 0.5 * c, 0.5);
      }
    }
  }

  lemma ClampedChange(c: real, shares: real, elapsed: real, expected: real, root: real)
    requires RoundsAround(c)
    requires elapsed > 0.0 ==> IsRoot(root, Ratio(shares, elapsed, expected))
    ensures NextDiff(c, shares, elapsed, expected, true, root)
         == match Observe(shares, elapsed, expected)
            case TooFast => Some(2.0 * c)
            case TooSlow => (if c == 1.0 then None else Some(0.5 * c))
            case OnTarget => None
  {
    if elapsed > 0.0 {
      if shares == 0.0 && elapsed >= MAX_ELAPSED_NO_SHARES {
        DownStep(c, 0.5);
      } else if elapsed >= MIN_ELAPSED && shares >= MIN_SHARES {
        RatioPositive(shares, elapsed, expected);
        ClampedAdjust(c, Ratio(shares, elapsed, expected), root);
      }
    }
  }

  // From a power of two, every adjustment is exactly one doubling when the miner is too fast and
  // exactly one halving when it is too slow, down to 1; nothing else changes the difficulty.
  lemma ClampedStepIsOneDoublingOrHalving(n: nat, shares: real, elapsed: real, expected: real, root: real)
    requires elapsed > 0.0 ==> IsRoot(root, Ratio(shares, elapsed, expected))
    ensures NextDiff(Pow2(n), shares, elapsed, expected, true, root)
         == match Observe(shares, elapsed, expected)
            case TooFast => Some(Pow2(n + 1))
            case TooSlow => (if n == 0 then None else Some(Pow2(n - 1)))
            case OnTarget => None
  {
    PowersRound(n);
    ClampedChange(Pow2(n), shares, elapsed, expected, root);
    if n > 0 {
      Pow2AtLeastOne(n - 1);
    }
  }

  // A window of less than 30 seconds or fewer than 3 shares changes nothing, unless 90 seconds have passed
  // without any share.
  lemma UndecidedKeeps(current: real, shares: real, elapsed: real, expected: real, clamp: bool, root: real)
    requires (elapsed < 30.0 || shares < 3.0) && (shares != 0.0 || elapsed < 90.0)
    ensures NextDiff(current, shares, elapsed, expected, clamp, root) == None
  {
  }

  // Then the unclamped difficulty is halved, but not below 1, where it comes to rest.
  lemma IdleHalves(current: real, elapsed: real, expected: real, root: real)
    requires current > 0.0 && elapsed >= 90.0
    ensures var r := NextDiff(current, 0.0, elapsed, expected, false, root);
      && (current >= 2.0 ==> r == Some(current / 2.0))
      && (current < 2.0 ==> r == if Abs(current - 1.0) > EPSILON then Some(1.0) else None)
  {
  }

  // A port's starting difficulty.
  function ClampSeed(raw: nat, clamp: bool): real {
    if raw == 0 then 4.0 else if clamp then FloorPow2(raw as real) else raw as real
  }

  ghost predicate IsPow2(d: real) {
    exists n: nat :: d == Pow2(n)
  }

  lemma {:induction false} FloorPow2IsPow2(x: real) returns (n: nat)
    requires x >= 1.0
    ensures FloorPow2(x) == Pow2(n) <= x < 2.0 * Pow2(n)
    decreases x.Floor
  {
    if x < 2.0 {
      n := 0;
    } else {
      var m := FloorPow2IsPow2(x / 2.0);
      n := m + 1;
    }
  }

  // A port's difficulty is taken as it is, or as the greatest power of two in it; none given means 4.
  lemma SeedIsPow2(raw: nat)
    ensures IsPow2(ClampSeed(raw, true))
    ensures raw == 0 ==> ClampSeed(raw, true) == ClampSeed(raw, false) == 4.0
    ensures raw > 0 ==> ClampSeed(raw, true) <= ClampSeed(raw, false) == raw as real < 2.0 * ClampSeed(raw, true)
  {
    if raw == 0 {
      assert Pow2(2) == 4.0;
    } else {
      var n := FloorPow2IsPow2(raw as real);
    }
  }

  // One tick of the controller thread for one worker.
  datatype Window = Window(shares: real, elapsed: real, expected: real, root: real)

  predicate ValidWindow(w: Window) {
    w.elapsed > 0.0 ==> IsRoot(w.root, Ratio(w.shares, w.elapsed, w.expected))
  }

  function Tick(current: real, w: Window, clamp: bool): real {
    match NextDiff(current, w.shares, w.elapsed, w.expected, clamp, w.root)
    case Some(next) => next
    case None => current
  }

  function Ticks(current: real, ws: seq<Window>, clamp: bool): real {
    if ws == [] then current else Tick(Ticks(current, ws[..|ws| - 1], clamp), ws[|ws| - 1], clamp)
  }

  // Every difficulty reachable from a clamped seed is a power of two, at least 1.
  lemma {:induction false} ReachableIsPow2(raw: nat, ws: seq<Window>)
    requires forall i :: 0 <= i < |ws| ==> ValidWindow(ws[i])
    ensures IsPow2(Ticks(ClampSeed(raw, true), ws, true)) && Ticks(ClampSeed(raw, true), ws, true) >= 1.0
  {
    if ws == [] {
      SeedIsPow2(raw);
      var n: nat :| ClampSeed(raw, true) == Pow2(n);
      Pow2AtLeastOne(n);
    } else {
      var last := |ws| - 1;
      ReachableIsPow2(raw, ws[..last]);
      var d, w := Ticks(ClampSeed(raw, true), ws[..last], true), ws[last];
      var n: nat :| d == Pow2(n);
      ClampedStepIsOneDoublingOrHalving(n, w.shares, w.elapsed, w.expected, w.root);
      var m: nat := match Observe(w.shares, w.elapsed, w.expected)
        case TooFast => n + 1
        case TooSlow => (if n == 0 then 0 else n - 1)
        case OnTarget => n;
      assert Tick(d, w, true) == Pow2(m);
      Pow2AtLeastOne(m);
    }
  }
}

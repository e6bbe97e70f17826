/**
 The unclamped controller against a miner of constant hashrate. Such a miner finds shares at a rate
 inversely proportional to its difficulty, so ratio times difficulty is a constant: the difficulty `goal`
 at which the observed rate would be exactly the expected one.
 */
module VarDiffConvergence {
  import opened Wrappers
  import opened VarDiff

  // A window with enough shares over enough time to decide by its ratio.
  predicate Informative(w: Window) {
    && w.elapsed >= 30.0
    && w.shares >= 3.0
    && IsRoot(w.root, Ratio(w.shares, w.elapsed, w.expected))
  }

  function RatioOf(w: Window): real
    requires w.elapsed > 0.0
  {
    Ratio(w.shares, w.elapsed, w.expected)
  }

  predicate SteadyWindow(d: real, w: Window, goal: real) {
    Informative(w) && RatioOf(w) * d == goal
  }

  function Diff(d0: real, ws: seq<Window>, k: nat): real
    requires k <= |ws|
  {
    Ticks(d0, ws[..k], false)
  }

  predicate Steady(d0: real, ws: seq<Window>, goal: real) {
    forall i :: 0 <= i < |ws| ==> SteadyWindow(Diff(d0, ws, i), ws[i], goal)
  }

  // What "constant hashrate" comes to: shares per minute times difficulty is the same in every window.
  lemma SteadyMeansConstantHashrate(d: real, w: Window, hashrate: real)
    requires Informative(w)
    ensures w.shares / w.elapsed * 60.0 * d == hashrate
       <==> SteadyWindow(d, w, hashrate / Max(w.expected, 1.0))
  {
    var e, spm := Max(w.expected, 1.0), w.shares / w.elapsed * 60.0;
    ScaledQuotient(spm, d, e);
    SameQuotient(spm * d, hashrate, e);
  }

  lemma ScaledQuotient(x: real, d: real, e: real)
    requires e >= 1.0
    ensures x / e * d == x * d / e
  {
    assert x / e * d * e == x / e * e * d == x * d;
  }

  lemma SameQuotient(x: real, y: real, e: real)
    requires e >= 1.0
    ensures x == y <==> x / e == y / e
  {
    assert x / e * e == x && y / e * e == y;
  }

  // ---- one adjustment, by the size of the ratio ---------------------------------------------------

  // No further change: inside the band, or so close to the floor that less than a tenth is left to drop.
  predicate Settled(d: real, goal: real) {
    || 0.75 * d < goal < 1.25 * d
    || (goal <= 0.75 * d && 0.9 * d < 1.0)
  }

  function After(d: real, r: real, root: real): real
    requires d > 0.0
  {
    match Adjust(d, r, root, false)
    case Some(next) => next
    case None => d
  }

  lemma Times(a: real, b: real, d: real)
    requires d > 0.0
    ensures a < b <==> a * d < b * d
    ensures a <= b <==> a * d <= b * d
  {
    if a < b {
      assert (b - a) * d > 0.0;
    } else {
      assert (a - b) * d >= 0.0;
    }
  }

  lemma DividedBy(x: real, bound: real, d: real)
    requires d >= 1.0
    ensures x / Max(d, 1.0) < bound <==> x < bound * d
  {
    assert x / d * d == x;
    Times(x / d, bound, d);
  }

  lemma DecideFacts(d: real, next: real)
    requires d >= 1.0
    ensures Decide(d, next) == if Abs(next - d) < 0.10 * d then None else Some(next)
  {
    DividedBy(Abs(next - d), 0.10, d);
  }

  lemma RootStrictlyBelow(root: real, bound: real)
    requires 0.0 <= root < bound
    ensures root * root < bound * bound
  {
    assert (bound - root) * bound > 0.0;
    assert (bound - root) * root >= 0.0;
  }

  lemma RootTimes(d: real, r: real, root: real, next: real)
    requires root * root == r && next == d * root
    ensures root * next == r * d
  {
    assert root * next == root * root * d;
  }

  // The four things an adjustment can do.
  ghost predicate Moves(d: real, r: real, root: real, next: real) {
    && (r >= 4.0 ==> next == 2.0 * d)
    && (1.25 <= r <= 4.0 ==> 1.11 < root <= 2.0 && next == d * root)
    && (0.75 < r < 1.25 ==> next == d)
    && (r <= 0.75 ==> root < 0.87 && next == if 0.9 * d < 1.0 then d else Max(d * Step(root), 1.0))
  }

  lemma Doubles(d: real, r: real, root: real)
    requires d >= 1.0 && IsRoot(root, r) && r >= 4.0
    ensures After(d, r, root) == 2.0 * d
    ensures r == 4.0 ==> root == 2.0
  {
    if root < 2.0 {
      RootStrictlyBelow(root, 2.0);
    } else if root > 2.0 {
      RootStrictlyBelow(2.0, root);
    }
    DecideFacts(d, d * 2.0);
  }

  lemma TakesRootUp(d: real, r: real, root: real)
    requires d >= 1.0 && IsRoot(root, r) && UPPER <= r < 4.0
    ensures 1.11 < root < 2.0
    ensures After(d, r, root) == d * root
  {
    RootAbove(root, r, 1.11);
    RootBelow(root, r, 2.0);
    DecideRaise(d, root);
  }

  lemma DecideRaise(d: real, step: real)
    requires d >= 1.0 && 1.11 < step <= 2.0
    ensures Decide(d, Candidate(d, step, false)) == Some(d * step)
  {
    var scaled := d * step;
    RaisesProperly(d, step, scaled);
    DecideFacts(d, scaled);
  }

  lemma DecideLower(d: real, step: real)
    requires d >= 1.0 && 0.5 <= step < 0.87
    ensures Decide(d, Candidate(d, step, false)) == if 0.9 * d < 1.0 then None else Some(Max(d * step, 1.0))
  {
    var scaled := d * step;
    LowersProperly(d, step, scaled);
    DecideFacts(d, Max(scaled, 1.0));
  }

  lemma Lowers(d: real, r: real, root: real)
    requires d >= 1.0 && IsRoot(root, r) && 0.0 < r <= LOWER
    ensures root < 0.87
    ensures After(d, r, root) == if 0.9 * d < 1.0 then d else Max(d * Step(root), 1.0)
  {
    RootBelow(root, r, 0.87);
    DecideLower(d, Step(root));
  }

  lemma AfterMoves(d: real, r: real, root: real)
    requires d >= 1.0 && IsRoot(root, r) && r > 0.0
    ensures Moves(d, r, root, After(d, r, root))
  {
    if r >= 4.0 {
      Doubles(d, r, root);
    } else if r >= UPPER {
      TakesRootUp(d, r, root);
    } else if r <= LOWER {
      Lowers(d, r, root);
    }
  }

  // ---- what one adjustment does to the distance from the goal ---------------------------------------

  ghost predicate OneStep(d: real, r: real, root: real, goal: real, next: real) {
    d >= 1.0 && r > 0.0 && r * d == goal && IsRoot(root, r) && Moves(d, r, root, next)
  }

  lemma TickIsOneStep(d: real, w: Window, goal: real)
    requires d >= 1.0 && SteadyWindow(d, w, goal)
    ensures OneStep(d, RatioOf(w), w.root, goal, Tick(d, w, false))
  {
    RatioPositive(w.shares, w.elapsed, w.expected);
    AfterMoves(d, RatioOf(w), w.root);
  }

  lemma RatioBounds(d: real, r: real, goal: real, bound: real)
    requires d >= 1.0 && r * d == goal
    ensures r < bound <==> goal < bound * d
    ensures r <= bound <==> goal <= bound * d
  {
    Times(r, bound, d);
  }

  lemma LowersProperly(d: real, step: real, scaled: real)
    requires d >= 1.0 && 0.5 <= step < 0.87 && scaled == d * step
    ensures 0.5 * d <= scaled < 0.87 * d
  {
    assert d * (step - 0.5) >= 0.0;
    assert d * (0.87 - step) > 0.0;
  }

  lemma RaisesProperly(d: real, root: real, scaled: real)
    requires d >= 1.0 && 1.11 < root <= 2.0 && scaled == d * root
    ensures 1.11 * d < scaled <= 2.0 * d
  {
    assert d * (root - 1.11) > 0.0;
    assert d * (2.0 - root) >= 0.0;
  }

  // The controller leaves the difficulty alone exactly when it is settled.
  lemma UnchangedIffSettled(d: real, r: real, root: real, goal: real, next: real)
    requires OneStep(d, r, root, goal, next)
    ensures next == d <==> Settled(d, goal)
  {
    RatioBounds(d, r, goal, LOWER);
    RatioBounds(d, r, goal, UPPER);
    if UPPER <= r <= 4.0 {
      RaisesProperly(d, root, next);
    } else if r <= LOWER {
      LowersProperly(d, Step(root), d * Step(root));
    }
  }

  // The step never overshoots: the geometric mean of difficulty and goal lies between them.
  lemma RootLiesBetween(d: real, r: real, root: real, goal: real, mean: real)
    requires d >= 1.0 && r * d == goal && IsRoot(root, r) && mean == d * root
    ensures root >= 1.0 ==> mean <= goal
    ensures root <= 1.0 ==> goal <= mean
  {
    RootTimes(d, r, root, mean);
    assert mean >= 0.0;
    if root >= 1.0 {
      assert (root - 1.0) * mean >= 0.0;
    } else {
      assert (1.0 - root) * mean >= 0.0;
    }
  }

  lemma LoweredAboveGoal(d: real, r: real, root: real, goal: real, scaled: real)
    requires d >= 1.0 && r * d == goal && IsRoot(root, r) && root < 1.0 && scaled == d * Step(root)
    ensures goal <= d * root <= scaled
  {
    RootLiesBetween(d, r, root, goal, d * root);
    Times(root, Step(root), d);
  }

  // One step stays above the floor, moves by at most a factor of two, towards the goal, and never past it.
  lemma StepNeverCrosses(d: real, r: real, root: real, goal: real, next: real)
    requires OneStep(d, r, root, goal, next)
    ensures next >= 1.0
    ensures 0.5 * d <= next <= 2.0 * d
    ensures d <= goal ==> d <= next <= goal
    ensures goal <= d ==> goal <= next <= d
  {
    RatioBounds(d, r, goal, 1.0);
    if r >= 4.0 {
      RatioBounds(d, r, goal, 4.0);
    } else if r >= UPPER {
      RaisesProperly(d, root, next);
      RootLiesBetween(d, r, root, goal, next);
    } else if r <= LOWER {
      var scaled := d * Step(root);
      LowersProperly(d, Step(root), scaled);
      LoweredAboveGoal(d, r, root, goal, scaled);
    }
  }

  // ---- large ratios: one doubling or halving per step ----------------------------------------------

  // a is at most 4 * 2^n times b.
  predicate Reach(a: real, b: real, n: nat)
    decreases n
  {
    if n == 0 then a <= 4.0 * b else Reach(a, 2.0 * b, n - 1)
  }

  lemma {:induction false} ReachIsPow2(a: real, b: real, n: nat)
    ensures Reach(a, b, n) <==> a <= 4.0 * (Pow2(n) * b)
    decreases n
  {
    if n > 0 {
      ReachIsPow2(a, 2.0 * b, n - 1);
      Regroup(Pow2(n - 1), b);
    }
  }

  lemma Regroup(p: real, b: real)
    ensures p * (2.0 * b) == 2.0 * p * b
  {
  }

  lemma {:induction false} ReachHalf(a: real, b: real, n: nat)
    requires Reach(a, 2.0 * b, n)
    ensures Reach(0.5 * a, b, n)
    decreases n
  {
    if n > 0 {
      ReachHalf(a, 2.0 * b, n - 1);
    }
  }

  lemma {:induction false} ReachBase(a: real, b: real, n: nat)
    requires a <= 4.0 * b && b >= 0.0
    ensures Reach(a, b, n)
    decreases n
  {
    if n > 0 {
      ReachBase(a, 2.0 * b, n - 1);
    }
  }

  // The step from far away: a doubling from far below, a halving from far above.
  lemma FarSteps(d: real, r: real, root: real, goal: real, next: real)
    requires OneStep(d, r, root, goal, next)
    ensures goal > 4.0 * d ==> next == 2.0 * d
    ensures d > 4.0 * goal ==> next == 0.5 * d || Settled(next, goal)
  {
    RatioBounds(d, r, goal, 4.0);
    RatioBounds(d, r, goal, 0.25);
    if r <= 0.25 && root > 0.5 {
      RootStrictlyBelow(0.5, root);
    }
  }

  ghost predicate Close(d: real, goal: real, n: nat) {
    Settled(d, goal) || (Reach(goal, d, n) && Reach(d, goal, n))
  }

  lemma StepComesCloser(d: real, goal: real, next: real, n: nat)
    requires d >= 1.0 && goal > 0.0 && Reach(goal, d, n + 1) && Reach(d, goal, n + 1)
    requires goal > 4.0 * d ==> next == 2.0 * d
    requires d > 4.0 * goal ==> next == 0.5 * d || Settled(next, goal)
    requires d <= goal ==> d <= next <= goal
    requires goal <= d ==> goal <= next <= d
    ensures Close(next, goal, n)
  {
    if !Settled(next, goal) {
      if goal <= 4.0 * next {
        ReachBase(goal, next, n);
      }
      if d > 4.0 * goal {
        ReachHalf(d, goal, n);
      } else {
        ReachBase(next, goal, n);
      }
    }
  }

  // ---- small ratios: each step takes the square root ------------------------------------------------

  predicate Near(d: real, goal: real, b: real) {
    d <= b * goal && goal <= b * d
  }

  lemma RootStep(d: real, r: real, root: real, goal: real, next: real)
    requires OneStep(d, r, root, goal, next) && 0.25 <= r <= 4.0
    ensures Settled(next, goal) || root * next == goal
  {
    RatioBounds(d, r, goal, LOWER);
    RatioBounds(d, r, goal, UPPER);
    if r >= UPPER {
      RootTimes(d, r, root, next);
    } else if r <= LOWER {
      if root < 0.5 {
        RootStrictlyBelow(root, 0.5);
      }
      RootTimes(d, r, root, d * root);
      LoweredAboveGoal(d, r, root, goal, d * root);
    }
  }

  lemma RootWithin(root: real, r: real, b: real, c: real)
    requires IsRoot(root, r) && r > 0.0 && r <= b && 1.0 <= b * r && b <= c * c && c >= 1.0
    ensures root <= c && 1.0 <= c * root
  {
    if root > c {
      RootStrictlyBelow(c, root);
    }
    if c * root < 1.0 {
      RootStrictlyBelow(c * root, 1.0);
      SquaredProduct(c, root, b, r);
    }
  }

  lemma SquaredProduct(c: real, root: real, b: real, r: real)
    requires root * root == r && r > 0.0 && b <= c * c
    ensures b * r <= (c * root) * (c * root)
  {
    assert (c * root) * (c * root) == c * c * r;
    assert (c * c - b) * r >= 0.0;
  }

  lemma NearRatio(d: real, r: real, goal: real, b: real)
    requires d >= 1.0 && r > 0.0 && r * d == goal && b > 0.0
    ensures Near(d, goal, b) <==> r <= b && 1.0 <= b * r
  {
    Times(r, b, d);
    Times(1.0, b * r, d);
    assert b * goal == b * r * d;
  }

  lemma QuarterToFour(r: real, b: real)
    requires r > 0.0 && 1.0 <= b <= 4.0 && r <= b && 1.0 <= b * r
    ensures 0.25 <= r <= 4.0
  {
    assert (4.0 - b) * r >= 0.0;
    assert (4.0 - b) * r == 4.0 * r - b * r;
  }

  lemma NearAfterRoot(d: real, r: real, root: real, goal: real, next: real, b: real, c: real)
    requires d >= 1.0 && r > 0.0 && IsRoot(root, r) && r <= b && 1.0 <= b * r && b <= c * c && c >= 1.0
    requires next >= 1.0 && root * next == goal
    ensures Near(next, goal, c)
  {
    RootWithin(root, r, b, c);
    NearRatio(next, root, goal, c);
  }

  // One square-root step: within a factor b of the goal before, within its square root after.
  lemma RootStepComesNearer(d: real, r: real, root: real, goal: real, next: real, b: real, c: real)
    requires OneStep(d, r, root, goal, next) && goal > 0.0
    requires Near(d, goal, b) && 1.0 <= b <= 4.0 && b <= c * c && c >= 1.0
    ensures Settled(next, goal) || Near(next, goal, c)
  {
    NearRatio(d, r, goal, b);
    QuarterToFour(r, b);
    RootStep(d, r, root, goal, next);
    if root * next == goal {
      StepNeverCrosses(d, r, root, goal, next);
      NearAfterRoot(d, r, root, goal, next, b, c);
    }
  }

  // ---- whole runs -------------------------------------------------------------------------------------

  lemma DiffStep(d0: real, ws: seq<Window>, k: nat)
    requires k < |ws|
    ensures Diff(d0, ws, k + 1) == Tick(Diff(d0, ws, k), ws[k], false)
  {
    assert ws[..k + 1][..k] == ws[..k];
  }

  lemma StepOfRun(d0: real, ws: seq<Window>, goal: real, k: nat) returns (r: real, root: real)
    requires Steady(d0, ws, goal) && k < |ws| && Diff(d0, ws, k) >= 1.0
    ensures OneStep(Diff(d0, ws, k), r, root, goal, Diff(d0, ws, k + 1))
  {
    DiffStep(d0, ws, k);
    TickIsOneStep(Diff(d0, ws, k), ws[k], goal);
    r, root := RatioOf(ws[k]), ws[k].root;
  }

  // Along the whole run the difficulty stays at or above 1, moves monotonically towards the goal and
  // never crosses it.
  lemma {:induction false} RunNeverCrosses(d0: real, ws: seq<Window>, goal: real, k: nat)
    requires Steady(d0, ws, goal) && d0 >= 1.0 && k <= |ws|
    ensures Diff(d0, ws, k) >= 1.0
    ensures d0 <= goal ==> d0 <= Diff(d0, ws, k) <= goal
    ensures goal <= d0 ==> goal <= Diff(d0, ws, k) <= d0
    decreases k
  {
    if k > 0 {
      RunNeverCrosses(d0, ws, goal, k - 1);
      var r, root := StepOfRun(d0, ws, goal, k - 1);
      StepNeverCrosses(Diff(d0, ws, k - 1), r, root, goal, Diff(d0, ws, k));
    }
  }

  // Every step of the run moves towards the goal, by at most a factor of two, and moves at all exactly
  // when the difficulty is not settled.
  lemma RunSteps(d0: real, ws: seq<Window>, goal: real, k: nat)
    requires Steady(d0, ws, goal) && d0 >= 1.0 && k < |ws|
    ensures var d, next := Diff(d0, ws, k), Diff(d0, ws, k + 1);
      && 0.5 * d <= next <= 2.0 * d
      && (d <= goal ==> d <= next <= goal)
      && (goal <= d ==> goal <= next <= d)
      && (next == d <==> Settled(d, goal))
      && (goal > 4.0 * d ==> next == 2.0 * d)
      && (d > 4.0 * goal ==> next == 0.5 * d || Settled(next, goal))
  {
    RunNeverCrosses(d0, ws, goal, k);
    var r, root := StepOfRun(d0, ws, goal, k);
    var d, next := Diff(d0, ws, k), Diff(d0, ws, k + 1);
    StepNeverCrosses(d, r, root, goal, next);
    UnchangedIffSettled(d, r, root, goal, next);
    FarSteps(d, r, root, goal, next);
  }

  lemma {:induction false} StaysSettled(d0: real, ws: seq<Window>, goal: real, k: nat, j: nat)
    requires Steady(d0, ws, goal) && d0 >= 1.0 && k <= j <= |ws|
    requires Settled(Diff(d0, ws, k), goal)
    ensures Diff(d0, ws, j) == Diff(d0, ws, k)
    decreases j
  {
    if k < j {
      StaysSettled(d0, ws, goal, k, j - 1);
      RunSteps(d0, ws, goal, j - 1);
    }
  }

  // Each early step halves how far the difficulty is from the goal.
  lemma {:induction false} GapHalves(d0: real, ws: seq<Window>, goal: real, n: nat, k: nat)
    requires Steady(d0, ws, goal) && d0 >= 1.0 && goal > 0.0 && k <= n && k <= |ws|
    requires Reach(goal, d0, n) && Reach(d0, goal, n)
    ensures Close(Diff(d0, ws, k), goal, n - k)
    decreases k
  {
    if k > 0 {
      GapHalves(d0, ws, goal, n, k - 1);
      GapStep(d0, ws, goal, n - k, k - 1);
    }
  }

  lemma GapStep(d0: real, ws: seq<Window>, goal: real, n: nat, k: nat)
    requires Steady(d0, ws, goal) && d0 >= 1.0 && goal > 0.0 && k < |ws|
    requires Close(Diff(d0, ws, k), goal, n + 1)
    ensures Close(Diff(d0, ws, k + 1), goal, n)
  {
    var d, next := Diff(d0, ws, k), Diff(d0, ws, k + 1);
    RunNeverCrosses(d0, ws, goal, k);
    RunSteps(d0, ws, goal, k);
    if !Settled(d, goal) {
      StepComesCloser(d, goal, next, n);
    }
  }

  lemma RunComesNearer(d0: real, ws: seq<Window>, goal: real, k: nat, b: real, c: real)
    requires Steady(d0, ws, goal) && d0 >= 1.0 && goal > 0.0 && k < |ws|
    requires 1.0 <= b <= 4.0 && b <= c * c && c >= 1.0
    requires Settled(Diff(d0, ws, k), goal) || Near(Diff(d0, ws, k), goal, b)
    ensures Settled(Diff(d0, ws, k + 1), goal) || Near(Diff(d0, ws, k + 1), goal, c)
  {
    RunNeverCrosses(d0, ws, goal, k);
    if Settled(Diff(d0, ws, k), goal) {
      RunSteps(d0, ws, goal, k);
    } else {
      var r, root := StepOfRun(d0, ws, goal, k);
      RootStepComesNearer(Diff(d0, ws, k), r, root, goal, Diff(d0, ws, k + 1), b, c);
    }
  }

  /**
   Convergence: when the starting difficulty is within a factor 4 * 2^n of the goal, n doublings or
   halvings and three square-root steps settle it, and it never changes again.
   */
  lemma Converges(d0: real, ws: seq<Window>, goal: real, n: nat)
    requires Steady(d0, ws, goal) && d0 >= 1.0 && goal > 0.0 && n + 3 <= |ws|
    requires goal <= 4.0 * (Pow2(n) * d0) && d0 <= 4.0 * (Pow2(n) * goal)
    ensures Settled(Diff(d0, ws, n + 3), goal)
    ensures forall j :: n + 3 <= j <= |ws| ==> Diff(d0, ws, j) == Diff(d0, ws, n + 3)
  {
    ReachIsPow2(goal, d0, n);
    ReachIsPow2(d0, goal, n);
    SettlesInTime(d0, ws, goal, n);
    forall j | n + 3 <= j <= |ws|
      ensures Diff(d0, ws, j) == Diff(d0, ws, n + 3)
    {
      StaysSettled(d0, ws, goal, n + 3, j);
    }
  }

  lemma SettlesInTime(d0: real, ws: seq<Window>, goal: real, n: nat)
    requires Steady(d0, ws, goal) && d0 >= 1.0 && goal > 0.0 && n + 3 <= |ws|
    requires Reach(goal, d0, n) && Reach(d0, goal, n)
    ensures Settled(Diff(d0, ws, n + 3), goal)
  {
    GapHalves(d0, ws, goal, n, n);
    RunComesNearer(d0, ws, goal, n, 4.0, 2.0);
    LastTwoRoots(d0, ws, goal, n + 1);
  }

  lemma LastTwoRoots(d0: real, ws: seq<Window>, goal: real, k: nat)
    requires Steady(d0, ws, goal) && d0 >= 1.0 && goal > 0.0 && k + 2 <= |ws|
    requires Settled(Diff(d0, ws, k), goal) || Near(Diff(d0, ws, k), goal, 2.0)
    ensures Settled(Diff(d0, ws, k + 2), goal)
  {
    RunComesNearer(d0, ws, goal, k, 2.0, 1.42);
    LastRoot(d0, ws, goal, k + 1);
  }

  lemma LastRoot(d0: real, ws: seq<Window>, goal: real, k: nat)
    requires Steady(d0, ws, goal) && d0 >= 1.0 && goal > 0.0 && k + 1 <= |ws|
    requires Settled(Diff(d0, ws, k), goal) || Near(Diff(d0, ws, k), goal, 1.42)
    ensures Settled(Diff(d0, ws, k + 1), goal)
  {
    RunComesNearer(d0, ws, goal, k, 1.42, 1.2);
    RunNeverCrosses(d0, ws, goal, k + 1);
  }

  // Some number of halvings is always enough.
  lemma {:induction false} EnoughHalvings(x: real) returns (n: nat)
    ensures x <= Pow2(n)
    decreases x.Floor
  {
    if x <= 1.0 {
      n := 0;
    } else {
      var m := EnoughHalvings(x / 2.0);
      n := m + 1;
    }
  }

  // So every start and every goal converge: `Converges` applies for some n.
  lemma SomeBoundApplies(d0: real, goal: real) returns (n: nat)
    requires d0 >= 1.0 && goal > 0.0
    ensures goal <= 4.0 * (Pow2(n) * d0) && d0 <= 4.0 * (Pow2(n) * goal)
  {
    n := EnoughHalvings(goal + d0 / goal);
    BoundsBoth(d0, goal, d0 / goal, Pow2(n));
  }

  lemma BoundsBoth(d0: real, goal: real, q: real, p: real)
    requires d0 >= 1.0 && goal > 0.0 && q > 0.0 && q * goal == d0 && goal + q <= p
    ensures goal <= 4.0 * (p * d0) && d0 <= 4.0 * (p * goal)
  {
    assert (d0 - 1.0) * p >= 0.0;
    assert (p - q) * goal >= 0.0;
  }

  // Difficulties below 1 are out of reach: every run starts at a port seed, and no step goes below 1.
  lemma {:induction false} DifficultyAtLeastOne(raw: nat, clamp: bool, ws: seq<Window>)
    ensures Ticks(ClampSeed(raw, clamp), ws, clamp) >= 1.0
  {
    if ws == [] {
      if raw > 0 && clamp {
        var n := FloorPow2IsPow2(raw as real);
        Pow2AtLeastOne(n);
      }
    } else {
      DifficultyAtLeastOne(raw, clamp, ws[..|ws| - 1]);
      CandidateAtLeastOne(Ticks(ClampSeed(raw, clamp), ws[..|ws| - 1], clamp), MAX_DOWN, clamp);
      CandidateAtLeastOne(Ticks(ClampSeed(raw, clamp), ws[..|ws| - 1], clamp),
                          Step(ws[|ws| - 1].root), clamp);
    }
  }

  lemma CandidateAtLeastOne(current: real, step: real, clamp: bool)
    ensures Candidate(current, step, clamp) >= 1.0
  {
    RoundedAtLeastOne(current, Max(current * step, 1.0));
  }

  lemma RoundedAtLeastOne(current: real, next: real)
    ensures ClampTowards(current, next) >= 1.0
  {
    if next > 0.0 {
      CeilAtLeastOne(next);
    }
    if next >= 1.0 {
      var n := FloorPow2IsPow2(next);
      Pow2AtLeastOne(n);
    }
  }

  lemma {:induction false} CeilAtLeastOne(x: real)
    requires x > 0.0
    ensures CeilPow2(x) >= 1.0
    decreases x.Floor
  {
    if x > 1.0 {
      CeilAtLeastOne(x / 2.0);
    }
  }

  // ---- difficulties below 1 ---------------------------------------------------------------------------

  // A step towards the goal that does not pass it.
  ghost predicate Towards(d: real, next: real, goal: real) {
    (d <= goal ==> d <= next <= goal) && (goal <= d ==> goal <= next <= d)
  }

  // Below 1 the floor would make a step jump over the goal.
  lemma BelowOneCrosses()
    ensures IsRoot(1.5, 2.25) && 2.25 * 0.1 == 0.225
    ensures After(0.1, 2.25, 1.5) == 1.0 > 0.225 > 0.1
  {
  }

  lemma DecideBelowOne(d: real, next: real)
    requires 0.0 < d < 1.0 <= next
    ensures Decide(d, next) == if next - d < 0.10 then None else Some(next)
  {
    assert (next - d) / 1.0 == next - d;
  }

  lemma ScaledDown(d: real, step: real)
    requires 0.0 < d < 1.0 && step <= 1.0
    ensures d * step < 1.0
  {
    assert d * (1.0 - step) >= 0.0;
  }

  // The raised difficulty before the floor lies between the difficulty and the goal.
  lemma RaisedWithinGoal(d: real, r: real, root: real, goal: real)
    requires d > 0.0 && r * d == goal && IsRoot(root, r) && r >= UPPER
    ensures root > 1.0 && d < d * Step(root) <= goal
  {
    RootAbove(root, r, 1.11);
    Times(1.0, Step(root), d);
    RootGrows(root);
    Times(Step(root), r, d);
  }

  lemma RootGrows(root: real)
    requires root > 1.0
    ensures root <= root * root
  {
    assert root * (root - 1.0) >= 0.0;
  }

  lemma InBand(d: real, r: real, goal: real)
    requires d > 0.0 && r * d == goal
    ensures LOWER < r < UPPER <==> LOWER * d < goal < UPPER * d
  {
    Times(LOWER, r, d);
    Times(r, UPPER, d);
  }

  lemma FloorBelowOne(d: real, r: real, root: real, goal: real)
    requires 0.0 < d < 1.0 && r > 0.0 && r * d == goal && IsRoot(root, r)
    ensures Towards(d, After(d, r, root), goal) <==> d > 0.9 || goal >= 1.0 || 0.75 * d < goal < 1.25 * d
  {
    Times(r, 1.0, d);
    Times(1.0, r, d);
    InBand(d, r, goal);
    if r >= UPPER {
      RaisedWithinGoal(d, r, root, goal);
      DecideBelowOne(d, Max(d * Step(root), 1.0));
    } else if r <= LOWER {
      RootBelow(root, r, 0.87);
      ScaledDown(d, Step(root));
      DecideBelowOne(d, 1.0);
    }
  }

  /**
   The exact condition for a step to go towards the goal and not past it, at any positive difficulty: the
   floor at 1 is within a tenth, or the goal is not below the floor, or the ratio is inside the band.
   */
  lemma TowardsIff(d: real, w: Window, goal: real)
    requires d > 0.0 && SteadyWindow(d, w, goal)
    ensures Towards(d, Tick(d, w, false), goal) <==> d > 0.9 || goal >= 1.0 || 0.75 * d < goal < 1.25 * d
  {
    RatioPositive(w.shares, w.elapsed, w.expected);
    var r := RatioOf(w);
    assert Tick(d, w, false) == After(d, r, w.root);
    if d < 1.0 {
      FloorBelowOne(d, r, w.root, goal);
    } else {
      TickIsOneStep(d, w, goal);
      StepNeverCrosses(d, r, w.root, goal, Tick(d, w, false));
    }
  }
}

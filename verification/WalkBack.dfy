/**
 The walk-back over earlier jobs. A share that misses the pool target of the submitted job is tried
 against the jobs issued before it, because some ASICs report a wrong job id.
 */
module WalkBack {
  import opened Wrappers
  import opened Sums
  import opened JobRing

  type Ring = map<nat, Job>

  datatype Verdict =
    | BlockCandidate(checks: nat, job: Job)
    | PoolShare(checks: nat, job: Job)
    | LowDifficulty(checks: nat)
    | Underflow

  // The inputs of one evaluation: the proof-of-work value of each job for the submitted nonce, the
  // submitted id and its job, and what the ring and the pool target are when check k reads them; jobs
  // may be added and the difficulty may change while the walk runs.
  datatype Walk = Walk(pow: Job -> nat, jobId: nat, first: Job, rings: nat -> Ring, targets: nat -> nat)

  // A job misses when its value is above the network target and not below the pool target.
  predicate Misses(w: Walk, k: nat, job: Job) {
    w.pow(job) > job.networkTarget && w.pow(job) >= w.targets(k)
  }

  // The job tried by check k, if the walk gets that far: the submitted one, then the ring's entry for
  // each id below it.
  function Tried(w: Walk, k: nat): Option<Job> {
    if k == 0 then Some(w.first)
    else if k > w.jobId then None
    else
      var slot := (w.jobId - k) % MAX_JOBS;
      if slot in w.rings(k - 1) then Some(w.rings(k - 1)[slot]) else None
  }

  ghost predicate MissedAt(w: Walk, k: nat) {
    Tried(w, k).Some? && Misses(w, k, Tried(w, k).value)
  }

  // What the walk computes, for a submitted id of at least 1: a run of misses followed by a hit, or by
  // the end of the ring, job 1, or an empty slot.
  ghost predicate WalkResult(w: Walk, v: Verdict) {
    && !v.Underflow?
    && 1 <= v.checks <= Min(w.jobId, MAX_JOBS)
    && (forall k :: 0 <= k < v.checks - 1 ==> MissedAt(w, k))
    && Tried(w, v.checks - 1).Some?
    && var job := Tried(w, v.checks - 1).value;
       match v
       case BlockCandidate(_, j) => j == job && w.pow(job) <= job.networkTarget
       case PoolShare(n, j) => j == job && job.networkTarget < w.pow(job) < w.targets(n - 1)
       case LowDifficulty(n) =>
         Misses(w, n - 1, job) && (n == Min(w.jobId, MAX_JOBS) || Tried(w, n).None?)
  }

  // The verdict for any submitted id. From id 0 only the submitted job is tried: a miss there would
  // subtract from 0, which ends the process.
  ghost predicate VerdictOf(w: Walk, v: Verdict) {
    if w.jobId >= 1 then WalkResult(w, v)
    else if Misses(w, 0, w.first) then v.Underflow?
    else v == if w.pow(w.first) <= w.first.networkTarget then BlockCandidate(1, w.first) else PoolShare(1, w.first)
  }

  lemma ExhaustedAfter300(jobId: nat, k: nat)
    requires k < jobId && k < MAX_JOBS
    ensures (jobId - k) % MAX_JOBS == (jobId % MAX_JOBS + 1) % MAX_JOBS <==> k == MAX_JOBS - 1
  {
    assert (jobId + 1) % MAX_JOBS == (jobId % MAX_JOBS + 1) % MAX_JOBS;
    NextInSlot(jobId - k);
    if (jobId - k) % MAX_JOBS == (jobId + 1) % MAX_JOBS {
      SameSlotApart(jobId - k, jobId + 1);
    }
  }

  // The loop of the submission handler. The subtraction is checked: from id 0 it would underflow,
  // which ends the process.
  method Evaluate(w: Walk) returns (v: Verdict)
    ensures VerdictOf(w, v)
    ensures v.Underflow? <==> w.jobId == 0 && Misses(w, 0, w.first)
  {
    var current, job, checks := w.jobId, w.first, 1;
    var invalidShare := false;
    while true
      invariant 1 <= checks <= MAX_JOBS
      invariant w.jobId >= 1 ==> 1 <= current && checks <= w.jobId
      invariant w.jobId == 0 ==> checks == 1
      invariant current == w.jobId - (checks - 1)
      invariant Tried(w, checks - 1) == Some(job)
      invariant forall k :: 0 <= k < checks - 1 ==> MissedAt(w, k)
      invariant invalidShare <==> checks > 1
      decreases MAX_JOBS - checks
    {
      var value := w.pow(job);
      if value <= job.networkTarget {
        return BlockCandidate(checks, job);
      }
      if value >= w.targets(checks - 1) {
        if current == w.jobId {
          invalidShare := true;
        }
        if w.jobId >= 1 {
          ExhaustedAfter300(w.jobId, checks - 1);
        }
        if current == 1 || current % MAX_JOBS == (w.jobId % MAX_JOBS + 1) % MAX_JOBS {
          break;
        }
        if current == 0 {
          return Underflow;
        }
        var slot := (current - 1) % MAX_JOBS;
        var ring := w.rings(checks - 1);
        if slot in ring {
          assert MissedAt(w, checks - 1);
          current, job, checks := current - 1, ring[slot], checks + 1;
        } else {
          break;
        }
      } else {
        invalidShare := false;
        break;
      }
    }
    v := if invalidShare then LowDifficulty(checks) else PoolShare(checks, job);
  }

  // The walk ends as low difficulty exactly when every job it tried misses both targets.
  lemma LowExactlyWhenAllMiss(w: Walk, v: Verdict)
    requires VerdictOf(w, v)
    ensures v.LowDifficulty? <==> AllTriedMiss(w, v)
  {
    if AllTriedMiss(w, v) {
      assert MissedAt(w, v.checks - 1);
    }
  }

  // Every job the walk tried misses both targets.
  ghost predicate AllTriedMiss(w: Walk, v: Verdict) {
    !v.Underflow? && forall k :: 0 <= k < v.checks ==> MissedAt(w, k)
  }

  lemma UnderflowExactly(w: Walk, v: Verdict)
    requires VerdictOf(w, v)
    ensures v.Underflow? <==> w.jobId == 0 && Misses(w, 0, w.first)
  {
  }

  // There is always one.
  lemma WalkHasVerdict(w: Walk) returns (v: Verdict)
    ensures VerdictOf(w, v)
  {
    var k, job := 0, w.first;
    while w.jobId >= 1 && Misses(w, k, job) && k + 1 < Min(w.jobId, MAX_JOBS) && Tried(w, k + 1).Some?
      invariant w.jobId >= 1 ==> k < Min(w.jobId, MAX_JOBS)
      invariant w.jobId == 0 ==> k == 0
      invariant Tried(w, k) == Some(job)
      invariant forall m :: 0 <= m < k ==> MissedAt(w, m)
      decreases MAX_JOBS - k
    {
      k, job := k + 1, Tried(w, k + 1).value;
    }
    v := if w.pow(job) <= job.networkTarget then BlockCandidate(k + 1, job)
         else if w.pow(job) < w.targets(k) then PoolShare(k + 1, job)
         else if w.jobId == 0 then Underflow
         else LowDifficulty(k + 1);
  }

  // Walks over the same jobs with the same values have the same verdict.
  lemma SameWalk(w: Walk, u: Walk, v: Verdict)
    requires VerdictOf(w, v) && forall job :: w.pow(job) == u.pow(job)
    requires w.jobId == u.jobId && w.first == u.first && w.rings == u.rings && w.targets == u.targets
    ensures VerdictOf(u, v)
  {
    assert forall k: nat :: Tried(w, k) == Tried(u, k);
    assert forall k: nat :: MissedAt(w, k) ==> MissedAt(u, k);
  }

  // The result is determined: two verdicts that fit the description are the same.
  lemma WalkResultUnique(w: Walk, u: Verdict, v: Verdict)
    requires VerdictOf(w, u) && VerdictOf(w, v)
    ensures u == v
  {
    if w.jobId >= 1 {
      NoEarlierEnd(w, u, v);
      NoEarlierEnd(w, v, u);
    }
  }

  // A hit is the first tried job that passes: all jobs tried before it miss, and it does not.
  ghost predicate FirstThatPasses(w: Walk, n: nat, job: Job) {
    && Tried(w, n) == Some(job) && !Misses(w, n, job)
    && forall k :: 0 <= k < n ==> MissedAt(w, k)
  }

  lemma HitIsFirstThatPasses(w: Walk, v: Verdict)
    requires VerdictOf(w, v) && (v.BlockCandidate? || v.PoolShare?)
    ensures v.checks >= 1 && FirstThatPasses(w, v.checks - 1, v.job)
  {
  }

  lemma NoEarlierEnd(w: Walk, u: Verdict, v: Verdict)
    requires w.jobId >= 1 && WalkResult(w, u) && WalkResult(w, v)
    ensures u.checks >= v.checks
  {
    var n := u.checks;
    assert n < v.checks ==> MissedAt(w, n - 1) && (n < v.checks - 1 ==> MissedAt(w, n));
  }

  // No slot is tried twice and no id below 1 is tried.
  lemma TriedSlotsDistinct(w: Walk, v: Verdict, i: nat, j: nat)
    requires w.jobId >= 1 && WalkResult(w, v) && i < j < v.checks
    ensures w.jobId - j >= 1
    ensures (w.jobId - i) % MAX_JOBS != (w.jobId - j) % MAX_JOBS
  {
    if (w.jobId - i) % MAX_JOBS == (w.jobId - j) % MAX_JOBS {
      SameSlotApart(w.jobId - j, w.jobId - i);
    }
  }

  // The slots a walk from `jobId` comes to: all of them, or those of the ids down to 1.
  predicate OnTheWay(jobId: nat, slot: nat) {
    slot < MAX_JOBS && (jobId >= MAX_JOBS || 1 <= slot <= jobId)
  }

  predicate MissesSlot(w: Walk, ring: Ring, target: nat, slot: nat)
    requires slot in ring
  {
    w.pow(ring[slot]) > ring[slot].networkTarget && w.pow(ring[slot]) >= target
  }

  // Against a full ring that stands still and a fixed target, the share is of low difficulty exactly
  // when no job on the way accepts it; from an id of at least 300 that is the whole ring.
  lemma FullRingIsCovered(w: Walk, v: Verdict, ring: Ring, target: nat)
    requires w.jobId >= 1 && WalkResult(w, v)
    requires forall k: nat :: w.rings(k) == ring && w.targets(k) == target
    requires forall slot: nat :: slot in ring <==> slot < MAX_JOBS
    requires w.first == ring[w.jobId % MAX_JOBS]
    ensures v.LowDifficulty? <==> forall slot: nat :: OnTheWay(w.jobId, slot) ==> MissesSlot(w, ring, target, slot)
  {
    if v.LowDifficulty? {
      LowCoversAll(w, v, ring);
      forall slot: nat | OnTheWay(w.jobId, slot)
        ensures MissesSlot(w, ring, target, slot)
      {
        var k := StepOfSlot(w.jobId, slot);
        assert MissedAt(w, k);
        TriedAt(w, ring, k);
      }
    } else {
      var k := v.checks - 1;
      TriedAt(w, ring, k);
      SlotOnTheWay(w.jobId, k);
      assert !MissesSlot(w, ring, target, (w.jobId - k) % MAX_JOBS);
    }
  }

  lemma LowCoversAll(w: Walk, v: Verdict, ring: Ring)
    requires w.jobId >= 1 && WalkResult(w, v) && v.LowDifficulty?
    requires forall k: nat :: w.rings(k) == ring
    requires forall slot: nat :: slot in ring <==> slot < MAX_JOBS
    ensures v.checks == Min(w.jobId, MAX_JOBS)
  {
    if v.checks <= w.jobId {
      FullRingTried(w, ring, v.checks);
    }
  }

  lemma TriedAt(w: Walk, ring: Ring, k: nat)
    requires forall k: nat :: w.rings(k) == ring
    requires forall slot: nat :: slot in ring <==> slot < MAX_JOBS
    requires k < w.jobId && w.first == ring[w.jobId % MAX_JOBS]
    ensures Tried(w, k) == Some(ring[(w.jobId - k) % MAX_JOBS])
  {
    if k > 0 {
      FullRingTried(w, ring, k);
    }
  }

  lemma SlotOnTheWay(jobId: nat, k: nat)
    requires k < Min(jobId, MAX_JOBS)
    ensures OnTheWay(jobId, (jobId - k) % MAX_JOBS)
  {
  }

  lemma StepOfSlot(jobId: nat, slot: nat) returns (k: nat)
    requires jobId >= 1 && OnTheWay(jobId, slot)
    ensures k < Min(jobId, MAX_JOBS) && (jobId - k) % MAX_JOBS == slot
  {
    if jobId >= MAX_JOBS {
      k := (jobId - slot) % MAX_JOBS;
      SlotOfStep(jobId, slot, k);
    } else {
      k := jobId - slot;
    }
  }

  lemma FullRingTried(w: Walk, ring: Ring, k: nat)
    requires 1 <= k <= w.jobId && w.rings(k - 1) == ring
    requires forall slot: nat :: slot in ring <==> slot < MAX_JOBS
    ensures Tried(w, k) == Some(ring[(w.jobId - k) % MAX_JOBS])
  {
  }

  lemma SlotOfStep(jobId: nat, slot: nat, k: nat)
    requires slot < MAX_JOBS <= jobId && k == (jobId - slot) % MAX_JOBS
    ensures (jobId - k) % MAX_JOBS == slot
  {
    assert jobId - k == (jobId - slot) / MAX_JOBS * MAX_JOBS + slot;
  }
}

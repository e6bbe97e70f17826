/** The per-client job ring: 300 slots standing in for an unbounded log of issued jobs. */
module JobRing {
  import opened Wrappers

  const MAX_JOBS: nat := 300

  // A mining job: its header, the network target its header bits stand for, and its DAA score.
  datatype Job = Job(header: nat, networkTarget: nat, daa: nat)

  // The newest id in 1..issued that shares the slot of `id`, or 0 if there is none.
  ghost function NewestInSlot(issued: nat, id: nat): nat {
    if issued == 0 then 0
    else if issued % MAX_JOBS == id % MAX_JOBS then issued
    else NewestInSlot(issued - 1, id)
  }

  lemma {:induction false} NewestInSlotIsNewest(issued: nat, id: nat)
    ensures var m := NewestInSlot(issued, id);
            && m <= issued
            && (m > 0 ==> m % MAX_JOBS == id % MAX_JOBS)
            && forall n :: m < n <= issued ==> n % MAX_JOBS != id % MAX_JOBS
  {
    if issued > 0 && issued % MAX_JOBS != id % MAX_JOBS {
      NewestInSlotIsNewest(issued - 1, id);
    }
  }

  lemma SameSlotApart(a: nat, b: nat)
    requires a < b && a % MAX_JOBS == b % MAX_JOBS
    ensures a + MAX_JOBS <= b
  {
  }

  lemma NextInSlot(id: nat)
    ensures (id + MAX_JOBS) % MAX_JOBS == id % MAX_JOBS
  {
  }

  // Exactly the last 300 issued ids still stand for themselves.
  lemma OwnSlotExactlyForLast300(issued: nat, id: nat)
    requires id >= 1
    ensures NewestInSlot(issued, id) == id <==> id <= issued < id + 300
  {
    NewestInSlotIsNewest(issued, id);
    NextInSlot(id);
    var m := NewestInSlot(issued, id);
    if id <= issued && m > id {
      SameSlotApart(id, m);
    }
  }

  // What a lookup returns, in terms of the log of all jobs ever issued (the job with id i is at i - 1).
  ghost function Lookup(log: seq<Job>, id: nat): Option<Job> {
    NewestInSlotIsNewest(|log|, id);
    var m := NewestInSlot(|log|, id);
    if m == 0 then None else Some(log[m - 1])
  }

  // The ring refines the log: an id among the last 300 finds its own job; an older id finds the job
  // that took over its slot, which is why a lookup does not prove that the id is current.
  lemma LookupRefinesLog(log: seq<Job>, id: nat)
    requires 1 <= id <= |log|
    ensures var n := NewestInSlot(|log|, id);
            && id <= n <= |log| < n + MAX_JOBS && n % MAX_JOBS == id % MAX_JOBS
            && Lookup(log, id) == Some(log[n - 1])
            && (n == id <==> |log| < id + MAX_JOBS)
  {
    OwnSlotExactlyForLast300(|log|, id);
    NewestInSlotIsNewest(|log|, id);
    NextInSlot(NewestInSlot(|log|, id));
  }

  // Id 0 is never issued: looking it up finds the job of slot 0, once 300 jobs have been issued.
  lemma LookupOfZero(log: seq<Job>)
    ensures Lookup(log, 0).Some? <==> |log| >= 300
  {
    NewestInSlotIsNewest(|log|, 0);
    SlotZero(NewestInSlot(|log|, 0), |log|);
  }

  lemma SlotZero(m: nat, issued: nat)
    requires m <= issued && (m > 0 ==> m % MAX_JOBS == 0)
    requires forall n :: m < n <= issued ==> n % MAX_JOBS != 0
    ensures m > 0 <==> issued >= MAX_JOBS
  {
    assert MAX_JOBS % MAX_JOBS == 0;
  }

  // The slots of the ring after a log of issued jobs.
  ghost function RingOf(log: seq<Job>): map<nat, Job> {
    map slot: nat | slot < MAX_JOBS && Lookup(log, slot).Some? :: Lookup(log, slot).value
  }

  lemma RingLooksUp(log: seq<Job>, id: nat)
    ensures Lookup(log, id) == if id % MAX_JOBS in RingOf(log) then Some(RingOf(log)[id % MAX_JOBS]) else None
  {
    SameSlot(|log|, id);
  }

  // Slot contents: the newest job issued into the slot, under its id.
  ghost predicate SlotOk(jobs: map<nat, Job>, jobIds: map<nat, nat>, log: seq<Job>, slot: nat) {
    var m := NewestInSlot(|log|, slot);
    && m <= |log|
    && (slot in jobs <==> m > 0) && (slot in jobIds <==> m > 0)
    && (m > 0 ==> jobs[slot] == log[m - 1] && jobIds[slot] == m)
  }

  lemma AddKeepsSlot(jobs: map<nat, Job>, jobIds: map<nat, nat>, log: seq<Job>, job: Job, slot: nat)
    requires slot < MAX_JOBS && SlotOk(jobs, jobIds, log, slot)
    ensures var at := (|log| + 1) % MAX_JOBS;
            SlotOk(jobs[at := job], jobIds[at := |log| + 1], log + [job], slot)
  {
  }

  class MiningState {
    var jobs: map<nat, Job>
    var jobIds: map<nat, nat>
    var counter: nat
    ghost var log: seq<Job>

    ghost predicate Valid()
      reads this
    {
      counter == |log| && forall slot :: 0 <= slot < MAX_JOBS ==> SlotOk(jobs, jobIds, log, slot)
    }

    constructor ()
      ensures Valid() && log == []
    {
      jobs, jobIds, counter, log := map[], map[], 0, [];
    }

    method AddJob(job: Job) returns (id: nat)
      requires Valid()
      modifies this
      ensures Valid()
      ensures log == old(log) + [job] && id == |log|
    {
      ghost var at := (counter + 1) % MAX_JOBS;
      ghost var jobs', jobIds', log' := jobs[at := job], jobIds[at := counter + 1], log + [job];
      forall s | 0 <= s < MAX_JOBS
        ensures SlotOk(jobs', jobIds', log', s)
      {
        AddKeepsSlot(jobs, jobIds, log, job, s);
      }
      counter := counter + 1;
      id := counter;
      var slot := id % MAX_JOBS;
      jobs := jobs[slot := job];
      jobIds := jobIds[slot := id];
      log := log + [job];
    }

    method GetJob(id: nat) returns (job: Option<Job>)
      requires Valid()
      ensures job == Lookup(log, id)
    {
      var slot := id % MAX_JOBS;
      SameSlot(counter, id);
      assert SlotOk(jobs, jobIds, log, slot);
      job := if slot in jobs then Some(jobs[slot]) else None;
    }

    method GetJobIdAtSlot(slot: nat) returns (id: Option<nat>)
      requires Valid()
      ensures id == if NewestInSlot(|log|, slot) == 0 then None else Some(NewestInSlot(|log|, slot))
    {
      SameSlot(counter, slot);
      assert SlotOk(jobs, jobIds, log, slot % MAX_JOBS);
      id := if slot % MAX_JOBS in jobIds then Some(jobIds[slot % MAX_JOBS]) else None;
    }
  }

  lemma {:induction false} SameSlot(issued: nat, id: nat)
    ensures NewestInSlot(issued, id % MAX_JOBS) == NewestInSlot(issued, id)
  {
    if issued > 0 {
      SameSlot(issued - 1, id);
    }
  }
}

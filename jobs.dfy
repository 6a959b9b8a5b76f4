/** The four jobs (process slots) and their fixed layout over the code
    store and the data memory. */
module Jobs {
  import opened JavaInt
  import Memory

  const JOBS: int := 4

  /** The lifecycle state a job carries for the view layer; the engine only
      stores it and puts it back to the initial state on reset. */
  datatype JobState = JobState(ordinal: nat)

  const INITIAL_STATE: JobState := JobState(0)

  datatype Job = Job(
    id: int,
    startCodeIndex: Int32,
    codeSize: Int32,
    startMemoryIndex: Int32,
    currentAcc: Int32,
    currentIP: Int32,
    state: JobState)

  /** Where job k's code segment starts in a store of codeMax slots. */
  function CodeStart(k: int, codeMax: int): int
  {
    k * codeMax / JOBS
  }

  /** Where job k's data segment starts. */
  function MemoryStart(k: int): int
  {
    k * Memory.DATA_SIZE / JOBS
  }

  /** Job k sits at its slot: id k, segments at k quarters of the stores,
      a code size that keeps the segment inside its quarter. */
  predicate LaidOut(j: Job, k: int, codeMax: int)
  {
    j.id == k &&
    j.startCodeIndex == CodeStart(k, codeMax) &&
    0 <= j.codeSize <= codeMax / JOBS &&
    j.startMemoryIndex == MemoryStart(k)
  }

  predicate AllLaidOut(jobs: seq<Job>, codeMax: int)
  {
    |jobs| == JOBS && codeMax % JOBS == 0 && 0 <= codeMax && (JOBS - 1) * codeMax <= MAX_VALUE &&
    forall k :: 0 <= k < JOBS ==> LaidOut(jobs[k], k, codeMax)
  }

  /** With a code size divisible by JOBS, job k's code segment starts at k
      whole quarters. */
  lemma CodeStartQuarters(codeMax: int, k: int)
    requires codeMax % JOBS == 0 && 0 <= k < JOBS
    ensures CodeStart(k, codeMax) == k * (codeMax / JOBS)
  {
    var q := codeMax / JOBS;
    assert codeMax == JOBS * q;
    if k == 0 {
    } else if k == 1 {
    } else if k == 2 {
      assert k * codeMax == JOBS * (2 * q);
    } else {
      assert k * codeMax == JOBS * (3 * q);
    }
  }

  /** A laid-out job's segments stay inside the two stores. */
  lemma SegmentsInside(jobs: seq<Job>, codeMax: int, k: int)
    requires AllLaidOut(jobs, codeMax) && 0 <= k < JOBS
    ensures 0 <= jobs[k].startCodeIndex && jobs[k].startCodeIndex + jobs[k].codeSize <= codeMax
    ensures 0 <= jobs[k].startMemoryIndex && jobs[k].startMemoryIndex + Memory.DATA_SIZE / JOBS <= Memory.DATA_SIZE
  {
    assert LaidOut(jobs[k], k, codeMax);
    CodeStartQuarters(codeMax, k);
    assert codeMax == JOBS * (codeMax / JOBS);
  }

  /** Distinct laid-out jobs own disjoint segments: a lower-numbered job's
      code and data segments end no later than a higher-numbered job's begin. */
  lemma SegmentsDisjoint(jobs: seq<Job>, codeMax: int, k: int, l: int)
    requires AllLaidOut(jobs, codeMax) && 0 <= k < l < JOBS
    ensures jobs[k].startMemoryIndex + Memory.DATA_SIZE / JOBS <= jobs[l].startMemoryIndex
    ensures jobs[k].startCodeIndex + jobs[k].codeSize <= jobs[l].startCodeIndex
  {
    assert LaidOut(jobs[k], k, codeMax) && LaidOut(jobs[l], l, codeMax);
    CodeStartQuarters(codeMax, k);
    CodeStartQuarters(codeMax, l);
    var q := codeMax / JOBS;
    assert k * q + q <= l * q by {
      assert (l - k - 1) * q >= 0;
      assert l * q == k * q + q + (l - k - 1) * q;
    }
  }

  /** A job as `new Job()` and the constructor's setters leave it. */
  function NewJob(id: int, startCode: Int32, codeSize: Int32, startMemory: Int32): Job
  {
    Job(id, startCode, codeSize, startMemory, 0, 0, INITIAL_STATE)
  }

  /** `Job.reset()`: saved accumulator zero, saved instruction pointer at the
      code start, lifecycle state back to the initial one; layout unchanged. */
  function Reset(j: Job): (r: Job)
    ensures r.currentAcc == 0 && r.currentIP == j.startCodeIndex && r.state == INITIAL_STATE
    ensures r.id == j.id && r.startCodeIndex == j.startCodeIndex && r.codeSize == j.codeSize
    ensures r.startMemoryIndex == j.startMemoryIndex
  {
    j.(currentAcc := 0, currentIP := j.startCodeIndex, state := INITIAL_STATE)
  }
}

/** The job queue of the pool as a value: what a push and a pull do to it. */
module JobQueueSpec {
  datatype PullResult<T> = Nothing | Pulled(job: T, rest: seq<T>, post: bool)

  /** The job goes to the rear. */
  function Push<T>(q: seq<T>, x: T): seq<T> { q + [x] }

  /** The front job, the rest, and whether the semaphore is posted again. */
  function Pull<T>(q: seq<T>): PullResult<T> {
    if |q| == 0 then Nothing else Pulled(q[0], q[1..], |q| > 1)
  }
}

/** The same queue on the heap: jobs linked from front to rear through `prev`. */
module JobQueue {
  import JobQueueSpec

  class Job<T> {
    var prev: Job?<T>
    const work: T

    constructor (work: T)
      ensures this.work == work
    {
      this.work := work;
      prev := null;
    }
  }

  ghost function Works<T>(jobs: seq<Job<T>>): (works: seq<T>)
    ensures |works| == |jobs|
    ensures forall i :: 0 <= i < |jobs| ==> works[i] == jobs[i].work
  {
    seq(|jobs|, i requires 0 <= i < |jobs| => jobs[i].work)
  }

  class JobQueue<T> {
    var front: Job?<T>
    var rear: Job?<T>
    var len: int
    var hasJobs: bool            // the binary semaphore's value
    ghost var jobs: seq<Job<T>>  // from front to rear

    ghost predicate Valid()
      reads this, jobs
    {
      && len == |jobs|
      && (forall i, j :: 0 <= i < j < |jobs| ==>
            jobs[i] != jobs[j] && (j == i + 1 ==> jobs[i].prev == jobs[j]))
      && (if jobs == [] then front == null && rear == null
          else front == jobs[0] && rear == jobs[|jobs| - 1] && rear.prev == null)
    }

    ghost function Contents(): seq<T>
      reads this
    {
      Works(jobs)
    }

    constructor ()
      ensures Valid() && Contents() == [] && !hasJobs && jobs == []
    {
      front, rear, len, hasJobs, jobs := null, null, 0, false, [];
    }

    /** jobqueue_push under its lock. */
    method Push(job: Job<T>)
      requires Valid() && job !in jobs
      modifies this, jobs, job
      ensures Valid() && jobs == old(jobs) + [job] && hasJobs
      ensures Contents() == JobQueueSpec.Push(old(Contents()), job.work)
    {
      job.prev := null;
      match len {
        case 0 =>
          front := job;
          rear := job;
        case _ =>
          rear.prev := job;
          rear := job;
      }
      len := len + 1;
      hasJobs := true;
      jobs := jobs + [job];
    }

    /** jobqueue_pull under its lock; null when the queue is empty. */
    method Pull() returns (job: Job?<T>)
      requires Valid()
      modifies this
      ensures Valid()
      ensures match JobQueueSpec.Pull(old(Contents()))
              case Nothing => job == null && jobs == old(jobs) && hasJobs == old(hasJobs)
              case Pulled(x, rest, post) =>
                && job == old(jobs)[0] && job.work == x
                && jobs == old(jobs)[1..] && Contents() == rest
                && hasJobs == (post || old(hasJobs))
    {
      job := front;
      match len {
        case 0 =>
        case 1 =>
          front := null;
          rear := null;
          len := 0;
          jobs := [];
        case _ =>
          front := job.prev;
          len := len - 1;
          hasJobs := true;
          jobs := jobs[1..];
      }
    }

    /** One turn of the clearing loop. */
    method PullFirst() returns (work: T)
      requires Valid() && len != 0
      modifies this
      ensures Valid() && jobs == old(jobs)[1..] && work == old(Contents())[0]
      ensures Contents() == old(Contents())[1..]
    {
      var job := Pull();
      work := job.work;
    }

    lemma LenIsCount()
      requires Valid()
      ensures len == |jobs| == |Contents()|
    {
    }

    /** The assignments after the clearing loop. */
    method Reset()
      requires Valid() && len == 0
      modifies this
      ensures Valid() && jobs == [] && !hasJobs
    {
      front := null;
      rear := null;
      hasJobs := false;
      len := 0;
    }

    /** jobqueue_clear; the result lists the jobs it freed. */
    method Clear() returns (freed: seq<T>)
      requires Valid()
      modifies this
      ensures Valid() && Contents() == [] && jobs == [] && !hasJobs
      ensures freed == old(Contents())
    {
      hide Valid;
      freed := [];
      ghost var all := Contents();
      LenIsCount();
      while len != 0
        invariant Valid() && len == |jobs| == |Contents()| && |freed| <= |all|
        invariant freed == all[..|freed|] && Contents() == all[|freed|..]
        decreases |jobs|
      {
        var work := PullFirst();
        freed := freed + [work];
        LenIsCount();
      }
      Reset();
    }
  }
}

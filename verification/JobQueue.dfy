/** The job queue of the thread pool: a singly linked list, linked from the front to the rear. */
module JobQueues {

  /** A function pointer with its argument. */
  type Work = nat

  class Job {
    const work: Work
    /** The job behind this one. */
    var prev: Job?

    constructor (w: Work)
      ensures work == w && prev == null
    {
      work, prev := w, null;
    }
  }

  /** What pulling does to a queue: the job, the rest, and whether the semaphore is posted again. */
  datatype Pull = Nothing | Pulled(job: Work, rest: seq<Work>, post: bool)

  function PullFrom(q: seq<Work>): Pull {
    if q == [] then Nothing else Pulled(q[0], q[1..], |q| > 1)
  }

  function WorkOf(js: seq<Job>): (ws: seq<Work>)
    ensures |ws| == |js|
    ensures forall i | 0 <= i < |js| :: ws[i] == js[i].work
  {
    seq(|js|, i requires 0 <= i < |js| => js[i].work)
  }

  class JobQueue {
    var front: Job?
    var rear: Job?
    var len: nat
    /** The value of the binary semaphore. */
    var hasJobs: bool
    ghost var nodes: seq<Job>

    ghost predicate Valid()
      reads this, nodes
    {
      && len == |nodes|
      && (nodes == [] ==> front == null && rear == null)
      && (nodes != [] ==> front == nodes[0] && rear == nodes[|nodes| - 1] && nodes[|nodes| - 1].prev == null)
      && (forall i | 0 <= i < |nodes| - 1 :: nodes[i].prev == nodes[i + 1])
      && (forall i, j | 0 <= i < j < |nodes| :: nodes[i] != nodes[j])
    }

    ghost function Contents(): seq<Work>
      reads this
    {
      WorkOf(nodes)
    }

    constructor ()
      ensures Valid() && Contents() == [] && !hasJobs
    {
      front, rear, len, hasJobs, nodes := null, null, 0, false, [];
    }

    /** Appends a job at the rear and posts the semaphore. */
    method Push(newjob: Job)
      requires Valid() && newjob !in nodes
      modifies this, newjob, if rear == null then {} else {rear}
      ensures Valid() && nodes == old(nodes) + [newjob]
      ensures Contents() == old(Contents()) + [newjob.work] && hasJobs
    {
      newjob.prev := null;
      if len == 0 {
        front := newjob;
        rear := newjob;
      } else {
        rear.prev := newjob;
        rear := newjob;
      }
      nodes := nodes + [newjob];
      len := len + 1;
      hasJobs := true;
    }

    /** Takes the job at the front, if there is one; posts the semaphore if others are left. */
    method Pull() returns (job: Job?)
      requires Valid()
      modifies this
      ensures Valid()
      ensures match PullFrom(old(Contents()))
        case Nothing => job == null && nodes == [] && hasJobs == old(hasJobs)
        case Pulled(w, rest, post) =>
          && job != null && old(nodes) == [job] + nodes
          && job.work == w && Contents() == rest && hasJobs == (old(hasJobs) || post)
      ensures job == null <==> old(Contents()) == []
      ensures job != null ==> old(Contents()) == [job.work] + Contents()
      ensures hasJobs == (old(hasJobs) || 1 < |old(Contents())|)
    {
      job := front;
      if len == 0 {
      } else if len == 1 {
        front, rear, len := null, null, 0;
        nodes := [];
      } else {
        front := job.prev;
        len := len - 1;
        nodes := nodes[1..];
        hasJobs := true;
      }
    }

    /** Drops all jobs. */
    method Clear()
      requires Valid()
      modifies this
      ensures Valid() && Contents() == [] && !hasJobs
    {
      while len > 0
        invariant Valid()
        decreases len
      {
        var _ := Pull();
      }
      front, rear, hasJobs, len := null, null, false, 0;
    }
  }
}

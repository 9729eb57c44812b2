/**
 The thread pool as interleaved atomic steps of any number of workers, any number of threads that add
 work, and one thread that waits for all work to be done.
 */
module ThreadPool {
  import opened Wrappers
  import opened JobQueues

  /** Where a worker is in its loop. */
  datatype Worker =
    | AtSemaphore            // holds or waits for the semaphore's mutex, about to look at its value
    | Asleep                 // waits for the semaphore's condition
    | HasToken               // has reset the semaphore
    | Counted                // is counted as working, has not pulled yet
    | Posting(job: Work)     // has pulled, holds the queue's mutex, and has still to post the semaphore
    | Running(todo: Option<Work>)
    | Ran

  /** Where the waiting thread is. From `ReadLen` to its end it holds the mutex of the counter. */
  datatype Waiter = Outside | ReadLen | ReadWorking | Sleeping(signalled: bool)

  datatype State = State(
    workers: seq<Worker>,
    queue: seq<Work>,
    pushing: bool,           // a thread has appended a job, holds the queue's mutex, and has still to post
    token: bool,             // the value of the semaphore
    working: nat,
    waiter: Waiter,
    pushed: seq<Work>,       // history: all jobs ever added
    pulled: seq<Work>,       // history: all jobs ever taken out
    finished: multiset<Work>,
    target: nat)             // how many jobs had been added when the waiting thread called

  datatype Step =
    | Push(job: Work)
    | PushPost(wake: Option<nat>)
    | Try(k: nat)
    | Spurious(k: nat)
    | Count(k: nat)
    | PullStep(k: nat)
    | PullPost(k: nat, wake: Option<nat>)
    | Run(k: nat)
    | Uncount(k: nat)
    | CallWait
    | LookAtLen
    | LookAtWorking
    | Wake
    | SpuriousWake

  predicate QueueFree(s: State) {
    !s.pushing && forall k | 0 <= k < |s.workers| :: !s.workers[k].Posting?
  }

  predicate CounterFree(s: State) { s.waiter.Outside? || s.waiter.Sleeping? }

  /** A signal wakes one sleeper if there is one. */
  predicate Wakes(ws: seq<Worker>, wake: Option<nat>) {
    match wake
    case None => forall k | 0 <= k < |ws| :: !ws[k].Asleep?
    case Some(k) => k < |ws| && ws[k].Asleep?
  }

  function Woken(ws: seq<Worker>, wake: Option<nat>): seq<Worker>
    requires Wakes(ws, wake)
  {
    match wake
    case None => ws
    case Some(k) => ws[k := AtSemaphore]
  }

  predicate At(s: State, k: nat, w: Worker) { k < |s.workers| && s.workers[k] == w }

  predicate Can(s: State, t: Step) {
    match t
    case Push(_) => QueueFree(s)
    case PushPost(wake) => s.pushing && Wakes(s.workers, wake)
    case Try(k) => At(s, k, AtSemaphore)
    case Spurious(k) => At(s, k, Asleep)
    case Count(k) => At(s, k, HasToken) && CounterFree(s)
    case PullStep(k) => At(s, k, Counted) && QueueFree(s)
    case PullPost(k, wake) => k < |s.workers| && s.workers[k].Posting? && Wakes(s.workers, wake)
    case Run(k) => k < |s.workers| && s.workers[k].Running?
    case Uncount(k) => At(s, k, Ran) && CounterFree(s) && s.working > 0
    case CallWait => s.waiter == Outside
    case LookAtLen => s.waiter == ReadLen
    case LookAtWorking => s.waiter == ReadWorking
    case Wake => s.waiter == Sleeping(true)
    case SpuriousWake => s.waiter == Sleeping(false)
  }

  function Set(s: State, k: nat, w: Worker): State
    requires k < |s.workers|
  {
    s.(workers := s.workers[k := w])
  }

  function Do(s: State, t: Step): State
    requires Can(s, t)
  {
    match t
    case Push(job) => s.(queue := s.queue + [job], pushed := s.pushed + [job], pushing := true)
    case PushPost(wake) => s.(token := true, workers := Woken(s.workers, wake), pushing := false)
    case Try(k) => if s.token then Set(s, k, HasToken).(token := false) else Set(s, k, Asleep)
    case Spurious(k) => Set(s, k, AtSemaphore)
    case Count(k) => Set(s, k, Counted).(working := s.working + 1)
    case PullStep(k) =>
      (match PullFrom(s.queue)
       case Nothing => Set(s, k, Running(None))
       case Pulled(job, rest, post) =>
         Set(s, k, if post then Posting(job) else Running(Some(job))).(queue := rest, pulled := s.pulled + [job]))
    case PullPost(k, wake) =>
      s.(token := true, workers := Woken(s.workers, wake)[k := Running(Some(s.workers[k].job))])
    case Run(k) =>
      (match s.workers[k].todo
       case None => Set(s, k, Ran)
       case Some(job) => Set(s, k, Ran).(finished := s.finished + multiset{job}))
    case Uncount(k) =>
      Set(s, k, AtSemaphore).(working := s.working - 1,
        waiter := if s.working == 1 && s.waiter.Sleeping? then Sleeping(true) else s.waiter)
    case CallWait => s.(waiter := ReadLen, target := |s.pushed|)
    case LookAtLen => s.(waiter := if s.queue != [] then Sleeping(false) else ReadWorking)
    case LookAtWorking => s.(waiter := if s.working > 0 then Sleeping(false) else Outside)
    case Wake => s.(waiter := ReadLen)
    case SpuriousWake => s.(waiter := ReadLen)
  }

  /**
   The two mutexes: nobody changes the queue while another thread is about to post the semaphore, or the
   number of busy workers while the waiting thread looks at it; and the waiting thread is woken exactly when
   the last busy worker becomes idle.
   */
  lemma MutexesHold(s: State, t: Step)
    requires Can(s, t)
    ensures s.pushing || (exists k :: 0 <= k < |s.workers| && s.workers[k].Posting?) ==> Do(s, t).queue == s.queue
    ensures s.waiter == ReadLen || s.waiter == ReadWorking ==> Do(s, t).working == s.working
    ensures s.waiter == Sleeping(false) ==>
      (Do(s, t).waiter == Sleeping(true) <==> s.working == 1 && Do(s, t).working == 0)
  {
  }

  function Start(n: nat): State {
    State(seq(n, _ => AtSemaphore), [], false, false, 0, Outside, [], [], multiset{}, 0)
  }

  /** A new pool: an empty queue with its semaphore down, and idle workers on their way to it. */
  lemma StartIsIdle(n: nat)
    ensures var s := Start(n);
      && |s.workers| == n && (forall k | 0 <= k < n :: s.workers[k] == AtSemaphore)
      && s.queue == [] && !s.pushing && !s.token && s.working == 0 && s.waiter == Outside
  {
  }

  // ---- Sums over the workers ----

  function Sum(ws: seq<Worker>, f: Worker -> nat): nat {
    if ws == [] then 0 else Sum(ws[..|ws| - 1], f) + f(ws[|ws| - 1])
  }

  function Busy(w: Worker): nat {
    if w.Counted? || w.Posting? || w.Running? || w.Ran? then 1 else 0
  }

  /** Whether a worker has taken the job and not finished it. */
  function Holds(w: Worker, job: Work): nat {
    if w == Posting(job) || w == Running(Some(job)) then 1 else 0
  }

  /** How often the job is in flight. */
  function InFlight(ws: seq<Worker>, job: Work): nat {
    if ws == [] then 0 else InFlight(ws[..|ws| - 1], job) + Holds(ws[|ws| - 1], job)
  }

  lemma {:induction false} SumUpdate(ws: seq<Worker>, k: nat, w: Worker, f: Worker -> nat)
    requires k < |ws|
    ensures Sum(ws[k := w], f) + f(ws[k]) == Sum(ws, f) + f(w)
    ensures f(ws[k]) <= Sum(ws, f)
    decreases |ws|
  {
    var n := |ws| - 1;
    if k == n {
      assert ws[k := w][..n] == ws[..n];
    } else {
      assert ws[k := w][..n] == ws[..n][k := w];
      SumUpdate(ws[..n], k, w, f);
    }
  }

  lemma {:induction false} InFlightUpdate(ws: seq<Worker>, k: nat, w: Worker, job: Work)
    requires k < |ws|
    ensures InFlight(ws[k := w], job) + Holds(ws[k], job) == InFlight(ws, job) + Holds(w, job)
    decreases |ws|
  {
    var n := |ws| - 1;
    if k == n {
      assert ws[k := w][..n] == ws[..n];
    } else {
      assert ws[k := w][..n] == ws[..n][k := w];
      InFlightUpdate(ws[..n], k, w, job);
    }
  }

  lemma {:induction false} NobodyBusy(ws: seq<Worker>, job: Work)
    requires Sum(ws, Busy) == 0
    ensures InFlight(ws, job) == 0
    ensures forall k | 0 <= k < |ws| :: Busy(ws[k]) == 0
    decreases |ws|
  {
    if ws != [] { NobodyBusy(ws[..|ws| - 1], job); }
  }

  // ---- The invariant ----

  /** Jobs leave the queue in the order in which they were added. */
  ghost predicate Fifo(s: State) { s.pushed == s.pulled + s.queue }

  /** Every job taken out is in flight or finished, as often as it was taken out. */
  ghost predicate Conserved(s: State) {
    forall job :: multiset(s.pulled)[job] == InFlight(s.workers, job) + s.finished[job]
  }

  ghost predicate Counting(s: State) { s.working == Sum(s.workers, Busy) }

  /** At most one thread holds the mutex of the queue. */
  ghost predicate Exclusive(s: State) {
    && (s.pushing ==> forall k | 0 <= k < |s.workers| :: !s.workers[k].Posting?)
    && (forall k, j | 0 <= k < j < |s.workers| :: !(s.workers[k].Posting? && s.workers[j].Posting?))
  }

  /** No wakeup is lost: jobs without a token mean that a worker has the token, or that a post is under way. */
  ghost predicate TokenOut(s: State) {
    s.queue != [] && !s.token ==>
      s.pushing || exists k ::
        0 <= k < |s.workers| && (s.workers[k].HasToken? || s.workers[k].Counted? || s.workers[k].Posting?)
  }

  /** A token that can be taken is about to be looked at, if anybody sleeps. */
  ghost predicate TokenSeen(s: State) {
    s.token ==>
      || (forall k | 0 <= k < |s.workers| :: !s.workers[k].Asleep?)
      || (exists k :: 0 <= k < |s.workers| && s.workers[k].AtSemaphore?)
  }

  /** The waiting thread sleeps without a signal only while there is something to wait for. */
  ghost predicate WaiterCovered(s: State) {
    s.waiter == Sleeping(false) ==> s.queue != [] || s.working > 0
  }

  /** Once it has seen an empty queue, all jobs added before the call have been taken out. */
  ghost predicate TargetTaken(s: State) {
    && s.target <= |s.pushed|
    && (s.waiter == ReadWorking ==> s.target <= |s.pulled|)
  }

  ghost predicate Inv(s: State) {
    && Fifo(s) && Conserved(s) && Counting(s) && Exclusive(s)
    && TokenOut(s) && TokenSeen(s) && WaiterCovered(s) && TargetTaken(s)
  }

  /** The state after a list of steps, if each of them is possible in turn. */
  function Exec(s: State, steps: seq<Step>): Option<State>
  {
    if steps == [] then Some(s)
    else match Exec(s, steps[..|steps| - 1])
      case None => None
      case Some(before) =>
        var t := steps[|steps| - 1];
        if Can(before, t) then Some(Do(before, t)) else None
  }

  /** The workers a step moves. */
  lemma Moves(s: State, k: nat, w: Worker)
    requires k < |s.workers|
    ensures forall job ::
              InFlight(s.workers[k := w], job) + Holds(s.workers[k], job) == InFlight(s.workers, job) + Holds(w, job)
    ensures Sum(s.workers[k := w], Busy) + Busy(s.workers[k]) == Sum(s.workers, Busy) + Busy(w)
    ensures Busy(s.workers[k]) <= Sum(s.workers, Busy)
  {
    SumUpdate(s.workers, k, w, Busy);
    forall job
      ensures InFlight(s.workers[k := w], job) + Holds(s.workers[k], job) == InFlight(s.workers, job) + Holds(w, job)
    {
      InFlightUpdate(s.workers, k, w, job);
    }
  }

  lemma FifoKept(s: State, t: Step)
    requires Fifo(s) && Can(s, t)
    ensures Fifo(Do(s, t))
  {
  }

  lemma WokenKeeps(ws: seq<Worker>, wake: Option<nat>)
    requires Wakes(ws, wake)
    ensures |Woken(ws, wake)| == |ws|
    ensures Sum(Woken(ws, wake), Busy) == Sum(ws, Busy)
    ensures forall job :: InFlight(Woken(ws, wake), job) == InFlight(ws, job)
    ensures forall k | 0 <= k < |ws| ::
              Woken(ws, wake)[k] == ws[k] || (ws[k].Asleep? && Woken(ws, wake)[k].AtSemaphore?)
  {
    if wake.Some? {
      SumUpdate(ws, wake.value, AtSemaphore, Busy);
      forall job
        ensures InFlight(Woken(ws, wake), job) == InFlight(ws, job)
      {
        InFlightUpdate(ws, wake.value, AtSemaphore, job);
      }
    }
  }

  /** A worker moves, and the histories change by what it takes or finishes. */
  lemma ConservedMove(s: State, s': State, k: nat, w: Worker)
    requires Conserved(s) && k < |s.workers| && s'.workers == s.workers[k := w]
    requires forall job ::
      multiset(s'.pulled)[job] + s.finished[job] + Holds(s.workers[k], job) ==
      multiset(s.pulled)[job] + s'.finished[job] + Holds(w, job)
    ensures Conserved(s')
  {
    hide Holds;
    forall job
      ensures multiset(s'.pulled)[job] == InFlight(s'.workers, job) + s'.finished[job]
    {
      InFlightUpdate(s.workers, k, w, job);
    }
  }

  lemma ConservedWoken(s: State, wake: Option<nat>)
    requires Conserved(s) && Wakes(s.workers, wake)
    ensures Conserved(s.(workers := Woken(s.workers, wake)))
  {
    WokenKeeps(s.workers, wake);
  }

  lemma ConservedKept(s: State, t: Step)
    requires Conserved(s) && Can(s, t)
    ensures Conserved(Do(s, t))
  {
    hide QueueFree, InFlight, Conserved, Sum;
    match t
    case PushPost(wake) => ConservedPost(s, t);
    case PullStep(k) => ConservedPull(s, k);
    case PullPost(k, wake) => ConservedPost(s, t);
    case Run(k) => ConservedMove(s, Do(s, t), k, Ran);
    case Try(k) => ConservedIdle(s, t, k, if s.token then HasToken else Asleep);
    case Spurious(k) => ConservedIdle(s, t, k, AtSemaphore);
    case Count(k) => ConservedIdle(s, t, k, Counted);
    case Uncount(k) => ConservedIdle(s, t, k, AtSemaphore);
    case _ => SameHistories(s, Do(s, t));
  }

  /** A worker without a job moves. */
  lemma ConservedIdle(s: State, t: Step, k: nat, w: Worker)
    requires Conserved(s) && Can(s, t) && k < |s.workers| && Do(s, t).workers == s.workers[k := w]
    requires Do(s, t).pulled == s.pulled && Do(s, t).finished == s.finished
    requires !s.workers[k].Posting? && !s.workers[k].Running? && !w.Posting? && !w.Running?
    ensures Conserved(Do(s, t))
  {
    hide QueueFree, InFlight, Conserved, Sum, Can, Do;
    ConservedMove(s, Do(s, t), k, w);
  }

  lemma ConservedPost(s: State, t: Step)
    requires Conserved(s) && Can(s, t) && (t.PushPost? || t.PullPost?)
    ensures Conserved(Do(s, t))
  {
    hide QueueFree, InFlight, Conserved, Sum;
    var mid := s.(workers := Woken(s.workers, t.wake));
    ConservedWoken(s, t.wake);
    if t.PushPost? {
      SameHistories(mid, Do(s, t));
    } else {
      ConservedMove(mid, Do(s, t), t.k, Running(Some(s.workers[t.k].job)));
    }
  }

  lemma SameHistories(s: State, s': State)
    requires Conserved(s) && s'.workers == s.workers && s'.pulled == s.pulled && s'.finished == s.finished
    ensures Conserved(s')
  {
  }

  lemma ConservedPull(s: State, k: nat)
    requires Conserved(s) && Can(s, PullStep(k))
    ensures Conserved(Do(s, PullStep(k)))
  {
    hide QueueFree, InFlight, Conserved, Sum;
    var s' := Do(s, PullStep(k));
    match PullFrom(s.queue) {
      case Nothing => ConservedMove(s, s', k, Running(None));
      case Pulled(job, _, post) =>
        assert multiset(s'.pulled) == multiset(s.pulled) + multiset{job};
        ConservedMove(s, s', k, if post then Posting(job) else Running(Some(job)));
    }
  }

  lemma CountingKept(s: State, t: Step)
    requires Counting(s) && Can(s, t)
    ensures Counting(Do(s, t))
  {
    hide QueueFree, Sum;
    match t
    case PushPost(wake) => WokenKeeps(s.workers, wake);
    case Try(k) => Moves(s, k, if s.token then HasToken else Asleep);
    case Spurious(k) => Moves(s, k, AtSemaphore);
    case Count(k) => Moves(s, k, Counted);
    case PullStep(k) =>
      match PullFrom(s.queue) {
        case Nothing => Moves(s, k, Running(None));
        case Pulled(job, _, post) => Moves(s, k, if post then Posting(job) else Running(Some(job)));
      }
    case PullPost(k, wake) =>
      WokenKeeps(s.workers, wake);
      Moves(s.(workers := Woken(s.workers, wake)), k, Running(Some(s.workers[k].job)));
    case Run(k) => Moves(s, k, Ran);
    case Uncount(k) => Moves(s, k, AtSemaphore);
    case _ =>
  }

  lemma ExclusiveKept(s: State, t: Step)
    requires Exclusive(s) && Can(s, t)
    ensures Exclusive(Do(s, t))
  {
  }

  lemma TokenOutKept(s: State, t: Step)
    requires TokenOut(s) && Exclusive(s) && Can(s, t)
    ensures TokenOut(Do(s, t))
  {
    var s' := Do(s, t);
    if s'.queue != [] && !s'.token && !s'.pushing {
      match t
      case Try(k) =>
        if s.token {
          assert s'.workers[k].HasToken?;
        } else {
          var j :| 0 <= j < |s.workers| && (s.workers[j].HasToken? || s.workers[j].Counted? || s.workers[j].Posting?);
          assert s'.workers[j] == s.workers[j];
        }
      case Count(k) => assert s'.workers[k].Counted?;
      case PullStep(k) => assert s'.workers[k].Posting?;
      case Spurious(k) =>
        var j :| 0 <= j < |s.workers| && (s.workers[j].HasToken? || s.workers[j].Counted? || s.workers[j].Posting?);
        assert s'.workers[j] == s.workers[j];
      case Run(k) =>
        var j :| 0 <= j < |s.workers| && (s.workers[j].HasToken? || s.workers[j].Counted? || s.workers[j].Posting?);
        assert s'.workers[j] == s.workers[j];
      case Uncount(k) =>
        var j :| 0 <= j < |s.workers| && (s.workers[j].HasToken? || s.workers[j].Counted? || s.workers[j].Posting?);
        assert s'.workers[j] == s.workers[j];
      case _ =>
    }
  }

  lemma TokenSeenKept(s: State, t: Step)
    requires TokenSeen(s) && Can(s, t)
    ensures TokenSeen(Do(s, t))
  {
    hide QueueFree;
    var s' := Do(s, t);
    if s'.token {
      match t
      case PushPost(wake) => if wake.Some? { assert s'.workers[wake.value].AtSemaphore?; }
      case PullPost(k, wake) => if wake.Some? { assert s'.workers[wake.value].AtSemaphore?; }
      case Spurious(k) => assert s'.workers[k].AtSemaphore?;
      case Uncount(k) => assert s'.workers[k].AtSemaphore?;
      case Count(k) => SeenElsewhere(s, s', k);
      case PullStep(k) => SeenElsewhere(s, s', k);
      case Run(k) => SeenElsewhere(s, s', k);
      case _ =>
    }
  }

  /** A worker that is neither asleep nor at the semaphore, before and after, does not matter. */
  lemma SeenElsewhere(s: State, s': State, k: nat)
    requires TokenSeen(s) && s.token && k < |s.workers| == |s'.workers|
    requires forall j | 0 <= j < |s.workers| && j != k :: s'.workers[j] == s.workers[j]
    requires !s'.workers[k].Asleep? && !s.workers[k].AtSemaphore?
    ensures TokenSeen(s')
  {
    if exists j :: 0 <= j < |s.workers| && s.workers[j].AtSemaphore? {
      var j :| 0 <= j < |s.workers| && s.workers[j].AtSemaphore?;
      assert s'.workers[j].AtSemaphore?;
    }
  }

  lemma WaiterCoveredKept(s: State, t: Step)
    requires WaiterCovered(s) && Counting(s) && Can(s, t)
    ensures WaiterCovered(Do(s, t))
  {
    hide QueueFree;
    if t.PullStep? { SumUpdate(s.workers, t.k, Ran, Busy); }
  }

  lemma TargetTakenKept(s: State, t: Step)
    requires TargetTaken(s) && Fifo(s) && Can(s, t)
    ensures TargetTaken(Do(s, t))
  {
    hide QueueFree;
  }

  lemma InvKept(s: State, t: Step)
    requires Inv(s) && Can(s, t)
    ensures Inv(Do(s, t))
  {
    hide Fifo, Conserved, Counting, Exclusive, TokenOut, TokenSeen, WaiterCovered, TargetTaken, Can, Do;
    FifoKept(s, t);
    ConservedKept(s, t);
    CountingKept(s, t);
    ExclusiveKept(s, t);
    TokenOutKept(s, t);
    TokenSeenKept(s, t);
    WaiterCoveredKept(s, t);
    TargetTakenKept(s, t);
  }

  lemma {:induction false} StartCounts(n: nat, job: Work)
    ensures Sum(Start(n).workers, Busy) == 0 && InFlight(Start(n).workers, job) == 0
  {
    if n > 0 {
      StartCounts(n - 1, job);
      assert Start(n).workers[..n - 1] == Start(n - 1).workers;
    }
  }

  lemma StartInv(n: nat)
    ensures Inv(Start(n))
  {
    hide Sum, InFlight;
    forall job
      ensures InFlight(Start(n).workers, job) == 0
    {
      StartCounts(n, job);
    }
    StartCounts(n, 0);
  }

  lemma DoKeepsWorkers(s: State, t: Step)
    requires Can(s, t)
    ensures |Do(s, t).workers| == |s.workers|
  {
  }

  /** Every state that any interleaving of any length reaches satisfies the invariant. */
  lemma {:induction false} ReachableInv(n: nat, steps: seq<Step>)
    ensures match Exec(Start(n), steps) case None => true case Some(s) => Inv(s) && |s.workers| == n
    decreases |steps|
  {
    hide Inv, QueueFree, Can, Do, Sum, InFlight;
    StartInv(n);
    if steps != [] {
      ReachableInv(n, steps[..|steps| - 1]);
      var before := Exec(Start(n), steps[..|steps| - 1]);
      if before.Some? && Can(before.value, steps[|steps| - 1]) {
        InvKept(before.value, steps[|steps| - 1]);
        DoKeepsWorkers(before.value, steps[|steps| - 1]);
      }
    }
  }

  // ---- What follows for every run ----

  /**
   No wakeup is lost: while jobs are queued and the semaphore is down, some worker has its token and
   has not pulled yet, or somebody is about to post.
   */
  lemma NoLostWakeup(n: nat, steps: seq<Step>)
    requires Exec(Start(n), steps).Some?
    ensures var s := Exec(Start(n), steps).value;
      s.queue != [] && !s.token ==>
        s.pushing || exists k ::
          0 <= k < |s.workers| && (s.workers[k].HasToken? || s.workers[k].Counted? || s.workers[k].Posting?)
  {
    ReachableInv(n, steps);
  }

  // ---- What happens in a run, read off its steps ----

  /** The jobs that were added, in order. */
  function Added(steps: seq<Step>): seq<Work> {
    if steps == [] then []
    else Added(steps[..|steps| - 1]) + if steps[|steps| - 1].Push? then [steps[|steps| - 1].job] else []
  }

  /** The job that a step completes: a worker that was running it has run it. */
  function Completes(s: State, t: Step): multiset<Work> {
    if t.Run? && t.k < |s.workers| && s.workers[t.k].Running? && s.workers[t.k].todo.Some?
    then multiset{s.workers[t.k].todo.value} else multiset{}
  }

  /** The jobs that were completed by a run. */
  function Completed(n: nat, steps: seq<Step>): multiset<Work> {
    if steps == [] then multiset{}
    else
      var before := Exec(Start(n), steps[..|steps| - 1]);
      Completed(n, steps[..|steps| - 1]) +
      if before.Some? then Completes(before.value, steps[|steps| - 1]) else multiset{}
  }

  /** The job that a step takes out of the queue: a worker that had none has it afterwards. */
  function Takes(s: State, t: Step): seq<Work>
    requires Can(s, t)
  {
    if t.PullStep? then
      match Do(s, t).workers[t.k]
      case Posting(job) => [job]
      case Running(Some(job)) => [job]
      case _ => []
    else []
  }

  function Taken(n: nat, steps: seq<Step>): seq<Work> {
    if steps == [] then []
    else
      var before, t := Exec(Start(n), steps[..|steps| - 1]), steps[|steps| - 1];
      Taken(n, steps[..|steps| - 1]) + if before.Some? && Can(before.value, t) then Takes(before.value, t) else []
  }

  /** The histories that the state keeps are those of the run. */
  lemma {:induction false} HistoriesAreTrue(n: nat, steps: seq<Step>)
    requires Exec(Start(n), steps).Some?
    ensures var s := Exec(Start(n), steps).value;
      s.pushed == Added(steps) && s.pulled == Taken(n, steps) && s.finished == Completed(n, steps)
    decreases |steps|
  {
    hide QueueFree;
    if steps != [] {
      var m := |steps| - 1;
      HistoriesAreTrue(n, steps[..m]);
      HistoryStep(Exec(Start(n), steps[..m]).value, steps[m]);
    }
  }

  lemma HistoryStep(s: State, t: Step)
    requires Can(s, t)
    ensures var s' := Do(s, t);
      && s'.pushed == s.pushed + (if t.Push? then [t.job] else [])
      && s'.pulled == s.pulled + Takes(s, t)
      && s'.finished == s.finished + Completes(s, t)
  {
    hide QueueFree;
  }

  /**
   Jobs run exactly once: each that was added is queued, in flight or completed, as often as it was
   added, and they are taken out in the order in which they were added.
   */
  lemma JobsAreConserved(n: nat, steps: seq<Step>, job: Work)
    requires Exec(Start(n), steps).Some?
    ensures var s := Exec(Start(n), steps).value;
      && Added(steps) == Taken(n, steps) + s.queue
      && multiset(Added(steps))[job] == multiset(s.queue)[job] + InFlight(s.workers, job) + Completed(n, steps)[job]
  {
    hide Added, Taken, Completed, Exec;
    ReachableInv(n, steps);
    HistoriesAreTrue(n, steps);
    var s := Exec(Start(n), steps).value;
    assert multiset(s.pulled + s.queue) == multiset(s.pulled) + multiset(s.queue);
  }

  // ---- Waiting ----

  /** The thread that called when `jobs` had been added is still waiting for them, or they have been completed. */
  ghost predicate Awaited(jobs: seq<Work>, s: State) {
    || multiset(jobs) <= s.finished
    || (s.waiter != Outside && s.target == |jobs| && jobs <= s.pushed)
  }

  lemma AwaitedStart(s: State)
    requires Can(s, CallWait)
    ensures var s' := Do(s, CallWait); s'.waiter != Outside && s'.target == |s.pushed| && s'.pushed == s.pushed
  {
  }

  /** The waiting thread returns with no step but its look at the number of working threads, which is zero. */
  lemma ReturnStep(s: State, t: Step)
    requires Can(s, t) && s.waiter != Outside
    ensures var s' := Do(s, t);
      if s'.waiter != Outside then s'.target == s.target && s.pushed <= s'.pushed
      else s.waiter == ReadWorking && s.working == 0 && s'.finished == s.finished
  {
    hide QueueFree;
  }

  /** Then the jobs it has waited for have been completed. */
  lemma NothingLeft(s: State)
    requires Inv(s) && s.waiter == ReadWorking && s.working == 0
    ensures s.target <= |s.pushed| && multiset(s.pushed[..s.target]) <= s.finished
  {
    assert s.pushed[..s.target] == s.pulled[..s.target];
    assert s.pulled == s.pulled[..s.target] + s.pulled[s.target..];
    forall job
      ensures multiset(s.pushed[..s.target])[job] <= s.finished[job]
    {
      NobodyBusy(s.workers, job);
    }
  }

  lemma AwaitedNext(jobs: seq<Work>, s: State, t: Step)
    requires Inv(s) && Can(s, t) && Awaited(jobs, s)
    ensures Awaited(jobs, Do(s, t))
  {
    hide Inv, Can, Do;
    HistoryStep(s, t);
    if !(multiset(jobs) <= s.finished) {
      ReturnStep(s, t);
      if Do(s, t).waiter == Outside { NothingLeft(s); }
      assert s.pushed[..s.target] == jobs;
    }
  }

  lemma ExecLast(s: State, steps: seq<Step>)
    requires steps != [] && Exec(s, steps).Some?
    ensures var before, t := Exec(s, steps[..|steps| - 1]), steps[|steps| - 1];
      before.Some? && Can(before.value, t) && Exec(s, steps).value == Do(before.value, t)
  {
  }

  lemma {:induction false} StaysAwaited(n: nat, steps: seq<Step>, c: nat)
    requires c < |steps| && steps[c] == CallWait && Exec(Start(n), steps).Some?
    ensures Awaited(Added(steps[..c]), Exec(Start(n), steps).value)
    decreases |steps|
  {
    hide Can, Do, Inv, Added, Start, Completed, Exec, Taken;
    var m := |steps| - 1;
    ExecLast(Start(n), steps);
    var s, t := Exec(Start(n), steps[..m]).value, steps[m];
    ReachableInv(n, steps[..m]);
    if c == m {
      HistoriesAreTrue(n, steps[..m]);
      AwaitedStart(s);
    } else {
      assert steps[..m][..c] == steps[..c];
      StaysAwaited(n, steps[..m], c);
      AwaitedNext(Added(steps[..c]), s, t);
    }
  }

  /**
   Whenever the waiting thread is back from a call, every job that had been added before the step with
   which it called has been completed.
   */
  lemma WaitIsABarrier(n: nat, steps: seq<Step>, c: nat)
    requires c < |steps| && steps[c] == CallWait
    requires Exec(Start(n), steps).Some? && Exec(Start(n), steps).value.waiter == Outside
    ensures multiset(Added(steps[..c])) <= Completed(n, steps)
  {
    hide Added, Completed, Exec;
    StaysAwaited(n, steps, c);
    HistoriesAreTrue(n, steps);
  }

  // ---- Progress ----

  /** Steps that the pool takes by itself: nobody adds work, nobody starts to wait, no spurious wakeup. */
  predicate Internal(t: Step) {
    !t.Push? && !t.CallWait? && !t.Spurious? && !t.SpuriousWake?
  }

  function Weight(w: Worker): nat {
    match w
    case Asleep => 0
    case AtSemaphore => 1
    case HasToken => 8
    case Counted => 7
    case Posting(_) => 16
    case Running(_) => 6
    case Ran => 5
  }

  function WaiterWeight(w: Waiter): nat {
    match w
    case Outside => 0
    case Sleeping(signalled) => if signalled then 4 else 1
    case ReadLen => 3
    case ReadWorking => 2
  }

  function Measure(s: State): nat {
    Sum(s.workers, Weight) + 10 * |s.queue| + (if s.pushing then 10 else 0) + (if s.token then 8 else 0) +
        WaiterWeight(s.waiter)
  }

  lemma WeightWoken(ws: seq<Worker>, wake: Option<nat>)
    requires Wakes(ws, wake)
    ensures Sum(Woken(ws, wake), Weight) <= Sum(ws, Weight) + 1
  {
    if wake.Some? { SumUpdate(ws, wake.value, AtSemaphore, Weight); }
  }

  /** Every internal step makes the measure smaller, so the pool cannot be busy for ever without new work. */
  lemma StepsProgress(s: State, t: Step)
    requires Can(s, t) && Internal(t)
    ensures Measure(Do(s, t)) < Measure(s)
  {
    hide QueueFree, Sum;
    match t
    case PushPost(wake) => WeightWoken(s.workers, wake);
    case Try(k) => SumUpdate(s.workers, k, if s.token then HasToken else Asleep, Weight);
    case Count(k) => SumUpdate(s.workers, k, Counted, Weight);
    case PullStep(k) =>
      match PullFrom(s.queue) {
        case Nothing => SumUpdate(s.workers, k, Running(None), Weight);
        case Pulled(job, _, post) => SumUpdate(s.workers, k, if post then Posting(job) else Running(Some(job)), Weight);
      }
    case PullPost(k, wake) =>
      WeightWoken(s.workers, wake);
      SumUpdate(Woken(s.workers, wake), k, Running(Some(s.workers[k].job)), Weight);
    case Run(k) => SumUpdate(s.workers, k, Ran, Weight);
    case Uncount(k) => SumUpdate(s.workers, k, AtSemaphore, Weight);
    case _ =>
  }

  lemma {:induction false} RunsAreBounded(s: State, steps: seq<Step>)
    requires Exec(s, steps).Some? && forall t | t in steps :: Internal(t)
    ensures |steps| + Measure(Exec(s, steps).value) <= Measure(s)
    decreases |steps|
  {
    hide Can, Do, Measure, Internal;
    if steps != [] {
      var n := |steps| - 1;
      RunsAreBounded(s, steps[..n]);
      StepsProgress(Exec(s, steps[..n]).value, steps[n]);
    }
  }

  /** Nothing is left to do. */
  ghost predicate Quiet(s: State) {
    && s.queue == [] && !s.pushing && s.working == 0 && s.waiter == Outside
    && (forall k | 0 <= k < |s.workers| :: s.workers[k] == Asleep)
    && (forall job :: multiset(s.pushed)[job] == s.finished[job])
  }

  ghost predicate Stopped(s: State) { forall t: Step :: Internal(t) ==> !Can(s, t) }

  /** A worker that is not asleep can move, unless it waits for a mutex whose owner can move. */
  lemma StoppedWorker(s: State, k: nat)
    requires Inv(s) && Stopped(s) && k < |s.workers|
    ensures !s.pushing && s.workers[k] == Asleep && CounterFree(s)
  {
    StoppedFree(s);
    var w := s.workers[k];
    assert !Can(s, Try(k)) && !Can(s, Count(k)) && !Can(s, PullStep(k)) && !Can(s, Run(k)) && !Can(s, Uncount(k));
    SumUpdate(s.workers, k, Asleep, Busy);
  }

  /** Whoever signals finds a sleeper, if there is one. */
  lemma SomeWake(ws: seq<Worker>) returns (wake: Option<nat>)
    ensures Wakes(ws, wake)
  {
    if k: nat :| k < |ws| && ws[k].Asleep? {
      wake := Some(k);
    } else {
      wake := None;
    }
  }

  lemma StoppedFree(s: State)
    requires Stopped(s)
    ensures QueueFree(s) && CounterFree(s)
  {
    var wake := SomeWake(s.workers);
    assert !Can(s, PushPost(wake));
    forall k: nat | k < |s.workers|
      ensures !s.workers[k].Posting?
    {
      assert !Can(s, PullPost(k, wake));
    }
    assert !Can(s, LookAtLen) && !Can(s, LookAtWorking);
  }

  lemma StoppedIsQuiet(n: nat, steps: seq<Step>)
    requires n > 0 && Exec(Start(n), steps).Some? && Stopped(Exec(Start(n), steps).value)
    ensures Quiet(Exec(Start(n), steps).value)
  {
    hide Can, Do, Exec;
    ReachableInv(n, steps);
    var s := Exec(Start(n), steps).value;
    forall k: nat | k < n
      ensures !s.pushing && s.workers[k] == Asleep && CounterFree(s)
    {
      StoppedWorker(s, k);
    }
    assert s.workers[0] == Asleep;
    AllAsleep(s.workers);
    assert s.queue == [];
    CannotWake(s);
    forall job
      ensures multiset(s.pushed)[job] == s.finished[job]
    {
      NobodyBusy(s.workers, job);
      assert s.pushed == s.pulled;
    }
  }

  /**
   No deadlock: with at least one worker, the pool stops exactly when every job has finished and the
   waiting thread has returned. Then exactly the jobs that were added have been completed.
   */
  lemma NoDeadlock(n: nat, steps: seq<Step>)
    requires n > 0 && Exec(Start(n), steps).Some?
    ensures Stopped(Exec(Start(n), steps).value) <==> Quiet(Exec(Start(n), steps).value)
    ensures Stopped(Exec(Start(n), steps).value) ==> multiset(Added(steps)) == Completed(n, steps)
  {
    hide Exec, Added, Completed;
    var s := Exec(Start(n), steps).value;
    if Stopped(s) {
      StoppedIsQuiet(n, steps);
      HistoriesAreTrue(n, steps);
    }
  }

  lemma CannotWake(s: State)
    requires Stopped(s)
    ensures s.waiter != Sleeping(true)
  {
    assert !Can(s, Wake);
  }

  lemma {:induction false} AllAsleep(ws: seq<Worker>)
    requires forall k | 0 <= k < |ws| :: ws[k] == Asleep
    ensures Sum(ws, Busy) == 0
  {
    if ws != [] { AllAsleep(ws[..|ws| - 1]); }
  }

  /** The condition is needed: without workers a thread that waits for a job waits for ever. */
  lemma NoWorkersNoProgress(job: Work)
    ensures var steps := [Push(job), PushPost(None), CallWait, LookAtLen];
      && Exec(Start(0), steps).Some?
      && Exec(Start(0), steps).value.waiter == Sleeping(false)
      && Stopped(Exec(Start(0), steps).value)
  {
    var steps := [Push(job), PushPost(None), CallWait, LookAtLen];
    assert steps[..3] == [Push(job), PushPost(None), CallWait];
    assert steps[..3][..2] == [Push(job), PushPost(None)];
    assert steps[..3][..2][..1] == [Push(job)];
    assert [Push(job)][..0] == [];
    var s1 := Do(Start(0), Push(job));
    assert Exec(Start(0), [Push(job)]) == Some(s1);
    var s2 := Do(s1, PushPost(None));
    assert Exec(Start(0), [Push(job), PushPost(None)]) == Some(s2);
    var s3 := Do(s2, CallWait);
    assert Exec(Start(0), [Push(job), PushPost(None), CallWait]) == Some(s3);
    assert Exec(Start(0), steps) == Some(Do(s3, LookAtLen));
  }
}

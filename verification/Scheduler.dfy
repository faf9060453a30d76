/**
The thread-pool scheduler as a step system: one step per critical section of `queue_mutex_`
and per action outside it, for any number of workers, spawners and idle-waiters, through
construction, use and destruction.

Tasks are numbered in the order `spawn` queued them. A condition variable wakes only threads
already blocked on it; a woken thread re-evaluates its predicate under the lock. Spurious
wake-ups are allowed everywhere. The destructor holds the lock while it requests the stops.
*/
module Scheduler {

  datatype Worker =
    | LoopTest                 // about to test its stop token
    | Checking                 // about to lock and evaluate the wait predicate
    | Asleep                   // blocked in cv_.wait
    | Running(task: nat)       // counted active, about to run the task
    | Ran(task: nat)           // the task has returned, its captures are still held
    | Released                 // the task object is destroyed, the count not yet dropped
    | NotifyingIdle            // about to notify idle_cv_
    | Leaving                  // out of the loop, about to take the lock a last time
    | Exited

  /** A caller of `wait_until_idle` that is not a worker. */
  datatype Waiter = Evaluating | Blocked | Returned(spawnedThen: nat)

  datatype Teardown = InUse | Stopping(requested: nat) | StopsRequested | AllNotified

  datatype Tasks = Tasks(
    queue: seq<nat>,
    active: nat,
    spawned: nat,              // history from here on
    started: seq<nat>,         // in the order taken
    finished: nat,             // times a worker dropped the active count
    done: set<nat>)            // run and destroyed

  datatype State = State(
    tasks: Tasks,
    workers: seq<Worker>,
    stop: seq<bool>,           // each worker's stop token
    late: seq<nat>,            // history: tasks each worker took after its own stop request
    waiters: seq<Waiter>,
    owed: nat,                 // spawns that have queued their task and not yet called notify_one
    teardown: Teardown)

  datatype Step =
    | Spawn
    | NotifyOne(w: nat)
    | NotifyNobody
    | Work(w: nat)             // the action the worker's state names
    | SpuriousWorker(w: nat)
    | WaiterArrives
    | WaiterCheck(i: nat)
    | SpuriousWaiter(i: nat)
    | BeginTeardown
    | RequestStop
    | UnlockTeardown
    | NotifyAll

  function Start(threads: nat): State {
    State(Tasks([], 0, 0, [], 0, {}),
          seq(threads, _ => LoopTest), seq(threads, _ => false), seq(threads, _ => 0), [], 0, InUse)
  }

  // ---------------------------------------------------------------- steps

  predicate Shaped(s: State) {
    |s.stop| == |s.workers| == |s.late|
  }

  predicate LockFree(s: State) {
    !s.teardown.Stopping?
  }

  predicate Idle(t: Tasks) {
    t.queue == [] && t.active == 0
  }

  predicate NobodyAsleep(workers: seq<Worker>) {
    forall w :: 0 <= w < |workers| ==> !workers[w].Asleep?
  }

  predicate NeedsLock(pc: Worker) {
    pc.Checking? || pc.Released? || pc.Leaving?
  }

  predicate Enabled(s: State, step: Step) {
    && Shaped(s)
    && match step
       case Spawn => LockFree(s)
       case NotifyOne(w) => s.owed > 0 && w < |s.workers| && s.workers[w].Asleep?
       case NotifyNobody => s.owed > 0 && NobodyAsleep(s.workers)
       case Work(w) =>
         && w < |s.workers| && !s.workers[w].Asleep? && !s.workers[w].Exited?
         && (NeedsLock(s.workers[w]) ==> LockFree(s))
         && (s.workers[w].Released? ==> s.tasks.active > 0)
       case SpuriousWorker(w) => w < |s.workers| && s.workers[w].Asleep?
       case WaiterArrives => true
       case WaiterCheck(i) => LockFree(s) && i < |s.waiters| && s.waiters[i].Evaluating?
       case SpuriousWaiter(i) => i < |s.waiters| && s.waiters[i].Blocked?
       case BeginTeardown => s.teardown.InUse?
       case RequestStop => s.teardown.Stopping? && s.teardown.requested < |s.workers|
       case UnlockTeardown => s.teardown == Stopping(|s.workers|)
       case NotifyAll => s.teardown.StopsRequested?
  }

  function WakeWaiters(waiters: seq<Waiter>): (woken: seq<Waiter>)
    ensures |woken| == |waiters|
    ensures forall i :: 0 <= i < |waiters| ==> woken[i] == if waiters[i].Blocked? then Evaluating else waiters[i]
  {
    seq(|waiters|, i requires 0 <= i < |waiters| => if waiters[i].Blocked? then Evaluating else waiters[i])
  }

  function WakeWorkers(workers: seq<Worker>): (woken: seq<Worker>)
    ensures |woken| == |workers|
    ensures forall w :: 0 <= w < |workers| ==> woken[w] == if workers[w].Asleep? then Checking else workers[w]
  {
    seq(|workers|, w requires 0 <= w < |workers| => if workers[w].Asleep? then Checking else workers[w])
  }

  function NextPc(pc: Worker, stop: bool, t: Tasks): Worker {
    match pc
    case LoopTest => if stop then Leaving else Checking
    case Checking => if t.queue != [] then Running(t.queue[0]) else if stop then LoopTest else Asleep
    case Running(task) => Ran(task)
    case Ran(_) => Released
    case Released => if t.queue == [] && t.active == 1 then NotifyingIdle else LoopTest
    case NotifyingIdle => LoopTest
    case Leaving => Exited
    case _ => pc
  }

  function NextTasks(pc: Worker, t: Tasks): Tasks
    requires pc.Released? ==> t.active > 0
  {
    match pc
    case Checking =>
      if t.queue == [] then t
      else t.(queue := t.queue[1..], active := t.active + 1, started := t.started + [t.queue[0]])
    case Ran(task) => t.(done := t.done + {task})
    case Released => t.(active := t.active - 1, finished := t.finished + 1)
    case _ => t
  }

  function NextWaiters(pc: Worker, t: Tasks, waiters: seq<Waiter>): seq<Waiter> {
    if pc.NotifyingIdle? || (pc.Leaving? && Idle(t)) then WakeWaiters(waiters) else waiters
  }

  function NextLate(pc: Worker, stop: bool, t: Tasks, late: nat): nat {
    if pc.Checking? && t.queue != [] && stop then late + 1 else late
  }

  function Apply(s: State, step: Step): State
    requires Enabled(s, step)
  {
    match step
    case Spawn =>
      s.(tasks := s.tasks.(queue := s.tasks.queue + [s.tasks.spawned], spawned := s.tasks.spawned + 1),
         owed := s.owed + 1)
    case NotifyOne(w) => s.(workers := s.workers[w := Checking], owed := s.owed - 1)
    case NotifyNobody => s.(owed := s.owed - 1)
    case Work(w) =>
      var pc, stop := s.workers[w], s.stop[w];
      s.(tasks := NextTasks(pc, s.tasks),
         workers := s.workers[w := NextPc(pc, stop, s.tasks)],
         late := s.late[w := NextLate(pc, stop, s.tasks, s.late[w])],
         waiters := NextWaiters(pc, s.tasks, s.waiters))
    case SpuriousWorker(w) => s.(workers := s.workers[w := Checking])
    case WaiterArrives => s.(waiters := s.waiters + [Evaluating])
    case WaiterCheck(i) => s.(waiters := s.waiters[i := if Idle(s.tasks) then Returned(s.tasks.spawned) else Blocked])
    case SpuriousWaiter(i) => s.(waiters := s.waiters[i := Evaluating])
    case BeginTeardown => s.(teardown := Stopping(0))
    case RequestStop =>
      s.(stop := s.stop[s.teardown.requested := true], teardown := Stopping(s.teardown.requested + 1))
    case UnlockTeardown => s.(teardown := StopsRequested)
    case NotifyAll => s.(teardown := AllNotified, workers := WakeWorkers(s.workers))
  }

  // ---------------------------------------------------------------- counting workers

  function Total(workers: seq<Worker>, weight: Worker -> nat): nat {
    if workers == [] then 0
    else Total(workers[..|workers| - 1], weight) + weight(workers[|workers| - 1])
  }

  lemma {:induction false} TotalUpdate(workers: seq<Worker>, w: nat, pc: Worker, weight: Worker -> nat)
    requires w < |workers|
    ensures Total(workers[w := pc], weight) + weight(workers[w]) == Total(workers, weight) + weight(pc)
  {
    var n := |workers| - 1;
    if w < n {
      TotalUpdate(workers[..n], w, pc, weight);
      assert workers[w := pc][..n] == workers[..n][w := pc];
    } else {
      assert workers[w := pc][..n] == workers[..n];
    }
  }

  lemma {:induction false} TotalSame(a: seq<Worker>, b: seq<Worker>, weight: Worker -> nat)
    requires |a| == |b| && forall w :: 0 <= w < |a| ==> weight(a[w]) == weight(b[w])
    ensures Total(a, weight) == Total(b, weight)
  {
    if a != [] {
      var n := |a| - 1;
      TotalSame(a[..n], b[..n], weight);
    }
  }

  lemma {:induction false} TotalZero(workers: seq<Worker>, weight: Worker -> nat)
    ensures Total(workers, weight) == 0 <==> forall w :: 0 <= w < |workers| ==> weight(workers[w]) == 0
  {
    if workers != [] {
      var n := |workers| - 1;
      TotalZero(workers[..n], weight);
      assert forall w :: 0 <= w < n ==> workers[..n][w] == workers[w];
    }
  }

  /** Counted in `active_`. */
  function Busy(pc: Worker): nat {
    if pc.Running? || pc.Ran? || pc.Released? then 1 else 0
  }

  /** About to look at the queue, unless told to stop. */
  function Ready(pc: Worker): nat {
    if pc.LoopTest? || pc.Checking? then 1 else 0
  }

  /** The task a worker has taken and not yet destroyed, or -1. */
  function Held(pc: Worker): int {
    match pc
    case Running(task) => task
    case Ran(task) => task
    case _ => -1
  }

  // ---------------------------------------------------------------- invariant

  /** Tasks start in spawn order, and every task is queued, counted active, or finished. */
  ghost predicate Accounted(t: Tasks) {
    && |t.started| + |t.queue| == t.spawned
    && (forall i :: 0 <= i < |t.started| ==> t.started[i] == i)
    && (forall i :: 0 <= i < |t.queue| ==> t.queue[i] == |t.started| + i)
    && t.spawned == |t.queue| + t.active + t.finished
  }

  /** A started task is carried by exactly one worker or done, never both. */
  ghost predicate Carried(t: Tasks, workers: seq<Worker>) {
    && (forall k: nat :: k < |t.started| ==> k in t.done || exists w :: 0 <= w < |workers| && Held(workers[w]) == k)
    && (forall w :: 0 <= w < |workers| && Held(workers[w]) >= 0 ==>
                    Held(workers[w]) < |t.started| && Held(workers[w]) !in t.done)
    && (forall w, v :: 0 <= w < v < |workers| && Held(workers[w]) >= 0 ==> Held(workers[w]) != Held(workers[v]))
    && (forall k :: k in t.done ==> k < |t.started|)
  }

  /** Everything spawned before a returned waiter's return has been run and destroyed. */
  ghost predicate Promised(t: Tasks, waiters: seq<Waiter>) {
    forall i, k: nat :: 0 <= i < |waiters| && waiters[i].Returned? && k < waiters[i].spawnedThen ==> k in t.done
  }

  /** While any worker sleeps, every queued task has its own ready worker or a notification still owed. */
  ghost predicate WorkConserved(s: State) {
    s.teardown.InUse? && !NobodyAsleep(s.workers) ==> |s.tasks.queue| <= s.owed + Total(s.workers, Ready)
  }

  /** A blocked idle-waiter whose condition holds has a notification on its way. */
  ghost predicate IdleAnnounced(s: State) {
    forall i :: 0 <= i < |s.waiters| && s.waiters[i].Blocked? && Idle(s.tasks) ==>
      exists w :: 0 <= w < |s.workers| && s.workers[w].NotifyingIdle?
  }

  ghost predicate StopsTracked(stop: seq<bool>, teardown: Teardown) {
    match teardown
    case InUse => forall w :: 0 <= w < |stop| ==> !stop[w]
    case Stopping(n) => n <= |stop| && forall w :: 0 <= w < |stop| ==> (stop[w] <==> w < n)
    case _ => forall w :: 0 <= w < |stop| ==> stop[w]
  }

  /** Nobody sleeps through the shutdown, and a worker starts at most one task after its own stop. */
  ghost predicate ShutdownClean(s: State)
    requires Shaped(s)
  {
    && StopsTracked(s.stop, s.teardown)
    && (s.teardown.AllNotified? ==> NobodyAsleep(s.workers))
    && (forall w :: 0 <= w < |s.workers| ==>
          && s.late[w] <= 1
          && (s.late[w] == 1 ==> s.stop[w] && !s.workers[w].Checking? && !s.workers[w].Asleep?))
  }

  ghost predicate Inv(s: State) {
    && Shaped(s)
    && Accounted(s.tasks)
    && s.tasks.active == Total(s.workers, Busy)
    && Carried(s.tasks, s.workers)
    && Promised(s.tasks, s.waiters)
    && WorkConserved(s)
    && IdleAnnounced(s)
    && ShutdownClean(s)
  }

  // ---------------------------------------------------------------- preservation

  lemma StartInv(threads: nat)
    ensures Inv(Start(threads))
  {
    TotalZero(Start(threads).workers, Busy);
  }

  lemma AccountedStep(s: State, step: Step)
    requires Shaped(s) && Accounted(s.tasks) && Enabled(s, step)
    ensures Accounted(Apply(s, step).tasks)
  {
  }

  /** Every step that changes the workers moves one of them, or wakes the sleepers. */
  lemma ActiveStep(s: State, step: Step)
    requires Shaped(s) && s.tasks.active == Total(s.workers, Busy) && Enabled(s, step)
    ensures Apply(s, step).tasks.active == Total(Apply(s, step).workers, Busy)
  {
    var s' := Apply(s, step);
    match step
    case NotifyAll => TotalSame(s.workers, s'.workers, Busy);
    case Work(w) => TotalUpdate(s.workers, w, s'.workers[w], Busy);
    case NotifyOne(w) => TotalUpdate(s.workers, w, s'.workers[w], Busy);
    case SpuriousWorker(w) => TotalUpdate(s.workers, w, s'.workers[w], Busy);
    case _ =>
  }

  lemma CarriedSame(t: Tasks, workers: seq<Worker>, t': Tasks, workers': seq<Worker>)
    requires Carried(t, workers) && |workers'| == |workers|
    requires t'.started == t.started && t'.done == t.done
    requires forall w :: 0 <= w < |workers| ==> Held(workers'[w]) == Held(workers[w])
    ensures Carried(t', workers')
  {
    forall k: nat | k < |t'.started|
      ensures k in t'.done || exists w :: 0 <= w < |workers'| && Held(workers'[w]) == k
    {
      if k !in t.done {
        var w :| 0 <= w < |workers| && Held(workers[w]) == k;
        assert Held(workers'[w]) == k;
      }
    }
  }

  /** How a move changes a worker's hand: it keeps it, completes what it held, or takes the task started next. */
  ghost predicate HandMoves(t: Tasks, pc: Worker, t': Tasks, pc': Worker) {
    || (|t'.started| == |t.started| && t'.done == t.done && Held(pc') == Held(pc))
    || (|t'.started| == |t.started| && Held(pc) >= 0 && t'.done == t.done + {Held(pc)} && Held(pc') < 0)
    || (|t'.started| == |t.started| + 1 && t'.done == t.done && Held(pc) < 0 && Held(pc') == |t.started|)
  }

  lemma MoveIsOfHand(pc: Worker, stop: bool, t: Tasks)
    requires Accounted(t) && (pc.Released? ==> t.active > 0)
    ensures HandMoves(t, pc, NextTasks(pc, t), NextPc(pc, stop, t))
  {
  }

  lemma CarriedMove(t: Tasks, workers: seq<Worker>, w: nat, stop: bool)
    requires Accounted(t) && Carried(t, workers) && w < |workers|
    requires workers[w].Released? ==> t.active > 0
    ensures Carried(NextTasks(workers[w], t), workers[w := NextPc(workers[w], stop, t)])
  {
    MoveIsOfHand(workers[w], stop, t);
    HandsFull(t, workers, w, NextTasks(workers[w], t), NextPc(workers[w], stop, t));
  }

  lemma HandsFull(t: Tasks, workers: seq<Worker>, w: nat, t': Tasks, pc: Worker)
    requires Carried(t, workers) && w < |workers| && HandMoves(t, workers[w], t', pc)
    ensures Carried(t', workers[w := pc])
  {
    var workers' := workers[w := pc];
    forall k: nat | k < |t'.started|
      ensures k in t'.done || exists v :: 0 <= v < |workers'| && Held(workers'[v]) == k
    {
      if k == |t.started| {
        assert Held(workers'[w]) == k;
      } else if k !in t.done {
        var v :| 0 <= v < |workers| && Held(workers[v]) == k;
        assert k in t'.done || Held(workers'[v]) == k;
      }
    }
  }

  lemma CarriedStep(s: State, step: Step)
    requires Shaped(s) && Accounted(s.tasks) && Carried(s.tasks, s.workers) && Enabled(s, step)
    ensures Carried(Apply(s, step).tasks, Apply(s, step).workers)
  {
    if step.Work? {
      CarriedMove(s.tasks, s.workers, step.w, s.stop[step.w]);
    } else {
      CarriedSame(s.tasks, s.workers, Apply(s, step).tasks, Apply(s, step).workers);
    }
  }

  /** An idle scheduler has run and destroyed everything ever spawned. */
  lemma IdleMeansAllDone(s: State)
    requires Shaped(s) && Accounted(s.tasks) && Carried(s.tasks, s.workers) && Idle(s.tasks)
    requires s.tasks.active == Total(s.workers, Busy)
    ensures forall k: nat :: k < s.tasks.spawned ==> k in s.tasks.done
  {
    TotalZero(s.workers, Busy);
    assert forall w :: 0 <= w < |s.workers| ==> Held(s.workers[w]) < 0 || Busy(s.workers[w]) == 1;
  }

  lemma PromisedStep(s: State, step: Step)
    requires Inv(s) && Enabled(s, step)
    ensures Promised(Apply(s, step).tasks, Apply(s, step).waiters)
  {
    if Idle(s.tasks) {
      IdleMeansAllDone(s);
    }
    assert s.tasks.done <= Apply(s, step).tasks.done;
  }

  lemma WorkConservedStep(s: State, step: Step)
    requires Inv(s) && Enabled(s, step)
    ensures WorkConserved(Apply(s, step))
  {
    var s' := Apply(s, step);
    match step
    case Work(w) => TotalUpdate(s.workers, w, s'.workers[w], Ready);
    case NotifyOne(w) => TotalUpdate(s.workers, w, s'.workers[w], Ready);
    case SpuriousWorker(w) => TotalUpdate(s.workers, w, s'.workers[w], Ready);
    case _ =>
  }

  lemma IdleAnnouncedStep(s: State, step: Step)
    requires Inv(s) && Enabled(s, step)
    ensures IdleAnnounced(Apply(s, step))
  {
    var s' := Apply(s, step);
    if Idle(s'.tasks) && Idle(s.tasks) && exists w :: 0 <= w < |s.workers| && s.workers[w].NotifyingIdle? {
      var w :| 0 <= w < |s.workers| && s.workers[w].NotifyingIdle?;
      assert s'.workers[w].NotifyingIdle? || step == Work(w);
    }
    if step.Work? && s.workers[step.w].Released? {
      assert s'.workers[step.w].NotifyingIdle? || !Idle(s'.tasks);
    }
  }

  lemma ShutdownCleanStep(s: State, step: Step)
    requires Inv(s) && Enabled(s, step)
    ensures Shaped(Apply(s, step)) && ShutdownClean(Apply(s, step))
  {
  }

  lemma StepInv(s: State, step: Step)
    requires Inv(s) && Enabled(s, step)
    ensures Inv(Apply(s, step))
  {
    AccountedStep(s, step);
    ActiveStep(s, step);
    CarriedStep(s, step);
    PromisedStep(s, step);
    WorkConservedStep(s, step);
    IdleAnnouncedStep(s, step);
    ShutdownCleanStep(s, step);
  }

  // ---------------------------------------------------------------- runs

  ghost predicate Legal(s: State, steps: seq<Step>)
    decreases |steps|
  {
    steps == [] || (Enabled(s, steps[0]) && Legal(Apply(s, steps[0]), steps[1..]))
  }

  ghost function Final(s: State, steps: seq<Step>): State
    requires Legal(s, steps)
    decreases |steps|
  {
    if steps == [] then s else Final(Apply(s, steps[0]), steps[1..])
  }

  lemma {:induction false} RunInv(s: State, steps: seq<Step>)
    requires Inv(s) && Legal(s, steps)
    ensures Inv(Final(s, steps))
    decreases |steps|
  {
    if steps != [] {
      StepInv(s, steps[0]);
      RunInv(Apply(s, steps[0]), steps[1..]);
    }
  }

  /**
  No stranded work. While the scheduler is in use, a queued task means a worker that is not
  asleep or a notification still owed; and while any worker sleeps, there are as many ready
  workers and owed notifications as queued tasks.
  */
  lemma NoStrandedWork(threads: nat, steps: seq<Step>)
    requires threads > 0 && Legal(Start(threads), steps)
    ensures var s := Final(Start(threads), steps);
            && |s.workers| > 0
            && (s.teardown.InUse? && s.tasks.queue != [] ==>
                  s.owed > 0 || exists w :: 0 <= w < |s.workers| && !s.workers[w].Asleep? && !s.workers[w].Exited?)
            && (s.teardown.InUse? && (exists w :: 0 <= w < |s.workers| && s.workers[w].Asleep?) ==>
                  |s.tasks.queue| <= s.owed + Total(s.workers, Ready))
  {
    StartInv(threads);
    RunInv(Start(threads), steps);
    SizeKept(Start(threads), steps);
    NobodyExitsInUse(Start(threads), steps);
    var s := Final(Start(threads), steps);
    TotalZero(s.workers, Ready);
    if s.teardown.InUse? && s.tasks.queue != [] && s.owed == 0 && s.workers[0].Asleep? {
      assert Total(s.workers, Ready) > 0;
    }
  }

  lemma {:induction false} SizeKept(s: State, steps: seq<Step>)
    requires Legal(s, steps)
    ensures |Final(s, steps).workers| == |s.workers|
    decreases |steps|
  {
    if steps != [] {
      SizeKept(Apply(s, steps[0]), steps[1..]);
    }
  }

  /** Until the destructor runs, no worker is on its way out. */
  lemma {:induction false} NobodyExitsInUse(s: State, steps: seq<Step>)
    requires Inv(s) && Legal(s, steps)
    requires s.teardown.InUse? ==> forall w :: 0 <= w < |s.workers| ==> !s.workers[w].Leaving? && !s.workers[w].Exited?
    ensures var f := Final(s, steps);
            f.teardown.InUse? ==> forall w :: 0 <= w < |f.workers| ==> !f.workers[w].Leaving? && !f.workers[w].Exited?
    decreases |steps|
  {
    if steps != [] {
      StepInv(s, steps[0]);
      NobodyExitsInUse(Apply(s, steps[0]), steps[1..]);
    }
  }

  /**
  Task accounting over every run: tasks start in spawn order, spawned = queued + active +
  finished, and a returned `wait_until_idle` implies every task spawned by then has been run
  and its captures destroyed. A blocked waiter whose condition holds is about to be notified.
  */
  lemma IdleWaitIsSound(threads: nat, steps: seq<Step>)
    requires Legal(Start(threads), steps)
    ensures var s := Final(Start(threads), steps);
            && (forall i :: 0 <= i < |s.tasks.started| ==> s.tasks.started[i] == i)
            && s.tasks.spawned == |s.tasks.queue| + s.tasks.active + s.tasks.finished
            && Promised(s.tasks, s.waiters)
            && IdleAnnounced(s)
  {
    StartInv(threads);
    RunInv(Start(threads), steps);
  }

  /** Why a worker is turned away from `wait_until_idle`: its own task keeps the condition false for as long as it runs. */
  lemma WorkerWouldWaitForItself(threads: nat, steps: seq<Step>, w: nat)
    requires Legal(Start(threads), steps)
    requires w < |Final(Start(threads), steps).workers| && Held(Final(Start(threads), steps).workers[w]) >= 0
    ensures !Idle(Final(Start(threads), steps).tasks)
  {
    StartInv(threads);
    RunInv(Start(threads), steps);
    TotalZero(Final(Start(threads), steps).workers, Busy);
  }

  // ---------------------------------------------------------------- shutdown terminates

  /** Steps a worker has left once stopped and notified. */
  function Remaining(pc: Worker): nat {
    match pc
    case Asleep => 8
    case Checking => 7
    case Running(_) => 6
    case Ran(_) => 5
    case Released => 4
    case NotifyingIdle => 3
    case LoopTest => 2
    case Leaving => 1
    case Exited => 0
  }

  ghost function WorkSteps(steps: seq<Step>): nat {
    if steps == [] then 0 else (if steps[0].Work? then 1 else 0) + WorkSteps(steps[1..])
  }

  /** After the destructor's notify_all every step of a worker brings it closer to exit. */
  lemma ShutdownStep(s: State, step: Step)
    requires Inv(s) && s.teardown.AllNotified? && Enabled(s, step)
    ensures Apply(s, step).teardown.AllNotified?
    ensures Total(Apply(s, step).workers, Remaining) + (if step.Work? then 1 else 0) <= Total(s.workers, Remaining)
  {
    if step.Work? {
      WorkerLeaves(s, step.w);
    } else {
      OthersLeaveWorkersAlone(s, step);
    }
  }

  lemma StoppedMovesOn(pc: Worker, t: Tasks)
    requires !pc.Asleep? && !pc.Exited?
    ensures Remaining(NextPc(pc, true, t)) < Remaining(pc)
  {
  }

  lemma WorkerLeaves(s: State, w: nat)
    requires Inv(s) && s.teardown.AllNotified? && Enabled(s, Work(w))
    ensures Apply(s, Work(w)).teardown.AllNotified?
    ensures Total(Apply(s, Work(w)).workers, Remaining) + 1 <= Total(s.workers, Remaining)
  {
    StoppedMovesOn(s.workers[w], s.tasks);
    TotalUpdate(s.workers, w, NextPc(s.workers[w], true, s.tasks), Remaining);
  }

  lemma OthersLeaveWorkersAlone(s: State, step: Step)
    requires Inv(s) && s.teardown.AllNotified? && Enabled(s, step) && !step.Work?
    ensures Apply(s, step).teardown.AllNotified? && Apply(s, step).workers == s.workers
  {
  }

  lemma EveryoneCanAct(s: State)
    requires Inv(s) && s.teardown.AllNotified?
    ensures forall w :: 0 <= w < |s.workers| && !s.workers[w].Exited? ==> Enabled(s, Work(w))
  {
    forall w | 0 <= w < |s.workers| && s.workers[w].Released? ensures s.tasks.active > 0 {
      TotalZero(s.workers, Busy);
    }
  }

  /** Joining terminates: whatever else happens, the workers act at most seven times each before all have exited. */
  lemma {:induction false} ShutdownTerminates(s: State, steps: seq<Step>)
    requires Inv(s) && s.teardown.AllNotified? && Legal(s, steps)
    ensures WorkSteps(steps) <= Total(s.workers, Remaining) <= 7 * |s.workers|
    ensures NobodyAsleep(Final(s, steps).workers)
    ensures forall w :: 0 <= w < |Final(s, steps).workers| ==>
              Final(s, steps).workers[w].Exited? || Enabled(Final(s, steps), Work(w))
    ensures forall w :: 0 <= w < |Final(s, steps).late| ==> Final(s, steps).late[w] <= 1
    decreases |steps|
  {
    RemainingBound(s.workers);
    if steps != [] {
      ShutdownStep(s, steps[0]);
      StepInv(s, steps[0]);
      ShutdownTerminates(Apply(s, steps[0]), steps[1..]);
    } else {
      EveryoneCanAct(s);
    }
  }

  lemma {:induction false} RemainingBound(workers: seq<Worker>)
    requires NobodyAsleep(workers)
    ensures Total(workers, Remaining) <= 7 * |workers|
  {
    if workers != [] {
      RemainingBound(workers[..|workers| - 1]);
    }
  }
}

/** The bounded task pool of linux-file-server/src/thread_pool.c as an
    interleaving of worker, producer and destroyer threads.

    Every access to the queue is made by the thread that owns `lock`; one step
    below is one statement of one thread, so the states between an enqueue and
    its signal, or between the shutdown flag and the broadcasts, are visible. */
module ThreadPool {
  import opened Options
  import opened Tally

  /** A queued call: which function, with which argument. */
  datatype Task = Task(callee: nat, arg: nat)

  /** Where a worker is in worker_thread. */
  datatype WorkerPc =
    | WLock                        // about to lock
    | WTest                        // owns the lock, at the while test
    | WAsleep                      // waiting on not_empty
    | WWoken                       // left the wait queue, wants the lock back
    | WTake                        // owns the lock, about to dequeue
    | WSignal(job: Option<Task>)   // owns the lock, about to signal not_full
    | WUnlock(job: Option<Task>)   // owns the lock, about to unlock
    | WRun(job: Option<Task>)      // runs the task without the lock
    | WLeave                       // owns the lock, about to unlock and exit
    | WExited

  /** Where a caller is in thread_pool_add_task. */
  datatype ProducerPc =
    | PIdle
    | PLock(task: Task)            // about to lock
    | PEntry(task: Task)           // owns the lock, first shutdown test
    | PTest(task: Task)            // owns the lock, at the while test
    | PAsleep(task: Task)          // waiting on not_full
    | PWoken(task: Task)           // left the wait queue, wants the lock back
    | PRetest(task: Task)          // owns the lock, shutdown test after a wait
    | PAlloc(task: Task)           // owns the lock, malloc then enqueue
    | PSignal                      // owns the lock, about to signal not_empty
    | PUnlock(code: int)           // owns the lock, about to unlock and return the code

  /** Where the single caller of thread_pool_destroy is. */
  datatype DestroyerPc = DIdle | DLock | DSet | DWakeWorkers | DWakeProducers | DUnlock | DJoin | DDone

  datatype Owner = Nobody | Worker(w: nat) | Producer(p: nat) | Destroyer

  datatype State = State(
    workers: seq<WorkerPc>,
    producers: seq<ProducerPc>,
    destroyer: DestroyerPc,
    lock: Owner,
    queue: seq<Task>,        // the linked list from task_head to task_tail
    taskCount: int,
    maxTasks: int,
    shutdown: bool,
    accepted: seq<Task>,     // history: tasks enqueued, in order
    taken: seq<Task>,        // history: tasks dequeued, in order
    executed: seq<Task>,     // history: tasks whose function has run
    allocFailures: nat       // history: mallocs that returned NULL
  )

  /** One step of one thread. `wake` picks the sleeper a signal releases;
      WakeWorker and WakeProducer are spurious wakeups. */
  datatype Step =
    | StepWorker(w: nat, wake: nat)
    | StepProducer(p: nat, wake: nat, allocOk: bool)
    | Call(p: nat, task: Task)
    | StepDestroyer
    | WakeWorker(w: nat)
    | WakeProducer(p: nat)

  // ---- kinds of program points, as 0/1 weights ----

  function AsleepW(pc: WorkerPc): nat { if pc.WAsleep? then 1 else 0 }
  function AsleepP(pc: ProducerPc): nat { if pc.PAsleep? then 1 else 0 }

  /** A worker that is awake and will look at the queue before it can sleep. */
  function IdleW(pc: WorkerPc): nat {
    if pc.WLock? || pc.WTest? || pc.WWoken? || pc.WTake? then 1 else 0
  }

  /** A producer that is awake and holds a task it has not enqueued yet. */
  function EagerP(pc: ProducerPc): nat {
    if pc.PLock? || pc.PEntry? || pc.PTest? || pc.PWoken? || pc.PRetest? || pc.PAlloc? then 1 else 0
  }

  function SignallingW(pc: WorkerPc): nat { if pc.WSignal? then 1 else 0 }
  function SignallingP(pc: ProducerPc): nat { if pc.PSignal? then 1 else 0 }

  predicate OwnsW(pc: WorkerPc) {
    pc.WTest? || pc.WTake? || pc.WSignal? || pc.WUnlock? || pc.WLeave?
  }
  predicate OwnsP(pc: ProducerPc) {
    pc.PEntry? || pc.PTest? || pc.PRetest? || pc.PAlloc? || pc.PSignal? || pc.PUnlock?
  }
  predicate OwnsD(pc: DestroyerPc) {
    pc.DSet? || pc.DWakeWorkers? || pc.DWakeProducers? || pc.DUnlock?
  }

  // ---- condition variables ----

  /** A signal releases one sleeper if there is one; `wake` must then name one. */
  predicate SignalsWorker(s: State, wake: nat) {
    Sum(s.workers, AsleepW) > 0 ==> wake < |s.workers| && s.workers[wake].WAsleep?
  }
  predicate SignalsProducer(s: State, wake: nat) {
    Sum(s.producers, AsleepP) > 0 ==> wake < |s.producers| && s.producers[wake].PAsleep?
  }

  function SignalWorker(ws: seq<WorkerPc>, wake: nat): seq<WorkerPc>
    requires Sum(ws, AsleepW) > 0 ==> wake < |ws|
  {
    if Sum(ws, AsleepW) > 0 then ws[wake := WWoken] else ws
  }
  function SignalProducer(ps: seq<ProducerPc>, wake: nat): seq<ProducerPc>
    requires Sum(ps, AsleepP) > 0 ==> wake < |ps| && ps[wake].PAsleep?
  {
    if Sum(ps, AsleepP) > 0 then ps[wake := PWoken(ps[wake].task)] else ps
  }

  function WakeW(pc: WorkerPc): WorkerPc { if pc.WAsleep? then WWoken else pc }
  function WakeP(pc: ProducerPc): ProducerPc { if pc.PAsleep? then PWoken(pc.task) else pc }

  function Broadcast<T>(s: seq<T>, wake: T -> T): (r: seq<T>)
    ensures |r| == |s| && forall i :: 0 <= i < |s| ==> r[i] == wake(s[i])
  {
    seq(|s|, i requires 0 <= i < |s| => wake(s[i]))
  }

  // ---- the steps ----

  predicate Enabled(s: State, st: Step) {
    match st
    case StepWorker(w, wake) =>
      && w < |s.workers|
      && (match s.workers[w]
          case WLock => s.lock.Nobody?
          case WWoken => s.lock.Nobody?
          case WAsleep => false
          case WExited => false
          case WSignal(_) => SignalsProducer(s, wake)
          case _ => true)
    case StepProducer(p, wake, _) =>
      && p < |s.producers|
      && (match s.producers[p]
          case PIdle => false
          case PLock(_) => s.lock.Nobody?
          case PWoken(_) => s.lock.Nobody?
          case PAsleep(_) => false
          case PSignal => SignalsWorker(s, wake)
          case _ => true)
    case Call(p, _) => p < |s.producers| && s.producers[p].PIdle?
    case StepDestroyer =>
      (match s.destroyer
      case DLock => s.lock.Nobody?
      case DJoin => forall i :: 0 <= i < |s.workers| ==> s.workers[i].WExited?
      case DDone => false
      case _ => true)
    case WakeWorker(w) => w < |s.workers| && s.workers[w].WAsleep?
    case WakeProducer(p) => p < |s.producers| && s.producers[p].PAsleep?
  }

  function ApplyWorker(s: State, w: nat, wake: nat): State
    requires Enabled(s, StepWorker(w, wake))
  {
    match s.workers[w]
    case WLock => s.(lock := Worker(w), workers := s.workers[w := WTest])
    case WWoken => s.(lock := Worker(w), workers := s.workers[w := WTest])
    case WTest =>
      if s.taskCount == 0 && !s.shutdown then
        s.(lock := Nobody, workers := s.workers[w := WAsleep])
      else if s.shutdown && s.taskCount == 0 then
        s.(workers := s.workers[w := WLeave])
      else
        s.(workers := s.workers[w := WTake])
    case WTake =>
      if s.queue == [] then
        s.(workers := s.workers[w := WSignal(None)])
      else
        s.(workers := s.workers[w := WSignal(Some(s.queue[0]))], queue := s.queue[1..],
           taskCount := s.taskCount - 1, taken := s.taken + [s.queue[0]])
    case WSignal(job) =>
      s.(workers := s.workers[w := WUnlock(job)], producers := SignalProducer(s.producers, wake))
    case WUnlock(job) => s.(lock := Nobody, workers := s.workers[w := WRun(job)])
    case WRun(job) =>
      s.(workers := s.workers[w := WLock],
         executed := if job.Some? then s.executed + [job.value] else s.executed)
    case WLeave => s.(lock := Nobody, workers := s.workers[w := WExited])
    case _ => s
  }

  function ApplyProducer(s: State, p: nat, wake: nat, allocOk: bool): State
    requires Enabled(s, StepProducer(p, wake, allocOk))
  {
    match s.producers[p]
    case PLock(t) => s.(lock := Producer(p), producers := s.producers[p := PEntry(t)])
    case PEntry(t) => s.(producers := s.producers[p := if s.shutdown then PUnlock(-1) else PTest(t)])
    case PTest(t) =>
      if s.taskCount >= s.maxTasks then
        s.(lock := Nobody, producers := s.producers[p := PAsleep(t)])
      else
        s.(producers := s.producers[p := PAlloc(t)])
    case PWoken(t) => s.(lock := Producer(p), producers := s.producers[p := PRetest(t)])
    case PRetest(t) => s.(producers := s.producers[p := if s.shutdown then PUnlock(-1) else PTest(t)])
    case PAlloc(t) =>
      if allocOk then
        s.(producers := s.producers[p := PSignal], queue := s.queue + [t],
           taskCount := s.taskCount + 1, accepted := s.accepted + [t])
      else
        s.(producers := s.producers[p := PUnlock(-1)], allocFailures := s.allocFailures + 1)
    case PSignal =>
      s.(producers := s.producers[p := PUnlock(0)], workers := SignalWorker(s.workers, wake))
    case PUnlock(_) => s.(lock := Nobody, producers := s.producers[p := PIdle])
    case _ => s
  }

  function ApplyDestroyer(s: State): State
    requires Enabled(s, StepDestroyer)
  {
    match s.destroyer
    case DIdle => s.(destroyer := DLock)
    case DLock => s.(lock := Destroyer, destroyer := DSet)
    case DSet => s.(shutdown := true, destroyer := DWakeWorkers)
    case DWakeWorkers => s.(workers := Broadcast(s.workers, WakeW), destroyer := DWakeProducers)
    case DWakeProducers => s.(producers := Broadcast(s.producers, WakeP), destroyer := DUnlock)
    case DUnlock => s.(lock := Nobody, destroyer := DJoin)
    case DJoin => s.(destroyer := DDone)
    case DDone => s
  }

  function Apply(s: State, st: Step): State
    requires Enabled(s, st)
  {
    match st
    case StepWorker(w, wake) => ApplyWorker(s, w, wake)
    case StepProducer(p, wake, ok) => ApplyProducer(s, p, wake, ok)
    case Call(p, t) => s.(producers := s.producers[p := PLock(t)])
    case StepDestroyer => ApplyDestroyer(s)
    case WakeWorker(w) => s.(workers := s.workers[w := WWoken])
    case WakeProducer(p) => s.(producers := s.producers[p := PWoken(s.producers[p].task)])
  }

  /** The pool thread_pool_create returns once all its threads are running. */
  predicate Init(s: State) {
    && |s.workers| > 0
    && s.maxTasks > 0
    && (forall i :: 0 <= i < |s.workers| ==> s.workers[i].WLock?)
    && (forall i :: 0 <= i < |s.producers| ==> s.producers[i].PIdle?)
    && s.destroyer.DIdle?
    && s.lock.Nobody?
    && s.queue == [] && s.taskCount == 0
    && !s.shutdown
    && s.accepted == [] && s.taken == [] && s.executed == []
    && s.allocFailures == 0
  }

  /** `run` is an execution from s, and Final is the state it reaches. */
  predicate IsRun(s: State, run: seq<Step>)
    decreases |run|
  {
    run == [] || (Enabled(s, run[0]) && IsRun(Apply(s, run[0]), run[1..]))
  }

  function Final(s: State, run: seq<Step>): State
    requires IsRun(s, run)
    decreases |run|
  {
    if run == [] then s else Final(Apply(s, run[0]), run[1..])
  }
}

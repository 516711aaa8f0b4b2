/** What every step of the pool keeps. */
module ThreadPoolSafety {
  import opened Options
  import opened Tally
  import opened ThreadPool

  /** Exactly the thread at an owning program point owns the lock. */
  ghost predicate LockInv(s: State) {
    && (forall i :: 0 <= i < |s.workers| ==> (OwnsW(s.workers[i]) <==> s.lock == Worker(i)))
    && (forall i :: 0 <= i < |s.producers| ==> (OwnsP(s.producers[i]) <==> s.lock == Producer(i)))
    && (OwnsD(s.destroyer) <==> s.lock == Destroyer)
    && (s.lock.Worker? ==> s.lock.w < |s.workers|)
    && (s.lock.Producer? ==> s.lock.p < |s.producers|)
  }

  /** The counter is the queue's length, within its bounds, and nothing is
      lost, duplicated or reordered between acceptance and dequeue. */
  ghost predicate QueueInv(s: State) {
    && s.taskCount == |s.queue|
    && 0 <= s.taskCount <= s.maxTasks
    && s.accepted == s.taken + s.queue
    && (forall i :: 0 <= i < |s.workers| && s.workers[i].WTake? ==> s.queue != [])
    && (forall i :: 0 <= i < |s.producers| && s.producers[i].PAlloc? ==> s.taskCount < s.maxTasks)
  }

  ghost predicate ShutdownInv(s: State) {
    && |s.workers| > 0
    && (s.shutdown <==> !(s.destroyer.DIdle? || s.destroyer.DLock? || s.destroyer.DSet?))
    && (s.shutdown && !s.destroyer.DWakeWorkers? ==>
          forall i :: 0 <= i < |s.workers| ==> !s.workers[i].WAsleep?)
    && (s.shutdown && !s.destroyer.DWakeWorkers? && !s.destroyer.DWakeProducers? ==>
          forall i :: 0 <= i < |s.producers| ==> !s.producers[i].PAsleep?)
    && (s.shutdown ==> forall i :: 0 <= i < |s.producers| ==>
          !s.producers[i].PTest? && !s.producers[i].PAlloc? && !s.producers[i].PSignal?)
    && (forall i :: 0 <= i < |s.workers| && (s.workers[i].WLeave? || s.workers[i].WExited?) ==>
          s.shutdown && s.queue == [])
    && (s.destroyer.DDone? ==> forall i :: 0 <= i < |s.workers| ==> s.workers[i].WExited?)
  }

  /** No wakeup is lost: a worker sleeps only if every queued task has an awake
      worker (or a signal about to be sent) coming for it, and a producer sleeps
      only if every free slot has an awake producer, a signal about to be sent,
      or a failed malloc that used up a signal. */
  ghost predicate WakeInv(s: State) {
    !s.shutdown ==>
      && (Sum(s.workers, AsleepW) > 0 ==>
            s.taskCount <= Sum(s.workers, IdleW) + Sum(s.producers, SignallingP))
      && (Sum(s.producers, AsleepP) > 0 ==>
            s.maxTasks - s.taskCount
            <= Sum(s.producers, EagerP) + Sum(s.workers, SignallingW) + s.allocFailures)
  }

  /** How many workers have dequeued `task` and not finished it. */
  ghost function Held(ws: seq<WorkerPc>, task: Task): nat {
    if ws == [] then 0 else HeldBy(ws[0], task) + Held(ws[1..], task)
  }

  ghost function HeldBy(pc: WorkerPc, task: Task): nat {
    if (pc.WSignal? || pc.WUnlock? || pc.WRun?) && pc.job == Some(task) then 1 else 0
  }

  ghost function Occurs(log: seq<Task>, task: Task): nat {
    if log == [] then 0
    else Occurs(log[..|log| - 1], task) + if log[|log| - 1] == task then 1 else 0
  }

  /** Every dequeue is either in a worker's hands or has been executed. */
  ghost predicate HeldInv(s: State) {
    forall task :: Accounted(s, task)
  }

  ghost predicate Inv(s: State) {
    LockInv(s) && QueueInv(s) && ShutdownInv(s) && WakeInv(s) && HeldInv(s)
  }

  // ---- lock, queue and shutdown ----

  lemma LockWorker(s: State, w: nat, wake: nat)
    requires LockInv(s) && Enabled(s, StepWorker(w, wake))
    ensures LockInv(ApplyWorker(s, w, wake))
  {
  }

  lemma LockProducer(s: State, p: nat, wake: nat, ok: bool)
    requires LockInv(s) && Enabled(s, StepProducer(p, wake, ok))
    ensures LockInv(ApplyProducer(s, p, wake, ok))
  {
  }

  lemma LockDestroyer(s: State)
    requires LockInv(s) && Enabled(s, StepDestroyer)
    ensures LockInv(ApplyDestroyer(s))
  {
  }

  lemma LockStep(s: State, st: Step)
    requires LockInv(s) && Enabled(s, st)
    ensures LockInv(Apply(s, st))
  {
    hide ApplyWorker, ApplyProducer, ApplyDestroyer;
    match st
    case StepWorker(w, wake) => LockWorker(s, w, wake);
    case StepProducer(p, wake, ok) => LockProducer(s, p, wake, ok);
    case StepDestroyer => LockDestroyer(s);
    case _ =>
  }

  lemma QueueWorker(s: State, w: nat, wake: nat)
    requires LockInv(s) && QueueInv(s) && Enabled(s, StepWorker(w, wake))
    ensures QueueInv(ApplyWorker(s, w, wake))
  {
    if s.workers[w].WTake? {
      assert s.queue == [s.queue[0]] + s.queue[1..];
    }
  }

  lemma QueueProducer(s: State, p: nat, wake: nat, ok: bool)
    requires LockInv(s) && QueueInv(s) && Enabled(s, StepProducer(p, wake, ok))
    ensures QueueInv(ApplyProducer(s, p, wake, ok))
  {
  }

  lemma QueueDestroyer(s: State)
    requires QueueInv(s) && Enabled(s, StepDestroyer)
    ensures QueueInv(ApplyDestroyer(s))
  {
  }

  lemma QueueStep(s: State, st: Step)
    requires LockInv(s) && QueueInv(s) && Enabled(s, st)
    ensures QueueInv(Apply(s, st))
  {
    hide ApplyWorker, ApplyProducer, ApplyDestroyer, LockInv;
    match st
    case StepWorker(w, wake) => QueueWorker(s, w, wake);
    case StepProducer(p, wake, ok) => QueueProducer(s, p, wake, ok);
    case StepDestroyer => QueueDestroyer(s);
    case _ =>
  }

  lemma ShutdownWorker(s: State, w: nat, wake: nat)
    requires QueueInv(s) && ShutdownInv(s) && Enabled(s, StepWorker(w, wake))
    ensures ShutdownInv(ApplyWorker(s, w, wake))
  {
  }

  lemma ShutdownProducer(s: State, p: nat, wake: nat, ok: bool)
    requires ShutdownInv(s) && Enabled(s, StepProducer(p, wake, ok))
    ensures ShutdownInv(ApplyProducer(s, p, wake, ok))
  {
  }

  lemma ShutdownDestroyer(s: State)
    requires LockInv(s) && ShutdownInv(s) && Enabled(s, StepDestroyer)
    ensures ShutdownInv(ApplyDestroyer(s))
  {
  }

  lemma ShutdownStep(s: State, st: Step)
    requires LockInv(s) && QueueInv(s) && ShutdownInv(s) && Enabled(s, st)
    ensures ShutdownInv(Apply(s, st))
  {
    hide ApplyWorker, ApplyProducer, ApplyDestroyer, LockInv, QueueInv;
    match st
    case StepWorker(w, wake) => ShutdownWorker(s, w, wake);
    case StepProducer(p, wake, ok) => ShutdownProducer(s, p, wake, ok);
    case StepDestroyer => ShutdownDestroyer(s);
    case _ =>
  }

  // ---- no lost wakeups ----

  lemma MoveWorker(ws: seq<WorkerPc>, w: nat, pc: WorkerPc)
    requires w < |ws|
    ensures Sum(ws[w := pc], AsleepW) == Sum(ws, AsleepW) - AsleepW(ws[w]) + AsleepW(pc)
    ensures Sum(ws[w := pc], IdleW) == Sum(ws, IdleW) - IdleW(ws[w]) + IdleW(pc)
    ensures Sum(ws[w := pc], SignallingW) == Sum(ws, SignallingW) - SignallingW(ws[w]) + SignallingW(pc)
  {
    SumUpdate(ws, w, pc, AsleepW);
    SumUpdate(ws, w, pc, IdleW);
    SumUpdate(ws, w, pc, SignallingW);
  }

  lemma MoveProducer(ps: seq<ProducerPc>, p: nat, pc: ProducerPc)
    requires p < |ps|
    ensures Sum(ps[p := pc], AsleepP) == Sum(ps, AsleepP) - AsleepP(ps[p]) + AsleepP(pc)
    ensures Sum(ps[p := pc], EagerP) == Sum(ps, EagerP) - EagerP(ps[p]) + EagerP(pc)
    ensures Sum(ps[p := pc], SignallingP) == Sum(ps, SignallingP) - SignallingP(ps[p]) + SignallingP(pc)
  {
    SumUpdate(ps, p, pc, AsleepP);
    SumUpdate(ps, p, pc, EagerP);
    SumUpdate(ps, p, pc, SignallingP);
  }

  lemma WakeStepWorker(s: State, w: nat, wake: nat)
    requires QueueInv(s) && WakeInv(s) && Enabled(s, StepWorker(w, wake))
    ensures WakeInv(ApplyWorker(s, w, wake))
  {
    hide Sum;
    var t := ApplyWorker(s, w, wake);
    MoveWorker(s.workers, w, t.workers[w]);
    if s.workers[w].WSignal? && Sum(s.producers, AsleepP) > 0 {
      MoveProducer(s.producers, wake, PWoken(s.producers[wake].task));
    }
  }

  lemma WakeStepProducer(s: State, p: nat, wake: nat, ok: bool)
    requires QueueInv(s) && WakeInv(s) && Enabled(s, StepProducer(p, wake, ok))
    ensures WakeInv(ApplyProducer(s, p, wake, ok))
  {
    hide Sum;
    var t := ApplyProducer(s, p, wake, ok);
    MoveProducer(s.producers, p, t.producers[p]);
    if s.producers[p].PSignal? && Sum(s.workers, AsleepW) > 0 {
      MoveWorker(s.workers, wake, WWoken);
    }
  }

  lemma WakeStep(s: State, st: Step)
    requires QueueInv(s) && ShutdownInv(s) && WakeInv(s) && Enabled(s, st)
    ensures WakeInv(Apply(s, st))
  {
    hide ApplyWorker, ApplyProducer, ApplyDestroyer, QueueInv, Sum;
    match st
    case StepWorker(w, wake) => WakeStepWorker(s, w, wake);
    case StepProducer(p, wake, ok) => WakeStepProducer(s, p, wake, ok);
    case Call(p, t) => MoveProducer(s.producers, p, PLock(t));
    case WakeWorker(w) => MoveWorker(s.workers, w, WWoken);
    case WakeProducer(p) => MoveProducer(s.producers, p, PWoken(s.producers[p].task));
    case StepDestroyer => WakeDestroyer(s);
  }

  lemma WakeDestroyer(s: State)
    requires ShutdownInv(s) && WakeInv(s) && Enabled(s, StepDestroyer)
    ensures WakeInv(ApplyDestroyer(s))
  {
    hide Sum;
  }

  // ---- every dequeued task is run once ----

  lemma {:induction false} HeldUpdate(ws: seq<WorkerPc>, w: nat, pc: WorkerPc, task: Task)
    requires w < |ws|
    ensures Held(ws[w := pc], task) == Held(ws, task) - HeldBy(ws[w], task) + HeldBy(pc, task)
  {
    if w == 0 {
      assert ws[0 := pc][1..] == ws[1..];
    } else {
      assert ws[w := pc][1..] == ws[1..][w - 1 := pc];
      HeldUpdate(ws[1..], w - 1, pc, task);
    }
  }

  lemma {:induction false} HeldBroadcast(ws: seq<WorkerPc>, task: Task)
    ensures Held(Broadcast(ws, WakeW), task) == Held(ws, task)
  {
    if ws == [] {
    } else {
      assert Broadcast(ws, WakeW)[1..] == Broadcast(ws[1..], WakeW);
      HeldBroadcast(ws[1..], task);
    }
  }

  ghost predicate Accounted(s: State, task: Task) {
    Occurs(s.taken, task) == Occurs(s.executed, task) + Held(s.workers, task)
  }

  lemma OccursAppend(log: seq<Task>, x: Task, task: Task)
    ensures Occurs(log + [x], task) == Occurs(log, task) + if x == task then 1 else 0
  {
    assert (log + [x])[..|log|] == log;
  }

  lemma {:induction false} OccursIsMultiplicity(log: seq<Task>, task: Task)
    ensures Occurs(log, task) == multiset(log)[task]
  {
    if log == [] {
    } else {
      var n := |log| - 1;
      OccursIsMultiplicity(log[..n], task);
      assert log == log[..n] + [log[n]];
    }
  }

  lemma HeldStepWorker(s: State, w: nat, wake: nat, task: Task)
    requires Accounted(s, task) && Enabled(s, StepWorker(w, wake))
    ensures Accounted(ApplyWorker(s, w, wake), task)
  {
    hide Held, Occurs;
    HeldUpdate(s.workers, w, ApplyWorker(s, w, wake).workers[w], task);
    if s.workers[w].WTake? && s.queue != [] {
      OccursAppend(s.taken, s.queue[0], task);
    } else if s.workers[w].WRun? && s.workers[w].job.Some? {
      OccursAppend(s.executed, s.workers[w].job.value, task);
    }
  }

  lemma HeldStepProducer(s: State, p: nat, wake: nat, ok: bool, task: Task)
    requires Accounted(s, task) && Enabled(s, StepProducer(p, wake, ok))
    ensures Accounted(ApplyProducer(s, p, wake, ok), task)
  {
    hide Held, Occurs;
    if s.producers[p].PSignal? && Sum(s.workers, AsleepW) > 0 {
      HeldUpdate(s.workers, wake, WWoken, task);
    }
  }

  lemma HeldStep(s: State, st: Step, task: Task)
    requires Accounted(s, task) && Enabled(s, st)
    ensures Accounted(Apply(s, st), task)
  {
    hide ApplyWorker, ApplyProducer, Held, Occurs;
    match st
    case StepWorker(w, wake) => HeldStepWorker(s, w, wake, task);
    case StepProducer(p, wake, ok) => HeldStepProducer(s, p, wake, ok, task);
    case WakeWorker(w) => HeldUpdate(s.workers, w, WWoken, task);
    case StepDestroyer => HeldBroadcast(s.workers, task);
    case _ =>
  }

  // ---- all runs ----

  lemma InvStep(s: State, st: Step)
    requires Inv(s) && Enabled(s, st)
    ensures Inv(Apply(s, st))
  {
    LockStep(s, st);
    QueueStep(s, st);
    ShutdownStep(s, st);
    WakeStep(s, st);
    forall task ensures Accounted(Apply(s, st), task) {
      HeldStep(s, st, task);
    }
  }

  lemma {:induction false} NothingHeld(ws: seq<WorkerPc>, task: Task)
    requires forall i :: 0 <= i < |ws| ==> ws[i].WLock? || ws[i].WExited?
    ensures Held(ws, task) == 0
  {
    if ws == [] {
    } else {
      NothingHeld(ws[1..], task);
    }
  }

  lemma InvInit(s: State)
    requires Init(s)
    ensures Inv(s)
  {
    forall task ensures Accounted(s, task) {
      NothingHeld(s.workers, task);
    }
    if Sum(s.workers, AsleepW) > 0 {
      var i := SumWitness(s.workers, AsleepW);
    }
    if Sum(s.producers, AsleepP) > 0 {
      var i := SumWitness(s.producers, AsleepP);
    }
  }

  lemma {:induction false} InvRun(s: State, run: seq<Step>)
    requires Inv(s) && IsRun(s, run)
    ensures Inv(Final(s, run))
    decreases |run|
  {
    if run == [] {
    } else {
      InvStep(s, run[0]);
      InvRun(Apply(s, run[0]), run[1..]);
    }
  }
}

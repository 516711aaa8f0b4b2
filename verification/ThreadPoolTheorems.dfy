/** The promises of the pool, over every interleaving. */
module ThreadPoolTheorems {
  import opened Options
  import opened Tally
  import opened ThreadPool
  import opened ThreadPoolSafety

  ghost predicate Reachable(s: State) {
    exists s0, run :: Init(s0) && IsRun(s0, run) && Final(s0, run) == s
  }

  lemma ReachableInv(s: State)
    requires Reachable(s)
    ensures Inv(s)
  {
    var s0, run :| Init(s0) && IsRun(s0, run) && Final(s0, run) == s;
    InvInit(s0);
    InvRun(s0, run);
  }

  lemma {:induction false} Extend(s: State, run: seq<Step>, st: Step)
    requires IsRun(s, run) && Enabled(Final(s, run), st)
    ensures IsRun(s, run + [st]) && Final(s, run + [st]) == Apply(Final(s, run), st)
    decreases |run|
  {
    if run == [] {
      assert [st][1..] == [];
    } else {
      assert (run + [st])[1..] == run[1..] + [st];
      Extend(Apply(s, run[0]), run[1..], st);
    }
  }

  /** Take one step from a reachable state. */
  lemma Go(s: State, st: Step) returns (t: State)
    requires Reachable(s) && Enabled(s, st)
    ensures Reachable(t) && t == Apply(s, st)
  {
    var s0, run :| Init(s0) && IsRun(s0, run) && Final(s0, run) == s;
    Extend(s0, run, st);
    t := Apply(s, st);
  }

  // ---- no lost wakeup ----

  /** Whenever the lock is free before shutdown: a sleeping worker means that
      every queued task has its own awake idle worker, and a sleeping producer
      means that every free slot has its own awake producer, up to the number of
      failed allocations. */
  lemma NoLostWakeup(s: State)
    requires Reachable(s) && s.lock.Nobody? && !s.shutdown
    ensures Sum(s.workers, AsleepW) > 0 ==> s.taskCount <= Sum(s.workers, IdleW)
    ensures Sum(s.producers, AsleepP) > 0 ==>
              s.maxTasks - s.taskCount <= Sum(s.producers, EagerP) + s.allocFailures
  {
    ReachableInv(s);
    if Sum(s.workers, SignallingW) > 0 {
      var i := SumWitness(s.workers, SignallingW);
    }
    if Sum(s.producers, SignallingP) > 0 {
      var i := SumWitness(s.producers, SignallingP);
    }
  }

  /** A queued task always has a thread that can move towards it. */
  lemma QueuedTaskIsServed(s: State)
    requires Reachable(s) && s.lock.Nobody? && s.taskCount > 0
    ensures exists w :: 0 <= w < |s.workers| && Enabled(s, StepWorker(w, 0))
  {
    ReachableInv(s);
    if !s.shutdown && Sum(s.workers, AsleepW) > 0 {
      NoLostWakeup(s);
      var w := SumWitness(s.workers, IdleW);
      assert Enabled(s, StepWorker(w, 0));
    } else {
      assert Enabled(s, StepWorker(0, 0));
    }
  }

  /** Once the destroyer has released the lock nobody sleeps on either
      condition, and no later state has a sleeper either. */
  lemma NobodySleepsAfterShutdown(s: State, run: seq<Step>)
    requires Reachable(s) && s.shutdown && s.lock != Destroyer
    requires IsRun(s, run)
    ensures forall w :: 0 <= w < |Final(s, run).workers| ==> !Final(s, run).workers[w].WAsleep?
    ensures forall p :: 0 <= p < |Final(s, run).producers| ==> !Final(s, run).producers[p].PAsleep?
  {
    ReachableInv(s);
    InvRun(s, run);
    DestroyerAdvances(s, run);
  }

  lemma {:induction false} DestroyerAdvances(s: State, run: seq<Step>)
    requires s.destroyer.DJoin? || s.destroyer.DDone?
    requires IsRun(s, run)
    ensures Final(s, run).destroyer.DJoin? || Final(s, run).destroyer.DDone?
    ensures s.shutdown ==> Final(s, run).shutdown
    decreases |run|
  {
    if run == [] {
    } else {
      DestroyerAdvances(Apply(s, run[0]), run[1..]);
    }
  }

  // ---- exactly once, in order ----

  /** In every reachable state the dequeued tasks followed by the queued ones
      are the accepted ones in order, and the counter is the queue's length and
      within its bounds. */
  lemma AcceptedInOrder(s: State)
    requires Reachable(s)
    ensures s.taken + s.queue == s.accepted
    ensures 0 <= s.taskCount == |s.queue| <= s.maxTasks
  {
    ReachableInv(s);
  }

  /** When thread_pool_destroy has joined its workers, the clean-up loop finds
      no task: all accepted tasks were dequeued in order and each ran once. */
  lemma DestroyDropsNothing(s: State)
    requires Reachable(s) && s.destroyer.DDone?
    ensures s.queue == []
    ensures s.taken == s.accepted
    ensures multiset(s.executed) == multiset(s.accepted)
  {
    ReachableInv(s);
    assert s.workers[0].WExited?;
    assert s.taken == s.taken + s.queue;
    forall task ensures multiset(s.executed)[task] == multiset(s.accepted)[task] {
      NothingHeld(s.workers, task);
      assert Accounted(s, task);
      OccursIsMultiplicity(s.taken, task);
      OccursIsMultiplicity(s.executed, task);
    }
  }

  // ---- shutdown terminates ----

  function RankW(pc: WorkerPc): nat {
    match pc
    case WSignal(_) => 9
    case WUnlock(_) => 8
    case WRun(_) => 7
    case WAsleep => 7
    case WWoken => 6
    case WLock => 6
    case WTest => 5
    case WTake => 4
    case WLeave => 1
    case WExited => 0
  }

  function RankP(pc: ProducerPc): nat {
    match pc
    case PAsleep(_) => 4
    case PLock(_) => 3
    case PWoken(_) => 3
    case PUnlock(_) => 1
    case PIdle => 0
    case _ => 2
  }

  function RankD(pc: DestroyerPc): nat {
    match pc
    case DIdle => 7
    case DLock => 6
    case DSet => 5
    case DWakeWorkers => 4
    case DWakeProducers => 3
    case DUnlock => 2
    case DJoin => 1
    case DDone => 0
  }

  /** What is left to do after shutdown: six units a queued task, plus the
      distance of every thread from its resting point. */
  function Work(s: State): nat {
    6 * |s.queue| + Sum(s.workers, RankW) + Sum(s.producers, RankP) + RankD(s.destroyer)
  }

  lemma {:induction false} BroadcastRank<T>(s: seq<T>, wake: T -> T, rank: T -> nat)
    requires forall x :: x in s ==> rank(wake(x)) <= rank(x)
    ensures Sum(Broadcast(s, wake), rank) <= Sum(s, rank)
  {
    if s == [] {
    } else {
      assert Broadcast(s, wake)[1..] == Broadcast(s[1..], wake);
      BroadcastRank(s[1..], wake, rank);
    }
  }

  lemma NoSleepingProducer(s: State, w: nat)
    requires Inv(s) && s.shutdown && w < |s.workers|
    ensures s.workers[w].WSignal? ==> Sum(s.producers, AsleepP) == 0
  {
    if s.workers[w].WSignal? && Sum(s.producers, AsleepP) > 0 {
      var p := SumWitness(s.producers, AsleepP);
    }
  }

  lemma WorkStepWorker(s: State, w: nat, wake: nat)
    requires Inv(s) && s.shutdown && Enabled(s, StepWorker(w, wake))
    ensures Work(ApplyWorker(s, w, wake)) < Work(s)
  {
    SumUpdate(s.workers, w, ApplyWorker(s, w, wake).workers[w], RankW);
    NoSleepingProducer(s, w);
  }

  lemma WorkStepProducer(s: State, p: nat, wake: nat, ok: bool)
    requires Inv(s) && s.shutdown && Enabled(s, StepProducer(p, wake, ok))
    ensures Work(ApplyProducer(s, p, wake, ok)) < Work(s)
  {
    SumUpdate(s.producers, p, ApplyProducer(s, p, wake, ok).producers[p], RankP);
  }

  lemma WorkStepDestroyer(s: State)
    requires Inv(s) && s.shutdown && Enabled(s, StepDestroyer)
    ensures Work(ApplyDestroyer(s)) < Work(s)
  {
    BroadcastRank(s.workers, WakeW, RankW);
    BroadcastRank(s.producers, WakeP, RankP);
  }

  /** After shutdown every step but a new call brings the pool closer to rest. */
  lemma WorkStep(s: State, st: Step)
    requires Inv(s) && s.shutdown && Enabled(s, st)
    ensures Work(Apply(s, st)) < Work(s) + if st.Call? then 4 else 0
  {
    match st
    case StepWorker(w, wake) => WorkStepWorker(s, w, wake);
    case StepProducer(p, wake, ok) => WorkStepProducer(s, p, wake, ok);
    case Call(p, t) => SumUpdate(s.producers, p, PLock(t), RankP);
    case WakeWorker(w) => SumUpdate(s.workers, w, WWoken, RankW);
    case WakeProducer(p) => SumUpdate(s.producers, p, PWoken(s.producers[p].task), RankP);
    case StepDestroyer => WorkStepDestroyer(s);
  }

  function Calls(run: seq<Step>): nat {
    if run == [] then 0 else (if run[0].Call? then 1 else 0) + Calls(run[1..])
  }

  /** Every run after shutdown is finite: it has at most Work(s) steps plus four
      for each new (and refused) thread_pool_add_task call. */
  lemma {:induction false} ShutdownRunsAreBounded(s: State, run: seq<Step>)
    requires Inv(s) && s.shutdown && IsRun(s, run)
    ensures |run| <= Work(s) + 4 * Calls(run)
    decreases |run|
  {
    if run == [] {
    } else {
      WorkStep(s, run[0]);
      InvStep(s, run[0]);
      ShutdownRunsAreBounded(Apply(s, run[0]), run[1..]);
    }
  }

  /** ... and it does not stop early: until the destroyer is done some thread
      other than a new caller can step. */
  lemma ShutdownNeverStalls(s: State)
    requires Reachable(s) && s.shutdown && !s.destroyer.DDone?
    ensures exists st :: Enabled(s, st) && !st.Call?
  {
    ReachableInv(s);
    match s.lock
    case Destroyer => assert Enabled(s, StepDestroyer);
    case Producer(p) => assert Enabled(s, StepProducer(p, 0, true));
    case Worker(w) =>
      NoSleepingProducer(s, w);
      assert Enabled(s, StepWorker(w, 0));
    case Nobody =>
      if w :| 0 <= w < |s.workers| && !s.workers[w].WExited? {
        assert Enabled(s, StepWorker(w, 0));
      } else {
        assert Enabled(s, StepDestroyer);
      }
  }

  lemma {:induction false} ReachableRun(s: State, run: seq<Step>)
    requires Reachable(s) && IsRun(s, run)
    ensures Reachable(Final(s, run))
    decreases |run|
  {
    if run == [] {
    } else {
      var t := Go(s, run[0]);
      ReachableRun(t, run[1..]);
    }
  }

  lemma {:induction false} NothingAcceptedAfterShutdown(s: State, run: seq<Step>)
    requires Inv(s) && s.shutdown && IsRun(s, run)
    ensures Final(s, run).accepted == s.accepted && Final(s, run).shutdown
    decreases |run|
  {
    if run == [] {
    } else {
      InvStep(s, run[0]);
      NothingAcceptedAfterShutdown(Apply(s, run[0]), run[1..]);
    }
  }

  /** Graceful shutdown: every run that starts after shutdown is bounded, and
      one that can only continue with new calls has ended with the destroyer
      done and every task accepted before shutdown executed exactly once. */
  lemma ShutdownCompletes(s: State, run: seq<Step>)
    requires Reachable(s) && s.shutdown && IsRun(s, run)
    ensures |run| <= Work(s) + 4 * Calls(run)
    ensures (forall st :: Enabled(Final(s, run), st) ==> st.Call?) ==>
              && Final(s, run).destroyer.DDone?
              && Final(s, run).taken == s.accepted
              && multiset(Final(s, run).executed) == multiset(s.accepted)
  {
    ReachableInv(s);
    ShutdownRunsAreBounded(s, run);
    ReachableRun(s, run);
    NothingAcceptedAfterShutdown(s, run);
    var end := Final(s, run);
    if !end.destroyer.DDone? {
      ShutdownNeverStalls(end);
    } else {
      DestroyDropsNothing(end);
    }
  }

  // ---- a failed allocation does lose a wakeup ----

  const JOB := Task(0, 0)

  lemma InitReachable(s: State)
    requires Init(s)
    ensures Reachable(s)
  {
    assert IsRun(s, []) && Final(s, []) == s;
  }

  /** One worker, one slot: a first producer passes its tests ... */
  lemma FirstProducer() returns (s: State)
    ensures Reachable(s)
    ensures s == State([WLock], [PAlloc(JOB), PIdle, PIdle], DIdle, Producer(0), [], 0, 1, false, [], [], [], 0)
  {
    hide Reachable;
    s := State([WLock], [PIdle, PIdle, PIdle], DIdle, Nobody, [], 0, 1, false, [], [], [], 0);
    InitReachable(s);
    s := Go(s, Call(0, JOB));
    s := Go(s, StepProducer(0, 0, true));
    s := Go(s, StepProducer(0, 0, true));
    s := Go(s, StepProducer(0, 0, true));
    assert s.producers == [PAlloc(JOB), PIdle, PIdle];
  }

  /** ... and fills the queue ... */
  lemma FillQueue() returns (s: State)
    ensures Reachable(s)
    ensures s == State([WLock], [PIdle, PIdle, PIdle], DIdle, Nobody, [JOB], 1, 1, false, [JOB], [], [], 0)
  {
    hide Reachable;
    s := FirstProducer();
    s := Go(s, StepProducer(0, 0, true));
    s := Go(s, StepProducer(0, 0, true));
    s := Go(s, StepProducer(0, 0, true));
    assert s.producers == [PIdle, PIdle, PIdle];
  }

  /** ... two more find it full and sleep ... */
  lemma TwoSleepers() returns (s: State)
    ensures Reachable(s)
    ensures s == State([WLock], [PIdle, PAsleep(JOB), PAsleep(JOB)], DIdle, Nobody, [JOB], 1, 1, false,
                       [JOB], [], [], 0)
  {
    hide Reachable;
    s := FillQueue();
    s := Go(s, Call(1, JOB));
    s := Go(s, StepProducer(1, 0, true));
    s := Go(s, StepProducer(1, 0, true));
    s := Go(s, StepProducer(1, 0, true));
    s := Go(s, Call(2, JOB));
    s := Go(s, StepProducer(2, 0, true));
    s := Go(s, StepProducer(2, 0, true));
    s := Go(s, StepProducer(2, 0, true));
    assert s.producers == [PIdle, PAsleep(JOB), PAsleep(JOB)];
  }

  /** ... the worker frees the slot and signals one of them ... */
  lemma OneSignalled() returns (s: State)
    ensures Reachable(s)
    ensures s == State([WRun(Some(JOB))], [PIdle, PWoken(JOB), PAsleep(JOB)], DIdle, Nobody, [], 0, 1, false,
                       [JOB], [JOB], [], 0)
  {
    hide Reachable;
    s := TwoSleepers();
    s := Go(s, StepWorker(0, 1));
    s := Go(s, StepWorker(0, 1));
    s := Go(s, StepWorker(0, 1));
    SumAtLeast(s.producers, 1, AsleepP);
    s := Go(s, StepWorker(0, 1));
    s := Go(s, StepWorker(0, 1));
    assert s.producers == [PIdle, PWoken(JOB), PAsleep(JOB)];
  }

  /** ... whose malloc fails: the other producer sleeps on beside a free slot,
      with no producer awake. The bound in NoLostWakeup is tight. */
  lemma FailedAllocationStrandsProducer() returns (s: State)
    ensures Reachable(s) && s.lock.Nobody? && !s.shutdown && s.allocFailures == 1
    ensures Sum(s.producers, AsleepP) > 0 && s.maxTasks - s.taskCount == 1
    ensures Sum(s.producers, EagerP) == 0
  {
    hide Reachable;
    s := OneSignalled();
    s := Go(s, StepProducer(1, 0, false));
    s := Go(s, StepProducer(1, 0, false));
    s := Go(s, StepProducer(1, 0, false));
    s := Go(s, StepProducer(1, 0, false));
    s := Go(s, StepProducer(1, 0, false));
    assert s.producers == [PIdle, PIdle, PAsleep(JOB)];
    SumAtLeast(s.producers, 2, AsleepP);
    if Sum(s.producers, EagerP) > 0 {
      var p := SumWitness(s.producers, EagerP);
    }
  }
}

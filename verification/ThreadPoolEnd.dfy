/** Callers of thread_pool_add_task that are still inside when thread_pool_destroy
    returns and the pool is freed. */
module ThreadPoolEnd {
  import opened Tally
  import opened ThreadPool
  import opened ThreadPoolSafety
  import opened ThreadPoolTheorems

  predicate AllIdle(s: State) { forall p :: 0 <= p < |s.producers| ==> s.producers[p].PIdle? }

  /** Destroy has broadcast and joins its workers; no caller owns the lock. */
  ghost predicate Joining(s: State) {
    Inv(s) && (s.destroyer.DJoin? || s.destroyer.DDone?) && !s.lock.Producer?
  }

  lemma JoiningFacts(s: State)
    requires Joining(s)
    ensures s.shutdown && s.lock != Destroyer && Sum(s.producers, AsleepP) == 0
  {
    if Sum(s.producers, AsleepP) > 0 {
      var p := SumWitness(s.producers, AsleepP);
    }
  }

  /** A worker or the destroyer can step, and the callers do not notice. */
  lemma OvertakingStep(s: State) returns (st: Step)
    requires Joining(s) && s.destroyer.DJoin?
    ensures Enabled(s, st) && (st.StepWorker? || st.StepDestroyer?)
    ensures Apply(s, st).producers == s.producers && !Apply(s, st).lock.Producer?
    ensures Apply(s, st).destroyer.DJoin? || Apply(s, st).destroyer.DDone?
  {
    JoiningFacts(s);
    if s.lock.Worker? {
      st := StepWorker(s.lock.w, 0);
    } else if w :| 0 <= w < |s.workers| && !s.workers[w].WExited? {
      st := StepWorker(w, 0);
    } else {
      st := StepDestroyer;
    }
  }

  /** Destroy can return without any caller having made a step. */
  lemma {:induction false} DestroyOvertakes(s: State) returns (run: seq<Step>)
    requires Joining(s)
    ensures IsRun(s, run) && Calls(run) == 0
    ensures Final(s, run).destroyer.DDone? && Final(s, run).producers == s.producers
    decreases Work(s)
  {
    hide Inv, Enabled, Apply, Work;
    if s.destroyer.DDone? {
      run := [];
    } else {
      var st := OvertakingStep(s);
      JoiningFacts(s);
      InvStep(s, st);
      WorkStep(s, st);
      var rest := DestroyOvertakes(Apply(s, st));
      run := [st] + rest;
      assert run[1..] == rest;
    }
  }

  lemma {:induction false} IdleStays(s: State, run: seq<Step>)
    requires AllIdle(s) && IsRun(s, run) && Calls(run) == 0
    ensures AllIdle(Final(s, run))
    decreases |run|
  {
    if run == [] {
    } else {
      IdleStep(s, run[0]);
      IdleStays(Apply(s, run[0]), run[1..]);
    }
  }

  lemma IdleStep(s: State, st: Step)
    requires AllIdle(s) && Enabled(s, st) && !st.Call?
    ensures AllIdle(Apply(s, st))
  {
    if st.StepWorker? && Sum(s.producers, AsleepP) > 0 {
      var p := SumWitness(s.producers, AsleepP);
    }
  }

  /** With no new calls: destroy can return, and the pool be freed, while somebody is
      inside add_task, if and only if somebody is inside when destroy starts joining. */
  lemma CallersAtTheEnd(s: State)
    requires Inv(s) && s.destroyer.DJoin? && s.lock.Nobody?
    ensures !AllIdle(s) <==>
            exists run :: IsRun(s, run) && Calls(run) == 0 && Final(s, run).destroyer.DDone? && !AllIdle(Final(s, run))
  {
    if AllIdle(s) {
      forall run | IsRun(s, run) && Calls(run) == 0 ensures AllIdle(Final(s, run)) {
        IdleStays(s, run);
      }
    } else {
      hide Inv;
      var run := DestroyOvertakes(s);
    }
  }

  lemma Destroying(s: State) returns (t: State)
    requires Reachable(s) && s.destroyer.DIdle? && s.lock.Nobody?
    ensures Reachable(t) && t.destroyer.DJoin? && t.lock.Nobody?
    ensures t.producers == Broadcast(s.producers, WakeP)
  {
    hide Reachable;
    var t1 := Go(s, StepDestroyer);
    var t2 := Go(t1, StepDestroyer);
    var t3 := Go(t2, StepDestroyer);
    var t4 := Go(t3, StepDestroyer);
    var t5 := Go(t4, StepDestroyer);
    t := Go(t5, StepDestroyer);
  }

  /** Such a state can be reached: two callers that slept on a full queue have been woken
      by the broadcast, and want a lock that no longer exists. */
  lemma WokenAfterDestroy() returns (s: State)
    ensures Reachable(s) && s.destroyer.DDone?
    ensures s.producers == [PIdle, PWoken(JOB), PWoken(JOB)]
  {
    var s0 := TwoSleepers();
    var s1 := Destroying(s0);
    ReachableInv(s1);
    hide Inv, Reachable;
    var run := DestroyOvertakes(s1);
    ReachableRun(s1, run);
    s := Final(s1, run);
  }
}

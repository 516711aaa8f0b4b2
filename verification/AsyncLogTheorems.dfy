/** What every run of the asynchronous logger keeps. */
module AsyncLogTheorems {
  import opened Tally
  import opened RingBuffer
  import opened AsyncLog

  /** A run: each state follows from the one before by an enabled step. */
  ghost predicate IsRun(states: seq<State>, steps: seq<Step>) {
    && |states| == |steps| + 1
    && (forall i :: 0 <= i < |steps| ==>
          Valid(states[i].ring) && Enabled(states[i], steps[i]) && states[i + 1] == Next(states[i], steps[i]))
  }

  lemma {:induction false} RunKeepsInv(states: seq<State>, steps: seq<Step>, k: nat)
    requires IsRun(states, steps) && Inv(states[0]) && k < |states|
    ensures Inv(states[k])
  {
    hide Inv, Next, Enabled;
    if k == 0 {
    } else {
      RunKeepsInv(states, steps, k - 1);
      StepKeeps(states[k - 1], steps[k - 1]);
    }
  }

  /** The log is a faithful FIFO: in every reachable state, for any capacity and any
      producers, what was written out, then the entry in the consumer's hand, then the
      ring is exactly what was pushed, and the ring's arithmetic holds. */
  lemma FaithfulFifo(capacity: nat, producers: nat, states: seq<State>, steps: seq<Step>, k: nat)
    requires capacity > 0 && IsRun(states, steps) && states[0] == Initial(capacity, producers) && k < |states|
    ensures var s := states[k];
            && Valid(s.ring)
            && s.output + InHand(s.consumer) + Contents(s.ring) == s.pushed
            && s.total + (if s.consumer.Counting? then 1 else 0) == |s.output|
            && (s.ring.head + s.ring.count) % |s.ring.entries| == s.ring.tail
  {
    InitialInv(capacity, producers);
    RunKeepsInv(states, steps, k);
    TailIsHeadPlusCount(states[k].ring);
  }

  /** The pop that ends the consumer is one of its second loop, and happens on an empty
      ring: all that was pushed by then has been written out and counted. */
  lemma FinalPop(s: State, st: Step)
    requires Inv(s) && Enabled(s, st) && !s.consumer.Done? && Next(s, st).consumer.Done?
    ensures s.consumer in {Popping(true), Roused(true)} && s.ring.count == 0 && !s.running
    ensures s.output == s.pushed && s.total == |s.pushed| && Next(s, st) == s.(consumer := Done)
  {
  }

  lemma DoneStep(s: State, st: Step)
    requires Valid(s.ring) && Enabled(s, st) && s.consumer.Done?
    ensures var t := Next(s, st);
            t.consumer.Done? && t.output == s.output && t.total == s.total && s.ring.count <= t.ring.count
  {
    hide Valid;
  }

  lemma {:induction false} DoneIsFinal(states: seq<State>, steps: seq<Step>, i: nat, j: nat)
    requires IsRun(states, steps) && Inv(states[0]) && i <= j < |states| && states[i].consumer.Done?
    ensures states[j].consumer.Done? && states[j].output == states[i].output && states[j].total == states[i].total
    ensures states[i].pushed <= states[j].pushed && states[i].ring.count <= states[j].ring.count
    decreases j
  {
    if i == j {
    } else {
      hide Inv, Next, Enabled;
      DoneIsFinal(states, steps, i, j - 1);
      RunKeepsInv(states, steps, j - 1);
      StepKeeps(states[j - 1], steps[j - 1]);
      DoneStep(states[j - 1], steps[j - 1]);
    }
  }

  /** Once the consumer has ended, its output is what had been pushed at that moment,
      for good; what is pushed later stays in the ring. */
  lemma {:induction false} OutputAtEnd(states: seq<State>, steps: seq<Step>, i: nat, j: nat)
    requires IsRun(states, steps) && Inv(states[0]) && i < j < |states|
    requires !states[i].consumer.Done? && states[i + 1].consumer.Done?
    ensures states[j].output == states[i].pushed && states[j].total == |states[i].pushed|
    ensures Valid(states[j].ring) && states[j].pushed == states[i].pushed + Contents(states[j].ring)
  {
    hide Next, Contents;
    RunKeepsInv(states, steps, i);
    RunKeepsInv(states, steps, j);
    FinalPop(states[i], steps[i]);
    DoneIsFinal(states, steps, i + 1, j);
  }

  /** Nobody sleeps next to work: the consumer waits only on an empty ring of a running
      logger, and a producer waits only while the ring is full or another producer has
      been woken for each free slot. */
  lemma NobodyStuck(s: State) returns (p: nat)
    requires Inv(s)
    ensures s.consumer.Waiting? ==> s.ring.count == 0 && s.running
    ensures Sum(s.producers, AsleepCount) > 0 && s.ring.count < |s.ring.entries| ==> Enabled(s, Retry(p))
  {
    p := 0;
    if Sum(s.producers, AsleepCount) > 0 && s.ring.count < |s.ring.entries| {
      p := SumWitness(s.producers, WokenCount);
    }
  }

  // ---- after the stop request ----

  /** The logger runs until it is asked to stop, and never again. */
  lemma {:induction false} RunsUntilStop(states: seq<State>, steps: seq<Step>)
    requires IsRun(states, steps)
    ensures states[|steps|].running <==> states[0].running && Stop !in steps
  {
    hide Valid, Enabled;
    var n := |steps|;
    if n == 0 {
    } else {
      RunsUntilStop(states[..n], steps[..n - 1]);
      assert steps == steps[..n - 1] + [steps[n - 1]];
    }
  }

  /** Steps the consumer still has to make once the logger is stopped. */
  function Rank(pc: ConsumerPc): nat {
    match pc
    case Done => 0
    case Testing => 2
    case Popping(drain) => if drain then 1 else 3
    case Waiting(drain) => if drain then 1 else 3
    case Roused(drain) => if drain then 1 else 3
    case Counting(drain) => if drain then 2 else 3
    case Holding(_, drain) => if drain then 3 else 4
  }

  function Remaining(s: State): nat { 3 * s.ring.count + Rank(s.consumer) }

  function ConsumerSteps(steps: seq<Step>): nat {
    if steps == [] then 0 else ConsumerSteps(steps[..|steps| - 1]) + if steps[|steps| - 1].Consumer? then 1 else 0
  }

  lemma DrainStep(s: State, st: Step)
    requires Inv(s) && Enabled(s, st) && !s.running
    ensures var t := Next(s, st);
            && !t.running && |s.pushed| <= |t.pushed|
            && Remaining(t) + (if st.Consumer? then 1 else 0) <= Remaining(s) + 3 * (|t.pushed| - |s.pushed|)
  {
    hide Contents, Valid;
    assert !s.consumer.Waiting?;
  }

  /** After the stop request the consumer can always make its next step until it has
      ended, and it ends after a bounded number of steps: three for every entry in the
      ring or still pushed, and at most four more. */
  lemma {:induction false} DrainIsBounded(states: seq<State>, steps: seq<Step>)
    requires IsRun(states, steps) && Inv(states[0]) && !states[0].running
    ensures var s, t := states[0], states[|steps|];
            && |s.pushed| <= |t.pushed|
            && ConsumerSteps(steps) + Remaining(t) <= Remaining(s) + 3 * (|t.pushed| - |s.pushed|)
            && (t.consumer.Done? || exists wake :: Enabled(t, Consumer(wake)))
            && !t.running
  {
    hide Next, Contents, Valid, Remaining;
    var n := |steps|;
    RunKeepsInv(states, steps, n);
    if n == 0 {
    } else {
      DrainIsBounded(states[..n], steps[..n - 1]);
      RunKeepsInv(states, steps, n - 1);
      DrainStep(states[n - 1], steps[n - 1]);
    }
    CanGo(states[n]);
  }

  lemma CanGo(s: State)
    requires Inv(s)
    requires !s.running
    ensures s.consumer.Done? || exists wake :: Enabled(s, Consumer(wake))
  {
    var wake := 0;
    if Sum(s.producers, AsleepCount) > 0 {
      wake := SumWitness(s.producers, AsleepCount);
    }
    assert s.consumer.Done? || Enabled(s, Consumer(wake));
  }
}

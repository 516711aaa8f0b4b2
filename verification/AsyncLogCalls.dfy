/** From the log call to the output: what becomes of every entry that is handed to
    ring_buffer_push. The statements are about the Log steps of a run. */
module AsyncLogCalls {
  import opened RingBuffer
  import opened AsyncLog
  import opened AsyncLogTheorems

  // ---- read off a run ----

  /** The entry a producer waits with. */
  function Waiting(pc: ProducerPc): seq<Entry> { if pc.Idle? then [] else [pc.entry] }

  /** The entries that producer p logs in a run, in order. */
  function LoggedBy(steps: seq<Step>, p: nat): seq<Entry> {
    if steps == [] then []
    else
      var n := |steps| - 1;
      LoggedBy(steps[..n], p) + if steps[n].Log? && steps[n].p == p then [steps[n].entry] else []
  }

  /** What one step adds to the history of pushed entries. */
  function Added(s: State, t: State): seq<Entry> {
    if |s.pushed| <= |t.pushed| then t.pushed[|s.pushed|..] else []
  }

  /** The entries that steps of producer p put into the ring, in order. */
  function PushedBy(states: seq<State>, steps: seq<Step>, p: nat): seq<Entry>
    requires |states| == |steps| + 1
    decreases |steps|
  {
    if steps == [] then []
    else
      var n := |steps| - 1;
      PushedBy(states[..n + 1], steps[..n], p)
      + if (steps[n].Log? || steps[n].Retry?) && steps[n].p == p then Added(states[n], states[n + 1]) else []
  }

  // ---- one step ----

  /** A producer's step: the entry it logs or waits with is pushed, or it waits with it. */
  lemma OwnStep(s: State, st: Step)
    requires Valid(s.ring) && Enabled(s, st) && (st.Log? || st.Retry?)
    ensures var t, p := Next(s, st), st.p;
            var entry := if st.Log? then [st.entry] else Waiting(s.producers[p]);
            && |t.producers| == |s.producers| && (st.Log? ==> Waiting(s.producers[p]) == []) && |entry| == 1
            && (|| (t.pushed == s.pushed + entry && Waiting(t.producers[p]) == [])
                || (t.pushed == s.pushed && Waiting(t.producers[p]) == entry))
            && (forall q :: 0 <= q < |s.producers| && q != p ==> t.producers[q] == s.producers[q])
  {
    hide Put;
  }

  /** Any other step pushes nothing, and every producer keeps its entry. */
  lemma OtherStep(s: State, st: Step)
    requires Valid(s.ring) && Enabled(s, st) && !st.Log? && !st.Retry?
    ensures var t := Next(s, st);
            && |t.producers| == |s.producers| && t.pushed == s.pushed
            && (forall q :: 0 <= q < |s.producers| ==> Waiting(t.producers[q]) == Waiting(s.producers[q]))
  {
    hide Take;
  }

  /** Who is concerned by a step. */
  predicate By(st: Step, p: nat) { (st.Log? || st.Retry?) && st.p == p }

  lemma StepBalances(s: State, st: Step, p: nat)
    requires Valid(s.ring) && Enabled(s, st) && p < |s.producers|
    ensures var t := Next(s, st);
            && |t.producers| == |s.producers| && s.pushed <= t.pushed
            && Waiting(s.producers[p]) + (if st.Log? && st.p == p then [st.entry] else [])
               == (if By(st, p) then Added(s, t) else []) + Waiting(t.producers[p])
            && (!st.Log? && !st.Retry? ==> t.pushed == s.pushed)
  {
    hide Next, Enabled;
    var t := Next(s, st);
    if st.Log? || st.Retry? {
      OwnStep(s, st);
      if st.p == p {
        assert (s.pushed + [])[|s.pushed|..] == [];
      }
    } else {
      OtherStep(s, st);
    }
  }

  // ---- every run ----

  lemma {:induction false} LogsBalance(states: seq<State>, steps: seq<Step>, p: nat)
    requires IsRun(states, steps) && p < |states[0].producers|
    ensures |states[|steps|].producers| == |states[0].producers|
    ensures Waiting(states[0].producers[p]) + LoggedBy(steps, p)
            == PushedBy(states, steps, p) + Waiting(states[|steps|].producers[p])
    decreases |steps|
  {
    hide Next, Enabled, Waiting;
    var n := |steps| - 1;
    if steps == [] {
    } else {
      LogsBalance(states[..n + 1], steps[..n], p);
      StepBalances(states[n], steps[n], p);
      hide IsRun, Added;
      Weave(Waiting(states[0].producers[p]), LoggedBy(steps[..n], p), PushedBy(states[..n + 1], steps[..n], p),
            Waiting(states[n].producers[p]), if steps[n].Log? && steps[n].p == p then [steps[n].entry] else [],
            if By(steps[n], p) then Added(states[n], states[n + 1]) else [], Waiting(states[n + 1].producers[p]));
    }
  }

  /** Two balances in a row. */
  lemma Weave(a: seq<Entry>, b: seq<Entry>, c: seq<Entry>, d: seq<Entry>, e: seq<Entry>, f: seq<Entry>, g: seq<Entry>)
    requires a + b == c + d && d + e == f + g
    ensures a + (b + e) == c + f + g
  {
    assert a + (b + e) == (a + b) + e;
    assert (c + d) + e == c + (d + e);
    assert c + (f + g) == c + f + g;
  }

  /** Producer by producer, in every run of a new logger: the entries it logged are, in this
      order, those its steps pushed and the one it still waits with. */
  lemma LoggedInOrder(capacity: nat, producers: nat, states: seq<State>, steps: seq<Step>, p: nat)
    requires capacity > 0 && IsRun(states, steps) && states[0] == Initial(capacity, producers) && p < producers
    ensures |states[|steps|].producers| == producers
    ensures LoggedBy(steps, p) == PushedBy(states, steps, p) + Waiting(states[|steps|].producers[p])
  {
    hide IsRun, LoggedBy, PushedBy;
    LogsBalance(states, steps, p);
    assert [] + LoggedBy(steps, p) == LoggedBy(steps, p);
  }

  // ---- all producers together ----

  function AllLogged(steps: seq<Step>): seq<Entry> {
    if steps == [] then []
    else
      var n := |steps| - 1;
      AllLogged(steps[..n]) + if steps[n].Log? then [steps[n].entry] else []
  }

  function AllWaiting(ps: seq<ProducerPc>): seq<Entry> {
    if ps == [] then [] else Waiting(ps[0]) + AllWaiting(ps[1..])
  }

  lemma {:induction false} SameWaiting(ps: seq<ProducerPc>, qs: seq<ProducerPc>)
    requires |ps| == |qs| && forall i :: 0 <= i < |ps| ==> Waiting(ps[i]) == Waiting(qs[i])
    ensures AllWaiting(ps) == AllWaiting(qs)
  {
    if ps == [] {
    } else {
      SameWaiting(ps[1..], qs[1..]);
    }
  }

  lemma {:induction false} OneMoves(ps: seq<ProducerPc>, qs: seq<ProducerPc>, p: nat, entry: Entry)
    requires |ps| == |qs| && p < |ps| && forall i :: 0 <= i < |ps| && i != p ==> ps[i] == qs[i]
    ensures multiset(AllWaiting(ps))[entry] + multiset(Waiting(qs[p]))[entry]
            == multiset(AllWaiting(qs))[entry] + multiset(Waiting(ps[p]))[entry]
  {
    hide Waiting;
    Counts(Waiting(ps[0]), AllWaiting(ps[1..]), entry);
    Counts(Waiting(qs[0]), AllWaiting(qs[1..]), entry);
    if p == 0 {
      assert ps[1..] == qs[1..];
    } else {
      OneMoves(ps[1..], qs[1..], p - 1, entry);
    }
  }

  lemma Counts(a: seq<Entry>, b: seq<Entry>, entry: Entry)
    ensures multiset(a + b)[entry] == multiset(a)[entry] + multiset(b)[entry]
  {
  }

  lemma StepCounts(s: State, st: Step, entry: Entry)
    requires Valid(s.ring) && Enabled(s, st)
    ensures var t := Next(s, st);
            multiset(AllWaiting(s.producers))[entry] + multiset(s.pushed)[entry]
            + (if st.Log? && st.entry == entry then 1 else 0)
            == multiset(t.pushed)[entry] + multiset(AllWaiting(t.producers))[entry]
  {
    hide Next, AllWaiting, Valid;
    var t := Next(s, st);
    if st.Log? || st.Retry? {
      OwnStep(s, st);
      hide Enabled;
      OneMoves(s.producers, t.producers, st.p, entry);
      Counts(s.pushed, if st.Log? then [st.entry] else Waiting(s.producers[st.p]), entry);
    } else {
      OtherStep(s, st);
      SameWaiting(s.producers, t.producers);
    }
  }

  lemma {:induction false} RunCounts(states: seq<State>, steps: seq<Step>, entry: Entry)
    requires IsRun(states, steps)
    ensures var s, t := states[0], states[|steps|];
            multiset(AllWaiting(s.producers))[entry] + multiset(s.pushed)[entry] + multiset(AllLogged(steps))[entry]
            == multiset(t.pushed)[entry] + multiset(AllWaiting(t.producers))[entry]
    decreases |steps|
  {
    hide Next, Enabled, AllWaiting;
    var n := |steps| - 1;
    if steps == [] {
    } else {
      RunCounts(states[..n + 1], steps[..n], entry);
      StepCounts(states[n], steps[n], entry);
      Counts(AllLogged(steps[..n]), if steps[n].Log? then [steps[n].entry] else [], entry);
    }
  }

  lemma {:induction false} NobodyWaits(n: nat)
    ensures AllWaiting(seq(n, _ => Idle)) == []
  {
    if n == 0 {
    } else {
      assert seq(n, _ => Idle)[1..] == seq(n - 1, _ => Idle);
      NobodyWaits(n - 1);
    }
  }

  /** Nothing that is logged is lost, changed or made up: in every run of a new logger the
      entries of its log calls are, with multiplicity, those written out, the one in the
      consumer's hand, those in the ring and those that producers still wait with. */
  lemma EveryEntryIsSomewhere(capacity: nat, producers: nat, states: seq<State>, steps: seq<Step>, entry: Entry)
    requires capacity > 0 && IsRun(states, steps) && states[0] == Initial(capacity, producers)
    ensures var t := states[|steps|];
            && Valid(t.ring)
            && multiset(AllLogged(steps))[entry]
               == multiset(t.output)[entry] + multiset(InHand(t.consumer))[entry] + multiset(Contents(t.ring))[entry]
                  + multiset(AllWaiting(t.producers))[entry]
  {
    var t := states[|steps|];
    hide IsRun, Contents, AllWaiting, AllLogged;
    FaithfulFifo(capacity, producers, states, steps, |steps|);
    RunCounts(states, steps, entry);
    NobodyWaits(producers);
    Counts(t.output + InHand(t.consumer), Contents(t.ring), entry);
    Counts(t.output, InHand(t.consumer), entry);
  }
}

/** From the call to the execution: what becomes of every task that is handed to
    thread_pool_add_task. The statements are about the Call steps of a run. */
module ThreadPoolCalls {
  import opened ThreadPool
  import opened ThreadPoolSafety
  import opened ThreadPoolTheorems

  /** What happened to the task of a call, and the state of the pool that decided it. */
  datatype Outcome = Accepted(task: Task) | Refused(task: Task, shutdown: bool, mallocFailed: bool)

  datatype Verdict = Verdict(p: nat, outcome: Outcome)

  // ---- read off a run ----

  /** The task a caller has not got rid of yet. */
  function Hand(pc: ProducerPc): seq<Task> {
    match pc
    case PIdle => []
    case PSignal => []
    case PUnlock(_) => []
    case _ => [pc.task]
  }

  /** The code of a decided call that has not returned yet. */
  function Pending(pc: ProducerPc): seq<int> {
    if pc.PSignal? then [0] else if pc.PUnlock? then [pc.code] else []
  }

  /** A step decides a call when the history of accepted tasks grows, or when the caller's
      task is gone without that. */
  function Decided(s: State, st: Step): seq<Verdict>
    requires Enabled(s, st)
  {
    var t := Apply(s, st);
    if !st.StepProducer? || st.p >= |t.producers| then []
    else if |t.accepted| > |s.accepted| then [Verdict(st.p, Accepted(t.accepted[|t.accepted| - 1]))]
    else if Hand(s.producers[st.p]) != [] && Hand(t.producers[st.p]) == [] then
      [Verdict(st.p, Refused(Hand(s.producers[st.p])[0], s.shutdown, t.allocFailures > s.allocFailures))]
    else []
  }

  function Verdicts(s: State, run: seq<Step>): seq<Verdict>
    requires IsRun(s, run)
    decreases |run|
  {
    if run == [] then [] else Decided(s, run[0]) + Verdicts(Apply(s, run[0]), run[1..])
  }

  /** The tasks that producer p submits in a run, in order. */
  function CallsOf(run: seq<Step>, p: nat): seq<Task> {
    if run == [] then []
    else (if run[0].Call? && run[0].p == p then [run[0].task] else []) + CallsOf(run[1..], p)
  }

  /** The codes that producer p is answered with, in order. */
  function Returned(s: State, run: seq<Step>, p: nat): seq<int>
    requires IsRun(s, run)
    decreases |run|
  {
    if run == [] then []
    else Answer(s, run[0], p) + Returned(Apply(s, run[0]), run[1..], p)
  }

  function TasksOf(vs: seq<Verdict>, p: nat): seq<Task> {
    if vs == [] then [] else (if vs[0].p == p then [vs[0].outcome.task] else []) + TasksOf(vs[1..], p)
  }

  function CodesOf(vs: seq<Verdict>, p: nat): seq<int> {
    if vs == [] then []
    else (if vs[0].p == p then [if vs[0].outcome.Accepted? then 0 else -1] else []) + CodesOf(vs[1..], p)
  }

  function AcceptedIn(vs: seq<Verdict>): seq<Task> {
    if vs == [] then [] else (if vs[0].outcome.Accepted? then [vs[0].outcome.task] else []) + AcceptedIn(vs[1..])
  }

  function RefusedIn(vs: seq<Verdict>): seq<Task> {
    if vs == [] then [] else (if vs[0].outcome.Refused? then [vs[0].outcome.task] else []) + RefusedIn(vs[1..])
  }

  /** Tasks are turned away only by shutdown or by a failed allocation. */
  ghost predicate WithReason(vs: seq<Verdict>) {
    forall i :: 0 <= i < |vs| && vs[i].outcome.Refused? ==> vs[i].outcome.shutdown || vs[i].outcome.mallocFailed
  }

  // ---- one step ----

  /** A step of another thread leaves a caller its task and its code. */
  lemma OthersKeepHand(s: State, st: Step, p: nat)
    requires Enabled(s, st) && p < |s.producers| && !(st.StepProducer? && st.p == p) && !(st.Call? && st.p == p)
    ensures |Apply(s, st).producers| == |s.producers|
    ensures Hand(Apply(s, st).producers[p]) == Hand(s.producers[p])
    ensures Pending(Apply(s, st).producers[p]) == Pending(s.producers[p])
  {
  }

  lemma One(v: Verdict, p: nat)
    ensures TasksOf([v], p) == if v.p == p then [v.outcome.task] else []
    ensures CodesOf([v], p) == if v.p == p then [if v.outcome.Accepted? then 0 else -1] else []
    ensures AcceptedIn([v]) == if v.outcome.Accepted? then [v.outcome.task] else []
    ensures RefusedIn([v]) == if v.outcome.Refused? then [v.outcome.task] else []
  {
    NothingDecided(p);
    assert [v][1..] == [];
  }

  lemma NothingDecided(p: nat)
    ensures TasksOf([], p) == [] && CodesOf([], p) == [] && AcceptedIn([]) == [] && RefusedIn([]) == []
  {
  }

  /** The step of a caller: its task stays in its hand, or is accepted, or is turned away
      with a reason; the code follows. */
  lemma OwnStep(s: State, st: Step)
    requires Enabled(s, st) && st.StepProducer?
    ensures var t, vs, now, next := Apply(s, st), Decided(s, st), s.producers[st.p], Apply(s, st).producers[st.p];
            || (&& vs == [] && t.accepted == s.accepted && Hand(next) == Hand(now)
                && (if now.PUnlock? then Pending(next) == [] else Pending(next) == Pending(now)))
            || (&& Hand(now) != [] && Hand(next) == [] && Pending(now) == [] && Pending(next) == [0]
                && vs == [Verdict(st.p, Accepted(Hand(now)[0]))] && t.accepted == s.accepted + Hand(now))
            || (&& Hand(now) != [] && Hand(next) == [] && Pending(now) == [] && Pending(next) == [-1]
                && |vs| == 1 && vs[0].p == st.p && vs[0].outcome.Refused? && vs[0].outcome.task == Hand(now)[0]
                && t.accepted == s.accepted && WithReason(vs))
  {
    match s.producers[st.p]
    case PAlloc(task) =>
    case PEntry(task) =>
    case PRetest(task) =>
    case _ =>
  }

  lemma OtherStep(s: State, st: Step)
    requires Enabled(s, st) && !st.StepProducer?
    ensures Decided(s, st) == [] && Apply(s, st).accepted == s.accepted
    ensures |Apply(s, st).producers| == |s.producers|
  {
  }

  // ---- every run, caller by caller ----

  lemma Split(a: seq<Verdict>, b: seq<Verdict>, p: nat)
    ensures TasksOf(a + b, p) == TasksOf(a, p) + TasksOf(b, p)
    ensures CodesOf(a + b, p) == CodesOf(a, p) + CodesOf(b, p)
    ensures AcceptedIn(a + b) == AcceptedIn(a) + AcceptedIn(b)
    ensures RefusedIn(a + b) == RefusedIn(a) + RefusedIn(b)
  {
    hide TasksOf, CodesOf, AcceptedIn, RefusedIn;
    SplitTasks(a, b, p);
    SplitCodes(a, b, p);
    SplitAccepted(a, b);
    SplitRefused(a, b);
  }

  lemma {:induction false} SplitTasks(a: seq<Verdict>, b: seq<Verdict>, p: nat)
    ensures TasksOf(a + b, p) == TasksOf(a, p) + TasksOf(b, p)
  {
    if a == [] {
      assert a + b == b;
    } else {
      assert (a + b)[1..] == a[1..] + b && (a + b)[0] == a[0];
      SplitTasks(a[1..], b, p);
      Regroup(if a[0].p == p then [a[0].outcome.task] else [], TasksOf(a[1..], p), TasksOf(b, p));
    }
  }

  lemma {:induction false} SplitCodes(a: seq<Verdict>, b: seq<Verdict>, p: nat)
    ensures CodesOf(a + b, p) == CodesOf(a, p) + CodesOf(b, p)
  {
    if a == [] {
      assert a + b == b;
    } else {
      assert (a + b)[1..] == a[1..] + b && (a + b)[0] == a[0];
      SplitCodes(a[1..], b, p);
      Regroup(if a[0].p == p then [if a[0].outcome.Accepted? then 0 else -1] else [], CodesOf(a[1..], p), CodesOf(b, p));
    }
  }

  lemma {:induction false} SplitAccepted(a: seq<Verdict>, b: seq<Verdict>)
    ensures AcceptedIn(a + b) == AcceptedIn(a) + AcceptedIn(b)
  {
    if a == [] {
      assert a + b == b;
    } else {
      assert (a + b)[1..] == a[1..] + b && (a + b)[0] == a[0];
      SplitAccepted(a[1..], b);
      Regroup(if a[0].outcome.Accepted? then [a[0].outcome.task] else [], AcceptedIn(a[1..]), AcceptedIn(b));
    }
  }

  lemma {:induction false} SplitRefused(a: seq<Verdict>, b: seq<Verdict>)
    ensures RefusedIn(a + b) == RefusedIn(a) + RefusedIn(b)
  {
    if a == [] {
      assert a + b == b;
    } else {
      assert (a + b)[1..] == a[1..] + b && (a + b)[0] == a[0];
      SplitRefused(a[1..], b);
      Regroup(if a[0].outcome.Refused? then [a[0].outcome.task] else [], RefusedIn(a[1..]), RefusedIn(b));
    }
  }

  lemma OwnDecides(s: State, st: Step)
    requires Enabled(s, st) && st.StepProducer?
    ensures var t, vs, p := Apply(s, st), Decided(s, st), st.p;
            var code := if s.producers[p].PUnlock? then [s.producers[p].code] else [];
            && Hand(s.producers[p]) == TasksOf(vs, p) + Hand(t.producers[p])
            && Pending(s.producers[p]) + CodesOf(vs, p) == code + Pending(t.producers[p])
            && t.accepted == s.accepted + AcceptedIn(vs) && WithReason(vs)
            && multiset(TasksOf(vs, p)) == multiset(AcceptedIn(vs)) + multiset(RefusedIn(vs))
  {
    hide Apply, Enabled, Decided, TasksOf, CodesOf, AcceptedIn, RefusedIn;
    OwnStep(s, st);
    var vs := Decided(s, st);
    if vs == [] {
      NothingDecided(st.p);
    } else {
      assert vs == [vs[0]];
      One(vs[0], st.p);
    }
  }

  lemma NotForOthers(s: State, st: Step, q: nat)
    requires Enabled(s, st) && st.StepProducer? && q != st.p
    ensures TasksOf(Decided(s, st), q) == [] && CodesOf(Decided(s, st), q) == []
  {
    hide Apply, Enabled, Decided, TasksOf, CodesOf;
    OwnStep(s, st);
    var vs := Decided(s, st);
    if vs == [] {
      NothingDecided(q);
    } else {
      assert vs == [vs[0]];
      One(vs[0], q);
    }
  }

  lemma StepDecides(s: State, st: Step, p: nat)
    requires Enabled(s, st) && p < |s.producers|
    ensures var t, vs := Apply(s, st), Decided(s, st);
            && |t.producers| == |s.producers|
            && Hand(s.producers[p]) + CallsOf([st], p) == TasksOf(vs, p) + Hand(t.producers[p])
            && Pending(s.producers[p]) + CodesOf(vs, p) == Answer(s, st, p) + Pending(t.producers[p])
            && t.accepted == s.accepted + AcceptedIn(vs) && WithReason(vs)
  {
    hide Apply, Enabled, Decided, TasksOf, CodesOf, AcceptedIn, RefusedIn, Hand, Pending;
    OneCall(st, p);
    SameCallers(s, st);
    if st.StepProducer? {
      OwnDecides(s, st);
      if st.p != p {
        NotForOthers(s, st, p);
        OthersKeepHand(s, st, p);
      }
    } else {
      OtherStep(s, st);
      NothingDecided(p);
      if st.Call? && st.p == p {
        CallStep(s, st);
      } else {
        OthersKeepHand(s, st, p);
      }
    }
  }

  /** The code with which a step answers caller p. */
  function Answer(s: State, st: Step, p: nat): seq<int> {
    if st.StepProducer? && st.p == p && p < |s.producers| && s.producers[p].PUnlock? then [s.producers[p].code] else []
  }

  lemma OneCall(st: Step, p: nat)
    ensures CallsOf([st], p) == if st.Call? && st.p == p then [st.task] else []
  {
    assert [st][1..] == [];
  }

  lemma SameCallers(s: State, st: Step)
    requires Enabled(s, st)
    ensures |Apply(s, st).producers| == |s.producers|
  {
  }

  lemma CallStep(s: State, st: Step)
    requires Enabled(s, st) && st.Call?
    ensures var t := Apply(s, st);
            && |t.producers| == |s.producers| && Hand(s.producers[st.p]) == [] && Hand(t.producers[st.p]) == [st.task]
            && Pending(t.producers[st.p]) == Pending(s.producers[st.p]) == []
  {
  }

  /** From any state on: the tasks a caller holds and submits are, in this order, the ones
      decided for it and the one still in its hand; it is told 0 for exactly the accepted
      ones; and the history of accepted tasks grows by exactly the accepted ones. */
  lemma {:induction false} CallsAreDecided(s: State, run: seq<Step>, p: nat)
    requires IsRun(s, run) && p < |s.producers|
    ensures var t, vs := Final(s, run), Verdicts(s, run);
            && |t.producers| == |s.producers|
            && Hand(s.producers[p]) + CallsOf(run, p) == TasksOf(vs, p) + Hand(t.producers[p])
            && Pending(s.producers[p]) + CodesOf(vs, p) == Returned(s, run, p) + Pending(t.producers[p])
            && t.accepted == s.accepted + AcceptedIn(vs) && WithReason(vs)
    decreases |run|
  {
    hide Apply, Enabled, Decided, Hand, Pending, AcceptedIn, TasksOf, CodesOf, CallsOf, Returned, Verdicts, WithReason;
    if run == [] {
      NothingDecided(p);
      NoRun(s, p);
    } else {
      var u, first := Apply(s, run[0]), Decided(s, run[0]);
      StepDecides(s, run[0], p);
      CallsAreDecided(u, run[1..], p);
      var rest, t := Verdicts(u, run[1..]), Final(s, run);
      Unfold(s, run, p);
      Split(first, rest, p);
      BothWithReason(first, rest);
      Weave(Hand(s.producers[p]), CallsOf([run[0]], p), TasksOf(first, p), Hand(u.producers[p]),
            CallsOf(run[1..], p), TasksOf(rest, p), Hand(t.producers[p]));
      Weave(Pending(s.producers[p]), CodesOf(first, p), Answer(s, run[0], p), Pending(u.producers[p]),
            CodesOf(rest, p), Returned(u, run[1..], p), Pending(t.producers[p]));
      Regroup(s.accepted, AcceptedIn(first), AcceptedIn(rest));
    }
  }

  lemma NoRun(s: State, p: nat)
    ensures Verdicts(s, []) == [] && CallsOf([], p) == [] && Returned(s, [], p) == [] && WithReason([])
  {
  }

  lemma Unfold(s: State, run: seq<Step>, p: nat)
    requires IsRun(s, run) && run != []
    ensures var u := Apply(s, run[0]);
            && Verdicts(s, run) == Decided(s, run[0]) + Verdicts(u, run[1..])
            && Returned(s, run, p) == Answer(s, run[0], p) + Returned(u, run[1..], p)
            && CallsOf(run, p) == CallsOf([run[0]], p) + CallsOf(run[1..], p)
  {
    hide Apply, Enabled, Decided;
    OneCall(run[0], p);
  }

  lemma BothWithReason(a: seq<Verdict>, b: seq<Verdict>)
    requires WithReason(a) && WithReason(b)
    ensures WithReason(a + b)
  {
  }

  lemma Regroup<T>(a: seq<T>, b: seq<T>, c: seq<T>)
    ensures a + b + c == a + (b + c)
  {
  }

  /** Two balances in a row. */
  lemma Weave<T>(a: seq<T>, b: seq<T>, c: seq<T>, d: seq<T>, e: seq<T>, f: seq<T>, g: seq<T>)
    requires a + b == c + d && d + e == f + g
    ensures a + (b + e) == c + f + g
  {
    assert a + (b + e) == (a + b) + e;
    assert (c + d) + e == c + (d + e);
    assert c + (f + g) == c + f + g;
  }

  // ---- every run, all callers together ----

  function AllCalls(run: seq<Step>): seq<Task> {
    if run == [] then [] else (if run[0].Call? then [run[0].task] else []) + AllCalls(run[1..])
  }

  function Hands(ps: seq<ProducerPc>): seq<Task> {
    if ps == [] then [] else Hand(ps[0]) + Hands(ps[1..])
  }

  lemma {:induction false} SameHands(ps: seq<ProducerPc>, qs: seq<ProducerPc>)
    requires |ps| == |qs| && forall i :: 0 <= i < |ps| ==> Hand(ps[i]) == Hand(qs[i])
    ensures Hands(ps) == Hands(qs)
  {
    if ps == [] {
    } else {
      SameHands(ps[1..], qs[1..]);
    }
  }

  lemma {:induction false} OneHandMoves(ps: seq<ProducerPc>, qs: seq<ProducerPc>, p: nat)
    requires |ps| == |qs| && p < |ps| && forall i :: 0 <= i < |ps| && i != p ==> Hand(ps[i]) == Hand(qs[i])
    ensures multiset(Hands(ps)) + multiset(Hand(qs[p])) == multiset(Hands(qs)) + multiset(Hand(ps[p]))
  {
    hide Hand;
    BagOf(Hand(ps[0]), Hands(ps[1..]));
    BagOf(Hand(qs[0]), Hands(qs[1..]));
    if p == 0 {
      SameHands(ps[1..], qs[1..]);
    } else {
      OneHandMoves(ps[1..], qs[1..], p - 1);
      Balance(multiset(Hands(ps[1..])), multiset(Hand(qs[p])), multiset(Hands(qs[1..])), multiset(Hand(ps[p])),
              multiset(Hand(ps[0])));
    }
  }

  lemma BagOf(a: seq<Task>, b: seq<Task>)
    ensures multiset(a + b) == multiset(a) + multiset(b)
  {
  }

  lemma Nothing(a: multiset<Task>)
    ensures multiset([]) + a == a == a + multiset([]) && multiset([]) + multiset([]) + a == a
  {
    var none: seq<Task> := [];
    assert multiset(none) == multiset{};
  }

  lemma Balance(a: multiset<Task>, b: multiset<Task>, c: multiset<Task>, d: multiset<Task>, e: multiset<Task>)
    requires a + b == c + d
    ensures (e + a) + b == (e + c) + d
  {
    assert (e + a) + b == e + (a + b);
    assert (e + c) + d == e + (c + d);
  }

  lemma StepAccounts(s: State, st: Step)
    requires Enabled(s, st)
    ensures var t, vs := Apply(s, st), Decided(s, st);
            multiset(Hands(s.producers)) + multiset(AllCalls([st]))
            == multiset(AcceptedIn(vs)) + multiset(RefusedIn(vs)) + multiset(Hands(t.producers))
  {
    hide Apply, Enabled, Decided, TasksOf, CodesOf, AcceptedIn, RefusedIn, Hand, Hands;
    var t := Apply(s, st);
    SameCallers(s, st);
    assert [st][1..] == [];
    if st.StepProducer? || st.Call? {
      var p := CallerOf(s, st);
      forall i | 0 <= i < |s.producers| && i != p ensures Hand(s.producers[i]) == Hand(t.producers[i]) {
        OthersKeepHand(s, st, i);
      }
      OneHandMoves(s.producers, t.producers, p);
      if st.Call? {
        CallStep(s, st);
        OtherStep(s, st);
        NothingDecided(p);
        assert AllCalls([st]) == [st.task];
        Nothing(multiset(Hands(t.producers)));
      } else {
        OwnAccounts(s, st);
      }
    } else {
      OtherStep(s, st);
      NothingDecided(0);
      forall i | 0 <= i < |s.producers| ensures Hand(s.producers[i]) == Hand(t.producers[i]) {
        OthersKeepHand(s, st, i);
      }
      SameHands(s.producers, t.producers);
    }
  }

  lemma OwnAccounts(s: State, st: Step)
    requires Enabled(s, st) && st.StepProducer?
    requires var t, p := Apply(s, st), st.p;
             && |t.producers| == |s.producers| && p < |s.producers|
             && multiset(Hands(s.producers)) + multiset(Hand(t.producers[p]))
                == multiset(Hands(t.producers)) + multiset(Hand(s.producers[p]))
    ensures var t, vs := Apply(s, st), Decided(s, st);
            multiset(Hands(s.producers))
            == multiset(AcceptedIn(vs)) + multiset(RefusedIn(vs)) + multiset(Hands(t.producers))
  {
    hide Apply, Enabled, Decided, TasksOf, CodesOf, AcceptedIn, RefusedIn, Hand, Hands;
    OwnDecides(s, st);
    var t, vs, p := Apply(s, st), Decided(s, st), st.p;
    BagOf(TasksOf(vs, p), Hand(t.producers[p]));
    Cancel(multiset(Hands(s.producers)), multiset(Hand(t.producers[p])), multiset(Hands(t.producers)),
           multiset(AcceptedIn(vs)) + multiset(RefusedIn(vs)));
  }

  lemma Cancel(a: multiset<Task>, b: multiset<Task>, c: multiset<Task>, d: multiset<Task>)
    requires a + b == c + (d + b)
    ensures a == d + c
  {
    forall x ensures a[x] == (d + c)[x] {
      assert (a + b)[x] == (c + (d + b))[x];
    }
  }

  lemma CallerOf(s: State, st: Step) returns (p: nat)
    requires Enabled(s, st) && (st.StepProducer? || st.Call?)
    ensures p == st.p < |s.producers|
  {
    p := st.p;
  }

  lemma {:induction false} RunAccounts(s: State, run: seq<Step>)
    requires IsRun(s, run)
    ensures var t, vs := Final(s, run), Verdicts(s, run);
            multiset(Hands(s.producers)) + multiset(AllCalls(run))
            == multiset(AcceptedIn(vs)) + multiset(RefusedIn(vs)) + multiset(Hands(t.producers))
    decreases |run|
  {
    hide Apply, Enabled, Decided, TasksOf, CodesOf, AcceptedIn, RefusedIn, Hands;
    if run == [] {
      NothingDecided(0);
    } else {
      var u, first := Apply(s, run[0]), Decided(s, run[0]);
      var rest, t := Verdicts(u, run[1..]), Final(s, run);
      StepAccounts(s, run[0]);
      RunAccounts(u, run[1..]);
      Split(first, rest, 0);
      AllCallsSplit(run);
      BagOf(AllCalls([run[0]]), AllCalls(run[1..]));
      BagOf(AcceptedIn(first), AcceptedIn(rest));
      BagOf(RefusedIn(first), RefusedIn(rest));
      hide AllCalls;
      TwoAccounts(multiset(Hands(s.producers)), multiset(AllCalls([run[0]])), multiset(AcceptedIn(first)), multiset(RefusedIn(first)),
                  multiset(Hands(u.producers)), multiset(AllCalls(run[1..])), multiset(AcceptedIn(rest)),
                  multiset(RefusedIn(rest)), multiset(Hands(t.producers)));
    }
  }

  lemma TwoAccounts(a: multiset<Task>, b: multiset<Task>, c: multiset<Task>, d: multiset<Task>, e: multiset<Task>,
                    f: multiset<Task>, g: multiset<Task>, h: multiset<Task>, i: multiset<Task>)
    requires a + b == c + d + e && e + f == g + h + i
    ensures a + (b + f) == (c + g) + (d + h) + i
  {
    forall x ensures (a + (b + f))[x] == ((c + g) + (d + h) + i)[x] {
      assert (a + b)[x] == (c + d + e)[x] && (e + f)[x] == (g + h + i)[x];
    }
  }

  lemma AllCallsSplit(run: seq<Step>)
    requires run != []
    ensures AllCalls(run) == AllCalls([run[0]]) + AllCalls(run[1..])
  {
    assert [run[0]][1..] == [];
  }

  // ---- the pool from its creation on ----

  lemma {:induction false} IdleHands(ps: seq<ProducerPc>)
    requires forall i :: 0 <= i < |ps| ==> ps[i].PIdle?
    ensures Hands(ps) == []
  {
    if ps == [] {
    } else {
      IdleHands(ps[1..]);
    }
  }

  /** Over every run of a new pool: the tasks of its calls are, with multiplicity, the
      accepted ones, the ones turned away (by shutdown or a failed allocation, nothing
      else) and the ones still in a caller's hand; caller by caller they are decided in
      the order of its calls, and it is told 0 for exactly the accepted ones; and the
      tasks that the pool dequeues and runs are these accepted ones. */
  lemma EveryCallIsDecided(s: State, run: seq<Step>, p: nat)
    requires Init(s) && IsRun(s, run) && p < |s.producers|
    ensures var t, vs := Final(s, run), Verdicts(s, run);
            && |t.producers| == |s.producers|
            && CallsOf(run, p) == TasksOf(vs, p) + Hand(t.producers[p])
            && CodesOf(vs, p) == Returned(s, run, p) + Pending(t.producers[p])
            && t.accepted == AcceptedIn(vs) == t.taken + t.queue
            && WithReason(vs)
            && multiset(AllCalls(run)) == multiset(t.accepted) + multiset(RefusedIn(vs)) + multiset(Hands(t.producers))
  {
    hide Verdicts, AcceptedIn, RefusedIn, TasksOf, CodesOf, CallsOf, AllCalls, Hands, Final, IsRun, Returned, WithReason;
    CallsAreDecided(s, run, p);
    RunAccounts(s, run);
    IdleHands(s.producers);
    assert [] + AcceptedIn(Verdicts(s, run)) == AcceptedIn(Verdicts(s, run));
    assert [] + CallsOf(run, p) == CallsOf(run, p) && [] + CodesOf(Verdicts(s, run), p) == CodesOf(Verdicts(s, run), p);
    assert Reachable(Final(s, run));
    AcceptedInOrder(Final(s, run));
  }

  /** ... so when destroy has returned and every caller has, each task ever submitted has
      been executed once, or its caller was told -1. */
  lemma EveryCallRunsOrFails(s: State, run: seq<Step>)
    requires Init(s) && IsRun(s, run) && Final(s, run).destroyer.DDone?
    requires forall p :: 0 <= p < |Final(s, run).producers| ==> Final(s, run).producers[p].PIdle?
    ensures multiset(AllCalls(run)) == multiset(Final(s, run).executed) + multiset(RefusedIn(Verdicts(s, run)))
  {
    hide Verdicts, RefusedIn, AllCalls, Hands, IsRun;
    var t := Final(s, run);
    RunAccounts(s, run);
    IdleHands(s.producers);
    IdleHands(t.producers);
    GrowsBy(s, run);
    assert [] + AcceptedIn(Verdicts(s, run)) == AcceptedIn(Verdicts(s, run));
    assert Reachable(t);
    hide Reachable, Final;
    DestroyDropsNothing(t);
    Nothing(multiset(AllCalls(run)));
    Nothing(multiset(t.accepted) + multiset(RefusedIn(Verdicts(s, run))));
  }

  lemma {:induction false} GrowsBy(s: State, run: seq<Step>)
    requires IsRun(s, run)
    ensures Final(s, run).accepted == s.accepted + AcceptedIn(Verdicts(s, run))
    decreases |run|
  {
    hide Apply, Enabled, Decided, AcceptedIn, Verdicts;
    if run == [] {
      NothingDecided(0);
      NoRun(s, 0);
    } else {
      AcceptedGrows(s, run[0]);
      GrowsBy(Apply(s, run[0]), run[1..]);
      var first, rest := Decided(s, run[0]), Verdicts(Apply(s, run[0]), run[1..]);
      Unfold(s, run, 0);
      SplitAccepted(first, rest);
      Regroup(s.accepted, AcceptedIn(first), AcceptedIn(rest));
    }
  }

  lemma AcceptedGrows(s: State, st: Step)
    requires Enabled(s, st)
    ensures Apply(s, st).accepted == s.accepted + AcceptedIn(Decided(s, st))
  {
    hide Apply, Enabled, Decided, AcceptedIn, TasksOf, CodesOf, RefusedIn;
    if st.StepProducer? {
      OwnDecides(s, st);
    } else {
      OtherStep(s, st);
      NothingDecided(0);
    }
  }
}

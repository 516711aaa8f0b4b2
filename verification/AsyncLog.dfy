/** The asynchronous logger of log-system/src/log.c: any number of producers that
    push, one consumer thread that pops and writes out, and a stop request. A
    critical section of the ring's lock is one step; the consumer's tests, its
    output and its counter are steps of their own, outside the lock. */
module AsyncLog {
  import opened Tally
  import opened RingBuffer

  datatype ProducerPc = Idle | Asleep(entry: Entry) | Woken(entry: Entry)

  /** Where async_thread_func is; `drain` tells its second loop from its first. */
  datatype ConsumerPc =
    | Testing                           // at while (running)
    | Popping(drain: bool)              // about to lock in ring_buffer_pop
    | Waiting(drain: bool)              // asleep on not_empty
    | Roused(drain: bool)               // left the wait, wants the lock back
    | Holding(entry: Entry, drain: bool)
    | Counting(drain: bool)             // entry written, counter not yet raised
    | Done

  datatype State = State(
    ring: Ring,
    producers: seq<ProducerPc>,
    consumer: ConsumerPc,
    running: bool,
    total: nat,               // total_entries
    pushed: seq<Entry>,       // history: entries put into the ring, in order
    output: seq<Entry>        // history: entries written out, in order
  )

  /** `wake` picks the producer that a signal of not_full releases. */
  datatype Step =
    | Consumer(wake: nat)
    | Log(p: nat, entry: Entry)   // a producer calls ring_buffer_push
    | Retry(p: nat)               // a woken producer looks again
    | Stop
    | RouseProducer(p: nat)       // spurious wakeups
    | RouseConsumer

  function Initial(capacity: nat, producers: nat): State {
    State(Ring(seq(capacity, _ => BLANK), 0, 0, 0), seq(producers, _ => Idle), Testing, true, 0, [], [])
  }

  function AsleepCount(pc: ProducerPc): nat { if pc.Asleep? then 1 else 0 }
  function WokenCount(pc: ProducerPc): nat { if pc.Woken? then 1 else 0 }

  predicate Enabled(s: State, st: Step) {
    match st
    case Consumer(wake) =>
      && !s.consumer.Waiting? && !s.consumer.Done?
      && (Sum(s.producers, AsleepCount) > 0 ==> wake < |s.producers| && s.producers[wake].Asleep?)
    case Log(p, _) => p < |s.producers| && s.producers[p].Idle?
    case Retry(p) => p < |s.producers| && s.producers[p].Woken?
    case Stop => s.running
    case RouseProducer(p) => p < |s.producers| && s.producers[p].Asleep?
    case RouseConsumer => s.consumer.Waiting?
  }

  /** A signal of not_empty: the consumer is the only thread that waits on it. */
  function Rouse(pc: ConsumerPc): ConsumerPc { if pc.Waiting? then Roused(pc.drain) else pc }

  function Push(s: State, p: nat, entry: Entry): State
    requires p < |s.producers| && s.ring.tail < |s.ring.entries|
  {
    if s.ring.count >= |s.ring.entries| then
      s.(producers := s.producers[p := Asleep(entry)])
    else
      s.(ring := Put(s.ring, entry), producers := s.producers[p := Idle],
         consumer := Rouse(s.consumer), pushed := s.pushed + [entry])
  }

  /** The critical section of ring_buffer_pop. */
  function Pop(s: State, wake: nat, drain: bool): State
    requires s.ring.head < |s.ring.entries|
    requires Enabled(s, Consumer(wake))
  {
    if s.ring.count == 0 then
      s.(consumer := if s.running then Waiting(drain) else if drain then Done else Testing)
    else
      s.(ring := Take(s.ring), consumer := Holding(s.ring.entries[s.ring.head], drain),
         producers := if Sum(s.producers, AsleepCount) > 0 then s.producers[wake := Woken(s.producers[wake].entry)]
                      else s.producers)
  }

  function StepConsumer(s: State, wake: nat): State
    requires s.ring.head < |s.ring.entries|
    requires Enabled(s, Consumer(wake))
  {
    match s.consumer
    case Testing => s.(consumer := Popping(!s.running))
    case Popping(drain) => Pop(s, wake, drain)
    case Roused(drain) => Pop(s, wake, drain)
    case Holding(entry, drain) => s.(output := s.output + [entry], consumer := Counting(drain))
    case Counting(drain) => s.(total := s.total + 1, consumer := if drain then Popping(true) else Testing)
    case Waiting(_) => s
    case Done => s
  }

  function Next(s: State, st: Step): State
    requires Enabled(s, st) && Valid(s.ring)
  {
    match st
    case Consumer(wake) => StepConsumer(s, wake)
    case Log(p, entry) => Push(s, p, entry)
    case Retry(p) => Push(s, p, s.producers[p].entry)
    case Stop => s.(running := false, consumer := Rouse(s.consumer))
    case RouseProducer(p) => s.(producers := s.producers[p := Woken(s.producers[p].entry)])
    case RouseConsumer => s.(consumer := Rouse(s.consumer))
  }

  // ---- the invariant ----

  function InHand(pc: ConsumerPc): seq<Entry> { if pc.Holding? then [pc.entry] else [] }

  predicate Drains(pc: ConsumerPc) {
    pc.Done? || ((pc.Popping? || pc.Waiting? || pc.Roused? || pc.Holding? || pc.Counting?) && pc.drain)
  }

  /** Nothing is lost, repeated or reordered between push and output. */
  ghost predicate Faithful(s: State) {
    && Valid(s.ring)
    && s.output + InHand(s.consumer) + Contents(s.ring) == s.pushed
    && s.total + (if s.consumer.Counting? then 1 else 0) == |s.output|
  }

  /** No lost wakeup: a sleeping consumer has nothing to read, and while a producer
      sleeps every free slot has a woken producer coming for it. */
  ghost predicate Wakeful(s: State) {
    && (s.consumer.Waiting? ==> s.ring.count == 0 && s.running)
    && (Drains(s.consumer) ==> !s.running)
    && (Sum(s.producers, AsleepCount) > 0 ==> |s.ring.entries| - s.ring.count <= Sum(s.producers, WokenCount))
  }

  ghost predicate Inv(s: State) { Faithful(s) && Wakeful(s) }

  lemma {:induction false} SumIdle(n: nat, weight: ProducerPc -> nat)
    requires weight(Idle) == 0
    ensures Sum(seq(n, _ => Idle), weight) == 0
  {
    if n == 0 {
    } else {
      assert seq(n, _ => Idle)[1..] == seq(n - 1, _ => Idle);
      SumIdle(n - 1, weight);
    }
  }

  lemma InitialInv(capacity: nat, producers: nat)
    requires capacity > 0
    ensures Inv(Initial(capacity, producers))
  {
    SumIdle(producers, AsleepCount);
  }

  lemma PushKeeps(s: State, p: nat, entry: Entry)
    requires Inv(s) && p < |s.producers| && !s.producers[p].Asleep?
    ensures Valid(s.ring) && Inv(Push(s, p, entry))
    ensures Push(s, p, entry).pushed == s.pushed || Push(s, p, entry).pushed == s.pushed + [entry]
  {
    hide Contents;
    if s.ring.count < |s.ring.entries| {
      PutAppends(s.ring, entry);
      SumUpdate(s.producers, p, Idle, AsleepCount);
      SumUpdate(s.producers, p, Idle, WokenCount);
    } else {
      SumUpdate(s.producers, p, Asleep(entry), AsleepCount);
    }
  }

  lemma PopKeeps(s: State, wake: nat, drain: bool)
    requires Inv(s) && Enabled(s, Consumer(wake)) && (s.consumer == Popping(drain) || s.consumer == Roused(drain))
    ensures Inv(Pop(s, wake, drain))
  {
    if s.ring.count > 0 {
      PopFaithful(s, wake, drain);
      PopWakeful(s, wake, drain);
    } else {
      hide Contents, Sum;
    }
  }

  lemma PopFaithful(s: State, wake: nat, drain: bool)
    requires Faithful(s) && Enabled(s, Consumer(wake)) && s.ring.count > 0
    requires s.consumer == Popping(drain) || s.consumer == Roused(drain)
    ensures Faithful(Pop(s, wake, drain))
  {
    hide Contents, Sum;
    TakeRemovesFirst(s.ring);
    hide Take;
    var first, rest := s.ring.entries[s.ring.head], Contents(Take(s.ring));
    assert s.output + [] + ([first] + rest) == s.output + [first] + rest;
  }

  lemma PopWakeful(s: State, wake: nat, drain: bool)
    requires Wakeful(s) && s.ring.head < |s.ring.entries| && Enabled(s, Consumer(wake)) && s.ring.count > 0
    requires s.consumer == Popping(drain) || s.consumer == Roused(drain)
    ensures Wakeful(Pop(s, wake, drain))
  {
    hide Sum;
    if Sum(s.producers, AsleepCount) > 0 {
      SumUpdate(s.producers, wake, Woken(s.producers[wake].entry), AsleepCount);
      SumUpdate(s.producers, wake, Woken(s.producers[wake].entry), WokenCount);
    }
  }

  lemma StepKeeps(s: State, st: Step)
    requires Inv(s) && Enabled(s, st)
    ensures Inv(Next(s, st))
    ensures s.pushed <= Next(s, st).pushed
  {
    hide Contents, Sum;
    match st
    case Consumer(wake) =>
      if s.consumer.Popping? || s.consumer.Roused? {
        hide Pop;
        PopKeeps(s, wake, s.consumer.drain);
      }
    case Log(p, entry) => hide Push; PushKeeps(s, p, entry);
    case Retry(p) => hide Push; PushKeeps(s, p, s.producers[p].entry);
    case Stop =>
    case RouseProducer(p) =>
      SumUpdate(s.producers, p, Woken(s.producers[p].entry), AsleepCount);
      SumUpdate(s.producers, p, Woken(s.producers[p].entry), WokenCount);
    case RouseConsumer =>
  }
}

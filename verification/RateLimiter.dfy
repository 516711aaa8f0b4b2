/** The token bucket of linux-file-server/src/rate_limit.c, over the reals. Every
    call works under the lock and reads a monotone clock there, so a history is a
    sequence of passes (of try_consume, or of the loop of consume, by any caller)
    and rate changes. */
module RateLimiter {

  datatype Bucket = Bucket(tokens: real, maxTokens: real, rate: real, last: real)

  /** What a rate earns in a span of time. */
  function Earned(span: real, rate: real): real { span * rate }

  /** refill_tokens */
  function Refilled(b: Bucket, now: real): Bucket {
    if now - b.last > 0.0 then
      var sum := b.tokens + Earned(now - b.last, b.rate);
      b.(tokens := if sum > b.maxTokens then b.maxTokens else sum, last := now)
    else
      b
  }

  function Full(rate: real, now: real): Bucket { Bucket(rate, rate, rate, now) }

  function WithRate(b: Bucket, rate: real): Bucket {
    b.(tokens := if b.tokens > rate then rate else b.tokens, maxTokens := rate, rate := rate)
  }

  datatype Event = Pass(now: real, bytes: nat) | SetRate(rate: real)

  predicate Admits(b: Bucket, now: real, bytes: nat) { Refilled(b, now).tokens >= bytes as real }

  function Step(b: Bucket, e: Event): Bucket {
    match e
    case Pass(now, bytes) =>
      var full := Refilled(b, now);
      if Admits(b, now, bytes) then full.(tokens := full.tokens - bytes as real) else full
    case SetRate(rate) => WithRate(b, rate)
  }

  function Grant(b: Bucket, e: Event): nat {
    if e.Pass? && Admits(b, e.now, e.bytes) then e.bytes else 0
  }

  function Run(b: Bucket, es: seq<Event>): Bucket
    decreases |es|
  {
    if es == [] then b else Run(Step(b, es[0]), es[1..])
  }

  /** The bytes granted in a run. */
  function Granted(b: Bucket, es: seq<Event>): nat
    decreases |es|
  {
    if es == [] then 0 else Grant(b, es[0]) + Granted(Step(b, es[0]), es[1..])
  }

  /** Clock readings never go back, and lie between two times. */
  ghost predicate Timed(es: seq<Event>, from: real, to: real) {
    && (forall i :: 0 <= i < |es| && es[i].Pass? ==> from <= es[i].now <= to)
    && (forall i, j :: 0 <= i < j < |es| && es[i].Pass? && es[j].Pass? ==> es[i].now <= es[j].now)
  }

  ghost predicate RatesBelow(es: seq<Event>, bound: real) {
    forall i :: 0 <= i < |es| && es[i].SetRate? ==> es[i].rate <= bound
  }

  // ---- what every step keeps ----

  predicate Capped(b: Bucket, bound: real) {
    b.tokens <= b.maxTokens == b.rate <= bound
  }

  lemma EarnedLaws(s: real, t: real, rate: real, bound: real)
    requires s >= 0.0 && rate <= bound
    ensures Earned(s, rate) <= Earned(s, bound)
    ensures Earned(s, rate) + Earned(t, rate) == Earned(s + t, rate)
    ensures rate >= 0.0 ==> Earned(s, rate) >= 0.0
    ensures rate <= 0.0 ==> Earned(s, rate) <= 0.0
  {
    assert s * (bound - rate) >= 0.0;
  }

  lemma StepKeepsCap(b: Bucket, e: Event, bound: real)
    requires Capped(b, bound) && (e.SetRate? ==> e.rate <= bound)
    ensures Capped(Step(b, e), bound)
  {
  }

  /** A rate change keeps the tokens that fit the new bucket: what is admitted next, at
      once, is what both the old tokens and the new rate allow; later the new rate counts. */
  lemma RateChangeKeepsTokens(b: Bucket, rate: real, span: real, bytes: nat)
    requires span >= 0.0 && rate >= 0.0
    ensures Admits(WithRate(b, rate), b.last, bytes) <==> bytes as real <= b.tokens && bytes as real <= rate
    ensures Admits(WithRate(b, rate), b.last + span, bytes) <==>
            bytes as real <= rate && bytes as real <= b.tokens + span * rate
  {
    assert Earned(span, rate) >= 0.0;
  }

  /** Asking early, or often, changes nothing: a refill on the way does not matter. */
  lemma RefillTwice(b: Bucket, mid: real, now: real)
    requires b.tokens <= b.maxTokens && mid <= now
    ensures Refilled(Refilled(b, mid), now) == Refilled(b, now)
  {
    hide Earned;
    if mid > b.last && now > mid {
      EarnedLaws(mid - b.last, now - mid, b.rate, b.rate);
      EarnedLaws(now - mid, 0.0, b.rate, b.rate);
      assert mid - b.last + (now - mid) == now - b.last;
    }
  }

  // ---- the bound over every window ----

  function Positive(x: real): (r: real)
    ensures r >= 0.0 && r >= x
  {
    if x > 0.0 then x else 0.0
  }

  lemma RefillBound(b: Bucket, now: real, bound: real)
    requires Capped(b, bound) && bound >= 0.0 && b.last <= now
    ensures Positive(Refilled(b, now).tokens) <= Positive(b.tokens) + Earned(now - b.last, bound)
    ensures Positive(Refilled(b, now).tokens) <= bound
    ensures Refilled(b, now).last == now
  {
    hide Earned;
    EarnedLaws(now - b.last, 0.0, b.rate, bound);
    EarnedLaws(now - b.last, 0.0, bound, bound);
  }

  lemma PassSpends(b: Bucket, e: Event)
    requires e.Pass?
    ensures Step(b, e) == Refilled(b, e.now).(tokens := Refilled(b, e.now).tokens - Grant(b, e) as real)
    ensures Grant(b, e) as real + Positive(Step(b, e).tokens) == Positive(Refilled(b, e.now).tokens)
  {
    hide Refilled;
  }

  /** From any state on: what is granted was there or was earned since. */
  lemma {:induction false} EarnedSince(b: Bucket, es: seq<Event>, bound: real, to: real)
    requires Capped(b, bound) && bound >= 0.0 && b.last <= to
    requires Timed(es, b.last, to) && RatesBelow(es, bound)
    ensures Granted(b, es) as real <= Positive(b.tokens) + Earned(to - b.last, bound)
    decreases |es|
  {
    hide Earned, Refilled;
    EarnedLaws(to - b.last, 0.0, bound, bound);
    if es == [] {
    } else {
      var e := es[0];
      var next := Step(b, e);
      StepKeepsCap(b, e, bound);
      if e.Pass? {
        RefillBound(b, e.now, bound);
        PassSpends(b, e);
        EarnedSince(next, es[1..], bound, to);
        EarnedLaws(e.now - b.last, to - e.now, bound, bound);
        assert e.now - b.last + (to - e.now) == to - b.last;
      } else {
        EarnedSince(next, es[1..], bound, to);
      }
    }
  }

  /** However long the bucket was idle before: within a window of any length, at most
      one full bucket and what the highest rate earns in the window. */
  lemma {:induction false} GrantedWithin(b: Bucket, es: seq<Event>, bound: real, from: real, to: real)
    requires Capped(b, bound) && bound >= 0.0 && b.last <= from <= to
    requires Timed(es, from, to) && RatesBelow(es, bound)
    ensures Granted(b, es) as real <= bound + Earned(to - from, bound)
    decreases |es|
  {
    hide Earned, Refilled;
    EarnedLaws(to - from, 0.0, bound, bound);
    if es == [] {
    } else {
      var e := es[0];
      var next := Step(b, e);
      StepKeepsCap(b, e, bound);
      if e.Pass? {
        RefillBound(b, e.now, bound);
        PassSpends(b, e);
        assert Timed(es[1..], e.now, to);
        EarnedSince(next, es[1..], bound, to);
        EarnedLaws(to - e.now, e.now - from, bound, bound);
        EarnedLaws(e.now - from, 0.0, bound, bound);
        assert to - e.now + (e.now - from) == to - from;
      } else {
        GrantedWithin(next, es[1..], bound, from, to);
      }
    }
  }

  lemma {:induction false} RunKeeps(b: Bucket, es: seq<Event>, bound: real, to: real)
    requires Capped(b, bound) && b.last <= to && Timed(es, b.last, to) && RatesBelow(es, bound)
    ensures Capped(Run(b, es), bound) && b.last <= Run(b, es).last <= to
    decreases |es|
  {
    hide Earned;
    if es == [] {
    } else {
      StepKeepsCap(b, es[0], bound);
      RunKeeps(Step(b, es[0]), es[1..], bound, to);
    }
  }

  /** Rate bound over every window: in every history of a limiter, with any callers
      and any rate changes up to `bound`, the bytes granted by the passes of a window
      [from, to] are at most bound + bound * (to - from). */
  lemma WindowBound(rate: real, start: real, before: seq<Event>, window: seq<Event>, bound: real, from: real, to: real)
    requires 0.0 < rate <= bound && start <= from <= to
    requires Timed(before, start, from) && Timed(window, from, to)
    requires RatesBelow(before, bound) && RatesBelow(window, bound)
    ensures Granted(Run(Full(rate, start), before), window) as real <= bound + bound * (to - from)
  {
    RunKeeps(Full(rate, start), before, bound, from);
    GrantedWithin(Run(Full(rate, start), before), window, bound, from, to);
  }

  /** The bound is reached by every whole rate, in every window of whole seconds. */
  lemma {:induction false} WindowBoundIsReached(rate: nat, start: real, seconds: nat)
    requires rate > 0
    ensures Timed(EverySecond(rate, start, seconds), start, start + seconds as real)
    ensures Granted(Full(rate as real, start), EverySecond(rate, start, seconds)) == rate + rate * seconds
  {
    EmptiedEverySecond(Full(rate as real, start), rate, start, seconds);
  }

  function EverySecond(rate: nat, start: real, seconds: nat): seq<Event> {
    seq(seconds + 1, i requires 0 <= i <= seconds => Pass(start + i as real, rate))
  }

  lemma {:induction false} EmptiedEverySecond(b: Bucket, rate: nat, start: real, seconds: nat)
    requires b.maxTokens == b.rate == rate as real > 0.0 && Admits(b, start, rate) && b.tokens <= b.maxTokens
    requires b.last <= start
    ensures Granted(b, EverySecond(rate, start, seconds)) == rate + rate * seconds
    decreases seconds
  {
    var es := EverySecond(rate, start, seconds);
    var next := Step(b, es[0]);
    assert next.tokens == 0.0 && next.last == start;
    if seconds > 0 {
      assert es[1..] == EverySecond(rate, start + 1.0, seconds - 1);
      assert Earned(1.0, next.rate) == next.rate;
      EmptiedEverySecond(next, rate, start + 1.0, seconds - 1);
    } else {
      assert es[1..] == [];
    }
  }

  /** At a fixed rate the bucket never goes below empty or above full. */
  lemma {:induction false} TokensInRange(b: Bucket, es: seq<Event>)
    requires 0.0 <= b.tokens <= b.maxTokens == b.rate
    requires forall i :: 0 <= i < |es| ==> es[i].Pass?
    ensures var c := Run(b, es); 0.0 <= c.tokens <= c.maxTokens == c.rate == b.rate
    decreases |es|
  {
    hide Earned;
    if es == [] {
    } else {
      EarnedLaws(Positive(es[0].now - b.last), 0.0, b.rate, b.rate);
      TokensInRange(Step(b, es[0]), es[1..]);
    }
  }

  // ---- the blocking call ----

  /** After any history, a request for more than max_tokens fails whenever it is made,
      so the loop of consume never ends while the rate stays. */
  lemma TooLargeNeverAdmitted(rate: real, start: real, es: seq<Event>, bound: real, to: real, now: real, bytes: nat)
    requires 0.0 < rate <= bound && start <= to && Timed(es, start, to) && RatesBelow(es, bound)
    requires bytes as real > Run(Full(rate, start), es).maxTokens
    ensures !Admits(Run(Full(rate, start), es), now, bytes)
  {
    RunKeeps(Full(rate, start), es, bound, to);
  }

  /** The time at which the bucket will hold so many bytes. */
  function Deadline(b: Bucket, bytes: nat): real
    requires b.rate > 0.0
  {
    b.last + (bytes as real - b.tokens) / b.rate
  }

  /** Without contention a request that fits is admitted from its deadline on, and
      not before. */
  lemma AdmittedFromDeadline(b: Bucket, now: real, bytes: nat)
    requires b.tokens < bytes as real <= b.maxTokens && b.rate > 0.0
    ensures Admits(b, now, bytes) <==> now >= Deadline(b, bytes)
    ensures Deadline(b, bytes) > b.last
  {
    var needed := bytes as real - b.tokens;
    Quotient(needed, b.rate);
    var wait := needed / b.rate;
    if now >= b.last + wait {
      Monotone(wait, now - b.last, b.rate);
    } else if now > b.last {
      StrictlyMonotone(now - b.last, wait, b.rate);
    }
  }

  lemma Quotient(x: real, y: real)
    requires x > 0.0 && y > 0.0
    ensures x / y > 0.0 && (x / y) * y == x
  {
  }

  lemma Monotone(s: real, t: real, rate: real)
    requires s <= t && rate > 0.0
    ensures s * rate <= t * rate
  {
  }

  lemma StrictlyMonotone(s: real, t: real, rate: real)
    requires s < t && rate > 0.0
    ensures s * rate < t * rate
  {
    assert (t - s) * rate > 0.0;
  }

  /** The pause of consume after a failed pass, in whole microseconds. */
  function Pause(b: Bucket, bytes: nat): int
    requires b.rate > 0.0
  {
    ((bytes as real - b.tokens) / b.rate * 1000000.0).Floor
  }

  /** One pause brings the pass after it to within a microsecond of the deadline, so
      that pass (at the earliest) succeeds exactly when the wait is a whole number of
      microseconds; a wake-up one microsecond later always succeeds. */
  lemma OnePause(b: Bucket, bytes: nat)
    requires b.tokens < bytes as real <= b.maxTokens && b.rate > 0.0
    ensures var wait := (bytes as real - b.tokens) / b.rate * 1000000.0;
            var wake := b.last + Pause(b, bytes) as real / 1000000.0;
            && (Admits(b, wake, bytes) <==> wait.Floor as real == wait)
            && Admits(b, wake + 0.000001, bytes)
            && wake <= Deadline(b, bytes) < wake + 0.000001
  {
    var exact := (bytes as real - b.tokens) / b.rate;
    var pause := Pause(b, bytes) as real;
    assert pause <= exact * 1000000.0 < pause + 1.0;
    var wake := b.last + pause / 1000000.0;
    AdmittedFromDeadline(b, wake, bytes);
    AdmittedFromDeadline(b, wake + 0.000001, bytes);
  }

  /** A pause can be too short: one byte at 3 bytes a second takes 333333.3
      microseconds. */
  lemma OnePauseTooShort()
    ensures var b := Bucket(0.0, 3.0, 3.0, 0.0);
            Pause(b, 1) == 333333 && !Admits(b, 0.333333, 1) && Admits(b, 0.333334, 1)
  {
  }

  // ---- the object ----

  class Limiter {
    var tokens: real
    var maxTokens: real
    var refillRate: real
    var lastRefill: real

    function View(): Bucket
      reads this
    {
      Bucket(tokens, maxTokens, refillRate, lastRefill)
    }

    constructor (bytesPerSec: real, now: real)
      ensures View() == Full(bytesPerSec, now)
    {
      tokens := bytesPerSec;
      maxTokens := bytesPerSec;
      refillRate := bytesPerSec;
      lastRefill := now;
    }

    method Refill(now: real)
      modifies this
      ensures View() == Refilled(old(View()), now)
    {
      var elapsed := now - lastRefill;
      if elapsed > 0.0 {
        tokens := tokens + elapsed * refillRate;
        if tokens > maxTokens {
          tokens := maxTokens;
        }
        lastRefill := now;
      }
    }

    method TryConsume(now: real, bytes: nat) returns (code: int)
      modifies this
      ensures View() == Step(old(View()), Pass(now, bytes))
      ensures code == if Admits(old(View()), now, bytes) then 0 else -1
    {
      Refill(now);
      if tokens >= bytes as real {
        tokens := tokens - bytes as real;
        return 0;
      }
      return -1;
    }

    method ChangeRate(bytesPerSec: real)
      modifies this
      ensures View() == Step(old(View()), SetRate(bytesPerSec))
    {
      refillRate := bytesPerSec;
      maxTokens := bytesPerSec;
      if tokens > maxTokens {
        tokens := maxTokens;
      }
    }

    /** rate_limiter_consume without contention, over the clock readings of its
        successive passes: it returns at the first reading that reaches the deadline
        of the request, whatever the pauses in between were. At a rate of zero or less,
        which rate_limiter_set_rate lets in, the pause is whatever the cast yields. */
    method Consume(bytes: nat, clock: seq<real>, cast: int) returns (done: bool, passes: nat, pauses: seq<int>)
      requires tokens <= maxTokens
      requires forall i, j :: 0 <= i < j < |clock| ==> clock[i] <= clock[j]
      modifies this
      ensures passes <= |clock| && (done ==> passes > 0) && (!done ==> passes == |clock|)
      ensures forall i :: 0 <= i < passes ==> (Admits(old(View()), clock[i], bytes) <==> done && i == passes - 1)
      ensures done ==> View() == Step(old(View()), Pass(clock[passes - 1], bytes))
      ensures !done ==> View() == if passes == 0 then old(View()) else Refilled(old(View()), clock[passes - 1])
      ensures |pauses| == if done then passes - 1 else passes
      ensures old(refillRate) > 0.0 ==>
                forall i :: 0 <= i < |pauses| ==> pauses[i] == Pause(Refilled(old(View()), clock[i]), bytes)
    {
      ghost var b := View();
      done, passes, pauses := false, 0, [];
      while passes < |clock|
        invariant passes <= |clock| && !done && |pauses| == passes
        invariant View() == if passes == 0 then b else Refilled(b, clock[passes - 1])
        invariant forall i :: 0 <= i < passes ==> !Admits(b, clock[i], bytes)
        invariant b.rate > 0.0 ==> forall i :: 0 <= i < passes ==> pauses[i] == Pause(Refilled(b, clock[i]), bytes)
      {
        if passes > 0 {
          RefillTwice(b, clock[passes - 1], clock[passes]);
        }
        Refill(clock[passes]);
        passes := passes + 1;
        if tokens >= bytes as real {
          tokens := tokens - bytes as real;
          done := true;
          return;
        }
        if refillRate > 0.0 {
          var needed := bytes as real - tokens;
          var sleep := needed / refillRate;
          pauses := pauses + [(sleep * 1000000.0).Floor];
        } else {
          pauses := pauses + [cast];
        }
      }
    }
  }

  /** rate_limiter_create */
  method Create(bytesPerSec: real, now: real) returns (limiter: Limiter?)
    ensures limiter == null <==> bytesPerSec <= 0.0
    ensures limiter != null ==> fresh(limiter) && limiter.View() == Full(bytesPerSec, now)
  {
    if bytesPerSec <= 0.0 {
      return null;
    }
    limiter := new Limiter(bytesPerSec, now);
  }
}

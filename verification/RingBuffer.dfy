/** The ring buffer of log-system/src/log.c: its value, and the array form that
    ring_buffer_push and ring_buffer_pop update in place. */
module RingBuffer {

  /** What a producer logs: a level and the formatted message. */
  datatype Entry = Entry(level: nat, message: string)

  const BLANK := Entry(0, "")

  datatype Ring = Ring(entries: seq<Entry>, head: nat, tail: nat, count: nat)

  /** The i-th slot from head on, going round. */
  function Slot(head: nat, i: nat, capacity: nat): nat
    requires head < capacity && i <= capacity
  {
    if head + i < capacity then head + i else head + i - capacity
  }

  lemma SlotIsModulo(head: nat, i: nat, capacity: nat)
    requires head < capacity && i <= capacity
    ensures (head + i) % capacity == Slot(head, i, capacity) < capacity
  {
    if head + i >= capacity {
      Wraps(head + i - capacity, capacity);
    } else {
      Stays(head + i, capacity);
    }
  }

  lemma Stays(x: nat, n: nat)
    requires x < n
    ensures x % n == x
  {
  }

  lemma Wraps(x: nat, n: nat)
    requires x < n
    ensures (x + n) % n == x
  {
  }

  ghost predicate Valid(r: Ring) {
    && r.head < |r.entries| && r.count <= |r.entries|
    && r.tail == Slot(r.head, r.count, |r.entries|)
  }

  /** The waiting entries, oldest first. */
  ghost function Contents(r: Ring): (s: seq<Entry>)
    requires Valid(r)
    ensures |s| == r.count
  {
    seq(r.count, i requires 0 <= i < r.count => r.entries[Slot(r.head, i, |r.entries|)])
  }

  function Put(r: Ring, e: Entry): Ring
    requires r.tail < |r.entries|
  {
    Ring(r.entries[r.tail := e], r.head, (r.tail + 1) % |r.entries|, r.count + 1)
  }

  function Take(r: Ring): Ring
    requires r.entries != [] && r.count > 0
  {
    r.(head := (r.head + 1) % |r.entries|, count := r.count - 1)
  }

  lemma PutAppends(r: Ring, e: Entry)
    requires Valid(r) && r.count < |r.entries|
    ensures r.tail < |r.entries| && Valid(Put(r, e)) && Contents(Put(r, e)) == Contents(r) + [e]
  {
    SlotIsModulo(r.tail, 1, |r.entries|);
    var s, t := Contents(Put(r, e)), Contents(r) + [e];
    forall i | 0 <= i < |s| ensures s[i] == t[i] {
      assert i < r.count ==> Slot(r.head, i, |r.entries|) != r.tail;
    }
  }

  lemma TakeRemovesFirst(r: Ring)
    requires Valid(r) && r.count > 0
    ensures Valid(Take(r)) && Contents(r) == [r.entries[r.head]] + Contents(Take(r))
  {
    SlotIsModulo(r.head, 1, |r.entries|);
  }

  /** The count and the two positions agree as the C code's arithmetic has it. */
  lemma TailIsHeadPlusCount(r: Ring)
    requires Valid(r)
    ensures (r.head + r.count) % |r.entries| == r.tail
  {
    SlotIsModulo(r.head, r.count, |r.entries|);
  }

  class Buffer {
    const entries: array<Entry>
    var head: nat
    var tail: nat
    var count: nat

    ghost function View(): Ring
      reads this, entries
    {
      Ring(entries[..], head, tail, count)
    }

    /** ring_buffer_init */
    constructor (capacity: nat)
      requires capacity > 0
      ensures fresh(entries) && entries.Length == capacity && Valid(View()) && Contents(View()) == []
    {
      entries := new Entry[capacity](_ => BLANK);
      head, tail, count := 0, 0, 0;
    }

    /** ring_buffer_push, once its wait for space is over. */
    method Push(entry: Entry)
      requires Valid(View()) && count < entries.Length
      modifies this, entries
      ensures View() == Put(old(View()), entry)
      ensures Valid(View()) && Contents(View()) == old(Contents(View())) + [entry]
    {
      PutAppends(View(), entry);
      entries[tail] := entry;
      tail := (tail + 1) % entries.Length;
      count := count + 1;
      assert View() == Put(old(View()), entry);
    }

    /** ring_buffer_pop, once its wait for data is over: it fails only when empty. */
    method Pop() returns (code: int, entry: Entry)
      requires Valid(View())
      modifies this
      ensures Valid(View())
      ensures if old(count) == 0 then code == -1 && View() == old(View())
              else code == 0 && View() == Take(old(View())) && old(Contents(View())) == [entry] + Contents(View())
    {
      if count == 0 {
        return -1, BLANK;
      }
      TakeRemovesFirst(View());
      entry := entries[head];
      head := (head + 1) % entries.Length;
      count := count - 1;
      code := 0;
      assert View() == Take(old(View()));
    }
  }
}

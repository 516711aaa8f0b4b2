/** The operations of a kvdb handle: what each does to the table and reports,
    and that every run of them behaves like the same run on a finite map. */
module KvDatabase {
  import opened Options
  import opened Wire
  import opened KvTable
  import opened KvFile
  import opened KvStore

  datatype Op =
    | Get(key: Key, room: nat)
    | Set(key: Key, value: Value)
    | Delete(key: Key)
    | Exists(key: Key)
    | Count
    | Clear

  datatype Reply =
    | Done
    | Data(bytes: Value, actual: nat)
    | NotFound
    | KeyTooLong
    | ValueTooLong
    | ReadOnly
    | Flag(present: bool)
    | Total(count: nat)

  function CutTo(v: Value, room: nat): Value { if |v| < room then v else v[..room] }

  // ---- the same operations on a table and on a map ----

  function OnTable(t: Table, readOnly: bool, op: Op): (Table, Reply)
    requires |t| > 0
  {
    match op
    case Get(k, room) =>
      if |k| > MAX_KEY_SIZE then (t, KeyTooLong)
      else if Lookup(t, k).None? then (t, NotFound)
      else (t, Data(CutTo(Lookup(t, k).value, room), |Lookup(t, k).value|))
    case Set(k, v) =>
      if |k| > MAX_KEY_SIZE then (t, KeyTooLong)
      else if |v| > MAX_VALUE_SIZE then (t, ValueTooLong)
      else if readOnly then (t, ReadOnly)
      else (Insert(t, k, v), Done)
    case Delete(k) =>
      if |k| > MAX_KEY_SIZE then (t, KeyTooLong)
      else if readOnly then (t, ReadOnly)
      else (Remove(t, k), if Lookup(t, k).Some? then Done else NotFound)
    case Exists(k) => (t, Flag(Lookup(t, k).Some?))
    case Count => (t, Total(Size(t)))
    case Clear => if readOnly then (t, ReadOnly) else (Empty(|t|), Done)
  }

  function OnMap(m: map<Key, Value>, readOnly: bool, op: Op): (map<Key, Value>, Reply) {
    match op
    case Get(k, room) =>
      if |k| > MAX_KEY_SIZE then (m, KeyTooLong)
      else if k in m then (m, Data(CutTo(m[k], room), |m[k]|))
      else (m, NotFound)
    case Set(k, v) =>
      if |k| > MAX_KEY_SIZE then (m, KeyTooLong)
      else if |v| > MAX_VALUE_SIZE then (m, ValueTooLong)
      else if readOnly then (m, ReadOnly)
      else (m[k := v], Done)
    case Delete(k) =>
      if |k| > MAX_KEY_SIZE then (m, KeyTooLong)
      else if readOnly then (m, ReadOnly)
      else (m - {k}, if k in m then Done else NotFound)
    case Exists(k) => (m, Flag(k in m))
    case Count => (m, Total(|m|))
    case Clear => if readOnly then (m, ReadOnly) else (map[], Done)
  }

  lemma StepRefines(t: Table, m: map<Key, Value>, readOnly: bool, op: Op)
    requires Represents(t, m)
    ensures Represents(OnTable(t, readOnly, op).0, OnMap(m, readOnly, op).0)
    ensures OnTable(t, readOnly, op).1 == OnMap(m, readOnly, op).1
  {
    hide Represents, Lookup, Insert, Remove, Size, WellFormed;
    match op
    case Set(k, v) =>
      InsertRepresents(t, m, k, v);
    case Delete(k) =>
      RemoveRepresents(t, m, k);
      Agrees(t, m, k);
    case Get(k, _) => Agrees(t, m, k);
    case Exists(k) => Agrees(t, m, k);
    case Count => Agrees(t, m, []);
    case Clear =>
      Agrees(t, m, []);
      EmptyRepresents(|t|);
  }

  function RunTable(t: Table, readOnly: bool, ops: seq<Op>): (Table, seq<Reply>)
    requires |t| > 0
    decreases |ops|
  {
    if ops == [] then (t, []) else
    var (u, r) := OnTable(t, readOnly, ops[0]);
    assert |u| == |t|;
    var (end, rs) := RunTable(u, readOnly, ops[1..]);
    (end, [r] + rs)
  }

  function RunMap(m: map<Key, Value>, readOnly: bool, ops: seq<Op>): (map<Key, Value>, seq<Reply>)
    decreases |ops|
  {
    if ops == [] then (m, []) else
    var (n, r) := OnMap(m, readOnly, ops[0]);
    var (end, rs) := RunMap(n, readOnly, ops[1..]);
    (end, [r] + rs)
  }

  /** Every run on the hash table reports what the same run on a finite map
      reports, and ends with that map. */
  lemma {:induction false} RunRefines(t: Table, m: map<Key, Value>, readOnly: bool, ops: seq<Op>)
    requires Represents(t, m)
    ensures Represents(RunTable(t, readOnly, ops).0, RunMap(m, readOnly, ops).0)
    ensures RunTable(t, readOnly, ops).1 == RunMap(m, readOnly, ops).1
    decreases |ops|
  {
    hide Represents, OnMap, OnTable;
    if ops == [] {
    } else {
      assert |t| > 0 by { HasBuckets(t, m); }
      StepRefines(t, m, readOnly, ops[0]);
      assert |OnTable(t, readOnly, ops[0]).0| > 0 by {
        HasBuckets(OnTable(t, readOnly, ops[0]).0, OnMap(m, readOnly, ops[0]).0);
      }
      RunRefines(OnTable(t, readOnly, ops[0]).0, OnMap(m, readOnly, ops[0]).0, readOnly, ops[1..]);
    }
  }

  lemma HasBuckets(t: Table, m: map<Key, Value>)
    requires Represents(t, m)
    ensures |t| > 0
  {
  }

  /** A read-only handle never changes what is stored. */
  lemma {:induction false} ReadOnlyKeeps(t: Table, ops: seq<Op>)
    requires |t| > 0
    ensures RunTable(t, true, ops).0 == t
    decreases |ops|
  {
    hide Lookup, Insert, Remove;
    if ops == [] {
    } else {
      ReadOnlyKeeps(t, ops[1..]);
    }
  }

  // ---- closing and reopening after any run ----

  /** Keys are C strings. */
  predicate CStringKeys(ops: seq<Op>) {
    forall i :: 0 <= i < |ops| && ops[i].Set? ==> NulFree(ops[i].key)
  }

  lemma StepSettable(t: Table, readOnly: bool, op: Op)
    requires WellFormed(t) && AllSettable(t) && (op.Set? ==> NulFree(op.key))
    ensures WellFormed(OnTable(t, readOnly, op).0) && AllSettable(OnTable(t, readOnly, op).0)
  {
    hide Hash;
    match op
    case Set(k, v) =>
      InsertKeepsForm(t, k, v);
      PutDistinct(t[Slot(|t|, k)], k, v);
    case Delete(k) => RemoveKeepsForm(t, k);
    case Clear => EmptyRepresents(|t|);
    case _ =>
  }

  lemma {:induction false} RunSettable(t: Table, readOnly: bool, ops: seq<Op>)
    requires WellFormed(t) && AllSettable(t) && CStringKeys(ops)
    ensures WellFormed(RunTable(t, readOnly, ops).0) && AllSettable(RunTable(t, readOnly, ops).0)
    decreases |ops|
  {
    hide WellFormed, AllSettable, OnTable;
    if ops == [] {
    } else {
      FormBuckets(t);
      StepSettable(t, readOnly, ops[0]);
      FormBuckets(OnTable(t, readOnly, ops[0]).0);
      RunSettable(OnTable(t, readOnly, ops[0]).0, readOnly, ops[1..]);
    }
  }

  lemma FormBuckets(t: Table)
    requires WellFormed(t)
    ensures |t| > 0
  {
  }

  /** After any run on a fresh database, closing and reopening it brings back the
      same map, exactly when no stored key is 256 bytes long. */
  lemma ReopenAfterRun(capacity: nat, ops: seq<Op>)
    requires capacity > 0 && CStringKeys(ops)
    ensures var t, m := RunTable(Empty(capacity), false, ops).0, RunMap(map[], false, ops).0;
            && |t| > 0
            && var r := LoadInto(Empty(|t|), FileOf(t));
               && (r.Loaded? <==> forall k :: k in m ==> |k| < MAX_KEY_SIZE)
               && (r.Loaded? ==> Represents(r.table, m))
  {
    hide LoadInto, FileOf, OnTable, OnMap;
    EmptyRepresents(capacity);
    RunRefines(Empty(capacity), map[], false, ops);
    RunSettable(Empty(capacity), false, ops);
    var t, m := RunTable(Empty(capacity), false, ops).0, RunMap(map[], false, ops).0;
    FormBuckets(t);
    CloseOpen(t);
    StorableKeys(t, m);
    if AllStorable(t) {
      CloseOpenSameMap(t, m);
    }
  }

  lemma StorableKeys(t: Table, m: map<Key, Value>)
    requires Represents(t, m) && AllSettable(t)
    ensures AllStorable(t) <==> forall k :: k in m ==> |k| < MAX_KEY_SIZE
  {
    hide Hash, Size;
    if AllStorable(t) {
      forall k | k in m ensures |k| < MAX_KEY_SIZE {
        assert Lookup(t, k) == Some(m[k]);
        var b := Slot(|t|, k);
        assert Storable(t[b][IndexOf(t[b], k)]);
      }
    }
    if forall k :: k in m ==> |k| < MAX_KEY_SIZE {
      forall b, i | 0 <= b < |t| && 0 <= i < |t[b]| ensures Storable(t[b][i]) {
        var k := t[b][i].key;
        IndexUnique(t[b], k, i);
        assert Lookup(t, k).Some?;
        assert k in m;
      }
    }
  }

  // ---- what callers see, without the tables and maps ----

  /** What one operation does to the value of key k: a set or delete of that key whose
      lengths are allowed, or a clear. */
  function After(now: Option<Value>, op: Op, k: Key): Option<Value> {
    if op.Set? && op.key == k && |k| <= 256 && |op.value| <= 65536 then Some(op.value)
    else if op.Delete? && op.key == k && |k| <= 256 then None
    else if op.Clear? then None
    else now
  }

  /** The value that the last write to key k in a history left. */
  function LastWritten(now: Option<Value>, ops: seq<Op>, k: Key): Option<Value>
    decreases |ops|
  {
    if ops == [] then now else LastWritten(After(now, ops[0], k), ops[1..], k)
  }

  function Find(m: map<Key, Value>, k: Key): Option<Value> { if k in m then Some(m[k]) else None }

  lemma {:induction false} LastWriteWins(m: map<Key, Value>, ops: seq<Op>, k: Key)
    ensures Find(RunMap(m, false, ops).0, k) == LastWritten(Find(m, k), ops, k)
    decreases |ops|
  {
    if ops == [] {
    } else {
      var n := OnMap(m, false, ops[0]).0;
      assert Find(n, k) == After(Find(m, k), ops[0], k);
      LastWriteWins(n, ops[1..], k);
    }
  }

  /** The value cut to the buffer: its first bytes, as many as fit. */
  ghost predicate Fills(bytes: Value, value: Value, room: nat) {
    bytes <= value && |bytes| == if room < |value| then room else |value|
  }

  /** What get reports about a table that stands for a map. */
  lemma GetReports(t: Table, m: map<Key, Value>, readOnly: bool, k: Key, room: nat)
    requires Represents(t, m)
    ensures |t| > 0
    ensures var r := OnTable(t, readOnly, Op.Get(k, room)).1;
            if |k| > 256 then r == KeyTooLong
            else if k !in m then r == NotFound
            else r.Data? && Fills(r.bytes, m[k], room) && r.actual == |m[k]|
  {
    hide Represents, Lookup, WellFormed, Size;
    Agrees(t, m, k);
  }

  /** Set and delete report success exactly when they may and can write. */
  lemma WritesReport(t: Table, m: map<Key, Value>, readOnly: bool, k: Key, v: Value)
    requires Represents(t, m)
    ensures |t| > 0
    ensures OnTable(t, readOnly, Op.Set(k, v)).1 ==
            if |k| > 256 then KeyTooLong else if |v| > 65536 then ValueTooLong else if readOnly then ReadOnly else Done
    ensures OnTable(t, readOnly, Op.Delete(k)).1 ==
            if |k| > 256 then KeyTooLong else if readOnly then ReadOnly else if k in m then Done else NotFound
    ensures OnTable(t, readOnly, Op.Clear).1 == if readOnly then ReadOnly else Done
  {
    hide Represents, Lookup, WellFormed, Size, Insert, Remove;
    Agrees(t, m, k);
  }

  /** After any history of a new database: get returns the last value written to the key
      and not deleted or cleared since, cut to the buffer, and its whole length; exists
      tells whether there is one; count is the number of such keys. */
  lemma ReadsLastWrite(capacity: nat, ops: seq<Op>, k: Key, room: nat)
    requires capacity > 0
    ensures var t, v := RunTable(Empty(capacity), false, ops).0, LastWritten(None, ops, k);
            && |t| > 0
            && (var r := OnTable(t, false, Op.Get(k, room)).1;
                if |k| > 256 then r == KeyTooLong
                else if v.None? then r == NotFound
                else r.Data? && Fills(r.bytes, v.value, room) && r.actual == |v.value|)
            && OnTable(t, false, Op.Exists(k)).1 == Flag(v.Some?)
            && exists keys: set<Key> :: OnTable(t, false, Op.Count).1 == Total(|keys|)
                                        && forall q :: q in keys <==> LastWritten(None, ops, q).Some?
  {
    var t, m := RunTable(Empty(capacity), false, ops).0, RunMap(map[], false, ops).0;
    hide Represents, RunTable, RunMap, LastWritten, Lookup, WellFormed, Size, Fills;
    EmptyRepresents(capacity);
    RunRefines(Empty(capacity), map[], false, ops);
    Agrees(t, m, k);
    LastWriteWins(map[], ops, k);
    GetReports(t, m, false, k, room);
    forall q ensures q in m.Keys <==> LastWritten(None, ops, q).Some? {
      LastWriteWins(map[], ops, q);
    }
    assert |m.Keys| == |m|;
  }

  // ---- the handle ----

  class Database {
    const readOnly: bool
    const store: HashMap

    constructor (store: HashMap, readOnly: bool)
      requires store.Valid()
      ensures this.store == store && this.readOnly == readOnly
    {
      this.store, this.readOnly := store, readOnly;
    }

    /** kvdb_get */
    method Get(key: Key, room: nat) returns (r: Reply)
      requires store.Valid()
      ensures (store.table, r) == OnTable(store.table, readOnly, Op.Get(key, room))
      ensures store.table != [] &&
              var v := Lookup(store.table, key);
              if |key| > 256 then r == KeyTooLong
              else if v.None? then r == NotFound
              else r.Data? && Fills(r.bytes, v.value, room) && r.actual == |v.value|
    {
      if |key| > MAX_KEY_SIZE {
        return KeyTooLong;
      }
      var node, b := store.Find(key);
      if node == null {
        return NotFound;
      }
      r := Data(CutTo(node.value, room), |node.value|);
    }

    /** kvdb_set */
    method Set(key: Key, value: Value) returns (r: Reply)
      requires store.Valid()
      modifies store, store.buckets, store.nodes
      ensures store.Valid() && (store.table, r) == OnTable(old(store.table), readOnly, Op.Set(key, value))
    {
      if |key| > MAX_KEY_SIZE {
        return KeyTooLong;
      }
      if |value| > MAX_VALUE_SIZE {
        return ValueTooLong;
      }
      if readOnly {
        return ReadOnly;
      }
      store.Put(key, value);
      return Done;
    }

    /** kvdb_delete */
    method Delete(key: Key) returns (r: Reply)
      requires store.Valid()
      modifies store, store.buckets, store.nodes
      ensures store.Valid() && (store.table, r) == OnTable(old(store.table), readOnly, Op.Delete(key))
    {
      if |key| > MAX_KEY_SIZE {
        return KeyTooLong;
      }
      if readOnly {
        return ReadOnly;
      }
      var found := store.Delete(key);
      return if found then Done else NotFound;
    }

    /** kvdb_exists */
    method Exists(key: Key) returns (r: Reply)
      requires store.Valid()
      ensures (store.table, r) == OnTable(store.table, readOnly, Op.Exists(key))
    {
      var node, b := store.Find(key);
      r := Flag(node != null);
    }

    /** kvdb_count */
    method Count() returns (r: Reply)
      requires store.Valid()
      ensures (store.table, r) == OnTable(store.table, readOnly, Op.Count)
    {
      r := Total(store.size);
    }

    /** kvdb_clear */
    method Clear() returns (r: Reply)
      requires store.Valid()
      modifies store, store.buckets
      ensures store.Valid() && (store.table, r) == OnTable(old(store.table), readOnly, Op.Clear)
    {
      if readOnly {
        return ReadOnly;
      }
      store.Clear();
      return Done;
    }

    /** kvdb_close: the new contents of the data file. */
    method Close(file: seq<byte>) returns (saved: seq<byte>)
      requires store.Valid()
      ensures saved == if readOnly then file else FileOf(store.table)
    {
      if readOnly {
        return file;
      }
      saved := store.Save();
    }
  }
}

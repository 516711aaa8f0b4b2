/** The data file of kvdb.c: length-prefixed records, written bucket by bucket
    when the database is closed and read back when it is opened. */
module KvFile {
  import opened Options
  import opened Wire
  import opened KvTable

  const MAX_KEY_SIZE := 256
  const MAX_VALUE_SIZE := 65536

  // ---- saving ----

  function RecordOf(e: Entry): seq<byte> {
    LittleEndian(|e.key|, 4) + e.key + LittleEndian(|e.value|, 4) + e.value
  }

  function Serialize(es: seq<Entry>): seq<byte> {
    if es == [] then [] else RecordOf(es[0]) + Serialize(es[1..])
  }

  /** All entries, in the order of the save loop. */
  function FlattenFrom(t: Table, b: nat): seq<Entry>
    requires b <= |t|
    decreases |t| - b
  {
    if b == |t| then [] else t[b] + FlattenFrom(t, b + 1)
  }

  function Entries(t: Table): seq<Entry> { FlattenFrom(t, 0) }

  function FileOf(t: Table): seq<byte> { Serialize(Entries(t)) }

  // ---- loading ----

  /** The load loop ends at the end of the file or at a record it refuses. A key
      of exactly 256 bytes passes its length test, but its terminator is then
      written behind the end of the key buffer. */
  datatype Load = Loaded(table: Table) | Overrun

  function LoadInto(t: Table, file: seq<byte>): (r: Load)
    requires |t| > 0
    ensures r.Loaded? ==> |r.table| == |t|
    decreases |file|
  {
    if |file| < 4 then Loaded(t) else
    var keyLen, afterLen := FromLittleEndian(file[..4]), file[4..];
    if keyLen > MAX_KEY_SIZE || |afterLen| < keyLen then Loaded(t) else
    if keyLen == MAX_KEY_SIZE then Overrun else
    var key, afterKey := UpToNul(afterLen[..keyLen]), afterLen[keyLen..];
    if |afterKey| < 4 then Loaded(t) else
    var valueLen, afterValueLen := FromLittleEndian(afterKey[..4]), afterKey[4..];
    if valueLen > MAX_VALUE_SIZE || |afterValueLen| < valueLen then Loaded(t) else
    LoadInto(Insert(t, key, afterValueLen[..valueLen]), afterValueLen[valueLen..])
  }

  function InsertAll(t: Table, es: seq<Entry>): (u: Table)
    requires |t| > 0
    ensures |u| == |t|
    decreases |es|
  {
    if es == [] then t else InsertAll(Insert(t, es[0].key, es[0].value), es[1..])
  }

  /** What kvdb_set lets in. */
  predicate Settable(e: Entry) {
    NulFree(e.key) && |e.key| <= MAX_KEY_SIZE && |e.value| <= MAX_VALUE_SIZE
  }

  predicate Storable(e: Entry) { Settable(e) && |e.key| < MAX_KEY_SIZE }

  // ---- one record ----

  /** Where the four parts of a record followed by `rest` lie. */
  lemma RecordLayout(e: Entry, rest: seq<byte>)
    ensures var f := RecordOf(e) + rest;
            var k, v := |e.key|, |e.value|;
            && |f| == 8 + k + v + |rest|
            && f[..4] == LittleEndian(k, 4) && f[4..][..k] == e.key
            && f[4..][k..][..4] == LittleEndian(v, 4)
            && f[4..][k..][4..][..v] == e.value && f[4..][k..][4..][v..] == rest
  {
    var f := RecordOf(e) + rest;
    var k, v := |e.key|, |e.value|;
    assert f == LittleEndian(k, 4) + (e.key + (LittleEndian(v, 4) + (e.value + rest)));
    assert f[4..] == e.key + (LittleEndian(v, 4) + (e.value + rest));
    assert f[4..][k..] == LittleEndian(v, 4) + (e.value + rest);
    assert f[4..][k..][4..] == e.value + rest;
  }

  lemma LoadRecord(t: Table, e: Entry, rest: seq<byte>)
    requires |t| > 0 && Settable(e)
    ensures LoadInto(t, RecordOf(e) + rest)
            == if Storable(e) then LoadInto(Insert(t, e.key, e.value), rest) else Overrun
  {
    hide RecordOf, Insert;
    RecordLayout(e, rest);
    RoundTrip32(|e.key|);
    RoundTrip32(|e.value|);
  }

  /** A record cut short is not loaded. */
  lemma LoadCutRecord(t: Table, e: Entry, p: seq<byte>)
    requires |t| > 0 && Storable(e) && p <= RecordOf(e) && |p| < |RecordOf(e)|
    ensures LoadInto(t, p) == Loaded(t)
  {
    hide RecordOf, Insert;
    RecordLayout(e, []);
    var f := RecordOf(e) + [];
    assert f == RecordOf(e);
    RoundTrip32(|e.key|);
    RoundTrip32(|e.value|);
    if |p| >= 4 {
      assert p[..4] == f[..4];
      if |p| >= 4 + |e.key| + 4 {
        assert p[4..][|e.key|..][..4] == f[4..][|e.key|..][..4];
      }
    }
  }

  // ---- whole files ----

  lemma {:induction false} LoadSerialized(t: Table, es: seq<Entry>)
    requires |t| > 0 && forall i :: 0 <= i < |es| ==> Settable(es[i])
    ensures LoadInto(t, Serialize(es)).Loaded? <==> forall i :: 0 <= i < |es| ==> Storable(es[i])
    ensures (forall i :: 0 <= i < |es| ==> Storable(es[i])) ==> LoadInto(t, Serialize(es)) == Loaded(InsertAll(t, es))
    decreases |es|
  {
    if es == [] {
    } else {
      hide RecordOf, Insert, LoadInto;
      LoadRecord(t, es[0], Serialize(es[1..]));
      LoadSerialized(Insert(t, es[0].key, es[0].value), es[1..]);
    }
  }

  /** How many records lie wholly within the first n bytes. */
  function WholeRecords(es: seq<Entry>, n: nat): (k: nat)
    ensures k <= |es|
  {
    if es == [] || |RecordOf(es[0])| > n then 0 else 1 + WholeRecords(es[1..], n - |RecordOf(es[0])|)
  }

  /** Loading any prefix of a saved file loads exactly the records wholly in it. */
  lemma {:induction false} LoadPrefix(t: Table, es: seq<Entry>, p: seq<byte>)
    requires |t| > 0 && p <= Serialize(es) && forall i :: 0 <= i < |es| ==> Storable(es[i])
    ensures LoadInto(t, p) == Loaded(InsertAll(t, es[..WholeRecords(es, |p|)]))
    decreases |es|
  {
    hide RecordOf, Insert, Storable;
    if es == [] {
    } else {
      var r := RecordOf(es[0]);
      if |r| > |p| {
        hide LoadInto;
        assert p == Serialize(es)[..|p|] == r[..|p|];
        LoadCutRecord(t, es[0], p);
      } else {
        hide LoadInto;
        var rest := p[|r|..];
        assert p == r + rest by { assert p[..|r|] == Serialize(es)[..|r|] == r; }
        assert rest <= Serialize(es[1..]);
        assert Settable(es[0]) && Storable(es[0]) by { assert Storable(es[0]); StorableIsSettable(es[0]); }
        LoadRecord(t, es[0], rest);
        LoadPrefix(Insert(t, es[0].key, es[0].value), es[1..], rest);
        var k := WholeRecords(es[1..], |rest|);
        assert es[..k + 1][1..] == es[1..][..k];
      }
    }
  }

  lemma StorableIsSettable(e: Entry)
    requires Storable(e)
    ensures Settable(e)
  {
  }

  // ---- inserting reverses every chain ----

  function Reverse(c: Chain): (r: Chain)
    ensures |r| == |c|
  {
    if c == [] then [] else Reverse(c[1..]) + [c[0]]
  }

  function Reversed(t: Table): (u: Table)
    ensures |u| == |t|
  {
    seq(|t|, b requires 0 <= b < |t| => Reverse(t[b]))
  }

  lemma {:induction false} ReverseAt(c: Chain, i: nat)
    requires i < |c|
    ensures Reverse(c)[i] == c[|c| - 1 - i]
  {
    if i == |c| - 1 {
    } else {
      ReverseAt(c[1..], i);
    }
  }

  lemma ReverseTwice(c: Chain)
    ensures Reverse(Reverse(c)) == c
  {
    forall i | 0 <= i < |c| ensures Reverse(Reverse(c))[i] == c[i] {
      ReverseAt(Reverse(c), i);
      ReverseAt(c, |c| - 1 - i);
    }
  }

  lemma ReversedTwice(t: Table)
    ensures Reversed(Reversed(t)) == t
  {
    forall b | 0 <= b < |t| ensures Reversed(Reversed(t))[b] == t[b] {
      ReverseTwice(t[b]);
    }
  }

  lemma {:induction false} InsertAppend(t: Table, a: seq<Entry>, b: seq<Entry>)
    requires |t| > 0
    ensures InsertAll(t, a + b) == InsertAll(InsertAll(t, a), b)
    decreases |a|
  {
    hide Insert;
    if a == [] {
      assert a + b == b;
    } else {
      assert (a + b)[1..] == a[1..] + b;
      InsertAppend(Insert(t, a[0].key, a[0].value), a[1..], b);
    }
  }

  /** New keys of one bucket end up in front of it, in reverse. */
  lemma {:induction false} InsertChain(t: Table, b: nat, c: Chain)
    requires b < |t| && Distinct(c)
    requires forall i :: 0 <= i < |c| ==> Slot(|t|, c[i].key) == b
    requires forall i, j :: 0 <= i < |c| && 0 <= j < |t[b]| ==> c[i].key != t[b][j].key
    ensures InsertAll(t, c) == t[b := Reverse(c) + t[b]]
    decreases |c|
  {
    hide Slot;
    if c == [] {
      assert Reverse(c) + t[b] == t[b];
      assert t[b := t[b]] == t;
    } else {
      var u := Insert(t, c[0].key, c[0].value);
      assert u == t[b := [c[0]] + t[b]];
      InsertChain(u, b, c[1..]);
      assert Reverse(c[1..]) + ([c[0]] + t[b]) == Reverse(c) + t[b];
      assert u[b := Reverse(c[1..]) + u[b]] == t[b := Reverse(c) + t[b]];
    }
  }

  lemma {:induction false} InsertBuckets(u: Table, t: Table, b: nat)
    requires WellFormed(t) && |u| == |t| && b <= |t|
    requires forall j :: b <= j < |t| ==> u[j] == []
    requires forall j :: 0 <= j < b ==> u[j] == Reverse(t[j])
    ensures InsertAll(u, FlattenFrom(t, b)) == Reversed(t)
    decreases |t| - b
  {
    hide Slot, Insert, InsertAll, Reverse;
    if b < |t| {
      InsertAppend(u, t[b], FlattenFrom(t, b + 1));
      InsertChain(u, b, t[b]);
      assert Reverse(t[b]) + u[b] == Reverse(t[b]);
      InsertBuckets(u[b := Reverse(t[b])], t, b + 1);
    } else {
      assert u == Reversed(t);
      InsertNothing(u);
    }
  }

  lemma InsertNothing(u: Table)
    requires |u| > 0
    ensures InsertAll(u, []) == u
  {
  }

  // ---- closing and opening again ----

  ghost predicate AllSettable(t: Table) {
    forall b, i :: 0 <= b < |t| && 0 <= i < |t[b]| ==> Settable(t[b][i])
  }

  ghost predicate AllStorable(t: Table) {
    forall b, i :: 0 <= b < |t| && 0 <= i < |t[b]| ==> Storable(t[b][i])
  }

  lemma {:induction false} FlattenEntries(t: Table, b: nat)
    requires b <= |t|
    ensures forall e :: e in FlattenFrom(t, b) <==> exists j :: b <= j < |t| && e in t[j]
    decreases |t| - b
  {
    if b == |t| {
    } else {
      FlattenEntries(t, b + 1);
    }
  }

  lemma FlattenedAt(t: Table, i: nat) returns (b: nat, j: nat)
    requires i < |Entries(t)|
    ensures b < |t| && j < |t[b]| && t[b][j] == Entries(t)[i]
  {
    FlattenEntries(t, 0);
    assert Entries(t)[i] in Entries(t);
    b :| 0 <= b < |t| && Entries(t)[i] in t[b];
    j :| 0 <= j < |t[b]| && t[b][j] == Entries(t)[i];
  }

  lemma FlattenedHas(t: Table, b: nat, j: nat) returns (i: nat)
    requires b < |t| && j < |t[b]|
    ensures i < |Entries(t)| && Entries(t)[i] == t[b][j]
  {
    FlattenEntries(t, 0);
    assert t[b][j] in t[b];
    assert t[b][j] in Entries(t);
    i :| 0 <= i < |Entries(t)| && Entries(t)[i] == t[b][j];
  }

  lemma AllFlattened(t: Table)
    ensures AllSettable(t) ==> forall i :: 0 <= i < |Entries(t)| ==> Settable(Entries(t)[i])
    ensures AllStorable(t) <==> forall i :: 0 <= i < |Entries(t)| ==> Storable(Entries(t)[i])
  {
    hide Settable, Storable, Entries;
    var es := Entries(t);
    if AllSettable(t) {
      forall i | 0 <= i < |es| ensures Settable(es[i]) {
        var b, j := FlattenedAt(t, i);
      }
    }
    if AllStorable(t) {
      forall i | 0 <= i < |es| ensures Storable(es[i]) {
        var b, j := FlattenedAt(t, i);
      }
    }
    if forall i :: 0 <= i < |es| ==> Storable(es[i]) {
      forall b, j | 0 <= b < |t| && 0 <= j < |t[b]| ensures Storable(t[b][j]) {
        var i := FlattenedHas(t, b, j);
        assert Storable(es[i]);
      }
    }
  }

  /** Closing and reopening restores the table, with every chain reversed,
      exactly when no key has the maximum length that kvdb_set accepts. */
  lemma CloseOpen(t: Table)
    requires WellFormed(t) && AllSettable(t)
    ensures LoadInto(Empty(|t|), FileOf(t)).Loaded? <==> AllStorable(t)
    ensures AllStorable(t) ==> LoadInto(Empty(|t|), FileOf(t)) == Loaded(Reversed(t))
  {
    hide LoadInto, RecordOf, Slot;
    AllFlattened(t);
    LoadSerialized(Empty(|t|), Entries(t));
    InsertBuckets(Empty(|t|), t, 0);
  }

  lemma ReversedKeeps(t: Table)
    requires WellFormed(t)
    ensures WellFormed(Reversed(t))
    ensures forall k :: Lookup(Reversed(t), k) == Lookup(t, k)
    ensures AllStorable(t) ==> AllStorable(Reversed(t))
  {
    hide Hash, Get;
    forall b, i | 0 <= b < |t| && 0 <= i < |t[b]| ensures Reversed(t)[b][i] == t[b][|t[b]| - 1 - i] {
      ReverseAt(t[b], i);
    }
    forall b | 0 <= b < |t| ensures Distinct(Reversed(t)[b]) {
      ReverseDistinct(t[b]);
    }
    forall k ensures Lookup(Reversed(t), k) == Lookup(t, k) {
      GetReverse(t[Slot(|t|, k)], k);
    }
  }

  lemma ReverseDistinct(c: Chain)
    requires Distinct(c)
    ensures Distinct(Reverse(c))
  {
    forall i | 0 <= i < |c| ensures Reverse(c)[i] == c[|c| - 1 - i] {
      ReverseAt(c, i);
    }
    var r := Reverse(c);
    forall i, j | 0 <= i < j < |r| ensures r[i].key != r[j].key {
      assert c[|c| - 1 - j].key != c[|c| - 1 - i].key;
    }
  }

  lemma GetReverse(c: Chain, k: Key)
    requires Distinct(c)
    ensures Get(Reverse(c), k) == Get(c, k)
  {
    ReverseDistinct(c);
    var r, i := Reverse(c), IndexOf(c, k);
    if i < |c| {
      ReverseAt(c, |c| - 1 - i);
      IndexUnique(r, k, |c| - 1 - i);
    } else {
      forall j | 0 <= j < |r| ensures r[j].key != k {
        ReverseAt(c, j);
      }
    }
  }

  lemma {:induction false} SizeReversed(t: Table)
    ensures Size(Reversed(t)) == Size(t)
  {
    if t == [] {
    } else {
      assert Reversed(t)[1..] == Reversed(t[1..]);
      SizeReversed(t[1..]);
    }
  }

  /** The reopened database holds the same map ... */
  lemma CloseOpenSameMap(t: Table, m: map<Key, Value>)
    requires Represents(t, m) && AllStorable(t)
    ensures var r := LoadInto(Empty(|t|), FileOf(t));
            r.Loaded? && Represents(r.table, m)
  {
    hide LoadInto, FileOf;
    assert AllSettable(t) by {
      forall b, i | 0 <= b < |t| && 0 <= i < |t[b]| ensures Settable(t[b][i]) {
        assert Storable(t[b][i]);
      }
    }
    CloseOpen(t);
    ReversedKeeps(t);
    SizeReversed(t);
  }

  /** ... and closing it twice reproduces the data file byte for byte. */
  lemma TwoCyclesReproduceFile(t: Table)
    requires WellFormed(t) && AllStorable(t)
    ensures var once := LoadInto(Empty(|t|), FileOf(t));
            && once.Loaded?
            && var twice := LoadInto(Empty(|t|), FileOf(once.table));
               twice.Loaded? && twice.table == t && FileOf(twice.table) == FileOf(t)
  {
    hide LoadInto, FileOf;
    assert AllSettable(t) && AllSettable(Reversed(t)) by {
      ReversedKeeps(t);
      assert forall e :: Storable(e) ==> Settable(e);
    }
    CloseOpen(t);
    ReversedKeeps(t);
    CloseOpen(Reversed(t));
    ReversedTwice(t);
  }

  // ---- a truncated file ----

  /** Inserting entries with different keys makes exactly them findable. */
  lemma {:induction false} InsertAllLookup(t: Table, es: seq<Entry>, k: Key)
    requires WellFormed(t) && Distinct(es)
    ensures WellFormed(InsertAll(t, es))
    ensures Lookup(InsertAll(t, es), k) ==
            if IndexOf(es, k) < |es| then Some(es[IndexOf(es, k)].value) else Lookup(t, k)
    decreases |es|
  {
    if es == [] {
    } else {
      var e := es[0];
      InsertKeepsForm(t, e.key, e.value);
      InsertAllLookup(Insert(t, e.key, e.value), es[1..], k);
      GetPut(t[Slot(|t|, e.key)], e.key, e.value, k);
      hide WellFormed, Put, Hash;
      if e.key == k {
        assert forall j :: 0 <= j < |es[1..]| ==> es[1..][j].key == es[j + 1].key != k;
      }
    }
  }

  lemma {:induction false} FlattenDistinct(t: Table, b: nat)
    requires WellFormed(t) && b <= |t|
    ensures Distinct(FlattenFrom(t, b))
    ensures forall i :: 0 <= i < |FlattenFrom(t, b)| ==> b <= Slot(|t|, FlattenFrom(t, b)[i].key)
    decreases |t| - b
  {
    hide Hash, Slot;
    if b == |t| {
    } else {
      FlattenDistinct(t, b + 1);
    }
  }

  lemma FlattenedIsStored(t: Table, i: nat)
    requires WellFormed(t) && i < |Entries(t)|
    ensures var e := Entries(t)[i];
            Lookup(t, e.key) == Some(e.value)
  {
    hide Hash;
    var e := Entries(t)[i];
    var b, j := FlattenedAt(t, i);
    IndexUnique(t[b], e.key, j);
  }

  lemma FirstEntries(t: Table, n: nat, k: Key)
    requires WellFormed(t) && n <= |Entries(t)|
    ensures var es := Entries(t);
            var found := Lookup(InsertAll(Empty(|t|), es[..n]), k);
            && found == (if IndexOf(es, k) < n then Some(es[IndexOf(es, k)].value) else None)
            && (found.Some? ==> found == Lookup(t, k))
  {
    hide Hash, Entries, Lookup, InsertAll, WellFormed;
    var es := Entries(t);
    var i := IndexOf(es, k);
    EntriesDistinct(t);
    EmptyIsWellFormed(t);
    InsertAllLookup(Empty(|t|), es[..n], k);
    hide Empty;
    if i < n {
      IndexUnique(es[..n], k, i);
      FlattenedIsStored(t, i);
    } else {
      NothingInEmpty(|t|, k);
    }
  }

  lemma EntriesDistinct(t: Table)
    requires WellFormed(t)
    ensures Distinct(Entries(t))
  {
    hide Hash;
    FlattenDistinct(t, 0);
  }

  lemma EmptyIsWellFormed(t: Table)
    requires WellFormed(t)
    ensures |t| > 0 && WellFormed(Empty(|t|))
  {
    hide Hash;
  }

  lemma NothingInEmpty(n: nat, k: Key)
    requires n > 0
    ensures Lookup(Empty(n), k) == None
  {
  }

  /** Opening any prefix of a saved file finds exactly the records wholly inside
      it, so what it finds is what was saved. */
  lemma TruncatedFile(t: Table, p: seq<byte>, k: Key)
    requires WellFormed(t) && AllStorable(t) && p <= FileOf(t)
    ensures var es := Entries(t);
            var r, i := LoadInto(Empty(|t|), p), IndexOf(es, k);
            && r.Loaded?
            && Lookup(r.table, k) == (if i < WholeRecords(es, |p|) then Some(es[i].value) else None)
            && (Lookup(r.table, k).Some? ==> Lookup(r.table, k) == Lookup(t, k))
  {
    hide LoadInto, RecordOf, Entries, Lookup;
    var es := Entries(t);
    AllFlattened(t);
    LoadPrefix(Empty(|t|), es, p);
    FirstEntries(t, WholeRecords(es, |p|), k);
  }
}

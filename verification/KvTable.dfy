/** The chained hash table of kvdb.c as a value: buckets of entries, searched
    from the front, with new entries put in front. */
module KvTable {
  import opened Options
  import opened Wire

  type Key = seq<byte>
  type Value = seq<byte>

  datatype Entry = Entry(key: Key, value: Value)
  type Chain = seq<Entry>
  type Table = seq<Chain>

  // ---- hash_string ----

  /** A char of the key, sign-extended as on the platforms with signed char. */
  function SignExtend(c: byte): int { if c < 128 then c else c - 256 }

  function HashFrom(h: nat, key: Key): (r: nat)
    requires h < U32_LIMIT
    ensures r < U32_LIMIT
    decreases |key|
  {
    if key == [] then h else HashFrom((h * 33 + SignExtend(key[0])) % U32_LIMIT, key[1..])
  }

  function Hash(key: Key): nat { HashFrom(5381, key) }

  /** The hash, one more character at a time: 33 times the one before plus the character,
      taken as a signed number, in 32 bits, starting from 5381. */
  lemma HashAppend(key: Key, c: byte)
    ensures Hash([]) == 5381
    ensures Hash(key + [c]) == (Hash(key) * 33 + (if c <= 127 then c else c - 256)) % 0x1_0000_0000
  {
    HashFromAppend(5381, key, c);
  }

  lemma {:induction false} HashFromAppend(h: nat, key: Key, c: byte)
    requires h < U32_LIMIT
    ensures HashFrom(h, key + [c]) == (HashFrom(h, key) * 33 + (if c <= 127 then c else c - 256)) % U32_LIMIT
    decreases |key|
  {
    if key == [] {
      assert (key + [c])[1..] == [];
    } else {
      assert (key + [c])[1..] == key[1..] + [c];
      HashFromAppend((h * 33 + SignExtend(key[0])) % U32_LIMIT, key[1..], c);
    }
  }

  function Slot(capacity: nat, key: Key): (b: nat)
    requires capacity > 0
    ensures b < capacity
  {
    Hash(key) % capacity
  }

  // ---- chains ----

  function IndexOf(c: Chain, k: Key): (i: nat)
    ensures i <= |c|
    ensures i < |c| ==> c[i].key == k
    ensures forall j :: 0 <= j < i ==> c[j].key != k
  {
    if c == [] || c[0].key == k then 0 else 1 + IndexOf(c[1..], k)
  }

  function Get(c: Chain, k: Key): Option<Value> {
    var i := IndexOf(c, k);
    if i < |c| then Some(c[i].value) else None
  }

  function Put(c: Chain, k: Key, v: Value): Chain {
    var i := IndexOf(c, k);
    if i < |c| then c[i := Entry(k, v)] else [Entry(k, v)] + c
  }

  function Drop(c: Chain, k: Key): Chain {
    var i := IndexOf(c, k);
    if i < |c| then c[..i] + c[i + 1..] else c
  }

  predicate Distinct(c: Chain) {
    forall i, j :: 0 <= i < j < |c| ==> c[i].key != c[j].key
  }

  /** In a chain without duplicates, the position of a key is unique. */
  lemma IndexUnique(c: Chain, k: Key, i: nat)
    requires Distinct(c) && i < |c| && c[i].key == k
    ensures IndexOf(c, k) == i
  {
  }

  lemma PutDistinct(c: Chain, k: Key, v: Value)
    requires Distinct(c)
    ensures Distinct(Put(c, k, v))
    ensures |Put(c, k, v)| == |c| + if Get(c, k).None? then 1 else 0
    ensures forall j :: 0 <= j < |Put(c, k, v)| ==> Put(c, k, v)[j] in c || Put(c, k, v)[j].key == k
  {
  }

  lemma GetPut(c: Chain, k: Key, v: Value, q: Key)
    requires Distinct(c)
    ensures Get(Put(c, k, v), q) == if q == k then Some(v) else Get(c, q)
  {
    PutDistinct(c, k, v);
    var d := Put(c, k, v);
    var i := IndexOf(c, q);
    var shift := if IndexOf(c, k) < |c| then 0 else 1;
    if q == k {
      IndexUnique(d, k, if shift == 0 then i else 0);
    } else if i < |c| {
      IndexUnique(d, q, i + shift);
    } else {
      assert forall j :: 0 <= j < |d| ==> d[j].key != q;
    }
  }

  lemma GetDrop(c: Chain, k: Key, q: Key)
    requires Distinct(c)
    ensures Distinct(Drop(c, k))
    ensures Get(Drop(c, k), q) == if q == k then None else Get(c, q)
    ensures |Drop(c, k)| == |c| - if Get(c, k).Some? then 1 else 0
    ensures forall e :: e in Drop(c, k) ==> e in c
  {
    DropShape(c, k);
    hide Distinct;
    var d := Drop(c, k);
    var at, i := IndexOf(c, k), IndexOf(c, q);
    if q == k || i == |c| {
      DropMisses(c, k, q);
    } else {
      IndexUnique(d, q, if i < at then i else i - 1);
    }
  }

  lemma DropShape(c: Chain, k: Key)
    requires Distinct(c)
    ensures Distinct(Drop(c, k)) && |Drop(c, k)| == |c| - if Get(c, k).Some? then 1 else 0
    ensures forall e :: e in Drop(c, k) ==> e in c
  {
  }

  lemma DropMisses(c: Chain, k: Key, q: Key)
    requires Distinct(c) && (q == k || IndexOf(c, q) == |c|)
    ensures forall j :: 0 <= j < |Drop(c, k)| ==> Drop(c, k)[j].key != q
  {
  }

  // ---- the table ----

  /** Every key occurs once, in the bucket its hash names. */
  ghost predicate WellFormed(t: Table) {
    && |t| > 0
    && (forall b :: 0 <= b < |t| ==> Distinct(t[b]))
    && (forall b, i :: 0 <= b < |t| && 0 <= i < |t[b]| ==> Slot(|t|, t[b][i].key) == b)
  }

  function Empty(capacity: nat): Table { seq(capacity, _ => []) }

  function Lookup(t: Table, k: Key): Option<Value>
    requires |t| > 0
  {
    Get(t[Slot(|t|, k)], k)
  }

  function Insert(t: Table, k: Key, v: Value): (u: Table)
    requires |t| > 0
    ensures |u| == |t|
  {
    var b := Slot(|t|, k);
    t[b := Put(t[b], k, v)]
  }

  function Remove(t: Table, k: Key): (u: Table)
    requires |t| > 0
    ensures |u| == |t|
  {
    var b := Slot(|t|, k);
    t[b := Drop(t[b], k)]
  }

  function Size(t: Table): nat {
    if t == [] then 0 else |t[0]| + Size(t[1..])
  }

  lemma {:induction false} SizeUpdate(t: Table, b: nat, c: Chain)
    requires b < |t|
    ensures Size(t[b := c]) == Size(t) - |t[b]| + |c|
  {
    if b == 0 {
      assert t[0 := c][1..] == t[1..];
    } else {
      assert t[b := c][1..] == t[1..][b - 1 := c];
      SizeUpdate(t[1..], b - 1, c);
    }
  }

  /** The finite map a table stands for: exactly its keys, with their values,
      and as many of them as the table counts. */
  ghost predicate Represents(t: Table, m: map<Key, Value>) {
    && WellFormed(t)
    && (forall k :: Lookup(t, k) == if k in m then Some(m[k]) else None)
    && Size(t) == |m|
  }

  lemma {:induction false} SizeEmpty(n: nat)
    ensures Size(Empty(n)) == 0
  {
    if n == 0 {
    } else {
      assert Empty(n)[1..] == Empty(n - 1);
      SizeEmpty(n - 1);
    }
  }

  lemma EmptyRepresents(capacity: nat)
    requires capacity > 0
    ensures Represents(Empty(capacity), map[])
  {
    SizeEmpty(capacity);
  }

  lemma InsertKeepsForm(t: Table, k: Key, v: Value)
    requires WellFormed(t)
    ensures WellFormed(Insert(t, k, v))
  {
    var b := Slot(|t|, k);
    PutDistinct(t[b], k, v);
  }

  lemma RemoveKeepsForm(t: Table, k: Key)
    requires WellFormed(t)
    ensures WellFormed(Remove(t, k))
  {
    var b := Slot(|t|, k);
    GetDrop(t[b], k, k);
    var c := Drop(t[b], k);
    forall i | 0 <= i < |c| ensures Slot(|t|, c[i].key) == b {
      assert c[i] in c;
    }
  }

  /** What a represented map says about one key, and about all of them. */
  lemma Agrees(t: Table, m: map<Key, Value>, k: Key)
    requires Represents(t, m)
    ensures |t| > 0 && Lookup(t, k) == (if k in m then Some(m[k]) else None) && Size(t) == |m| && WellFormed(t)
  {
    hide WellFormed;
    assert |t| > 0;
    hide Lookup;
  }

  lemma InsertLookup(t: Table, k: Key, v: Value, q: Key)
    requires WellFormed(t)
    ensures Lookup(Insert(t, k, v), q) == if q == k then Some(v) else Lookup(t, q)
  {
    hide Put, Get, Hash;
    GetPut(t[Slot(|t|, k)], k, v, q);
  }

  lemma InsertSize(t: Table, k: Key, v: Value)
    requires WellFormed(t)
    ensures Size(Insert(t, k, v)) == Size(t) + if Lookup(t, k).None? then 1 else 0
  {
    hide Put, Get, Hash;
    var b := Slot(|t|, k);
    PutDistinct(t[b], k, v);
    SizeUpdate(t, b, Put(t[b], k, v));
  }

  lemma InsertRepresents(t: Table, m: map<Key, Value>, k: Key, v: Value)
    requires Represents(t, m)
    ensures Represents(Insert(t, k, v), m[k := v])
  {
    hide WellFormed, Insert, Lookup, Size;
    Agrees(t, m, k);
    InsertKeepsForm(t, k, v);
    InsertSize(t, k, v);
    forall q ensures Lookup(Insert(t, k, v), q) == if q in m[k := v] then Some(m[k := v][q]) else None {
      InsertLookup(t, k, v, q);
      Agrees(t, m, q);
    }
    assert m[k := v].Keys == m.Keys + {k};
  }

  lemma RemoveLookup(t: Table, k: Key, q: Key)
    requires WellFormed(t)
    ensures Lookup(Remove(t, k), q) == if q == k then None else Lookup(t, q)
  {
    hide Drop, Get, Hash;
    GetDrop(t[Slot(|t|, k)], k, q);
  }

  lemma RemoveSize(t: Table, k: Key)
    requires WellFormed(t)
    ensures Size(Remove(t, k)) == Size(t) - if Lookup(t, k).Some? then 1 else 0
  {
    hide Drop, Get, Hash;
    var b := Slot(|t|, k);
    GetDrop(t[b], k, k);
    SizeUpdate(t, b, Drop(t[b], k));
  }

  lemma RemoveRepresents(t: Table, m: map<Key, Value>, k: Key)
    requires Represents(t, m)
    ensures Represents(Remove(t, k), m - {k})
  {
    hide WellFormed, Remove, Lookup, Size;
    Agrees(t, m, k);
    RemoveKeepsForm(t, k);
    RemoveSize(t, k);
    forall q ensures Lookup(Remove(t, k), q) == if q in m - {k} then Some((m - {k})[q]) else None {
      RemoveLookup(t, k, q);
      Agrees(t, m, q);
    }
    assert (m - {k}).Keys == m.Keys - {k};
  }
}

/** kvdb.c itself: an array of singly linked chains that the operations update
    in place, proved against the table of module KvTable. */
module KvStore {
  import opened Options
  import opened Wire
  import opened KvTable
  import opened KvFile

  class Node {
    const key: Key
    var value: Value
    var next: Node?

    constructor (key: Key, value: Value, next: Node?)
      ensures this.key == key && this.value == value && this.next == next
    {
      this.key, this.value, this.next := key, value, next;
    }
  }

  /** hash_string */
  method HashString(key: Key) returns (h: nat)
    ensures h == Hash(key)
  {
    h := 5381;
    var i := 0;
    while i < |key|
      invariant i <= |key| && h < U32_LIMIT
      invariant HashFrom(h, key[i..]) == Hash(key)
    {
      assert key[i..][1..] == key[i + 1..];
      h := (h * 33 + SignExtend(key[i])) % U32_LIMIT;
      i := i + 1;
    }
  }

  class HashMap {
    var buckets: array<Node?>
    var size: nat
    ghost var chains: seq<seq<Node>>   // the nodes of every bucket, from its head
    ghost var nodes: set<Node>
    ghost var table: Table             // what the structure stands for

    static ghost function NodeAt(c: seq<Node>, i: int): Node? {
      if 0 <= i < |c| then c[i] else null
    }

    /** c is the list that starts at head and holds the entries es. */
    static ghost predicate Holds(head: Node?, c: seq<Node>, es: Chain, ns: set<Node>)
      reads ns
    {
      && |es| == |c|
      && head == NodeAt(c, 0)
      && (forall i :: 0 <= i < |c| ==> c[i] in ns && es[i] == Entry(c[i].key, c[i].value))
      && (forall i {:trigger c[i].next} :: 0 <= i < |c| ==> c[i].next == NodeAt(c, i + 1))
    }

    ghost predicate Valid()
      reads this, buckets, nodes
    {
      && buckets.Length == |chains| == |table|
      && (forall b :: 0 <= b < |chains| ==> Holds(buckets[b], chains[b], table[b], nodes))
      && WellFormed(table) && size == Size(table)
    }

    constructor (capacity: nat)
      requires capacity > 0
      ensures Valid() && table == Empty(capacity) && fresh(buckets) && nodes == {}
    {
      buckets := new Node?[capacity](_ => null);
      size := 0;
      chains := seq(capacity, _ => []);
      nodes := {};
      table := Empty(capacity);
      new;
      hide Represents;
      SizeEmpty(capacity);
    }

    /** hashmap_find: the first node of the bucket with this key, or null. */
    method Find(key: Key) returns (node: Node?, b: nat)
      requires Valid()
      ensures b == Slot(|table|, key) && b < |chains|
      ensures node == NodeAt(chains[b], IndexOf(table[b], key))
    {
      hide Size, Hash;
      var h := HashString(key);
      b := h % buckets.Length;
      ghost var c := chains[b];
      node := buckets[b];
      ghost var i := 0;
      while node != null
        invariant 0 <= i <= |c| && node == NodeAt(c, i)
        invariant forall j :: 0 <= j < i ==> table[b][j].key != key
        decreases |c| - i
      {
        if node.key == key {
          return;
        }
        node := node.next;
        i := i + 1;
      }
    }

    /** The value of a node that is in the table is replaced. */
    method Update(node: Node, ghost b: nat, ghost i: nat, value: Value)
      requires Valid() && b < |chains| && i < |chains[b]| && node == chains[b][i]
      requires i == IndexOf(table[b], node.key)
      modifies this`table, node`value
      ensures Valid() && table == Insert(old(table), node.key, value)
    {
      hide Hash, Size, WellFormed;
      InsertKeepsForm(table, node.key, value);
      SlotOf(b, i);
      SizeUpdate(table, b, KvTable.Put(table[b], node.key, value));
      forall d, j | 0 <= d < |chains| && 0 <= j < |chains[d]| && (d != b || j != i)
        ensures chains[d][j] != node
      {
        SlotOf(d, j);
        NodesDiffer(d, j, b, i);
      }
      node.value := value;
      table := Insert(table, node.key, value);
    }

    /** A new node goes in front of its bucket. */
    method Prepend(key: Key, value: Value, b: nat)
      requires Valid() && b == Slot(|table|, key) && IndexOf(table[b], key) == |table[b]|
      modifies this, buckets
      ensures Valid() && table == Insert(old(table), key, value)
      ensures buckets == old(buckets) && fresh(nodes - old(nodes))
    {
      hide Hash, Size, WellFormed, Insert, Slot, IndexOf;
      InsertedTable(table, key, value, b);
      ghost var after := Insert(table, key, value);
      var node := new Node(key, value, buckets[b]);
      HoldsFront(node, buckets[b], chains[b], table[b], nodes);
      forall d | 0 <= d < |chains| ensures Holds(buckets[d], chains[d], table[d], nodes + {node}) {
        HoldsMore(buckets[d], chains[d], table[d], nodes, nodes + {node});
      }
      hide Holds;
      buckets[b] := node;
      nodes := nodes + {node};
      chains := chains[b := [node] + chains[b]];
      size := size + 1;
      table := after;
    }

    static lemma InsertedTable(t: Table, k: Key, v: Value, b: nat)
      requires WellFormed(t) && b < |t| && b == Slot(|t|, k) && IndexOf(t[b], k) == |t[b]|
      ensures Insert(t, k, v) == t[b := [Entry(k, v)] + t[b]]
      ensures WellFormed(Insert(t, k, v)) && Size(Insert(t, k, v)) == Size(t) + 1
    {
      hide Hash, Size, WellFormed;
      InsertKeepsForm(t, k, v);
      InsertSize(t, k, v);
    }

    static lemma HoldsFront(node: Node, head: Node?, c: seq<Node>, es: Chain, ns: set<Node>)
      requires Holds(head, c, es, ns) && node.next == head
      ensures Holds(node, [node] + c, [Entry(node.key, node.value)] + es, ns + {node})
    {
    }

    static lemma HoldsMore(head: Node?, c: seq<Node>, es: Chain, ns: set<Node>, more: set<Node>)
      requires Holds(head, c, es, ns) && ns <= more
      ensures Holds(head, c, es, more)
    {
    }

    lemma SlotOf(b: nat, i: nat)
      requires Valid() && b < |chains| && i < |chains[b]|
      ensures Slot(|table|, chains[b][i].key) == b
    {
    }

    /** Nodes at different places are different, because their keys are. */
    lemma NodesDiffer(b: nat, i: nat, d: nat, j: nat)
      requires Valid() && b < |chains| && i < |chains[b]| && d < |chains| && j < |chains[d]|
      requires b != d || i != j
      ensures chains[b][i] != chains[d][j]
    {
      hide Hash;
      SlotOf(b, i);
      SlotOf(d, j);
    }

    /** hashmap_insert */
    method Put(key: Key, value: Value)
      requires Valid()
      modifies this, buckets, nodes
      ensures Valid() && table == Insert(old(table), key, value)
      ensures buckets == old(buckets) && fresh(nodes - old(nodes))
    {
      hide WellFormed, Size, Hash, Insert;
      var node, b := Find(key);
      if node != null {
        Update(node, b, IndexOf(table[b], key), value);
      } else {
        Prepend(key, value, b);
      }
    }

    /** Take node i of bucket b out of its list. */
    method Unlink(prev: Node?, node: Node, b: nat, ghost i: nat)
      requires Valid() && b < |chains| && i < |chains[b]| && node == chains[b][i]
      requires i == IndexOf(table[b], node.key) && prev == NodeAt(chains[b], i - 1)
      modifies this, buckets, nodes
      ensures Valid() && table == Remove(old(table), node.key)
      ensures buckets == old(buckets) && nodes == old(nodes)
    {
      hide Hash, Size, WellFormed, Remove, Slot, IndexOf;
      SlotOf(b, i);
      RemovedTable(table, node.key, b, i);
      ghost var c := chains[b][..i] + chains[b][i + 1..];
      ghost var after := Remove(table, node.key);
      if prev != null {
        UnlinkAfter(prev, node, b, i);
      } else {
        UnlinkFirst(node, b);
      }
      hide Holds;
      chains := chains[b := c];
      size := size - 1;
      table := after;
    }

    static lemma RemovedTable(t: Table, k: Key, b: nat, i: nat)
      requires WellFormed(t) && b < |t| && b == Slot(|t|, k) && i < |t[b]| && i == IndexOf(t[b], k)
      ensures Remove(t, k) == t[b := t[b][..i] + t[b][i + 1..]]
      ensures WellFormed(Remove(t, k)) && Size(Remove(t, k)) == Size(t) - 1
    {
      hide Hash, Size, WellFormed;
      RemoveKeepsForm(t, k);
      RemoveSize(t, k);
    }

    method UnlinkFirst(node: Node, b: nat)
      requires Valid() && b < |chains| && chains[b] != [] && node == chains[b][0]
      modifies buckets
      ensures Holds(buckets[b], chains[b][..0] + chains[b][1..], table[b][..0] + table[b][1..], nodes)
      ensures forall d :: 0 <= d < |chains| && d != b ==> Holds(buckets[d], chains[d], table[d], nodes)
    {
      hide Hash, Size, WellFormed;
      assert Holds(buckets[b], chains[b], table[b], nodes);
      buckets[b] := node.next;
    }

    method UnlinkAfter(prev: Node, node: Node, ghost b: nat, ghost i: nat)
      requires Valid() && b < |chains| && 0 < i < |chains[b]| && node == chains[b][i] && prev == chains[b][i - 1]
      modifies prev`next
      ensures Holds(buckets[b], chains[b][..i] + chains[b][i + 1..], table[b][..i] + table[b][i + 1..], nodes)
      ensures forall d :: 0 <= d < |chains| && d != b ==> Holds(buckets[d], chains[d], table[d], nodes)
    {
      hide Hash, Size, WellFormed;
      forall d, j | 0 <= d < |chains| && 0 <= j < |chains[d]| && (d != b || j != i - 1)
        ensures chains[d][j] != prev
      {
        NodesDiffer(d, j, b, i - 1);
      }
      assert Holds(buckets[b], chains[b], table[b], nodes);
      prev.next := node.next;
    }

    /** hashmap_remove: false if the key is absent. */
    method Delete(key: Key) returns (found: bool)
      requires Valid()
      modifies this, buckets, nodes
      ensures Valid() && table == Remove(old(table), key)
      ensures found <==> Lookup(old(table), key).Some?
      ensures buckets == old(buckets) && nodes == old(nodes)
    {
      hide Hash, Size, WellFormed;
      var h := HashString(key);
      assert buckets.Length > 0 by { FormHasBuckets(); }
      var b := h % buckets.Length;
      ghost var c := chains[b];
      var node: Node?, prev: Node? := buckets[b], null;
      ghost var i := 0;
      while node != null
        invariant Valid() && table == old(table) && chains == old(chains)
        invariant 0 <= i <= |c| && node == NodeAt(c, i) && prev == NodeAt(c, i - 1)
        invariant forall j :: 0 <= j < i ==> table[b][j].key != key
        decreases |c| - i
      {
        if node.key == key {
          Unlink(prev, node, b, i);
          return true;
        }
        prev := node;
        node := node.next;
        i := i + 1;
      }
      assert table[b := table[b]] == table;
      return false;
    }

    lemma FormHasBuckets()
      requires Valid()
      ensures buckets.Length > 0
    {
    }

    /** kvdb_clear on the table. */
    method Clear()
      requires Valid()
      modifies this, buckets
      ensures Valid() && table == Empty(|old(table)|)
      ensures buckets == old(buckets) && nodes == {}
    {
      hide Hash, Size;
      ghost var n := |table|;
      SizeEmpty(n);
      for i := 0 to buckets.Length
        modifies buckets
        invariant forall j :: 0 <= j < i ==> buckets[j] == null
      {
        buckets[i] := null;
      }
      size := 0;
      chains := seq(n, _ => []);
      nodes := {};
      table := Empty(n);
    }

    /** The save loop of kvdb_close. */
    method Save() returns (file: seq<byte>)
      requires Valid()
      ensures file == FileOf(table)
    {
      hide Hash, Size, WellFormed, RecordOf, Serialize, FlattenFrom, FileOf;
      file := [];
      SaveStarts(table);
      for b := 0 to buckets.Length
        invariant file + Serialize(FlattenFrom(table, b)) == FileOf(table)
      {
        ghost var c, rest := chains[b], FlattenFrom(table, b + 1);
        var node := buckets[b];
        ghost var i := 0;
        assert table[b][0..] == table[b];
        SaveBucket(table, b);
        while node != null
          invariant 0 <= i <= |c| && node == NodeAt(c, i)
          invariant file + Serialize(table[b][i..] + rest) == FileOf(table)
          decreases |c| - i
        {
          ghost var es := table[b][i..] + rest;
          assert es[0] == Entry(node.key, node.value) && es[1..] == table[b][i + 1..] + rest;
          SaveRecord(file, es);
          file := file + RecordOf(Entry(node.key, node.value));
          node := node.next;
          i := i + 1;
        }
        assert table[b][i..] + rest == rest;
      }
      SaveEnds(table, file);
    }

    static lemma SaveStarts(t: Table)
      ensures [] + Serialize(FlattenFrom(t, 0)) == FileOf(t)
    {
      hide Serialize, FlattenFrom;
    }

    static lemma SaveBucket(t: Table, b: nat)
      requires b < |t|
      ensures FlattenFrom(t, b) == t[b] + FlattenFrom(t, b + 1)
    {
    }

    static lemma SaveRecord(file: seq<byte>, es: seq<Entry>)
      requires es != []
      ensures file + Serialize(es) == file + RecordOf(es[0]) + Serialize(es[1..])
    {
      hide RecordOf;
    }

    static lemma SaveEnds(t: Table, file: seq<byte>)
      ensures file + Serialize(FlattenFrom(t, |t|)) == file
    {
    }
  }

  /** The load loop of kvdb_open; null if the key buffer was overrun. `rest` is the
      part of the file after the read position. */
  method LoadFile(file: seq<byte>, capacity: nat) returns (m: HashMap?)
    requires capacity > 0
    ensures m == null <==> LoadInto(Empty(capacity), file).Overrun?
    ensures m != null ==> fresh(m) && fresh(m.buckets) && fresh(m.nodes) && m.Valid()
                          && LoadInto(Empty(capacity), file) == Loaded(m.table)
  {
    hide Hash, Size, WellFormed, Insert, FromLittleEndian, UpToNul;
    var db := new HashMap(capacity);
    var rest := file;
    ghost var goal := LoadInto(Empty(capacity), file);
    while true
      invariant db.Valid() && fresh(db) && fresh(db.buckets) && fresh(db.nodes)
      invariant |db.table| > 0 && LoadInto(db.table, rest) == goal
      decreases |rest|
    {
      if |rest| < 4 { break; }
      var keyLen, afterLen := FromLittleEndian(rest[..4]), rest[4..];
      if keyLen > MAX_KEY_SIZE { break; }
      if |afterLen| < keyLen { break; }
      if keyLen == MAX_KEY_SIZE { return null; }
      var key, afterKey := UpToNul(afterLen[..keyLen]), afterLen[keyLen..];
      if |afterKey| < 4 { break; }
      var valueLen, afterValueLen := FromLittleEndian(afterKey[..4]), afterKey[4..];
      if valueLen > MAX_VALUE_SIZE { break; }
      if |afterValueLen| < valueLen { break; }
      rest := afterValueLen[valueLen..];
      db.Put(key, afterValueLen[..valueLen]);
    }
    m := db;
  }
}

/** The two doubly linked lists of memory-pool/src/mempool.c as values: an array
    of block headers that link to each other by position (NIL for NULL). */
module BlockLists {

  const MAGIC := 0xDEADBEEF
  const NIL := -1

  datatype Block = Block(magic: nat, isFree: bool, size: nat, next: int, prev: int)

  function At(s: seq<int>, i: int): int { if 0 <= i < |s| then s[i] else NIL }

  /** s is the doubly linked list that starts at head. */
  ghost predicate ListOf(bs: seq<Block>, head: int, s: seq<int>) {
    && (forall i :: 0 <= i < |s| ==> 0 <= s[i] < |bs|)
    && (forall i, j :: 0 <= i < j < |s| ==> s[i] != s[j])
    && head == At(s, 0)
    && (forall i {:trigger bs[s[i]].next} :: 0 <= i < |s| ==> bs[s[i]].next == At(s, i + 1))
    && (forall i {:trigger bs[s[i]].prev} :: 0 <= i < |s| ==> bs[s[i]].prev == At(s, i - 1))
  }

  function SetNext(bs: seq<Block>, b: int, next: int): (r: seq<Block>)
    ensures |r| == |bs|
  {
    if 0 <= b < |bs| then bs[b := bs[b].(next := next)] else bs
  }

  function SetPrev(bs: seq<Block>, b: int, prev: int): (r: seq<Block>)
    ensures |r| == |bs|
  {
    if 0 <= b < |bs| then bs[b := bs[b].(prev := prev)] else bs
  }

  /** Put b in front of the list. */
  function Push(bs: seq<Block>, head: int, b: int): (r: seq<Block>)
    requires 0 <= b < |bs|
    ensures |r| == |bs|
    ensures forall c :: 0 <= c < |bs| ==>
              r[c] == bs[c].(next := if c == b then head else bs[c].next,
                             prev := if c == head then b else if c == b then NIL else bs[c].prev)
  {
    SetPrev(bs[b := bs[b].(next := head, prev := NIL)], head, b)
  }

  /** Take b out of its list: the links, and the new head. */
  function Unlink(bs: seq<Block>, b: int): (r: seq<Block>)
    requires 0 <= b < |bs|
    ensures |r| == |bs|
    ensures forall c :: 0 <= c < |bs| ==>
              r[c] == bs[c].(next := if c == bs[b].prev then bs[b].next else bs[c].next,
                             prev := if c == bs[b].next then bs[b].prev else bs[c].prev)
  {
    SetPrev(SetNext(bs, bs[b].prev, bs[b].next), bs[b].next, bs[b].prev)
  }

  function HeadWithout(bs: seq<Block>, head: int, b: int): int
    requires 0 <= b < |bs|
  {
    if bs[b].prev == NIL then bs[b].next else head
  }

  /** A list depends only on the links of its own blocks. */
  lemma ListFrame(bs: seq<Block>, cs: seq<Block>, head: int, s: seq<int>)
    requires ListOf(bs, head, s) && |cs| == |bs|
    requires forall i :: 0 <= i < |s| ==> cs[s[i]].next == bs[s[i]].next && cs[s[i]].prev == bs[s[i]].prev
    ensures ListOf(cs, head, s)
  {
  }

  lemma PushKeeps(bs: seq<Block>, head: int, s: seq<int>, b: int)
    requires ListOf(bs, head, s) && 0 <= b < |bs| && b !in s
    ensures ListOf(Push(bs, head, b), b, [b] + s)
  {
    hide Push;
    var cs, t := Push(bs, head, b), [b] + s;
    forall i | 0 <= i < |t| ensures cs[t[i]].next == At(t, i + 1) {
      if i > 0 { assert bs[s[i - 1]].next == At(s, i); }
    }
    forall i | 0 <= i < |t| ensures cs[t[i]].prev == At(t, i - 1) {
      if i > 1 { assert bs[s[i - 1]].prev == At(s, i - 2); }
    }
  }

  lemma WithoutNext(bs: seq<Block>, head: int, s: seq<int>, k: nat, i: nat)
    requires ListOf(bs, head, s) && k < |s| && i < |s| - 1
    ensures var t := s[..k] + s[k + 1..];
            Unlink(bs, s[k])[t[i]].next == At(t, i + 1)
  {
    hide Unlink;
    var j := if i < k then i else i + 1;
    assert bs[s[j]].next == At(s, j + 1) && bs[s[k]].next == At(s, k + 1) && bs[s[k]].prev == At(s, k - 1);
    assert k > 0 && j != k - 1 ==> s[j] != s[k - 1];
    hide ListOf;
  }

  lemma WithoutPrev(bs: seq<Block>, head: int, s: seq<int>, k: nat, i: nat)
    requires ListOf(bs, head, s) && k < |s| && i < |s| - 1
    ensures var t := s[..k] + s[k + 1..];
            Unlink(bs, s[k])[t[i]].prev == At(t, i - 1)
  {
    hide Unlink;
    var j := if i < k then i else i + 1;
    assert bs[s[j]].prev == At(s, j - 1) && bs[s[k]].next == At(s, k + 1) && bs[s[k]].prev == At(s, k - 1);
    assert k + 1 < |s| && j != k + 1 ==> s[j] != s[k + 1];
    hide ListOf;
  }

  lemma UnlinkKeeps(bs: seq<Block>, head: int, s: seq<int>, k: nat)
    requires ListOf(bs, head, s) && k < |s|
    ensures ListOf(Unlink(bs, s[k]), HeadWithout(bs, head, s[k]), s[..k] + s[k + 1..])
    ensures forall c :: 0 <= c < |bs| && c !in s ==> Unlink(bs, s[k])[c] == bs[c]
  {
    hide Unlink;
    var cs, t := Unlink(bs, s[k]), s[..k] + s[k + 1..];
    assert bs[s[k]].next == At(s, k + 1) && bs[s[k]].prev == At(s, k - 1);
    forall i | 0 <= i < |t| ensures cs[t[i]].next == At(t, i + 1) && cs[t[i]].prev == At(t, i - 1) {
      WithoutNext(bs, head, s, k, i);
      WithoutPrev(bs, head, s, k, i);
    }
  }

  // ---- the pool's two lists ----

  datatype Lists = Lists(blocks: seq<Block>, free: int, used: int)

  /** Every block is in one of the two lists, and is_free says in which. */
  ghost predicate Marked(bs: seq<Block>, f: seq<int>, u: seq<int>) {
    && |f| + |u| == |bs|
    && (forall b :: 0 <= b < |bs| ==> bs[b].magic == MAGIC)
    && (forall i :: 0 <= i < |f| ==> 0 <= f[i] < |bs| && bs[f[i]].isFree)
    && (forall i :: 0 <= i < |u| ==> 0 <= u[i] < |bs| && !bs[u[i]].isFree)
    && (forall b :: 0 <= b < |bs| ==> b in f || b in u)
  }

  /** f and u are the free and the used list, and together they hold every block
      exactly once. */
  ghost predicate Partition(p: Lists, f: seq<int>, u: seq<int>) {
    ListOf(p.blocks, p.free, f) && ListOf(p.blocks, p.used, u) && Marked(p.blocks, f, u)
  }

  /** mempool_alloc on the lists: the first free block becomes the first used. */
  function TakeFirst(p: Lists): Lists
    requires 0 <= p.free < |p.blocks|
  {
    var b := p.free;
    var rest := p.blocks[b].next;
    var popped := SetPrev(p.blocks, rest, NIL);
    var marked := popped[b := popped[b].(isFree := false)];
    Lists(Push(marked, p.used, b), rest, b)
  }

  /** mempool_free on the lists: b becomes the first free block. */
  function GiveBack(p: Lists, b: int): Lists
    requires 0 <= b < |p.blocks|
  {
    var cut := Unlink(p.blocks, b);
    var marked := cut[b := cut[b].(isFree := true)];
    Lists(Push(marked, p.free, b), b, HeadWithout(p.blocks, p.used, b))
  }

  /** Moving one element between two sequences keeps what they hold together. */
  lemma MoveFirst(f: seq<int>, u: seq<int>, b: int)
    requires f != []
    ensures b in f || b in u <==> b in f[1..] || b in [f[0]] + u
  {
    assert f == [f[0]] + f[1..];
  }

  lemma MoveAt(f: seq<int>, u: seq<int>, k: nat, b: int)
    requires k < |u|
    ensures b in f || b in u <==> b in [u[k]] + f || b in u[..k] + u[k + 1..]
  {
    assert u == u[..k] + [u[k]] + u[k + 1..];
  }

  lemma PopKeeps(bs: seq<Block>, head: int, f: seq<int>)
    requires ListOf(bs, head, f) && f != []
    ensures 0 <= head < |bs|
    ensures ListOf(SetPrev(bs, bs[head].next, NIL), bs[head].next, f[1..])
    ensures forall c :: 0 <= c < |bs| && c !in f ==> SetPrev(bs, bs[head].next, NIL)[c] == bs[c]
  {
    var cs, t := SetPrev(bs, bs[head].next, NIL), f[1..];
    assert bs[f[0]].next == At(f, 1);
    forall i | 0 <= i < |t| ensures cs[t[i]].next == At(t, i + 1) && cs[t[i]].prev == At(t, i - 1) {
      assert bs[f[i + 1]].next == At(f, i + 2) && bs[f[i + 1]].prev == At(f, i);
    }
  }

  lemma MarkKeeps(bs: seq<Block>, b: int, isFree: bool, head: int, s: seq<int>)
    requires ListOf(bs, head, s) && 0 <= b < |bs|
    ensures ListOf(bs[b := bs[b].(isFree := isFree)], head, s)
  {
    ListFrame(bs, bs[b := bs[b].(isFree := isFree)], head, s);
  }

  lemma PushElsewhere(bs: seq<Block>, head: int, b: int, other: int, s: seq<int>)
    requires ListOf(bs, other, s) && 0 <= b < |bs| && b !in s && head !in s
    ensures ListOf(Push(bs, head, b), other, s)
  {
    hide Push;
    ListFrame(bs, Push(bs, head, b), other, s);
  }

  lemma SeparateLists(p: Lists, f: seq<int>, u: seq<int>)
    requires Partition(p, f, u)
    ensures p.used !in f && p.free !in u
    ensures forall b :: b in f ==> 0 <= b < |p.blocks| && b !in u
    ensures f != [] ==> p.free == f[0] && f[0] !in f[1..]
  {
  }

  lemma TakeFirstLists(p: Lists, f: seq<int>, u: seq<int>)
    requires Partition(p, f, u) && f != []
    ensures 0 <= p.free < |p.blocks|
    ensures ListOf(TakeFirst(p).blocks, TakeFirst(p).free, f[1..])
    ensures ListOf(TakeFirst(p).blocks, TakeFirst(p).used, [f[0]] + u)
  {
    hide Push, SetPrev, ListOf, Marked;
    SeparateLists(p, f, u);
    var b, rest := f[0], f[1..];
    PopKeeps(p.blocks, p.free, f);
    var next := p.blocks[b].next;
    var popped := SetPrev(p.blocks, next, NIL);
    PopFrame(p.blocks, popped, p.used, f, u);
    MarkKeeps(popped, b, false, next, rest);
    MarkKeeps(popped, b, false, p.used, u);
    var marked := popped[b := popped[b].(isFree := false)];
    PushKeeps(marked, p.used, u, b);
    PushElsewhere(marked, p.used, b, next, rest);
  }

  lemma PopFrame(bs: seq<Block>, cs: seq<Block>, head: int, f: seq<int>, u: seq<int>)
    requires ListOf(bs, head, u) && |cs| == |bs|
    requires forall c :: 0 <= c < |bs| && c !in f ==> cs[c] == bs[c]
    requires forall b :: b in f ==> b !in u
    ensures ListOf(cs, head, u)
  {
    ListFrame(bs, cs, head, u);
  }

  lemma TakeFirstMarked(p: Lists, f: seq<int>, u: seq<int>)
    requires Marked(p.blocks, f, u) && f != [] && p.free == f[0]
    requires forall i :: 0 < i < |f| ==> f[i] != f[0]
    ensures Marked(TakeFirst(p).blocks, f[1..], [f[0]] + u)
    ensures |TakeFirst(p).blocks| == |p.blocks|
    ensures forall b :: 0 <= b < |p.blocks| ==> TakeFirst(p).blocks[b].size == p.blocks[b].size
  {
    hide Push;
    forall b | 0 <= b < |p.blocks| ensures b in f[1..] || b in [f[0]] + u {
      MoveFirst(f, u, b);
    }
    var q := TakeFirst(p);
    assert forall b :: 0 <= b < |p.blocks| ==>
        q.blocks[b].isFree == (b != f[0] && p.blocks[b].isFree) && q.blocks[b].magic == p.blocks[b].magic;
    hide TakeFirst;
  }

  lemma TakeFirstKeeps(p: Lists, f: seq<int>, u: seq<int>)
    requires Partition(p, f, u) && f != []
    ensures 0 <= p.free < |p.blocks| && Partition(TakeFirst(p), f[1..], [f[0]] + u)
    ensures |TakeFirst(p).blocks| == |p.blocks|
    ensures forall b :: 0 <= b < |p.blocks| ==> TakeFirst(p).blocks[b].size == p.blocks[b].size
  {
    TakeFirstLists(p, f, u);
    TakeFirstMarked(p, f, u);
    hide ListOf, Marked, TakeFirst;
  }

  lemma GiveBackLists(p: Lists, f: seq<int>, u: seq<int>, k: nat)
    requires Partition(p, f, u) && k < |u|
    ensures 0 <= u[k] < |p.blocks|
    ensures ListOf(GiveBack(p, u[k]).blocks, GiveBack(p, u[k]).free, [u[k]] + f)
    ensures ListOf(GiveBack(p, u[k]).blocks, GiveBack(p, u[k]).used, u[..k] + u[k + 1..])
  {
    hide Push, Unlink, ListOf, Marked;
    SeparateLists(p, f, u);
    UsedApart(p, f, u, k);
    var b, rest, head := u[k], u[..k] + u[k + 1..], HeadWithout(p.blocks, p.used, u[k]);
    var cut := Unlink(p.blocks, b);
    UnlinkKeeps(p.blocks, p.used, u, k);
    PopFrame(p.blocks, cut, p.free, u, f);
    MarkKeeps(cut, b, true, p.free, f);
    MarkKeeps(cut, b, true, head, rest);
    var marked := cut[b := cut[b].(isFree := true)];
    PushKeeps(marked, p.free, f, b);
    PushElsewhere(marked, p.free, b, head, rest);
  }

  lemma UsedApart(p: Lists, f: seq<int>, u: seq<int>, k: nat)
    requires Partition(p, f, u) && k < |u|
    ensures 0 <= u[k] < |p.blocks| && u[k] !in f && (forall b :: b in u ==> b !in f)
    ensures var rest := u[..k] + u[k + 1..]; u[k] !in rest && p.free !in rest
  {
  }

  lemma GiveBackMarked(p: Lists, f: seq<int>, u: seq<int>, k: nat)
    requires Marked(p.blocks, f, u) && k < |u|
    requires forall i :: 0 <= i < |u| && i != k ==> u[i] != u[k]
    ensures Marked(GiveBack(p, u[k]).blocks, [u[k]] + f, u[..k] + u[k + 1..])
    ensures |GiveBack(p, u[k]).blocks| == |p.blocks|
    ensures forall b :: 0 <= b < |p.blocks| ==> GiveBack(p, u[k]).blocks[b].size == p.blocks[b].size
  {
    hide Push, Unlink;
    forall b | 0 <= b < |p.blocks| ensures b in [u[k]] + f || b in u[..k] + u[k + 1..] {
      MoveAt(f, u, k, b);
    }
    var q := GiveBack(p, u[k]);
    assert forall b :: 0 <= b < |p.blocks| ==>
        q.blocks[b].isFree == (b == u[k] || p.blocks[b].isFree) && q.blocks[b].magic == p.blocks[b].magic;
    hide GiveBack;
  }

  lemma GiveBackKeeps(p: Lists, f: seq<int>, u: seq<int>, k: nat)
    requires Partition(p, f, u) && k < |u|
    ensures 0 <= u[k] < |p.blocks| && Partition(GiveBack(p, u[k]), [u[k]] + f, u[..k] + u[k + 1..])
    ensures |GiveBack(p, u[k]).blocks| == |p.blocks|
    ensures forall b :: 0 <= b < |p.blocks| ==> GiveBack(p, u[k]).blocks[b].size == p.blocks[b].size
  {
    GiveBackLists(p, f, u, k);
    GiveBackMarked(p, f, u, k);
    hide ListOf, Marked, GiveBack;
  }

  /** is_free tells the lists apart. */
  lemma MarkTells(bs: seq<Block>, f: seq<int>, u: seq<int>, b: int)
    requires Marked(bs, f, u) && 0 <= b < |bs|
    ensures bs[b].magic == MAGIC
    ensures bs[b].isFree <==> b in f
    ensures !bs[b].isFree <==> b in u
  {
  }

  /** The links that mempool_alloc follows. */
  lemma HeadsInRange(p: Lists, f: seq<int>, u: seq<int>)
    requires Partition(p, f, u) && f != []
    ensures p.free == f[0] && 0 <= p.free < |p.blocks| && NIL <= p.used < |p.blocks|
    ensures NIL <= p.blocks[p.free].next < |p.blocks|
  {
    hide Marked;
    assert p.blocks[f[0]].next == At(f, 1);
  }

  /** The links that mempool_free follows. */
  lemma LinksInRange(p: Lists, f: seq<int>, u: seq<int>, k: nat)
    requires Partition(p, f, u) && k < |u|
    ensures 0 <= u[k] < |p.blocks| && NIL <= p.free < |p.blocks|
    ensures NIL <= p.blocks[u[k]].next < |p.blocks| && NIL <= p.blocks[u[k]].prev < |p.blocks|
  {
    hide Marked;
    assert p.blocks[u[k]].next == At(u, k + 1) && p.blocks[u[k]].prev == At(u, k - 1);
  }

  lemma HeadTells(p: Lists, f: seq<int>, u: seq<int>)
    requires Partition(p, f, u)
    ensures p.free == NIL <==> f == []
    ensures f != [] ==> 0 <= f[0] < |p.blocks| && p.free == f[0] && p.blocks[f[0]].magic == MAGIC
  {
  }

  lemma FirstIsNotUsed(p: Lists, f: seq<int>, u: seq<int>, b: int)
    requires Partition(p, f, u) && f != [] && b in u
    ensures 0 <= f[0] < |p.blocks| && f[0] != b
  {
  }

  /** Every header along s has the magic number and this flag. */
  ghost predicate Uniform(bs: seq<Block>, s: seq<int>, isFree: bool) {
    forall i :: 0 <= i < |s| ==> 0 <= s[i] < |bs| && bs[s[i]].magic == MAGIC && bs[s[i]].isFree == isFree
  }

  lemma {:induction false} CardBelow(s: set<int>, n: nat)
    requires forall x :: x in s ==> 0 <= x < n
    ensures |s| <= n
  {
    if n > 0 {
      CardBelow(s - {n - 1}, n - 1);
    } else {
      forall x | x in s ensures false {
      }
      assert s == {};
    }
  }

  lemma {:induction false} CardOfList(s: seq<int>)
    requires forall i, j :: 0 <= i < j < |s| ==> s[i] != s[j]
    ensures |set x | x in s| == |s|
  {
    if s == [] {
    } else {
      CardOfList(s[1..]);
      assert (set x | x in s) == (set x | x in s[1..]) + {s[0]};
    }
  }

  /** Two lists told apart by is_free that are long enough leave no block out. */
  lemma Pigeonhole(bs: seq<Block>, f: seq<int>, u: seq<int>, b: int)
    requires Uniform(bs, f, true) && Uniform(bs, u, false)
    requires forall i, j :: 0 <= i < j < |f| ==> f[i] != f[j]
    requires forall i, j :: 0 <= i < j < |u| ==> u[i] != u[j]
    requires |f| + |u| == |bs| && 0 <= b < |bs|
    ensures b in f || b in u
  {
    var fs, us := (set x | x in f), (set x | x in u);
    CardOfList(f);
    CardOfList(u);
    assert fs !! us;
    assert |fs + us| == |bs|;
    if b !in fs + us {
      assert |fs + us + {b}| == |bs| + 1;
      CardBelow(fs + us + {b}, |bs|);
    }
  }

  lemma UniformIsMarked(bs: seq<Block>, free: int, used: int, f: seq<int>, u: seq<int>)
    requires ListOf(bs, free, f) && ListOf(bs, used, u)
    ensures |f| + |u| == |bs| && Uniform(bs, f, true) && Uniform(bs, u, false) <==> Marked(bs, f, u)
  {
    if |f| + |u| == |bs| && Uniform(bs, f, true) && Uniform(bs, u, false) {
      hide Marked;
      AllMarked(bs, f, u);
    } else if Marked(bs, f, u) {
      hide ListOf;
    }
  }

  lemma AllMarked(bs: seq<Block>, f: seq<int>, u: seq<int>)
    requires Uniform(bs, f, true) && Uniform(bs, u, false)
    requires forall i, j :: 0 <= i < j < |f| ==> f[i] != f[j]
    requires forall i, j :: 0 <= i < j < |u| ==> u[i] != u[j]
    requires |f| + |u| == |bs|
    ensures Marked(bs, f, u)
  {
    forall b | 0 <= b < |bs| ensures (b in f || b in u) && bs[b].magic == MAGIC {
      Pigeonhole(bs, f, u, b);
    }
  }
}

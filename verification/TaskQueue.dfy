/** The linked FIFO of thread_pool.c: head and tail pointers and a counter that
    the lock holder updates in place. */
module TaskQueue {
  import opened Options
  import opened ThreadPool
  import opened ThreadPoolTheorems

  class Node {
    const task: Task
    var next: Node?

    constructor (task: Task)
      ensures this.task == task && next == null
    {
      this.task := task;
      next := null;
    }
  }

  lemma EnqueueStep(s: State, p: nat)
    requires p < |s.producers| && s.producers[p].PAlloc?
    ensures Enabled(s, StepProducer(p, 0, true))
    ensures var t := Apply(s, StepProducer(p, 0, true));
            t.queue == s.queue + [s.producers[p].task] && t.taskCount == s.taskCount + 1
  {
  }

  lemma DequeueStep(s: State, w: nat)
    requires w < |s.workers| && s.workers[w].WTake?
    ensures Enabled(s, StepWorker(w, 0))
    ensures var t := Apply(s, StepWorker(w, 0));
            if s.queue == [] then t.queue == [] && t.taskCount == s.taskCount && t.workers[w] == WSignal(None)
            else t.queue == s.queue[1..] && t.taskCount == s.taskCount - 1 && t.workers[w] == WSignal(Some(s.queue[0]))
  {
  }

  class Queue {
    var head: Node?
    var tail: Node?
    var count: int
    ghost var nodes: seq<Node>   // the list, from head to tail

    ghost predicate Valid()
      reads this, nodes
    {
      && count == |nodes|
      && (forall i, j :: 0 <= i < j < |nodes| ==> nodes[i] != nodes[j])
      && (forall i :: 0 <= i < |nodes| ==> nodes[i].next == NodeAt(nodes, i + 1))
      && head == NodeAt(nodes, 0)
      && tail == NodeAt(nodes, |nodes| - 1)
    }

    static ghost function NodeAt(ns: seq<Node>, i: int): Node? {
      if 0 <= i < |ns| then ns[i] else null
    }

    static ghost function Tasks(ns: seq<Node>): seq<Task> {
      seq(|ns|, i requires 0 <= i < |ns| => ns[i].task)
    }

    ghost function Contents(): seq<Task>
      reads this
    {
      Tasks(nodes)
    }

    /** The queue is the one of this state of the pool. */
    ghost predicate Follows(s: State)
      reads this
    {
      Contents() == s.queue && count == s.taskCount
    }

    constructor ()
      ensures Valid() && Contents() == [] && nodes == []
    {
      head, tail, count, nodes := null, null, 0, [];
    }

    /** Append at the tail. */
    method Append(task: Task)
      requires Valid()
      modifies this, nodes
      ensures Valid() && Contents() == old(Contents()) + [task]
      ensures count == old(count) + 1
      ensures fresh(nodes[|nodes| - 1]) && nodes[..|nodes| - 1] == old(nodes)
    {
      var node := new Node(task);
      ghost var all := nodes + [node];
      assert Tasks(all) == Tasks(nodes) + [task];
      hide Tasks;
      LinkLast(node, all);
      count := count + 1;
      nodes := all;
    }

    /** The pointers of one more node. */
    method LinkLast(node: Node, ghost all: seq<Node>)
      requires Valid() && node !in nodes && node.next == null && all == nodes + [node]
      modifies this`head, this`tail, nodes
      ensures tail == NodeAt(all, |all| - 1) && head == NodeAt(all, 0)
      ensures forall i :: 0 <= i < |all| ==> all[i].next == NodeAt(all, i + 1)
      ensures forall i, j :: 0 <= i < j < |all| ==> all[i] != all[j]
    {
      if tail != null {
        tail.next := node;
      } else {
        head := node;
      }
      tail := node;
    }

    /** The step of a producer whose malloc succeeds. */
    method Enqueue(task: Task, ghost s: State, ghost p: nat)
      requires Valid() && Follows(s) && p < |s.producers| && s.producers[p] == PAlloc(task)
      modifies this, nodes
      ensures Valid() && Follows(Apply(s, StepProducer(p, 0, true)))
      ensures Contents() == old(Contents()) + [task]
    {
      EnqueueStep(s, p);
      hide Enabled, Apply, Valid;
      Append(task);
    }

    /** Take from the head; the tail pointer is cleared with the last node. */
    method RemoveFirst() returns (task: Option<Task>)
      requires Valid()
      modifies this
      ensures Valid()
      ensures old(Contents()) == [] ==> task.None? && Contents() == [] && count == 0
      ensures old(Contents()) != [] ==>
                task == Some(old(Contents())[0]) && Contents() == old(Contents())[1..] && count == old(count) - 1
      ensures tail == null <==> Contents() == []
    {
      if head == null {
        return None;
      }
      task := Some(head.task);
      head := head.next;
      if head == null {
        tail := null;
      }
      count := count - 1;
      nodes := nodes[1..];
    }

    /** The step of a worker past its tests. */
    method Dequeue(ghost s: State, ghost w: nat) returns (task: Option<Task>)
      requires Valid() && Follows(s) && w < |s.workers| && s.workers[w].WTake?
      modifies this
      ensures Valid() && Follows(Apply(s, StepWorker(w, 0))) && Apply(s, StepWorker(w, 0)).workers[w] == WSignal(task)
      ensures tail == null <==> Contents() == []
    {
      DequeueStep(s, w);
      assert count == |Contents()|;
      hide Enabled, Apply, Valid;
      task := RemoveFirst();
    }

    /** The clean-up loop of thread_pool_destroy drops what is left in the queue: nothing,
        once the workers have been joined. */
    method Discard(ghost s: State) returns (dropped: nat)
      requires Valid() && Follows(s)
      ensures dropped == |s.queue|
      ensures Reachable(s) && s.destroyer.DDone? ==> dropped == 0
    {
      var node := head;
      dropped := 0;
      while node != null
        invariant 0 <= dropped <= |nodes|
        invariant node == NodeAt(nodes, dropped)
        decreases |nodes| - dropped
      {
        node := node.next;
        dropped := dropped + 1;
      }
      assert dropped == |Contents()|;
      if Reachable(s) && s.destroyer.DDone? {
        DestroyDropsNothing(s);
      }
    }
  }
}

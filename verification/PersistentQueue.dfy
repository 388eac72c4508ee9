/** The persistent queue as an object, for calls that run to completion. */
module PersistentQueue {
  import opened History
  import opened LinkedHeap
  import opened QueueSteps
  import opened QueueProofs

  /** What a pop ends with: a value, out_of_range, or the error that rolled its transaction back. */
  datatype Result<T> = Success(value: T) | OutOfRange | RolledBack

  class Queue {
    var heap: Heap<int>
    var head: Addr
    var tail: Addr
    ghost var nodes: seq<Addr>

    ghost predicate Valid()
      reads this
    {
      Chain(Pool(heap, head, tail), nodes)
    }

    /** The queued values, front first. */
    ghost function Contents(): seq<int>
      reads this
    {
      Payloads(heap, nodes)
    }

    constructor ()
      ensures Valid() && Contents() == []
    {
      heap, head, tail, nodes := map[], NULL, NULL, [];
    }

    /** `a` is the node that the allocation returns, null if it fails. A transaction that fails, there or after
        some of its stores, rolls them back and throws. */
    method Push(v: int, a: Addr, outcome: TxOutcome) returns (ok: bool)
      requires Valid() && a !in heap
      modifies this
      ensures Valid() && (ok <==> a != NULL && outcome.Commits?)
      ensures Contents() == old(Contents()) + if ok then [v] else []
      ensures heap.Keys == old(heap.Keys) + if ok then {a} else {}
      ensures !ok ==> heap == old(heap) && head == old(head) && tail == old(tail)
    {
      hide Chain, Payloads;
      if a == NULL || outcome == FailsAfter(0) {
        return false;
      }
      var before := Pool(heap, head, tail);
      AppendChain(before, nodes, a, v);
      heap := heap[a := Node(NULL, v)];
      if outcome != FailsAfter(1) {
        if head == NULL {
          tail := a;
          if outcome != FailsAfter(2) {
            head := a;
          }
        } else {
          heap := heap[tail := heap[tail].(next := a)];
          if outcome != FailsAfter(2) {
            tail := a;
          }
        }
      }
      if outcome.FailsAfter? {
        heap, head, tail := before.heap, before.head, before.tail;
        return false;
      }
      nodes := nodes + [a];
      ok := true;
    }

    method Pop(outcome: TxOutcome) returns (r: Result<int>)
      requires Valid()
      modifies this
      ensures Valid()
      ensures r.OutOfRange? <==> old(Contents()) == []
      ensures r.RolledBack? <==> old(Contents()) != [] && outcome.FailsAfter?
      ensures !r.Success? ==> heap == old(heap) && head == old(head) && tail == old(tail) && nodes == old(nodes)
      ensures r.Success? ==> old(Contents()) == [r.value] + Contents() && heap.Keys == old(heap.Keys) - {old(head)}
    {
      hide Chain, Payloads;
      var before := Pool(heap, head, tail);
      ChainEmpty(before, nodes);
      EmptyPayloads(heap);
      if head == NULL {
        return OutOfRange;
      }
      RemoveChain(before, nodes);
      var ptr := head;
      var value := heap[head].payload;
      if outcome == FailsAfter(0) {
        return RolledBack;
      }
      head := heap[head].next;
      if head == NULL && outcome != FailsAfter(1) {
        tail := NULL;
      }
      if outcome.FailsAfter? {
        head, tail := before.head, before.tail;
        return RolledBack;
      }
      // the delete takes effect when the transaction commits
      heap := heap - {ptr};
      nodes := nodes[1..];
      r := Success(value);
    }

    /** Lists the values front to back. */
    method Show() returns (shown: seq<int>)
      requires Valid()
      ensures shown == Contents()
    {
      ghost var p := Pool(heap, head, tail);
      ghost var k := 0;
      hide Chain;
      ChainPayloads(p, nodes);
      var node := head;
      shown := [];
      while node != NULL
        invariant k <= |nodes| && node == At(nodes, k)
        invariant shown == Contents()[..k]
        decreases |nodes| - k
      {
        ChainLink(p, nodes, k);
        ChainPayloads(p, nodes);
        shown := shown + [heap[node].payload];
        node := heap[node].next;
        k := k + 1;
      }
      if k < |nodes| {
        ChainLink(p, nodes, k);
      }
    }
  }

  lemma EmptyPayloads(h: Heap<int>)
    ensures Payloads(h, []) == []
  {
  }
}

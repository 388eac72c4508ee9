/** The burst buffer's operations as they run when nothing interleaves: each one changes the object in place
    and performs a run of the step system that carries it out. */
module BurstBuffer {
  import opened History
  import opened LinkedHeap
  import opened BurstBufferSteps
  import opened BurstBufferProofs
  import opened BurstBufferTheorems
  import opened BurstBufferRuns

  class Buffer {
    // persistent memory
    var heap: Heap<Request>
    var active: Addr
    var flushing: Addr
    // volatile
    var tail: Addr
    // the file that the flush callback writes
    var file: File
    // history and list nodes
    ghost var log: Log
    ghost var ch: seq<Addr>
    ghost var fl: seq<Addr>

    ghost function PoolNow(): Pool
      reads this
    {
      Pool(heap, active, flushing)
    }

    /** The step system's state between operations. */
    ghost function Ready(): State
      reads this
    {
      State(PoolNow(), Up(tail, Unlocked, Idle, NoFlusher), file, log)
    }

    ghost predicate Valid()
      reads this
    {
      Layout(PoolNow(), ch, fl) && ch != [] && tail == ch[|ch| - 1]
    }

    ghost function Active(): seq<Request>
      reads this
    {
      Payloads(heap, Rest(ch))
    }

    ghost function Flushing(): seq<Request>
      reads this
    {
      Payloads(heap, fl)
    }

    /** Opens a pool that holds what an earlier process left there. */
    constructor (p: Pool, f: File, ghost l: Log, ghost ch0: seq<Addr>, ghost fl0: seq<Addr>)
      requires Layout(p, ch0, fl0)
      ensures PoolNow() == p && file == f && log == l && ch == ch0 && fl == fl0
    {
      heap, active, flushing, tail, file := p.heap, p.active, p.flushing, NULL, f;
      log, ch, fl := l, ch0, fl0;
    }

    /** `a` is the node that pmemobj_xalloc returns if the sentinel is missing, null if it fails. */
    method RuntimeInitialize(a: Addr) returns (ok: bool)
      requires Layout(PoolNow(), ch, fl) && a !in heap
      modifies this
      ensures ok <==> old(active) != NULL || a != NULL
      ensures ok ==> ch != [] && Run(State(old(PoolNow()), Down, file, log), BootEvents(old(active) == NULL, a, |ch| - 1))
                                 == Ok(Ready())
      ensures !ok ==> var s := State(PoolNow(), Down, file, log); Run(s, [SentinelFails]) == Ok(s)
      ensures fl == old(fl) && flushing == old(flushing) && file == old(file) && log == old(log)
      ensures old(active) != NULL || !ok ==> PoolNow() == old(PoolNow()) && ch == old(ch)
      ensures ok ==> Valid() && Active() == old(Active()) && Flushing() == old(Flushing())
      ensures ok && old(active) == NULL ==> PoolNow() == Pool(map[a := Node(NULL, Request(0, ""))], a, NULL)
    {
      hide Run, Payloads, StepDown, StepRecovering, StepWriter, StepFlusher;
      if active == NULL {
        if a == NULL {
          BootFails(State(PoolNow(), Down, file, log));
          return false;
        }
        SentinelLayout(PoolNow(), ch, fl, a);
        heap, active := heap[a := Node(NULL, Request(0, ""))], a;
        ch := [a];
      }
      hide Layout;
      NothingLeft(heap, file);
      NothingLeft(old(heap), file);
      ActiveLink(PoolNow(), ch, fl, 0);
      tail := active;
      ghost var k := 0;
      while heap[tail].next != NULL
        invariant k < |ch| && tail == ch[k] && tail in heap && heap[tail].next == At(ch, k + 1)
        modifies this`tail
        decreases |ch| - k
      {
        ActiveLink(PoolNow(), ch, fl, k + 1);
        tail := heap[tail].next;
        k := k + 1;
      }
      if k + 1 < |ch| {
        ActiveLink(PoolNow(), ch, fl, k + 1);
      }
      BootRun(State(old(PoolNow()), Down, file, log), old(ch), fl, a, ch, PoolNow());
      ok := true;
    }

    /** `a` is the node that pmemobj_xalloc returns, null if it fails with `errno`. */
    method TryPwrite(req: Request, a: Addr, errno: int) returns (r: int)
      requires Valid() && a !in heap
      modifies this
      ensures Valid() && Flushing() == old(Flushing()) && file == old(file)
      ensures Run(old(Ready()), PwriteEvents(req, a)) == Ok(Ready())
      ensures r == if a == NULL then -errno else 0
      ensures a == NULL ==> Ready() == old(Ready())
      ensures Active() == old(Active()) + if a == NULL then [] else [req]
    {
      hide Layout, Payloads, Run;
      ActiveLink(PoolNow(), ch, fl, |ch| - 1);
      PwriteRun(Ready(), req, a);
      if a == NULL {
        return -errno;
      }
      AppendLayout(PoolNow(), ch, fl, a, req);
      AppendPayloads(PoolNow(), ch, fl, a, req);
      heap := heap[tail := heap[tail].(next := a)][a := Node(NULL, req)];
      tail := heap[tail].next;
      ch := ch + [a];
      log := log.(commits := log.commits + [Commit(req, true)], returned := log.returned + [req]);
      r := 0;
    }

    /** Visits the active requests in order until the callback asks to stop. */
    method ForEach(stop: nat -> bool) returns (visited: seq<Request>)
      requires Valid()
      ensures visited <= Active()
      ensures forall i :: 0 <= i < |visited| - 1 ==> !stop(i)
      ensures visited == Active() || (visited != [] && stop(|visited| - 1))
    {
      hide Layout, Payloads;
      ActiveLink(PoolNow(), ch, fl, 0);
      ActivePayload(PoolNow(), ch, fl, 0);
      ghost var rs := Active();
      var cur, k := active, 0;
      visited := [];
      while heap[cur].next != NULL
        invariant k < |ch| && cur == ch[k] && cur in heap && heap[cur].next == At(ch, k + 1)
        invariant visited == rs[..k]
        invariant forall i :: 0 <= i < k ==> !stop(i)
        decreases |ch| - k
      {
        ActiveLink(PoolNow(), ch, fl, k + 1);
        ActivePayload(PoolNow(), ch, fl, k + 1);
        cur := heap[cur].next;
        visited := visited + [heap[cur].payload];
        if stop(k) {
          return;
        }
        k := k + 1;
      }
      if k + 1 < |ch| {
        ActiveLink(PoolNow(), ch, fl, k + 1);
      }
    }

    /** `outcome` is how the transaction ends; if it fails it is rolled back and the call throws. */
    method TryEnqueueFlush(outcome: TxOutcome) returns (moved: bool)
      requires Valid()
      modifies this
      ensures Valid() && file == old(file) && log == old(log)
      ensures Run(old(Ready()), HandoverEvents(old(flushing) != NULL, outcome)) == Ok(Ready())
      ensures moved <==> old(Flushing()) == [] && outcome.Commits?
      ensures !moved ==> Ready() == old(Ready())
      ensures moved ==> Flushing() == old(Active()) && Active() == []
    {
      hide Layout, Payloads, Run, HandoverEvents, Step, Durable;
      ActiveLink(PoolNow(), ch, fl, 0);
      FlushingPayloads(PoolNow(), ch, fl);
      HandoverRun(Ready(), outcome);
      if flushing != NULL {
        return false;
      }
      var next := heap[active].next;
      if outcome == FailsAfter(0) {
        return false;
      }
      flushing := next;
      if outcome == FailsAfter(1) {
        flushing := NULL;
        return false;
      }
      DetachLayout(old(PoolNow()), ch);
      DetachPayloads(old(PoolNow()), ch);
      heap := heap[active := heap[active].(next := NULL)];
      if outcome.FailsAfter? {
        heap := heap[active := heap[active].(next := next)];
        flushing := NULL;
        assert heap == old(heap);
        return false;
      }
      tail := active;
      fl, ch := ch[1..], [ch[0]];
      NothingLeft(heap, file);
      moved := true;
    }

    /** The callback loop: `verdicts(k)` is what the k-th callback does after writing its request. */
    method Visit(verdicts: nat -> Verdict) returns (delivered: nat, stopped: bool)
      requires Valid()
      modifies this`file
      ensures |old(Flushing())| == |fl|
      ensures delivered <= |fl| && file == Apply(old(file), old(Flushing())[..delivered])
      ensures forall k :: 0 <= k < delivered - 1 ==> verdicts(k) == Continue
      ensures stopped ==> delivered > 0 && verdicts(delivered - 1) != Continue
      ensures !stopped ==> delivered == |fl| && (delivered > 0 ==> verdicts(delivered - 1) == Continue)
    {
      hide Layout, Payloads, Apply;
      FlushingPayloads(PoolNow(), ch, fl);
      NothingLeft(heap, file);
      ghost var rs := Flushing();
      var cur := flushing;
      delivered := 0;
      while cur != NULL
        invariant delivered <= |fl| && cur == At(fl, delivered)
        invariant file == Apply(old(file), rs[..delivered])
        invariant forall k :: 0 <= k < delivered ==> verdicts(k) == Continue
        decreases |fl| - delivered
      {
        FlushingLink(PoolNow(), ch, fl, delivered);
        ApplySnoc(old(file), rs, delivered);
        file := file + Image(heap[cur].payload);
        delivered := delivered + 1;
        if verdicts(delivered - 1) != Continue {
          return delivered, true;
        }
        cur := heap[cur].next;
      }
      if delivered < |fl| {
        FlushingLink(PoolNow(), ch, fl, delivered);
      }
      stopped := false;
    }

    /** The free-all loop: reads each successor before its node is deleted. */
    method CollectFrees() returns (frees: seq<Addr>)
      requires Valid()
      ensures frees == fl
    {
      hide Layout;
      FlushingAllocated(PoolNow(), ch, fl);
      frees := [];
      var cur := flushing;
      while cur != NULL
        invariant |frees| <= |fl| && frees == fl[..|frees|] && cur == At(fl, |frees|)
        decreases |fl| - |frees|
      {
        FlushingLink(PoolNow(), ch, fl, |frees|);
        var next := heap[cur].next;
        frees := frees + [cur];
        cur := next;
      }
      if |frees| < |fl| {
        FlushingLink(PoolNow(), ch, fl, |frees|);
      }
    }

    /** Delivers the flushing requests in order and frees them all, unless a callback stops the pass or the free-all
        transaction fails, which rolls it back and throws. */
    method FlushAll(verdicts: nat -> Verdict, outcome: TxOutcome) returns (delivered: nat, stopped: bool, freed: bool)
      requires Valid()
      modifies this
      ensures Valid() && Active() == old(Active()) && tail == old(tail)
      ensures delivered <= |old(Flushing())| && file == Apply(old(file), old(Flushing())[..delivered])
      ensures forall k :: 0 <= k < delivered - 1 ==> verdicts(k) == Continue
      ensures stopped ==> delivered > 0 && verdicts(delivered - 1) != Continue
      ensures !stopped ==> delivered == |old(Flushing())| && (delivered > 0 ==> verdicts(delivered - 1) == Continue)
      ensures freed <==> !stopped && outcome.Commits?
      ensures freed ==> Flushing() == [] && log == old(log).(freed := old(log).freed + old(Flushing()))
      ensures !freed ==> PoolNow() == old(PoolNow()) && log == old(log)
      ensures Run(old(Ready()), if stopped
                                then StopEvents(delivered - 1, old(Flushing())[delivered - 1], verdicts(delivered - 1))
                                else if freed then FlushEvents(delivered)
                                else FailedFreeEvents(delivered, outcome.done)) == Ok(Ready())
    {
      hide Layout, Payloads, Run, Apply;
      ghost var rs := Flushing();
      delivered, stopped := Visit(verdicts);
      if stopped {
        StopRun(old(Ready()), ch, fl, delivered - 1, verdicts(delivered - 1));
        return delivered, true, false;
      }
      assert rs[..delivered] == rs;
      var frees := CollectFrees();
      if outcome.FailsAfter? {
        // the deletes were deferred to the commit and the store to `flushing` is undone
        FailedFreeRun(old(Ready()), ch, fl, outcome.done);
        return delivered, false, false;
      }
      FlushRun(old(Ready()), ch, fl);
      FreeCommitLayout(PoolNow(), ch, fl);
      FreeCommitPayloads(PoolNow(), ch, fl);
      heap := heap - (set a | a in frees);
      flushing := NULL;
      log := log.(freed := log.freed + rs);
      fl := [];
      NothingLeft(heap, file);
      freed := true;
    }
  }
}

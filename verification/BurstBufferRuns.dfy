/** The runs of the step system that the burst buffer's operations perform when nothing interleaves. */
module BurstBufferRuns {
  import opened History
  import opened LinkedHeap
  import opened BurstBufferSteps
  import opened BurstBufferProofs
  import opened BurstBufferTheorems

  /** How a flush callback ends: return false, return true, or throw. */
  datatype Verdict = Continue | Abort | Throw

  // ---------- Helpers ----------

  lemma RunSnoc(s: State, es: seq<Event>, e: Event)
    ensures Run(s, []) == Ok(s)
    ensures Run(s, es + [e]) == match Run(s, es) case Ok(t) => Step(t, e) case o => o
  {
    hide Step;
    assert (es + [e])[..|es|] == es;
  }

  lemma ApplySnoc(f: File, rs: seq<Request>, k: nat)
    requires k < |rs|
    ensures Apply(f, rs[..k + 1]) == Apply(f, rs[..k]) + Image(rs[k])
  {
    assert rs[..k + 1] == rs[..k] + [rs[k]];
    ApplyConcat(f, rs[..k], [rs[k]]);
    assert Apply(Apply(f, rs[..k]), [rs[k]]) == Apply(f, rs[..k]) + Image(rs[k]);
  }

  lemma ActivePayload(p: Pool, ch: seq<Addr>, fl: seq<Addr>, i: nat)
    requires Layout(p, ch, fl) && i < |ch|
    ensures |Payloads(p.heap, Rest(ch))| == |ch| - 1
    ensures i > 0 ==> ch[i] in p.heap && Payloads(p.heap, Rest(ch))[i - 1] == p.heap[ch[i]].payload
  {
    hide IsList, Distinct, Disjoint;
    assert Allocated(p.heap, ch[1..]);
    if i > 0 {
      assert ch[1..][i - 1] == ch[i];
    }
  }

  lemma FlushingPayloads(p: Pool, ch: seq<Addr>, fl: seq<Addr>)
    requires Layout(p, ch, fl)
    ensures |Payloads(p.heap, fl)| == |fl| && p.flushing == At(fl, 0)
    ensures forall i :: 0 <= i < |fl| ==> fl[i] in p.heap && Payloads(p.heap, fl)[i] == p.heap[fl[i]].payload
    ensures p.flushing == NULL <==> fl == []
  {
    hide Distinct, Disjoint;
    if fl != [] {
      FlushingLink(p, ch, fl, 0);
    }
  }

  lemma SentinelLayout(p: Pool, ch: seq<Addr>, fl: seq<Addr>, a: Addr)
    requires Layout(p, ch, fl) && p.active == NULL && a != NULL && a !in p.heap
    ensures ch == [] && fl == []
    ensures Layout(p.(heap := p.heap[a := Node(NULL, Request(0, ""))], active := a), [a], fl)
  {
    if ch != [] {
      ActiveLink(p, ch, fl, 0);
    }
    assert Link(p.heap[a := Node(NULL, Request(0, ""))], [a], 0);
  }

  // ---------- The runs behind the operations ----------

  /** runtimeInitialize: `create` if the sentinel has to be created, at `a`; `n` nodes follow the sentinel. */
  function BootEvents(create: bool, a: Addr, n: nat): seq<Event> {
    (if create then [CreateSentinel(a)] else []) + Recovery(n)
  }

  lemma BootRun(s: State, ch: seq<Addr>, fl: seq<Addr>, a: Addr, ch': seq<Addr>, p': Pool)
    requires s.proc.Down? && Layout(s.pool, ch, fl) && Layout(p', ch', fl) && ch' != [] && a !in s.pool.heap
    requires if s.pool.active != NULL then p' == s.pool && ch' == ch
             else a != NULL && p' == s.pool.(heap := s.pool.heap[a := Node(NULL, Request(0, ""))], active := a)
    ensures Run(s, BootEvents(s.pool.active == NULL, a, |ch'| - 1))
         == Ok(s.(pool := p', proc := Up(ch'[|ch'| - 1], Unlocked, Idle, NoFlusher)))
  {
    hide Layout, StepWriter, StepFlusher, StepRecovering, Durable, Run;
    var rest := Recovery(|ch'| - 1);
    RecoveryRun(s.(pool := p'), ch', fl);
    if s.pool.active == NULL {
      Run1(s, CreateSentinel(a));
      RunSplit(s, [CreateSentinel(a)], rest);
    } else {
      assert [] + rest == rest;
    }
  }

  lemma BootFails(s: State)
    requires s.proc.Down? && s.pool.active == NULL
    ensures Run(s, [SentinelFails]) == Ok(s)
  {
    hide StepWriter, StepFlusher, StepRecovering, Durable, Run;
    Run1(s, SentinelFails);
  }

  function PwriteEvents(req: Request, a: Addr): seq<Event> {
    if a == NULL then [AllocationFails] else [Allocate(req, a), AdvanceTail, ReturnZero]
  }

  lemma RunThree(s: State, a: Event, b: Event, c: Event)
    ensures Run(s, [a, b, c]) == match Step(s, a)
                                 case Ok(t) => (match Step(t, b) case Ok(u) => Step(u, c) case o => o)
                                 case o => o
  {
    hide Step;
    assert [a, b, c][..2] == [a, b] && [a, b][..1] == [a] && [a][..0] == [];
    assert Run(s, [a]) == Step(s, a);
    assert Run(s, [a, b]) == match Step(s, a) case Ok(t) => Step(t, b) case o => o;
  }

  lemma PwriteRun(s: State, req: Request, a: Addr)
    requires Quiet(s) && s.proc.tail in s.pool.heap && a !in s.pool.heap
    ensures Run(s, PwriteEvents(req, a)) == Ok(
      if a == NULL then s
      else State(Append(s.pool, s.proc.tail, a, req), s.proc.(tail := a), s.file,
                 s.log.(commits := s.log.commits + [Commit(req, true)], returned := s.log.returned + [req])))
  {
    hide StepFlusher, Durable, Run, Rollback, Put;
    if a == NULL {
      RunSnoc(s, [], AllocationFails);
      assert [AllocationFails] == [] + [AllocationFails];
    } else {
      RunThree(s, Allocate(req, a), AdvanceTail, ReturnZero);
      var cs := s.log.commits;
      assert MarkLast(Record(cs, req)) == cs + [Commit(req, true)];
    }
  }

  /** tryEnqueueFlush: `busy` if a list is being flushed already. */
  function HandoverEvents(busy: bool, outcome: TxOutcome): seq<Event> {
    [WriterLocks] + ([WriterChecks]
                     + if busy then [WriterUnlocks]
                       else match outcome
                         case Commits => TransferEvents()
                         case FailsAfter(n) => FailedTransferEvents(n))
  }

  lemma HandoverRun(s: State, outcome: TxOutcome)
    requires Quiet(s) && s.pool.active in s.pool.heap
    ensures var p := s.pool;
            Run(s, HandoverEvents(p.flushing != NULL, outcome)) == Ok(
              if p.flushing != NULL || outcome.FailsAfter? then s
              else s.(pool := Pool(p.heap[p.active := p.heap[p.active].(next := NULL)], p.active, p.heap[p.active].next),
                      proc := s.proc.(tail := p.active)))
  {
    hide StepFlusher, Durable, Run, TransferEvents, FailedTransferEvents;
    var s1 := s.(proc := s.proc.(lock := HeldByWriter, writer := HandoverLocked));
    var s2 := Step(s1, WriterChecks).state;
    Run1(s, WriterLocks);
    Run1(s1, WriterChecks);
    var rest := if s.pool.flushing != NULL then [WriterUnlocks]
                else if outcome.Commits? then TransferEvents() else FailedTransferEvents(outcome.done);
    RunSplit(s1, [WriterChecks], rest);
    RunSplit(s, [WriterLocks], [WriterChecks] + rest);
    if s.pool.flushing != NULL {
      Run1(s2, WriterUnlocks);
    } else if outcome.Commits? {
      TransferRun(s2);
    } else {
      FailedTransferRun(s2, outcome.done);
    }
  }

  /** The handover transaction fails after `n` of its two stores. */
  function FailedTransferEvents(n: nat): seq<Event> {
    (if n == 0 then [] else if n == 1 then [HandoverStore] else [HandoverStore] + [HandoverStore])
    + ([HandoverAborts] + [WriterUnlocks])
  }

  lemma FailedTransferRun(s: State, n: nat)
    requires s.proc.Up? && s.proc == Up(s.proc.tail, HeldByWriter, HandoverTx(Tx([], []), 0), NoFlusher)
    requires s.pool.active in s.pool.heap && s.pool.flushing == NULL
    ensures Run(s, FailedTransferEvents(n)) == Ok(s.(proc := Up(s.proc.tail, Unlocked, Idle, NoFlusher)))
  {
    hide StepFlusher, Durable, Run, Rollback;
    var end := [HandoverAborts] + [WriterUnlocks];
    var s1 := Step(s, HandoverStore).state;
    var s2 := Step(s1, HandoverStore).state;
    Run1(s, HandoverStore);
    Run1(s1, HandoverStore);
    RunSplit(s, [HandoverStore], [HandoverStore]);
    if n == 0 {
      NothingUndone(s.pool);
      AbortRun(s, s.pool);
      assert [] + end == end;
    } else if n == 1 {
      OneStoreUndone(s.pool);
      AbortRun(s1, s.pool);
      RunSplit(s, [HandoverStore], end);
    } else {
      TwoStoresUndone(s.pool);
      AbortRun(s2, s.pool);
      RunSplit(s, [HandoverStore] + [HandoverStore], end);
    }
  }

  lemma AbortRun(s: State, p: Pool)
    requires s.proc.Up? && s.proc.writer.HandoverTx? && p == Rollback(s.pool, s.proc.writer.tx.undo)
    ensures Run(s, [HandoverAborts] + [WriterUnlocks])
         == Ok(s.(pool := p, proc := s.proc.(lock := Unlocked, writer := Idle)))
  {
    hide StepFlusher, Durable, Run, Rollback, Put;
    Run1(s, HandoverAborts);
    Run1(Step(s, HandoverAborts).state, WriterUnlocks);
    RunSplit(s, [HandoverAborts], [WriterUnlocks]);
  }

  lemma NothingUndone(p: Pool)
    ensures Rollback(p, []) == p
  {
  }

  lemma OneStoreUndone(p: Pool)
    requires p.active in p.heap
    ensures var u := Undo(FlushingCell, p.flushing);
            [] + [u] == [u] && Rollback(Put(p, FlushingCell, p.heap[p.active].next), [] + [u]) == p
  {
    var u := Undo(FlushingCell, p.flushing);
    assert [] + [u] == [u];
    RollbackOne(Put(p, FlushingCell, p.heap[p.active].next), u);
  }

  lemma TwoStoresUndone(p: Pool)
    requires p.active in p.heap
    ensures var next := p.heap[p.active].next;
            var u, v := Undo(FlushingCell, p.flushing), Undo(NextCell(p.active), next);
            Rollback(Put(Put(p, FlushingCell, next), NextCell(p.active), NULL), [] + [u] + [v]) == p
  {
    var next := p.heap[p.active].next;
    var u, v := Undo(FlushingCell, p.flushing), Undo(NextCell(p.active), next);
    assert [] + [u] + [v] == [u, v];
    RollbackTwo(Put(Put(p, FlushingCell, next), NextCell(p.active), NULL), u, v);
  }

  function TransferEvents(): seq<Event> {
    [HandoverStore] + ([HandoverStore] + ([HandoverCommits] + ([ResetTail] + [WriterUnlocks])))
  }

  lemma TransferRun(s: State)
    requires s.proc.Up? && s.proc == Up(s.proc.tail, HeldByWriter, HandoverTx(Tx([], []), 0), NoFlusher)
    requires s.pool.active in s.pool.heap
    ensures var p := s.pool;
            Run(s, TransferEvents()) == Ok(
              s.(pool := Pool(p.heap[p.active := p.heap[p.active].(next := NULL)], p.active, p.heap[p.active].next),
                 proc := Up(p.active, Unlocked, Idle, NoFlusher)))
  {
    hide StepFlusher, Durable, Run, Rollback;
    var s1 := Step(s, HandoverStore).state;
    var s2 := Step(s1, HandoverStore).state;
    var s3 := Step(s2, HandoverCommits).state;
    var s4 := Step(s3, ResetTail).state;
    Run1(s, HandoverStore);
    Run1(s1, HandoverStore);
    Run1(s2, HandoverCommits);
    Run1(s3, ResetTail);
    Run1(s4, WriterUnlocks);
    RunSplit(s3, [ResetTail], [WriterUnlocks]);
    RunSplit(s2, [HandoverCommits], [ResetTail] + [WriterUnlocks]);
    RunSplit(s1, [HandoverStore], [HandoverCommits] + ([ResetTail] + [WriterUnlocks]));
    RunSplit(s, [HandoverStore], [HandoverStore] + ([HandoverCommits] + ([ResetTail] + [WriterUnlocks])));
  }

  lemma Run1(s: State, e: Event)
    ensures Run(s, [e]) == Step(s, e)
  {
    hide Step;
    assert [e][..0] == [];
  }

  function VisitEvents(n: nat): seq<Event> {
    [FlusherLocks] + seq(n, _ => CallbackContinues)
  }

  function FreeEvents(n: nat): seq<Event> {
    [BeginFree] + seq(n, _ => FreeNode)
  }

  function FlushEvents(n: nat): seq<Event> {
    VisitEvents(n) + (FreeEvents(n) + ([ClearFlushing] + ([FreeCommits] + [FlusherUnlocks])))
  }

  /** A pass whose callback on the request at `n` writes it and then aborts or throws. */
  function StopEvents(n: nat, r: Request, v: Verdict): seq<Event> {
    VisitEvents(n)
    + ([CallbackWrites(Image(r))] + ([if v.Throw? then CallbackThrows else CallbackAborts] + [FlusherUnlocks]))
  }

  ghost predicate Quiet(s: State) {
    s.proc.Up? && s.proc == Up(s.proc.tail, Unlocked, Idle, NoFlusher)
  }

  lemma {:induction false} VisitRun(s: State, ch: seq<Addr>, fl: seq<Addr>, n: nat)
    requires Quiet(s) && Layout(s.pool, ch, fl) && n <= |fl|
    ensures |Payloads(s.pool.heap, fl)| == |fl|
    ensures Run(s, VisitEvents(n)) == Ok(s.(file := Apply(s.file, Payloads(s.pool.heap, fl)[..n]),
                                            proc := s.proc.(lock := HeldByFlusher, flusher := Visiting(At(fl, n), n))))
    decreases n
  {
    hide Layout, Payloads, StepWriter, Durable, Run;
    FlushingPayloads(s.pool, ch, fl);
    if n == 0 {
      NothingLeft(s.pool.heap, s.file);
      assert VisitEvents(0) == [FlusherLocks];
      Run1(s, FlusherLocks);
    } else {
      VisitRun(s, ch, fl, n - 1);
      FlushingLink(s.pool, ch, fl, n - 1);
      ApplySnoc(s.file, Payloads(s.pool.heap, fl), n - 1);
      assert VisitEvents(n) == VisitEvents(n - 1) + [CallbackContinues];
      RunSnoc(s, VisitEvents(n - 1), CallbackContinues);
    }
  }

  lemma {:induction false} FreeRun(s: State, ch: seq<Addr>, fl: seq<Addr>, n: nat)
    requires Layout(s.pool, ch, fl) && n <= |fl|
    requires s.proc.Up? && s.proc.flusher == Visiting(NULL, |fl|)
    ensures Run(s, FreeEvents(n)) == Ok(s.(proc := s.proc.(flusher := Freeing(At(fl, n), Tx([], fl[..n])))))
    decreases n
  {
    hide Layout, Payloads, StepWriter, Durable, Run;
    FlushingAllocated(s.pool, ch, fl);
    if n == 0 {
      assert FreeEvents(0) == [BeginFree];
      Run1(s, BeginFree);
    } else {
      FreeRun(s, ch, fl, n - 1);
      FlushingLink(s.pool, ch, fl, n - 1);
      assert fl[..n] == fl[..n - 1] + [fl[n - 1]];
      assert FreeEvents(n) == FreeEvents(n - 1) + [FreeNode];
      RunSnoc(s, FreeEvents(n - 1), FreeNode);
    }
  }

  lemma {:induction false} FlushRun(s: State, ch: seq<Addr>, fl: seq<Addr>)
    requires Quiet(s) && Layout(s.pool, ch, fl)
    ensures var rs := Payloads(s.pool.heap, fl);
            Run(s, FlushEvents(|fl|)) == Ok(
              State(Pool(s.pool.heap - (set a | a in fl), s.pool.active, NULL), s.proc, Apply(s.file, rs),
                    s.log.(freed := s.log.freed + rs)))
  {
    hide Layout, Payloads, StepWriter, Durable, Run, Apply;
    FlushingAllocated(s.pool, ch, fl);
    var n, end := |fl|, [ClearFlushing] + ([FreeCommits] + [FlusherUnlocks]);
    VisitRun(s, ch, fl, n);
    var rs := Payloads(s.pool.heap, fl);
    assert rs[..n] == rs && fl[..n] == fl;
    var s1 := Run(s, VisitEvents(n)).state;
    FreeRun(s1, ch, fl, n);
    var s2 := Run(s1, FreeEvents(n)).state;
    ReleaseRun(s2, fl);
    RunSplit(s1, FreeEvents(n), end);
    RunSplit(s, VisitEvents(n), FreeEvents(n) + end);
  }

  lemma ReleaseRun(s: State, fl: seq<Addr>)
    requires s.proc.Up? && s.proc.flusher == Freeing(NULL, Tx([], fl)) && Allocated(s.pool.heap, fl)
    ensures Run(s, [ClearFlushing] + ([FreeCommits] + [FlusherUnlocks])) == Ok(
              s.(pool := Pool(s.pool.heap - (set a | a in fl), s.pool.active, NULL),
                 proc := s.proc.(lock := Unlocked, flusher := NoFlusher),
                 log := s.log.(freed := s.log.freed + Payloads(s.pool.heap, fl))))
  {
    hide Payloads, StepWriter, Durable, Run;
    var s1 := Step(s, ClearFlushing).state;
    var s2 := Step(s1, FreeCommits).state;
    Run1(s, ClearFlushing);
    Run1(s1, FreeCommits);
    Run1(s2, FlusherUnlocks);
    RunSplit(s1, [FreeCommits], [FlusherUnlocks]);
    RunSplit(s, [ClearFlushing], [FreeCommits] + [FlusherUnlocks]);
  }

  lemma {:induction false} StopRun(s: State, ch: seq<Addr>, fl: seq<Addr>, n: nat, v: Verdict)
    requires Quiet(s) && Layout(s.pool, ch, fl) && n < |fl| && v != Continue
    ensures |Payloads(s.pool.heap, fl)| == |fl|
    ensures var rs := Payloads(s.pool.heap, fl);
            Run(s, StopEvents(n, rs[n], v)) == Ok(s.(file := Apply(s.file, rs[..n + 1])))
  {
    hide Layout, Payloads, StepWriter, Durable, Run, Apply;
    FlushingPayloads(s.pool, ch, fl);
    FlushingLink(s.pool, ch, fl, n);
    VisitRun(s, ch, fl, n);
    var rs, stop := Payloads(s.pool.heap, fl), if v.Throw? then CallbackThrows else CallbackAborts;
    ApplySnoc(s.file, rs, n);
    var s1 := Run(s, VisitEvents(n)).state;
    var s2 := s1.(file := s1.file + Image(rs[n]));
    var s3 := s2.(proc := s2.proc.(flusher := FlushDone));
    Run1(s1, CallbackWrites(Image(rs[n])));
    Run1(s2, stop);
    Run1(s3, FlusherUnlocks);
    RunSplit(s2, [stop], [FlusherUnlocks]);
    RunSplit(s1, [CallbackWrites(Image(rs[n]))], [stop] + [FlusherUnlocks]);
    RunSplit(s, VisitEvents(n), [CallbackWrites(Image(rs[n]))] + ([stop] + [FlusherUnlocks]));
  }

  /** A pass whose callbacks all continue and whose free-all transaction fails: after `k` of its `n` deletes, or after
      clearing `flushing` if `k` exceeds `n`. */
  function FailedFreeEvents(n: nat, k: nat): seq<Event> {
    VisitEvents(n)
    + (FreeEvents(if k < n then k else n)
       + ((if k <= n then [] else [ClearFlushing]) + ([FreeAborts] + [FlusherUnlocks])))
  }

  lemma FailedFreeRun(s: State, ch: seq<Addr>, fl: seq<Addr>, k: nat)
    requires Quiet(s) && Layout(s.pool, ch, fl)
    ensures Run(s, FailedFreeEvents(|fl|, k)) == Ok(s.(file := Apply(s.file, Payloads(s.pool.heap, fl))))
  {
    hide Layout, Payloads, StepWriter, Durable, Run, Apply;
    FlushingAllocated(s.pool, ch, fl);
    var n, rs := |fl|, Payloads(s.pool.heap, fl);
    var j := if k < n then k else n;
    var end := (if k <= n then [] else [ClearFlushing]) + ([FreeAborts] + [FlusherUnlocks]);
    VisitRun(s, ch, fl, n);
    assert rs[..n] == rs;
    var s1 := Run(s, VisitEvents(n)).state;
    FreeRun(s1, ch, fl, j);
    var s2 := Run(s1, FreeEvents(j)).state;
    FreeFailsRun(s2, k > n);
    RunSplit(s1, FreeEvents(j), end);
    RunSplit(s, VisitEvents(n), FreeEvents(j) + end);
  }

  lemma FreeFailsRun(s: State, cleared: bool)
    requires s.proc.Up? && s.proc.flusher.Freeing? && s.proc.flusher.tx.undo == []
    requires cleared ==> s.proc.flusher.cur == NULL
    ensures Run(s, (if cleared then [ClearFlushing] else []) + ([FreeAborts] + [FlusherUnlocks]))
         == Ok(s.(proc := s.proc.(lock := Unlocked, flusher := NoFlusher)))
  {
    hide StepWriter, Durable, Run, Payloads;
    var end := [FreeAborts] + [FlusherUnlocks];
    if cleared {
      var s1 := Step(s, ClearFlushing).state;
      var u := Undo(FlushingCell, s.pool.flushing);
      assert [] + [u] == [u];
      RollbackOne(s1.pool, u);
      Run1(s, ClearFlushing);
      Run1(s1, FreeAborts);
      Run1(Step(s1, FreeAborts).state, FlusherUnlocks);
      RunSplit(s1, [FreeAborts], [FlusherUnlocks]);
      RunSplit(s, [ClearFlushing], end);
    } else {
      assert [] + end == end;
      Run1(s, FreeAborts);
      Run1(Step(s, FreeAborts).state, FlusherUnlocks);
      RunSplit(s, [FreeAborts], [FlusherUnlocks]);
    }
  }
}

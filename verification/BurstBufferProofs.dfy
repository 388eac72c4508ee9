/** What every run of the burst buffer keeps. `ch` is the active list with its sentinel and `fl` the
    flushing list, both as the next open would find them. */
module BurstBufferProofs {
  import opened History
  import opened LinkedHeap
  import opened BurstBufferSteps

  // ---------- File algebra ----------

  /** Writing requests is overlaying one fixed map, whatever the file held before. */
  lemma {:induction false} ApplyIsOverlay(f: File, rs: seq<Request>)
    ensures Apply(f, rs) == f + Apply(map[], rs)
    decreases |rs|
  {
    if rs != [] {
      ApplyIsOverlay(f + Image(rs[0]), rs[1..]);
      ApplyIsOverlay(map[] + Image(rs[0]), rs[1..]);
    }
  }

  lemma {:induction false} ApplyConcat(f: File, rs: seq<Request>, ts: seq<Request>)
    ensures Apply(f, rs + ts) == Apply(Apply(f, rs), ts)
    decreases |rs|
  {
    if rs == [] {
      assert rs + ts == ts;
    } else {
      assert (rs + ts)[1..] == rs[1..] + ts;
      ApplyConcat(f + Image(rs[0]), rs[1..], ts);
    }
  }

  ghost predicate Covers(r: Request, x: int) {
    r.offset <= x < r.offset + |r.data|
  }

  /** Where no request covers a position the file stays as it was. */
  lemma {:induction false} UncoveredStays(f: File, rs: seq<Request>, x: int)
    requires forall i :: 0 <= i < |rs| ==> !Covers(rs[i], x)
    ensures x in Apply(f, rs) <==> x in f
    ensures x in f ==> Apply(f, rs)[x] == f[x]
    decreases |rs|
  {
    if rs != [] {
      UncoveredStays(f + Image(rs[0]), rs[1..], x);
    }
  }

  /** The last request that covers a position decides its byte. */
  lemma {:induction false} LastWriteWins(f: File, rs: seq<Request>, k: nat, x: int)
    requires k < |rs| && rs[k].offset <= x < rs[k].offset + |rs[k].data|
    requires forall i :: k < i < |rs| ==> !Covers(rs[i], x)
    ensures x in Apply(f, rs) && Apply(f, rs)[x] == rs[k].data[x - rs[k].offset]
    decreases |rs|
  {
    if k == 0 {
      UncoveredStays(f + Image(rs[0]), rs[1..], x);
    } else {
      LastWriteWins(f + Image(rs[0]), rs[1..], k - 1, x);
    }
  }

  /** The map a batch overlays holds every byte of each of its requests. */
  lemma {:induction false} ApplyCovers(rs: seq<Request>, k: nat)
    requires k < |rs|
    ensures Image(rs[k]).Keys <= Apply(map[], rs).Keys
    decreases |rs|
  {
    ApplyIsOverlay(map[] + Image(rs[0]), rs[1..]);
    if k > 0 {
      ApplyCovers(rs[1..], k - 1);
    }
  }

  /** Whatever a callback left in the region of one request, the whole batch overwrites. */
  lemma {:induction false} PartialWriteIsOverwritten(f: File, part: File, rs: seq<Request>, k: nat)
    requires k < |rs| && part.Keys <= Image(rs[k]).Keys
    ensures Apply(f + part, rs) == Apply(f, rs)
  {
    ApplyCovers(rs, k);
    ApplyIsOverlay(f + part, rs);
    ApplyIsOverlay(f, rs);
    assert f + part + Apply(map[], rs) == f + Apply(map[], rs);
  }

  /** Delivering any prefix of a batch and then the whole batch equals delivering it once. */
  lemma {:induction false} RedeliveryIsIdempotent(f: File, rs: seq<Request>, k: nat)
    requires k <= |rs|
    ensures Apply(Apply(f, rs[..k]), rs) == Apply(f, rs)
    decreases k
  {
    if k > 0 {
      assert rs[..k] == rs[..k - 1] + [rs[k - 1]];
      ApplyConcat(f, rs[..k - 1], [rs[k - 1]]);
      var g := Apply(f, rs[..k - 1]);
      assert Apply(g, [rs[k - 1]]) == g + Image(rs[k - 1]);
      PartialWriteIsOverwritten(g, Image(rs[k - 1]), rs, k - 1);
      RedeliveryIsIdempotent(f, rs, k - 1);
    }
  }

  /** The file already holds the outcome of the requests. */
  ghost predicate Holds(f: File, rs: seq<Request>) {
    Apply(f, rs) == f
  }

  lemma HoldsOneMore(f: File, rs: seq<Request>, r: Request)
    requires Holds(f, rs)
    ensures Holds(f + Image(r), rs + [r])
  {
    var f' := f + Image(r);
    ApplyConcat(f', rs, [r]);
    ApplyIsOverlay(f, rs);
    ApplyIsOverlay(f', rs);
    var m := Apply(map[], rs);
    assert f' + m + Image(r) == f + m + Image(r);
    assert Apply(f' + m, [r]) == f' + m + Image(r);
  }

  /** The first `k` requests of the batch are in the file, except for bytes that the callback now running
      on the request at `k` may have overwritten. */
  ghost predicate Delivered(f: File, rs: seq<Request>, k: nat) {
    k <= |rs| && if k == |rs| then Holds(f, rs) else Holds(f + Image(rs[k]), rs[..k + 1])
  }

  lemma DeliveredNext(f: File, rs: seq<Request>, k: nat)
    requires k <= |rs| && Holds(f, rs[..k])
    ensures Delivered(f, rs, k)
  {
    if k < |rs| {
      HoldsOneMore(f, rs[..k], rs[k]);
      assert rs[..k + 1] == rs[..k] + [rs[k]];
    } else {
      assert rs[..k] == rs;
    }
  }

  lemma DeliveredPartial(f: File, rs: seq<Request>, k: nat, part: File)
    requires k < |rs| && Delivered(f, rs, k) && part.Keys <= Image(rs[k]).Keys
    ensures Delivered(f + part, rs, k)
  {
    assert f + part + Image(rs[k]) == f + Image(rs[k]);
  }

  // ---------- The invariant ----------

  function Rest(ch: seq<Addr>): seq<Addr> {
    if ch == [] then [] else ch[1..]
  }

  /** Two disjoint acyclic null-terminated lists that use up the heap; no sentinel, no lists. */
  ghost predicate Layout(p: Pool, ch: seq<Addr>, fl: seq<Addr>) {
    && IsList(p.heap, p.active, ch)
    && IsList(p.heap, p.flushing, fl)
    && Distinct(ch) && Distinct(fl) && Disjoint(ch, fl)
    && Allocated(p.heap, ch) && Allocated(p.heap, fl)
    && (forall a :: a in p.heap ==> a in ch || a in fl)
    && (ch == [] ==> fl == [])
  }

  ghost predicate Pending(proc: Process) {
    proc.Up? && (proc.writer.Linked? || proc.writer.Advanced?)
  }

  ghost predicate LogOk(proc: Process, l: Log) {
    && l.returned == Returned(l.commits)
    && Unreturned(l.commits) <= l.crashes + (if Pending(proc) then 1 else 0)
    && (Pending(proc) ==> l.commits != [] && l.commits[|l.commits| - 1] == Commit(proc.writer.req, false))
  }

  ghost predicate WriterOk(p: Pool, u: Process, ch: seq<Addr>, fl: seq<Addr>)
    requires u.Up?
  {
    && ch != []
    && (u.lock.HeldByWriter? <==> !(u.writer.Idle? || u.writer.Linked? || u.writer.Advanced?))
    && match u.writer
       case Linked(_) => |ch| >= 2 && u.tail == ch[|ch| - 2]
       case HandedOver => |ch| == 1 && u.tail == (ch + fl)[|fl|]
       case HandoverTx(tx, n) =>
         && u.tail == ch[|ch| - 1]
         && fl == [] && n <= 2 && tx.frees == []
         && (n == 0 ==> tx.undo == [])
         && (n == 1 ==> tx.undo == [Undo(FlushingCell, NULL)] && p.flushing == At(ch, 1))
         && (n == 2 ==> tx.undo == [Undo(FlushingCell, NULL), Undo(NextCell(ch[0]), At(ch, 1))]
                        && p.flushing == At(ch, 1) && ch[0] in p.heap && p.heap[ch[0]].next == NULL)
       case _ => u.tail == ch[|ch| - 1]
  }

  ghost predicate FlusherOk(p: Pool, u: Process, file: File, fl: seq<Addr>)
    requires u.Up?
  {
    && (u.lock.HeldByFlusher? <==> !u.flusher.NoFlusher?)
    && match u.flusher
       case Visiting(cur, k) => k <= |fl| && cur == At(fl, k) && Delivered(file, Payloads(p.heap, fl), k)
       case Freeing(cur, tx) =>
         && tx.undo == [] && |tx.frees| <= |fl| && tx.frees == fl[..|tx.frees|] && cur == At(fl, |tx.frees|)
         && Holds(file, Payloads(p.heap, fl))
       case FreeStored(tx) =>
         && tx.undo == [Undo(FlushingCell, At(fl, 0))] && tx.frees == fl && p.flushing == NULL
         && Holds(file, Payloads(p.heap, fl))
       case _ => true
  }

  ghost predicate ProcOk(s: State, ch: seq<Addr>, fl: seq<Addr>) {
    match s.proc
    case Down => true
    case Recovering(t) => t in ch
    case Up(_, _, _, _) => WriterOk(s.pool, s.proc, ch, fl) && FlusherOk(s.pool, s.proc, s.file, fl)
  }

  /** Freed, flushing and active requests together are the committed writes in order; the file overlaid
      by the two lists is the initial file with all committed writes applied. */
  ghost predicate Conserved(file0: File, h: Heap<Request>, file: File, l: Log, ch: seq<Addr>, fl: seq<Addr>) {
    && l.freed + Payloads(h, fl) + Payloads(h, Rest(ch)) == Items(l.commits)
    && Apply(Apply(file, Payloads(h, fl)), Payloads(h, Rest(ch))) == Apply(file0, Items(l.commits))
  }

  ghost predicate Inv(file0: File, s: State, ch: seq<Addr>, fl: seq<Addr>) {
    && Layout(Durable(s), ch, fl)
    && ProcOk(s, ch, fl)
    && LogOk(s.proc, s.log)
    && Conserved(file0, Durable(s).heap, s.file, s.log, ch, fl)
  }

  // ---------- Parts of the step proofs ----------

  lemma ActiveLink(p: Pool, ch: seq<Addr>, fl: seq<Addr>, i: nat)
    requires Layout(p, ch, fl) && i < |ch|
    ensures ch[i] != NULL && ch[i] in p.heap && p.heap[ch[i]].next == At(ch, i + 1) && p.active == ch[0]
  {
    assert Link(p.heap, ch, i) && Link(p.heap, ch, 0);
  }

  lemma FlushingLink(p: Pool, ch: seq<Addr>, fl: seq<Addr>, i: nat)
    requires Layout(p, ch, fl) && i < |fl|
    ensures fl[i] != NULL && fl[i] in p.heap && p.heap[fl[i]].next == At(fl, i + 1)
    ensures p.flushing == fl[0] && fl[i] !in fl[..i]
  {
    assert Link(p.heap, fl, i) && Link(p.heap, fl, 0);
  }

  lemma FlushingAllocated(p: Pool, ch: seq<Addr>, fl: seq<Addr>)
    requires Layout(p, ch, fl)
    ensures Allocated(p.heap, fl) && p.flushing == At(fl, 0)
  {
  }

  lemma RollbackOne(p: Pool, u: Undo)
    ensures Rollback(p, [u]) == Put(p, u.cell, u.before)
  {
    assert [u][..0] == [];
  }

  lemma RollbackTwo(p: Pool, u: Undo, v: Undo)
    ensures Rollback(p, [u, v]) == Put(Put(p, v.cell, v.before), u.cell, u.before)
  {
    assert [u, v][..1] == [u];
    RollbackOne(Put(p, v.cell, v.before), u);
  }

  /** Outside the handover transaction only the `flushing` cell can differ from the durable pool. */
  lemma DurableOutsideHandover(file0: File, s: State, ch: seq<Addr>, fl: seq<Addr>)
    requires Inv(file0, s, ch, fl) && s.proc.Up? && !s.proc.writer.HandoverTx?
    ensures Durable(s) == s.pool.(flushing := At(fl, 0))
    ensures s.proc.flusher.FreeStored? || Durable(s) == s.pool
  {
    hide Conserved, LogOk, Delivered, Holds, Layout;
    FlushingAllocated(Durable(s), ch, fl);
    RollbackOne(s.pool, Undo(FlushingCell, At(fl, 0)));
  }

  /** The pool inside the handover transaction, told from the durable one. */
  lemma HandoverTxPool(file0: File, s: State, ch: seq<Addr>, fl: seq<Addr>)
    requires Inv(file0, s, ch, fl) && s.proc.Up? && s.proc.writer.HandoverTx?
    ensures var p, d, n := s.pool, Durable(s), s.proc.writer.stores;
            && s.proc.flusher.NoFlusher? && fl == [] && n <= 2
            && d == Rollback(s.pool, s.proc.writer.tx.undo)
            && d.active == p.active == ch[0] && d.flushing == NULL
            && ch[0] in d.heap && d.heap[ch[0]].next == At(ch, 1)
            && p.flushing == (if n == 0 then NULL else At(ch, 1))
            && p.heap == (if n == 2 then d.heap[ch[0] := d.heap[ch[0]].(next := NULL)] else d.heap)
  {
    hide Conserved, LogOk, Delivered, Holds, Layout;
    var u0, u1 := Undo(FlushingCell, NULL), Undo(NextCell(ch[0]), At(ch, 1));
    RollbackOne(s.pool, u0);
    RollbackTwo(s.pool, u0, u1);
    ActiveLink(Durable(s), ch, fl, 0);
    FlushingAllocated(Durable(s), ch, fl);
  }

  /** A step that keeps the durable pool, the file and the recorded requests only has to keep the thread state. */
  lemma QuietKeeps(file0: File, s: State, s': State, ch: seq<Addr>, fl: seq<Addr>)
    requires Inv(file0, s, ch, fl)
    requires Durable(s') == Durable(s) && s'.file == s.file
    requires s'.log.freed == s.log.freed && Items(s'.log.commits) == Items(s.log.commits)
    requires ProcOk(s', ch, fl) && LogOk(s'.proc, s'.log)
    ensures Inv(file0, s', ch, fl)
  {
    hide Layout, ProcOk, LogOk, Apply, Payloads;
  }

  // ---------- The active list read off the events ----------

  /** What an event that happens makes of the active list. */
  function NextActive(ch: seq<Addr>, e: Event): seq<Addr> {
    match e
    case CreateSentinel(a) => [a]
    case Allocate(_, a) => ch + [a]
    case HandoverCommits => if ch == [] then [] else [ch[0]]
    case _ => ch
  }

  /** The sentinel and the nodes allocated since the latest handover. */
  function ActiveNodes(es: seq<Event>): seq<Addr> {
    if es == [] then [] else NextActive(ActiveNodes(es[..|es| - 1]), es[|es| - 1])
  }

  // ---------- Every step keeps the invariant ----------

  lemma CrashKeeps(file0: File, s: State, ch: seq<Addr>, fl: seq<Addr>)
    requires Inv(file0, s, ch, fl)
    ensures Step(s, Crash).Ok? && Inv(file0, Step(s, Crash).state, ch, fl)
  {
    hide Layout, WriterOk, FlusherOk, Apply, Payloads, Items;
  }

  lemma DownKeeps(file0: File, s: State, e: Event, ch: seq<Addr>, fl: seq<Addr>) returns (ch': seq<Addr>)
    requires Inv(file0, s, ch, fl) && s.proc.Down?
    ensures !StepDown(s, e).Fault?
    ensures StepDown(s, e).Ok? ==> Inv(file0, StepDown(s, e).state, ch', fl) && ch' == NextActive(ch, e)
  {
    hide Apply, Items;
    ch' := ch;
    assert ch != [] ==> Link(s.pool.heap, ch, 0);
    if e.CreateSentinel? && StepDown(s, e).Ok? {
      ch' := [e.a];
      assert Link(StepDown(s, e).state.pool.heap, ch', 0);
    }
  }

  lemma RecoveringKeeps(file0: File, s: State, e: Event, ch: seq<Addr>, fl: seq<Addr>)
    requires Inv(file0, s, ch, fl) && s.proc.Recovering?
    ensures !StepRecovering(s, e).Fault?
    ensures StepRecovering(s, e).Ok? ==> Inv(file0, StepRecovering(s, e).state, ch, fl) && NextActive(ch, e) == ch
  {
    hide Layout, Conserved;
    var i :| 0 <= i < |ch| && ch[i] == s.proc.tail;
    ActiveLink(s.pool, ch, fl, i);
    if i + 1 < |ch| {
      ActiveLink(s.pool, ch, fl, i + 1);
    }
  }

  /** Linking a fresh node behind node `t`. */
  function Append(p: Pool, t: Addr, a: Addr, req: Request): Pool
    requires t in p.heap
  {
    p.(heap := p.heap[t := p.heap[t].(next := a)][a := Node(NULL, req)])
  }

  lemma AppendLayout(p: Pool, ch: seq<Addr>, fl: seq<Addr>, a: Addr, req: Request)
    requires Layout(p, ch, fl) && ch != [] && a != NULL && a !in p.heap
    ensures Layout(Append(p, ch[|ch| - 1], a, req), ch + [a], fl)
  {
    var h := Append(p, ch[|ch| - 1], a, req).heap;
    var ch' := ch + [a];
    forall i | 0 <= i < |ch'| ensures Link(h, ch', i) {
      assert i < |ch| ==> Link(p.heap, ch, i);
    }
    forall i | 0 <= i < |fl| ensures Link(h, fl, i) {
      assert Link(p.heap, fl, i);
    }
  }

  lemma {:induction false} AppendPayloads(p: Pool, ch: seq<Addr>, fl: seq<Addr>, a: Addr, req: Request)
    requires Layout(p, ch, fl) && ch != [] && a !in p.heap
    ensures var h, h' := p.heap, Append(p, ch[|ch| - 1], a, req).heap;
            && Payloads(h', fl) == Payloads(h, fl)
            && Payloads(h', Rest(ch + [a])) == Payloads(h, Rest(ch)) + [req]
  {
    hide IsList, Distinct, Disjoint;
    var h, h' := p.heap, Append(p, ch[|ch| - 1], a, req).heap;
    PayloadsFrame(h, h', fl);
    PayloadsFrame(h, h', ch[1..]);
    PayloadsSnoc(h', ch[1..], a);
    assert Rest(ch + [a]) == ch[1..] + [a];
  }

  lemma AppendConserves(file0: File, file: File, l: Log, ps: seq<Request>, qs: seq<Request>, req: Request)
    requires l.freed + ps + qs == Items(l.commits)
    requires Apply(Apply(file, ps), qs) == Apply(file0, Items(l.commits))
    ensures var cs := Record(l.commits, req);
            && l.freed + ps + (qs + [req]) == Items(cs)
            && Apply(Apply(file, ps), qs + [req]) == Apply(file0, Items(cs))
  {
    RecordAdds(l.commits, req);
    ApplyConcat(Apply(file, ps), qs, [req]);
    ApplyConcat(file0, Items(l.commits), [req]);
  }

  lemma LogAppends(proc: Process, l: Log, req: Request)
    requires LogOk(proc, l) && proc.Up? && proc.writer.Idle?
    ensures LogOk(proc.(writer := Linked(req)), l.(commits := Record(l.commits, req)))
  {
    RecordAdds(l.commits, req);
  }

  lemma AllocateKeeps(file0: File, s: State, e: Event, ch: seq<Addr>, fl: seq<Addr>)
    requires Inv(file0, s, ch, fl) && s.proc.Up? && s.proc.writer.Idle?
    requires e.Allocate? && e.a != NULL && e.a !in s.pool.heap
    ensures StepWriter(s, e).Ok? && Inv(file0, StepWriter(s, e).state, ch + [e.a], fl)
  {
    hide Layout, LogOk, Holds, Delivered, Payloads, Apply, Items;
    DurableOutsideHandover(file0, s, ch, fl);
    var d := Durable(s);
    ActiveLink(d, ch, fl, |ch| - 1);
    AppendLayout(d, ch, fl, e.a, e.req);
    AppendPayloads(d, ch, fl, e.a, e.req);
    AppendConserves(file0, s.file, s.log, Payloads(d.heap, fl), Payloads(d.heap, Rest(ch)), e.req);
    LogAppends(s.proc, s.log, e.req);
    var s' := StepWriter(s, e).state;
    RollbackOne(s'.pool, Undo(FlushingCell, At(fl, 0)));
    assert Durable(s') == Append(d, s.proc.tail, e.a, e.req);
  }

  lemma AdvanceTailKeeps(file0: File, s: State, ch: seq<Addr>, fl: seq<Addr>)
    requires Inv(file0, s, ch, fl) && s.proc.Up? && s.proc.writer.Linked?
    ensures StepWriter(s, AdvanceTail).Ok? && Inv(file0, StepWriter(s, AdvanceTail).state, ch, fl)
  {
    hide Layout, Conserved, Holds, Delivered, Payloads;
    DurableOutsideHandover(file0, s, ch, fl);
    ActiveLink(Durable(s), ch, fl, |ch| - 2);
    QuietKeeps(file0, s, StepWriter(s, AdvanceTail).state, ch, fl);
  }

  lemma ReturnZeroKeeps(file0: File, s: State, ch: seq<Addr>, fl: seq<Addr>)
    requires Inv(file0, s, ch, fl) && s.proc.Up? && s.proc.writer.Advanced?
    ensures StepWriter(s, ReturnZero).Ok? && Inv(file0, StepWriter(s, ReturnZero).state, ch, fl)
  {
    hide Layout, Conserved, Holds, Delivered, Payloads, Items, Returned, Unreturned;
    MarkLastReturns(s.log.commits);
    QuietKeeps(file0, s, StepWriter(s, ReturnZero).state, ch, fl);
  }

  lemma WriterLockKeeps(file0: File, s: State, e: Event, ch: seq<Addr>, fl: seq<Addr>)
    requires Inv(file0, s, ch, fl) && s.proc.Up?
    requires e.AllocationFails? || e.WriterLocks? || e.WriterUnlocks? || e.ResetTail?
    requires StepWriter(s, e).Ok?
    ensures StepWriter(s, e).Ok? && Inv(file0, StepWriter(s, e).state, ch, fl)
  {
    hide Layout, Conserved, Holds, Delivered, Payloads;
    if e.ResetTail? {
      ActiveLink(Durable(s), ch, fl, 0);
      DurableOutsideHandover(file0, s, ch, fl);
    }
    QuietKeeps(file0, s, StepWriter(s, e).state, ch, fl);
  }

  lemma WriterChecksKeeps(file0: File, s: State, ch: seq<Addr>, fl: seq<Addr>)
    requires Inv(file0, s, ch, fl) && s.proc.Up? && s.proc.writer.HandoverLocked?
    ensures StepWriter(s, WriterChecks).Ok? && Inv(file0, StepWriter(s, WriterChecks).state, ch, fl)
  {
    hide Layout, Conserved, Holds, Delivered, Payloads;
    DurableOutsideHandover(file0, s, ch, fl);
    if fl != [] {
      FlushingLink(Durable(s), ch, fl, 0);
    }
    QuietKeeps(file0, s, StepWriter(s, WriterChecks).state, ch, fl);
  }

  lemma HandoverStoreKeeps(file0: File, s: State, ch: seq<Addr>, fl: seq<Addr>)
    requires Inv(file0, s, ch, fl) && s.proc.Up? && s.proc.writer.HandoverTx?
    ensures !StepWriter(s, HandoverStore).Fault?
    ensures StepWriter(s, HandoverStore).Ok? ==> Inv(file0, StepWriter(s, HandoverStore).state, ch, fl)
  {
    hide Layout, Conserved, Holds, Delivered, Payloads;
    HandoverTxPool(file0, s, ch, fl);
    if StepWriter(s, HandoverStore).Ok? {
      var s' := StepWriter(s, HandoverStore).state;
      var u0, u1 := Undo(FlushingCell, NULL), Undo(NextCell(ch[0]), At(ch, 1));
      RollbackOne(s'.pool, u0);
      RollbackTwo(s'.pool, u0, u1);
      assert s'.proc.writer.tx.undo == if s.proc.writer.stores == 0 then [u0] else [u0, u1];
      QuietKeeps(file0, s, s', ch, fl);
    }
  }

  lemma HandoverAbortKeeps(file0: File, s: State, ch: seq<Addr>, fl: seq<Addr>)
    requires Inv(file0, s, ch, fl) && s.proc.Up? && s.proc.writer.HandoverTx?
    ensures StepWriter(s, HandoverAborts).Ok? && Inv(file0, StepWriter(s, HandoverAborts).state, ch, fl)
  {
    hide Layout, Conserved, Holds, Delivered, Payloads, Rollback;
    HandoverTxPool(file0, s, ch, fl);
    QuietKeeps(file0, s, StepWriter(s, HandoverAborts).state, ch, fl);
  }

  /** The pool after the handover transaction: the old active list hangs off `flushing`. */
  function Detach(d: Pool, ch: seq<Addr>): Pool
    requires ch != [] && ch[0] in d.heap
  {
    Pool(d.heap[ch[0] := d.heap[ch[0]].(next := NULL)], d.active, At(ch, 1))
  }

  lemma DetachLayout(d: Pool, ch: seq<Addr>)
    requires Layout(d, ch, []) && ch != []
    ensures Layout(Detach(d, ch), [ch[0]], ch[1..])
  {
    var h, fl := Detach(d, ch).heap, ch[1..];
    assert Link(h, [ch[0]], 0) by { assert Link(d.heap, ch, 0); }
    forall i | 0 <= i < |fl| ensures Link(h, fl, i) {
      assert Link(d.heap, ch, i + 1);
    }
  }

  lemma NothingLeft(h: Heap<Request>, f: File)
    ensures Payloads(h, []) == [] && Apply(f, []) == f
  {
  }

  lemma DetachPayloads(d: Pool, ch: seq<Addr>)
    requires Layout(d, ch, []) && ch != []
    ensures Payloads(Detach(d, ch).heap, ch[1..]) == Payloads(d.heap, ch[1..])
  {
    hide IsList, Disjoint;
    PayloadsFrame(d.heap, Detach(d, ch).heap, ch[1..]);
  }

  lemma {:induction false} DetachConserves(file0: File, d: Pool, file: File, l: Log, ch: seq<Addr>)
    requires Layout(d, ch, []) && ch != [] && Conserved(file0, d.heap, file, l, ch, [])
    ensures Conserved(file0, Detach(d, ch).heap, file, l, [ch[0]], ch[1..])
  {
    hide Layout, Items, Payloads, Apply;
    ActiveLink(d, ch, [], 0);
    DetachPayloads(d, ch);
    NothingLeft(d.heap, file);
    NothingLeft(Detach(d, ch).heap, Apply(file, Payloads(d.heap, ch[1..])));
    assert l.freed + [] + Payloads(d.heap, ch[1..]) == l.freed + Payloads(d.heap, ch[1..]) + [];
  }

  lemma HandoverCommitKeeps(file0: File, s: State, ch: seq<Addr>, fl: seq<Addr>)
    requires Inv(file0, s, ch, fl) && s.proc.Up? && s.proc.writer.HandoverTx? && s.proc.writer.stores == 2
    ensures ch != [] && StepWriter(s, HandoverCommits).Ok? && Inv(file0, StepWriter(s, HandoverCommits).state, [ch[0]], ch[1..])
  {
    hide Layout, Conserved, Holds, Delivered, Payloads, Rollback;
    HandoverTxPool(file0, s, ch, fl);
    DetachLayout(Durable(s), ch);
    DetachConserves(file0, Durable(s), s.file, s.log, ch);
    assert s.pool == Detach(Durable(s), ch);
    assert [ch[0]] + ch[1..] == ch;
  }

  // ---------- Flusher steps ----------

  lemma FlusherLocksKeeps(file0: File, s: State, ch: seq<Addr>, fl: seq<Addr>)
    requires Inv(file0, s, ch, fl) && s.proc.Up? && s.proc.lock.Unlocked?
    ensures StepFlusher(s, FlusherLocks).Ok? && Inv(file0, StepFlusher(s, FlusherLocks).state, ch, fl)
  {
    hide Layout, Conserved, Delivered, Payloads;
    DurableOutsideHandover(file0, s, ch, fl);
    DeliveredNext(s.file, Payloads(s.pool.heap, fl), 0);
    QuietKeeps(file0, s, StepFlusher(s, FlusherLocks).state, ch, fl);
  }

  lemma FlusherQuietKeeps(file0: File, s: State, e: Event, ch: seq<Addr>, fl: seq<Addr>)
    requires Inv(file0, s, ch, fl) && s.proc.Up?
    requires e.CallbackAborts? || e.CallbackThrows? || e.FlusherUnlocks?
    requires StepFlusher(s, e).Ok?
    ensures StepFlusher(s, e).Ok? && Inv(file0, StepFlusher(s, e).state, ch, fl)
  {
    hide Layout, Conserved, Delivered, Holds, Payloads;
    QuietKeeps(file0, s, StepFlusher(s, e).state, ch, fl);
  }

  lemma {:induction false} BeginFreeKeeps(file0: File, s: State, ch: seq<Addr>, fl: seq<Addr>)
    requires Inv(file0, s, ch, fl) && s.proc.Up? && s.proc.flusher.Visiting? && s.proc.flusher.cur == NULL
    ensures StepFlusher(s, BeginFree).Ok? && Inv(file0, StepFlusher(s, BeginFree).state, ch, fl)
  {
    hide Layout, Conserved, Holds;
    DurableOutsideHandover(file0, s, ch, fl);
    if s.proc.flusher.visited < |fl| {
      FlushingLink(Durable(s), ch, fl, s.proc.flusher.visited);
    }
    FlushingAllocated(s.pool, ch, fl);
    QuietKeeps(file0, s, StepFlusher(s, BeginFree).state, ch, fl);
  }

  lemma {:induction false} FreeNodeKeeps(file0: File, s: State, ch: seq<Addr>, fl: seq<Addr>)
    requires Inv(file0, s, ch, fl) && s.proc.Up? && s.proc.flusher.Freeing? && s.proc.flusher.cur != NULL
    ensures StepFlusher(s, FreeNode).Ok? && Inv(file0, StepFlusher(s, FreeNode).state, ch, fl)
  {
    hide Layout, Conserved, Holds, Payloads;
    DurableOutsideHandover(file0, s, ch, fl);
    var k := |s.proc.flusher.tx.frees|;
    FlushingLink(Durable(s), ch, fl, k);
    assert fl[..k + 1] == fl[..k] + [fl[k]];
    QuietKeeps(file0, s, StepFlusher(s, FreeNode).state, ch, fl);
  }

  lemma ClearFlushingKeeps(file0: File, s: State, ch: seq<Addr>, fl: seq<Addr>)
    requires Inv(file0, s, ch, fl) && s.proc.Up? && s.proc.flusher.Freeing? && s.proc.flusher.cur == NULL
    ensures StepFlusher(s, ClearFlushing).Ok? && Inv(file0, StepFlusher(s, ClearFlushing).state, ch, fl)
  {
    hide Layout, Conserved, Holds, Payloads, Rollback, Delivered, Items, Returned, Unreturned;
    DurableOutsideHandover(file0, s, ch, fl);
    var k, s' := |s.proc.flusher.tx.frees|, StepFlusher(s, ClearFlushing).state;
    if k < |fl| {
      FlushingLink(Durable(s), ch, fl, k);
    }
    var u := Undo(FlushingCell, At(fl, 0));
    assert [] + [u] == [u];
    RollbackOne(s'.pool, u);
    QuietKeeps(file0, s, s', ch, fl);
  }

  lemma {:induction false} FreeAbortKeeps(file0: File, s: State, ch: seq<Addr>, fl: seq<Addr>)
    requires Inv(file0, s, ch, fl) && s.proc.Up? && (s.proc.flusher.Freeing? || s.proc.flusher.FreeStored?)
    ensures StepFlusher(s, FreeAborts).Ok? && Inv(file0, StepFlusher(s, FreeAborts).state, ch, fl)
  {
    hide Layout, Conserved, Holds, Payloads, Rollback;
    DurableOutsideHandover(file0, s, ch, fl);
    QuietKeeps(file0, s, StepFlusher(s, FreeAborts).state, ch, fl);
  }

  lemma FreeCommitLayout(d: Pool, ch: seq<Addr>, fl: seq<Addr>)
    requires Layout(d, ch, fl)
    ensures Layout(Pool(d.heap - (set a | a in fl), d.active, NULL), ch, [])
  {
    var h := d.heap - (set a | a in fl);
    forall i | 0 <= i < |ch| ensures Link(h, ch, i) {
      assert Link(d.heap, ch, i);
    }
  }

  lemma FreeCommitPayloads(d: Pool, ch: seq<Addr>, fl: seq<Addr>)
    requires Layout(d, ch, fl)
    ensures Payloads(d.heap - (set a | a in fl), Rest(ch)) == Payloads(d.heap, Rest(ch))
  {
    hide IsList, Distinct;
    PayloadsFrame(d.heap, d.heap - (set a | a in fl), Rest(ch));
  }

  lemma {:induction false} FreeCommitConserves(file0: File, d: Pool, file: File, l: Log, ch: seq<Addr>, fl: seq<Addr>)
    requires Layout(d, ch, fl)
    requires Conserved(file0, d.heap, file, l, ch, fl) && Holds(file, Payloads(d.heap, fl))
    ensures Conserved(file0, d.heap - (set a | a in fl), file, l.(freed := l.freed + Payloads(d.heap, fl)), ch, [])
  {
    hide Layout, Items, Payloads, Apply;
    FreeCommitPayloads(d, ch, fl);
    NothingLeft(d.heap - (set a | a in fl), file);
    var ps, qs := Payloads(d.heap, fl), Payloads(d.heap, Rest(ch));
    assert l.freed + ps + [] + qs == l.freed + ps + qs;
  }

  lemma FreeCommitKeeps(file0: File, s: State, ch: seq<Addr>, fl: seq<Addr>)
    requires Inv(file0, s, ch, fl) && s.proc.Up? && s.proc.flusher.FreeStored?
    ensures StepFlusher(s, FreeCommits).Ok? && Inv(file0, StepFlusher(s, FreeCommits).state, ch, [])
  {
    hide Layout, Conserved, Holds, Payloads, Rollback;
    DurableOutsideHandover(file0, s, ch, fl);
    FreeCommitLayout(Durable(s), ch, fl);
    FreeCommitConserves(file0, Durable(s), s.file, s.log, ch, fl);
    FlushingAllocated(Durable(s), ch, fl);
  }

  /** Writing to the region of a request still in the flushing list changes nothing that matters. */
  lemma FileStepKeeps(file0: File, s: State, s': State, ch: seq<Addr>, fl: seq<Addr>, k: nat, part: File)
    requires Inv(file0, s, ch, fl)
    requires s'.log == s.log && s'.file == s.file + part && Durable(s') == Durable(s)
    requires k < |Payloads(Durable(s).heap, fl)| && part.Keys <= Image(Payloads(Durable(s).heap, fl)[k]).Keys
    requires ProcOk(s', ch, fl) && LogOk(s'.proc, s.log)
    ensures Inv(file0, s', ch, fl)
  {
    hide Layout, ProcOk, LogOk;
    PartialWriteIsOverwritten(s.file, part, Payloads(Durable(s).heap, fl), k);
  }

  lemma {:induction false} CallbackWritesKeeps(file0: File, s: State, e: Event, ch: seq<Addr>, fl: seq<Addr>)
    requires Inv(file0, s, ch, fl) && s.proc.Up? && s.proc.flusher.Visiting? && s.proc.flusher.cur != NULL
    requires e.CallbackWrites?
    ensures !StepFlusher(s, e).Fault?
    ensures StepFlusher(s, e).Ok? ==> Inv(file0, StepFlusher(s, e).state, ch, fl)
  {
    hide Layout, Conserved, Delivered;
    DurableOutsideHandover(file0, s, ch, fl);
    var k := s.proc.flusher.visited;
    FlushingAllocated(s.pool, ch, fl);
    if StepFlusher(s, e).Ok? {
      DeliveredPartial(s.file, Payloads(s.pool.heap, fl), k, e.part);
      FileStepKeeps(file0, s, StepFlusher(s, e).state, ch, fl, k, e.part);
    }
  }

  lemma CallbackContinuesKeeps(file0: File, s: State, ch: seq<Addr>, fl: seq<Addr>)
    requires Inv(file0, s, ch, fl) && s.proc.Up? && s.proc.flusher.Visiting? && s.proc.flusher.cur != NULL
    ensures var r := StepFlusher(s, CallbackContinues); r.Ok? && Inv(file0, r.state, ch, fl)
  {
    hide Layout, Conserved;
    DurableOutsideHandover(file0, s, ch, fl);
    var k, ps := s.proc.flusher.visited, Payloads(s.pool.heap, fl);
    FlushingAllocated(s.pool, ch, fl);
    FlushingLink(Durable(s), ch, fl, k);
    DeliveredNext(s.file + Image(ps[k]), ps, k + 1);
    FileStepKeeps(file0, s, StepFlusher(s, CallbackContinues).state, ch, fl, k, Image(ps[k]));
  }

  // ---------- Whole runs ----------

  lemma WriterKeeps(file0: File, s: State, e: Event, ch: seq<Addr>, fl: seq<Addr>)
    returns (ch': seq<Addr>, fl': seq<Addr>)
    requires Inv(file0, s, ch, fl) && s.proc.Up?
    ensures !StepWriter(s, e).Fault?
    ensures StepWriter(s, e).Ok? ==> Inv(file0, StepWriter(s, e).state, ch', fl') && ch' == NextActive(ch, e)
  {
    hide Inv, Put, Rollback;
    ch', fl' := ch, fl;
    var w := s.proc.writer;
    match e
    case Allocate(_, a) =>
      if w.Idle? && a != NULL && a !in s.pool.heap {
        AllocateKeeps(file0, s, e, ch, fl);
        ch' := ch + [a];
      }
    case AdvanceTail => if w.Linked? { AdvanceTailKeeps(file0, s, ch, fl); }
    case ReturnZero => if w.Advanced? { ReturnZeroKeeps(file0, s, ch, fl); }
    case WriterChecks => if w.HandoverLocked? { WriterChecksKeeps(file0, s, ch, fl); }
    case HandoverStore => if w.HandoverTx? { HandoverStoreKeeps(file0, s, ch, fl); }
    case HandoverAborts => if w.HandoverTx? { HandoverAbortKeeps(file0, s, ch, fl); }
    case HandoverCommits =>
      if w.HandoverTx? && w.stores == 2 {
        HandoverCommitKeeps(file0, s, ch, fl);
        ch', fl' := [ch[0]], ch[1..];
      }
    case _ =>
      if StepWriter(s, e).Ok? { WriterLockKeeps(file0, s, e, ch, fl); }
  }

  lemma FlusherKeeps(file0: File, s: State, e: Event, ch: seq<Addr>, fl: seq<Addr>) returns (fl': seq<Addr>)
    requires Inv(file0, s, ch, fl) && s.proc.Up?
    ensures !StepFlusher(s, e).Fault?
    ensures StepFlusher(s, e).Ok? ==> Inv(file0, StepFlusher(s, e).state, ch, fl') && NextActive(ch, e) == ch
  {
    hide Inv, Put, Rollback, Payloads, Image;
    fl' := fl;
    var f := s.proc.flusher;
    match e
    case FlusherLocks => if s.proc.lock.Unlocked? { FlusherLocksKeeps(file0, s, ch, fl); }
    case CallbackWrites(_) => if f.Visiting? && f.cur != NULL { CallbackWritesKeeps(file0, s, e, ch, fl); }
    case CallbackContinues => if f.Visiting? && f.cur != NULL { CallbackContinuesKeeps(file0, s, ch, fl); }
    case BeginFree => if f.Visiting? && f.cur == NULL { BeginFreeKeeps(file0, s, ch, fl); }
    case FreeNode => if f.Freeing? && f.cur != NULL { FreeNodeKeeps(file0, s, ch, fl); }
    case ClearFlushing => if f.Freeing? && f.cur == NULL { ClearFlushingKeeps(file0, s, ch, fl); }
    case FreeAborts => if f.Freeing? || f.FreeStored? { FreeAbortKeeps(file0, s, ch, fl); }
    case FreeCommits =>
      if f.FreeStored? {
        FreeCommitKeeps(file0, s, ch, fl);
        fl' := [];
      }
    case _ =>
      if StepFlusher(s, e).Ok? { FlusherQuietKeeps(file0, s, e, ch, fl); }
  }

  /** No step faults, and every step keeps the invariant. */
  lemma StepKeeps(file0: File, s: State, e: Event, ch: seq<Addr>, fl: seq<Addr>)
    returns (ch': seq<Addr>, fl': seq<Addr>)
    requires Inv(file0, s, ch, fl)
    ensures !Step(s, e).Fault?
    ensures Step(s, e).Ok? ==> Inv(file0, Step(s, e).state, ch', fl') && ch' == NextActive(ch, e)
  {
    hide Inv, StepWriter, StepFlusher, StepDown, StepRecovering, Durable;
    ch', fl' := ch, fl;
    if e.Crash? {
      CrashKeeps(file0, s, ch, fl);
    } else if s.proc.Down? {
      ch' := DownKeeps(file0, s, e, ch, fl);
    } else if s.proc.Recovering? {
      RecoveringKeeps(file0, s, e, ch, fl);
    } else if Step(s, e) == StepWriter(s, e) {
      ch', fl' := WriterKeeps(file0, s, e, ch, fl);
    } else {
      fl' := FlusherKeeps(file0, s, e, ch, fl);
    }
  }

  /** No run faults, and its last state satisfies the invariant for the active list told by its events and some
      flushing list. */
  lemma {:induction false} RunKeeps(file0: File, es: seq<Event>) returns (ch: seq<Addr>, fl: seq<Addr>)
    ensures !Run(Init(file0), es).Fault?
    ensures Run(Init(file0), es).Ok? ==> Inv(file0, Run(Init(file0), es).state, ch, fl) && ch == ActiveNodes(es)
    decreases |es|
  {
    ch, fl := [], [];
    if es != [] {
      ch, fl := RunKeeps(file0, es[..|es| - 1]);
      var r := Run(Init(file0), es[..|es| - 1]);
      if r.Ok? {
        ch, fl := StepKeeps(file0, r.state, es[|es| - 1], ch, fl);
      }
    }
  }
}

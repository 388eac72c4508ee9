/** The burst buffer's promises, for every run: any interleaving of the writer and the flushers with
    allocation failures, callback aborts and throws, transaction aborts, crashes and restarts. */
module BurstBufferTheorems {
  import opened History
  import opened LinkedHeap
  import opened BurstBufferSteps
  import opened BurstBufferProofs

  /** The two lists that a pool's root pointers start. */
  ghost predicate Lists(p: Pool, ch: seq<Addr>, fl: seq<Addr>) {
    IsList(p.heap, p.active, ch) && IsList(p.heap, p.flushing, fl)
  }

  /** A reachable state satisfies the invariant for exactly the lists that its root pointers start. */
  lemma {:induction false} InvOfReachable(file0: File, es: seq<Event>, s: State, ch: seq<Addr>, fl: seq<Addr>)
    requires Run(Init(file0), es) == Ok(s) && Lists(Durable(s), ch, fl)
    ensures Inv(file0, s, ch, fl)
  {
    hide Run, Durable, ProcOk, LogOk, Conserved, ActiveNodes;
    var ch', fl' := RunKeeps(file0, es);
    ListUnique(Durable(s).heap, Durable(s).active, ch, ch');
    ListUnique(Durable(s).heap, Durable(s).flushing, fl, fl');
  }

  lemma ListsExist(file0: File, es: seq<Event>, s: State)
    requires Run(Init(file0), es) == Ok(s)
    ensures exists ch, fl :: Lists(Durable(s), ch, fl)
  {
    var ch, fl := RunKeeps(file0, es);
    assert Lists(Durable(s), ch, fl);
  }

  /** No run ever follows a null, dangling or freed pointer, or frees a node twice. */
  lemma NoRunFaults(file0: File, es: seq<Event>)
    ensures !Run(Init(file0), es).Fault?
  {
    var _, _ := RunKeeps(file0, es);
  }

  // ---------- What can happen ----------

  /** In every reachable state the process may die. Recovery creates the sentinel if there is none, or fails to, and
      otherwise walks to the end of the active list. */
  lemma {:induction false} RecoveryStepIsPossible(file0: File, es: seq<Event>, s: State, e: Event)
    requires Run(Init(file0), es) == Ok(s)
    ensures s.proc.Recovering? ==> s.proc.tail in s.pool.heap
    ensures match e
            case Crash => Step(s, e).Ok?
            case CreateSentinel(a) =>
              Step(s, e).Ok? <==> s.proc.Down? && s.pool.active == NULL && a != NULL && a !in s.pool.heap
            case SentinelFails => Step(s, e).Ok? <==> s.proc.Down? && s.pool.active == NULL
            case BeginWalk => Step(s, e).Ok? <==> s.proc.Down? && s.pool.active != NULL
            case Walk => Step(s, e).Ok? <==> s.proc.Recovering? && s.pool.heap[s.proc.tail].next != NULL
            case StartThreads => Step(s, e).Ok? <==> s.proc.Recovering? && s.pool.heap[s.proc.tail].next == NULL
            case _ => true
  {
    hide Run, Inv, ActiveNodes;
    var ch, fl := RunKeeps(file0, es);
    PointersAllocated(file0, s, ch, fl);
  }

  /** In every reachable running state the writer can take its next step, or fail where it allocates or runs its
      transaction, whatever the flusher is doing; only the mutex makes it wait. */
  lemma {:induction false} WriterStepIsPossible(file0: File, es: seq<Event>, s: State, e: Event)
    requires Run(Init(file0), es) == Ok(s) && s.proc.Up?
    ensures var w := s.proc.writer;
            match e
            case Allocate(_, a) => Step(s, e).Ok? <==> w.Idle? && a != NULL && a !in s.pool.heap
            case AllocationFails => Step(s, e).Ok? <==> w.Idle?
            case AdvanceTail => Step(s, e).Ok? <==> w.Linked?
            case ReturnZero => Step(s, e).Ok? <==> w.Advanced?
            case WriterLocks => Step(s, e).Ok? <==> w.Idle? && s.proc.lock.Unlocked?
            case WriterChecks => Step(s, e).Ok? <==> w.HandoverLocked?
            case HandoverStore => Step(s, e).Ok? <==> w.HandoverTx? && w.stores < 2
            case HandoverCommits => Step(s, e).Ok? <==> w.HandoverTx? && w.stores == 2
            case HandoverAborts => Step(s, e).Ok? <==> w.HandoverTx?
            case ResetTail => Step(s, e).Ok? <==> w.HandedOver?
            case WriterUnlocks => Step(s, e).Ok? <==> w.HandoverDone?
            case _ => true
  {
    hide Run, Layout, Conserved, FlusherOk, Rollback, Put, Durable, ActiveNodes, StepFlusher;
    var ch, fl := RunKeeps(file0, es);
    var _, _ := StepKeeps(file0, s, e, ch, fl);
  }

  /** In every reachable running state a flusher can take its next step, and its callback or its transaction can fail,
      whatever the writer is doing; only the mutex makes it wait. A callback may have written any bytes of its
      request's region. */
  lemma {:induction false} FlusherStepIsPossible(file0: File, es: seq<Event>, s: State, e: Event)
    requires Run(Init(file0), es) == Ok(s) && s.proc.Up?
    ensures s.proc.flusher.Visiting? && s.proc.flusher.cur != NULL ==> s.proc.flusher.cur in s.pool.heap
    ensures var f := s.proc.flusher;
            match e
            case FlusherLocks => Step(s, e).Ok? <==> s.proc.lock.Unlocked?
            case CallbackWrites(part) =>
              Step(s, e).Ok? <==>
                && f.Visiting? && f.cur != NULL
                && var r := s.pool.heap[f.cur].payload;
                   forall x :: x in part ==> r.offset <= x < r.offset + |r.data|
            case CallbackContinues => Step(s, e).Ok? <==> f.Visiting? && f.cur != NULL
            case CallbackAborts => Step(s, e).Ok? <==> f.Visiting? && f.cur != NULL
            case CallbackThrows => Step(s, e).Ok? <==> f.Visiting? && f.cur != NULL
            case BeginFree => Step(s, e).Ok? <==> f.Visiting? && f.cur == NULL
            case FreeNode => Step(s, e).Ok? <==> f.Freeing? && f.cur != NULL
            case ClearFlushing => Step(s, e).Ok? <==> f.Freeing? && f.cur == NULL
            case FreeCommits => Step(s, e).Ok? <==> f.FreeStored?
            case FreeAborts => Step(s, e).Ok? <==> f.Freeing? || f.FreeStored?
            case FlusherUnlocks => Step(s, e).Ok? <==> f.FlushDone?
            case _ => true
  {
    hide Run, Layout, Conserved, LogOk, WriterOk, Holds, Delivered, Payloads, Rollback, Put, Durable, ActiveNodes;
    hide StepWriter, Image;
    var ch, fl := RunKeeps(file0, es);
    var _, _ := StepKeeps(file0, s, e, ch, fl);
    PointersAllocated(file0, s, ch, fl);
  }

  /** The pointers that recovery and a running flusher follow. */
  lemma PointersAllocated(file0: File, s: State, ch: seq<Addr>, fl: seq<Addr>)
    requires Inv(file0, s, ch, fl)
    ensures s.proc.Recovering? ==> s.proc.tail in s.pool.heap
    ensures s.proc.Up? && s.proc.flusher.Visiting? && s.proc.flusher.cur != NULL ==> s.proc.flusher.cur in s.pool.heap
  {
    hide Layout, Conserved, LogOk, Holds, Delivered;
    if s.proc.Recovering? {
      var i :| 0 <= i < |ch| && ch[i] == s.proc.tail;
      ActiveLink(s.pool, ch, fl, i);
    } else if s.proc.Up? && s.proc.flusher.Visiting? && s.proc.flusher.cur != NULL {
      DurableOutsideHandover(file0, s, ch, fl);
      FlushingLink(s.pool, ch, fl, s.proc.flusher.visited);
    }
  }

  // ---------- The history read off the events ----------

  /** The requests whose allocation committed. */
  function Writes(es: seq<Event>): seq<Request> {
    if es == [] then []
    else
      var last := es[|es| - 1];
      Writes(es[..|es| - 1]) + if last.Allocate? then [last.req] else []
  }

  lemma {:induction false} LogIsTrace(file0: File, es: seq<Event>)
    requires Run(Init(file0), es).Ok?
    ensures var l := Run(Init(file0), es).state.log;
            && Items(l.commits) == Writes(es)
            && l.crashes == multiset(es)[Crash] && |l.returned| == multiset(es)[ReturnZero]
    decreases |es|
  {
    if es != [] {
      hide Step;
      var pre, e := es[..|es| - 1], es[|es| - 1];
      LogIsTrace(file0, pre);
      CountLast(es, Crash);
      CountLast(es, ReturnZero);
      StepLogs(Run(Init(file0), pre).state, e);
    }
  }

  lemma StepLogs(s: State, e: Event)
    requires Step(s, e).Ok?
    ensures var l, l' := s.log, Step(s, e).state.log;
            && Items(l'.commits) == Items(l.commits) + (if e.Allocate? then [e.req] else [])
            && l'.crashes == l.crashes + (if e.Crash? then 1 else 0)
            && |l'.returned| == |l.returned| + (if e.ReturnZero? then 1 else 0)
  {
    hide Durable, Put, Rollback, Payloads, Image, Items, StepFlusher, StepWriter;
    if s.proc.Up? && !e.Crash? && Step(s, e) == StepFlusher(s, e) {
      FlusherLogs(s, e);
    } else if s.proc.Up? && !e.Crash? {
      WriterLogs(s, e);
    }
  }

  lemma FlusherLogs(s: State, e: Event)
    requires s.proc.Up? && StepFlusher(s, e).Ok?
    ensures !e.Allocate? && !e.ReturnZero? && !e.Crash?
    ensures var l, l' := s.log, StepFlusher(s, e).state.log;
            l'.commits == l.commits && l'.crashes == l.crashes && l'.returned == l.returned
  {
    hide Put, Rollback, Payloads, Image;
  }

  lemma WriterLogs(s: State, e: Event)
    requires s.proc.Up? && StepWriter(s, e).Ok?
    ensures var l, l' := s.log, StepWriter(s, e).state.log;
            && Items(l'.commits) == Items(l.commits) + (if e.Allocate? then [e.req] else [])
            && l'.crashes == l.crashes
            && |l'.returned| == |l.returned| + (if e.ReturnZero? then 1 else 0)
  {
    hide Put, Rollback;
    var l, l' := s.log, StepWriter(s, e).state.log;
    if e.Allocate? {
      RecordAdds(l.commits, e.req);
    } else if e.ReturnZero? {
      MarkLastItems(l.commits);
    }
  }

  // ---------- Conservation ----------

  /** Freed, then flushing, then active requests are exactly the committed writes, in order. */
  lemma {:induction false} WritesAreConserved(file0: File, es: seq<Event>, s: State, ch: seq<Addr>, fl: seq<Addr>)
    requires Run(Init(file0), es) == Ok(s) && Lists(Durable(s), ch, fl)
    ensures s.log.freed + Payloads(Durable(s).heap, fl) + Payloads(Durable(s).heap, Rest(ch)) == Writes(es)
  {
    InvOfReachable(file0, es, s, ch, fl);
    LogIsTrace(file0, es);
  }

  /** The backing file overlaid by both lists is the initial file with every committed write applied directly. */
  lemma {:induction false} FileIsConserved(file0: File, es: seq<Event>, s: State, ch: seq<Addr>, fl: seq<Addr>)
    requires Run(Init(file0), es) == Ok(s) && Lists(Durable(s), ch, fl)
    ensures Apply(Apply(s.file, Payloads(Durable(s).heap, fl)), Payloads(Durable(s).heap, Rest(ch)))
         == Apply(file0, Writes(es))
  {
    InvOfReachable(file0, es, s, ch, fl);
    LogIsTrace(file0, es);
  }

  /** The writes that returned 0 are committed writes, in order; committed writes that never returned are
      at most one for each crash, besides the one being returned right now. */
  lemma {:induction false} ReturnedWritesAreCommitted(file0: File, es: seq<Event>, s: State)
    requires Run(Init(file0), es) == Ok(s)
    ensures s.log.returned == Returned(s.log.commits)
    ensures |Writes(es)| <= multiset(es)[ReturnZero] + multiset(es)[Crash] + (if Pending(s.proc) then 1 else 0)
  {
    var _, _ := RunKeeps(file0, es);
    LogIsTrace(file0, es);
    CommitsSplit(s.log.commits);
  }

  // ---------- Shape ----------

  /** No leak: the allocated nodes are the sentinel and the nodes of the two lists, each met once. */
  lemma {:induction false} NoLeak(file0: File, es: seq<Event>, s: State, ch: seq<Addr>, fl: seq<Addr>)
    requires Run(Init(file0), es) == Ok(s) && Lists(Durable(s), ch, fl)
    ensures forall a :: a in s.pool.heap <==> a in ch || a in fl
    ensures Distinct(ch) && Distinct(fl) && Disjoint(ch, fl)
    ensures s.proc.Up? ==> ch != []
  {
    InvOfReachable(file0, es, s, ch, fl);
    hide ProcOk, LogOk, Conserved, IsList, Distinct, Disjoint;
    SameAllocation(file0, s, ch, fl);
  }

  lemma SameAllocation(file0: File, s: State, ch: seq<Addr>, fl: seq<Addr>)
    requires Inv(file0, s, ch, fl)
    ensures s.pool.heap.Keys == Durable(s).heap.Keys
    ensures s.proc.Up? ==> ch != []
  {
    hide Layout, LogOk, Conserved, Holds, Delivered;
    if s.proc.Up? {
      if s.proc.writer.HandoverTx? {
        HandoverTxPool(file0, s, ch, fl);
      } else {
        DurableOutsideHandover(file0, s, ch, fl);
      }
    }
  }

  /** The free-all transaction commits with every node of the flushing list recorded exactly once. */
  lemma {:induction false} FreesEachNodeOnce(file0: File, es: seq<Event>, s: State, ch: seq<Addr>, fl: seq<Addr>)
    requires Run(Init(file0), es) == Ok(s) && Lists(Durable(s), ch, fl)
    ensures s.proc.Up? && s.proc.flusher.FreeStored? ==> s.proc.flusher.tx.frees == fl && Distinct(fl)
  {
    InvOfReachable(file0, es, s, ch, fl);
  }

  /** Whenever the writer can append, `tail_` is the last node of the active list, its `next` is null and it is
      not a flushing node. */
  lemma WriterAppendsAtTheEnd(file0: File, es: seq<Event>, s: State, ch: seq<Addr>, fl: seq<Addr>)
    requires Run(Init(file0), es) == Ok(s) && Lists(Durable(s), ch, fl)
    requires s.proc.Up? && s.proc.writer.Idle?
    ensures s.proc.tail in s.pool.heap && s.pool.heap[s.proc.tail].next == NULL
    ensures ch != [] && s.proc.tail == ch[|ch| - 1] && s.proc.tail !in fl
  {
    InvOfReachable(file0, es, s, ch, fl);
    hide LogOk, Conserved, FlusherOk, Lists, Run;
    DurableOutsideHandover(file0, s, ch, fl);
    ActiveLink(Durable(s), ch, fl, |ch| - 1);
  }

  /** `tail_` is reachable from `flushing` only while the writer, holding the mutex, is between the start of
      the handover transaction and the reset of `tail_`. */
  lemma TailIsFlushingOnlyInHandover(file0: File, es: seq<Event>, s: State, now: seq<Addr>)
    requires Run(Init(file0), es) == Ok(s) && s.proc.Up?
    requires IsList(s.pool.heap, s.pool.flushing, now) && s.proc.tail in now
    ensures s.proc.lock.HeldByWriter? && (s.proc.writer.HandoverTx? || s.proc.writer.HandedOver?)
  {
    var ch, fl := RunKeeps(file0, es);
    hide LogOk, Conserved, Holds, Delivered, Run;
    if !s.proc.writer.HandoverTx? && !s.proc.writer.HandedOver? {
      DurableOutsideHandover(file0, s, ch, fl);
      if s.proc.flusher.FreeStored? {
        ListUnique(s.pool.heap, NULL, now, []);
      } else {
        ListUnique(s.pool.heap, s.pool.flushing, now, fl);
      }
      assert false;
    }
  }

  // ---------- Recovery ----------

  /** The events of runtimeInitialize on a pool that has its sentinel and `n` further active nodes. */
  function Recovery(n: nat): seq<Event> {
    [BeginWalk] + seq(n, _ => Walk) + [StartThreads]
  }

  lemma {:induction false} RunSplit(s: State, es: seq<Event>, fs: seq<Event>)
    requires Run(s, es).Ok?
    ensures Run(s, es + fs) == Run(Run(s, es).state, fs)
    decreases |fs|
  {
    hide Step;
    if fs == [] {
      assert es + fs == es;
    } else {
      var k := |fs| - 1;
      assert (es + fs)[..|es| + k] == es + fs[..k];
      RunSplit(s, es, fs[..k]);
    }
  }

  lemma {:induction false} WalkReaches(s: State, ch: seq<Addr>, fl: seq<Addr>, n: nat)
    requires s.proc.Down? && Layout(s.pool, ch, fl) && n < |ch|
    ensures Run(s, [BeginWalk] + seq(n, _ => Walk)) == Ok(s.(proc := Recovering(ch[n])))
    decreases n
  {
    hide Layout, StepWriter, StepFlusher, Durable;
    ActiveLink(s.pool, ch, fl, n);
    var es := [BeginWalk] + seq(n, _ => Walk);
    if n == 0 {
      assert es == [BeginWalk] && es[..0] == [];
    } else {
      ActiveLink(s.pool, ch, fl, n - 1);
      WalkReaches(s, ch, fl, n - 1);
      assert es[..|es| - 1] == [BeginWalk] + seq(n - 1, _ => Walk);
      assert es[|es| - 1] == Walk;
    }
  }

  lemma RecoveryRun(s: State, ch: seq<Addr>, fl: seq<Addr>)
    requires s.proc.Down? && Layout(s.pool, ch, fl) && ch != []
    ensures Run(s, Recovery(|ch| - 1)) == Ok(s.(proc := Up(ch[|ch| - 1], Unlocked, Idle, NoFlusher)))
  {
    hide Layout, StepWriter, StepFlusher, Durable;
    var walk := [BeginWalk] + seq(|ch| - 1, _ => Walk);
    WalkReaches(s, ch, fl, |ch| - 1);
    ActiveLink(s.pool, ch, fl, |ch| - 1);
    assert Recovery(|ch| - 1)[..|walk|] == walk;
  }

  /** Restarting after a crash leaves persistent memory as it is and finds the last active node. */
  lemma RecoveryFindsTail(file0: File, es: seq<Event>, s: State, ch: seq<Addr>, fl: seq<Addr>)
    requires Run(Init(file0), es) == Ok(s) && s.proc.Down? && Lists(s.pool, ch, fl) && s.pool.active != NULL
    ensures ch != [] && Run(s, Recovery(|ch| - 1)) == Ok(s.(proc := Up(ch[|ch| - 1], Unlocked, Idle, NoFlusher)))
  {
    InvOfReachable(file0, es, s, ch, fl);
    hide Run;
    RecoveryRun(s, ch, fl);
  }

  /** Before the sentinel exists nothing is allocated, and creating it is all that recovery adds. */
  lemma RecoveryCreatesSentinel(file0: File, es: seq<Event>, s: State, a: Addr)
    requires Run(Init(file0), es) == Ok(s) && s.proc.Down? && s.pool.active == NULL && a != NULL
    ensures s.pool == Pool(map[], NULL, NULL)
    ensures Step(s, CreateSentinel(a)) == Ok(s.(pool := Pool(map[a := Node(NULL, Request(0, ""))], a, NULL)))
  {
    var ch, fl := RunKeeps(file0, es);
    if ch != [] {
      ActiveLink(s.pool, ch, fl, 0);
    }
  }

  /** The writer has no update of `tail_` outstanding. */
  predicate Settled(u: Process) {
    u.Up? && !u.writer.Linked? && !u.writer.HandedOver?
  }

  /** In every reachable state the active list is the one the events tell: crashes, restarts, aborts, failures and
      flushes leave it alone. A settled `tail_` is its last node. */
  lemma {:induction false} ActiveListIsTold(file0: File, es: seq<Event>, s: State)
    requires Run(Init(file0), es) == Ok(s)
    ensures IsList(Durable(s).heap, Durable(s).active, ActiveNodes(es))
    ensures s.proc.Up? && !s.proc.writer.Linked? && !s.proc.writer.HandedOver? ==>
              && Settled(s.proc) && ActiveNodes(es) != []
              && s.proc.tail == ActiveNodes(es)[|ActiveNodes(es)| - 1]
  {
    hide Run, Durable, LogOk, Conserved, FlusherOk, ActiveNodes;
    var ch, fl := RunKeeps(file0, es);
  }

  /** The events that commit something to the active list: sentinel, writes and handovers. */
  function Committed(es: seq<Event>): seq<Event> {
    if es == [] then []
    else
      var last := es[|es| - 1];
      Committed(es[..|es| - 1])
      + if last.CreateSentinel? || last.Allocate? || last.HandoverCommits? then [last] else []
  }

  /** Nothing but these three events counts. */
  lemma CommittedSnoc(es: seq<Event>, e: Event)
    ensures Committed(es + [e])
         == Committed(es) + match e
                            case CreateSentinel(_) => [e]
                            case Allocate(_, _) => [e]
                            case HandoverCommits => [e]
                            case _ => []
  {
    assert (es + [e])[..|es|] == es;
  }

  lemma {:induction false} OnlyCommittedMatters(es: seq<Event>)
    ensures ActiveNodes(Committed(es)) == ActiveNodes(es)
    decreases |es|
  {
    if es != [] {
      hide ActiveNodes, Committed;
      var pre, e := es[..|es| - 1], es[|es| - 1];
      OnlyCommittedMatters(pre);
      ActiveNodesSnoc(pre, e);
      ActiveNodesSnoc(Committed(pre), e);
      assert pre + [e] == es;
      CommittedSnoc(pre, e);
      if e.CreateSentinel? || e.Allocate? || e.HandoverCommits? {
        assert Committed(es) == Committed(pre) + [e];
      } else {
        assert Committed(es) == Committed(pre);
      }
    }
  }

  lemma ActiveNodesSnoc(es: seq<Event>, e: Event)
    ensures ActiveNodes(es + [e]) == NextActive(ActiveNodes(es), e)
  {
    assert (es + [e])[..|es|] == es;
  }

  /** Recovery yields the `tail_` of a run without crashes: two runs with the same committed writes and handovers have
      the same active list and, once settled, the same `tail_`, whatever crashes, restarts, aborts, failures and
      flushes happened in either. */
  lemma {:induction false} TailIsDetermined(file1: File, es1: seq<Event>, s1: State,
                                            file2: File, es2: seq<Event>, s2: State)
    requires Run(Init(file1), es1) == Ok(s1) && Run(Init(file2), es2) == Ok(s2)
    requires Committed(es1) == Committed(es2)
    ensures IsList(Durable(s1).heap, Durable(s1).active, ActiveNodes(es1))
    ensures IsList(Durable(s2).heap, Durable(s2).active, ActiveNodes(es1))
    ensures Settled(s1.proc) && Settled(s2.proc) ==> s1.proc.tail == s2.proc.tail
  {
    hide Run, Durable, ActiveNodes, Committed, IsList;
    ActiveListIsTold(file1, es1, s1);
    ActiveListIsTold(file2, es2, s2);
    OnlyCommittedMatters(es1);
    OnlyCommittedMatters(es2);
  }

  /** From any crash state, recovery yields the `tail_` that a settled run with the same committed writes and handovers
      has, in particular one that never crashed. */
  lemma {:induction false} RecoveryYieldsTailOfCrashFreeRun(file1: File, es1: seq<Event>, s1: State,
                                                            file2: File, es2: seq<Event>, s2: State)
    requires Run(Init(file1), es1) == Ok(s1) && s1.proc.Down? && s1.pool.active != NULL
    requires Run(Init(file2), es2) == Ok(s2) && Settled(s2.proc)
    requires Committed(es1) == Committed(es2)
    ensures ActiveNodes(es1) != []
    ensures var r := Run(s1, Recovery(|ActiveNodes(es1)| - 1));
            r.Ok? && r.state.pool == s1.pool && r.state.proc == Up(s2.proc.tail, Unlocked, Idle, NoFlusher)
  {
    hide Run, Durable, ActiveNodes, Committed, Recovery, LogOk, Conserved, ProcOk;
    var ch, fl := RunKeeps(file1, es1);
    assert Durable(s1) == s1.pool by { DurableDown(s1); }
    RecoveryFindsTail(file1, es1, s1, ch, fl);
    ActiveListIsTold(file2, es2, s2);
    OnlyCommittedMatters(es1);
    OnlyCommittedMatters(es2);
  }

  lemma DurableDown(s: State)
    requires s.proc.Down?
    ensures Durable(s) == s.pool
  {
  }

  /** What was committed, without the addresses that the allocator chose. */
  datatype Commitment = Sentinel | Write(req: Request) | Handover

  function Commitments(es: seq<Event>): seq<Commitment> {
    if es == [] then []
    else
      Commitments(es[..|es| - 1]) + match es[|es| - 1]
                                    case CreateSentinel(_) => [Sentinel]
                                    case Allocate(req, _) => [Write(req)]
                                    case HandoverCommits => [Handover]
                                    case _ => []
  }

  /** The number of nodes in the active list and the writes so far, told from the commitments. */
  function ActiveLength(cs: seq<Commitment>): nat {
    if cs == [] then 0
    else
      var n := ActiveLength(cs[..|cs| - 1]);
      match cs[|cs| - 1]
      case Sentinel => 1
      case Write(_) => n + 1
      case Handover => if n == 0 then 0 else 1
  }

  function WritesOf(cs: seq<Commitment>): seq<Request> {
    if cs == [] then []
    else WritesOf(cs[..|cs| - 1]) + match cs[|cs| - 1] case Write(req) => [req] case _ => []
  }

  lemma {:induction false} CommitmentsTell(es: seq<Event>)
    ensures |ActiveNodes(es)| == ActiveLength(Commitments(es)) && Writes(es) == WritesOf(Commitments(es))
    decreases |es|
  {
    if es != [] {
      var pre := es[..|es| - 1];
      CommitmentsTell(pre);
      hide ActiveLength, WritesOf;
      var cs := Commitments(pre);
      assert cs + [] == cs;
      match es[|es| - 1]
      case CreateSentinel(_) => CommitmentSnoc(cs, Sentinel);
      case Allocate(req, _) => CommitmentSnoc(cs, Write(req));
      case HandoverCommits => CommitmentSnoc(cs, Handover);
      case _ =>
    }
  }

  lemma CommitmentSnoc(cs: seq<Commitment>, c: Commitment)
    ensures ActiveLength(cs + [c]) == match c
                                      case Sentinel => 1
                                      case Write(_) => ActiveLength(cs) + 1
                                      case Handover => if ActiveLength(cs) == 0 then 0 else 1
    ensures WritesOf(cs + [c]) == WritesOf(cs) + if c.Write? then [c.req] else []
  {
    assert (cs + [c])[..|cs|] == cs;
  }

  /** Wherever the allocator put the nodes: the active requests are the last writes, as many as were committed since the
      latest handover. Runs with the same committed writes and handovers therefore hold the same requests. */
  lemma {:induction false} ActiveRequestsAreTold(file0: File, es: seq<Event>, s: State)
    requires Run(Init(file0), es) == Ok(s)
    ensures var cs := Commitments(es);
            var n, ws := if ActiveLength(cs) == 0 then 0 else ActiveLength(cs) - 1, WritesOf(cs);
            n <= |ws| && Payloads(Durable(s).heap, Rest(ActiveNodes(es))) == ws[|ws| - n..]
  {
    hide Run, Durable, LogOk, ProcOk, IsList, Distinct, Disjoint, ActiveNodes, Commitments, Apply;
    var ch, fl := RunKeeps(file0, es);
    CommitmentsTell(es);
    LogIsTrace(file0, es);
    SuffixOf(s.log.freed + Payloads(Durable(s).heap, fl), Payloads(Durable(s).heap, Rest(ch)));
    RestAllocated(Durable(s), ch, fl);
  }

  lemma RestAllocated(p: Pool, ch: seq<Addr>, fl: seq<Addr>)
    requires Layout(p, ch, fl)
    ensures |Payloads(p.heap, Rest(ch))| == if ch == [] then 0 else |ch| - 1
  {
    hide IsList, Distinct, Disjoint;
    assert Allocated(p.heap, Rest(ch));
  }

  lemma SuffixOf<T>(a: seq<T>, b: seq<T>)
    ensures (a + b)[|a + b| - |b|..] == b
  {
  }

  /** Crashing and recovering in any running state changes neither persistent memory nor a settled `tail_`;
      doing it twice is doing it once. */
  lemma CrashRecoverKeeps(file0: File, es: seq<Event>, s: State, ch: seq<Addr>, fl: seq<Addr>)
    requires Run(Init(file0), es) == Ok(s) && Lists(Durable(s), ch, fl) && s.proc.Up?
    ensures ch != []
    ensures var r := Run(s, [Crash] + Recovery(|ch| - 1));
            && r.Ok? && r.state.pool == Durable(r.state) == Durable(s) && r.state.file == s.file
            && r.state.proc == Up(ch[|ch| - 1], Unlocked, Idle, NoFlusher)
            && (Settled(s.proc) ==> r.state.proc.tail == s.proc.tail)
  {
    InvOfReachable(file0, es, s, ch, fl);
    hide StepWriter, StepFlusher, LogOk, Conserved, Layout, FlusherOk;
    var down := Step(s, Crash).state;
    ActiveLink(Durable(s), ch, fl, 0);
    assert Run(s, [Crash]) == Ok(down) by { assert [Crash][..0] == []; }
    RunSplit(Init(file0), es, [Crash]);
    RecoveryFindsTail(file0, es + [Crash], down, ch, fl);
    RunSplit(s, [Crash], Recovery(|ch| - 1));
  }
}

/** The persistent burst buffer as a step system: one writer thread, any number of flusher threads
    (a flusher that does not hold `flush_mutex_` has no local state), crashes and restarts.
    Each step is one shared access of the program, one callback, or one library call. */
module BurstBufferSteps {
  import opened History
  import opened LinkedHeap

  datatype Request = Request(offset: int, data: string)

  // ---------- The backing file written by the flush callback ----------

  type File = map<int, char>

  /** The bytes one request puts into the file. */
  function Image(r: Request): (f: File)
    ensures forall x :: x in f <==> r.offset <= x < r.offset + |r.data|
    ensures forall x :: x in f ==> f[x] == r.data[x - r.offset]
    decreases |r.data|
  {
    if r.data == "" then map[]
    else
      var k := |r.data| - 1;
      Image(r.(data := r.data[..k]))[r.offset + k := r.data[k]]
  }

  /** The file after writing the requests in order. */
  function Apply(f: File, rs: seq<Request>): File
    decreases |rs|
  {
    if rs == [] then f else Apply(f + Image(rs[0]), rs[1..])
  }

  // ---------- Persistent memory and transactions ----------

  datatype Pool = Pool(heap: Heap<Request>, active: Addr, flushing: Addr)

  /** The persistent cells that a transaction of this program overwrites. */
  datatype Cell = FlushingCell | NextCell(node: Addr)

  datatype Undo = Undo(cell: Cell, before: Addr)

  /** An open transaction: snapshots taken before each store, and frees deferred to the commit. */
  datatype Tx = Tx(undo: seq<Undo>, frees: seq<Addr>)

  function Put(p: Pool, c: Cell, v: Addr): Pool {
    match c
    case FlushingCell => p.(flushing := v)
    case NextCell(a) => if a in p.heap then p.(heap := p.heap[a := p.heap[a].(next := v)]) else p
  }

  /** Undoes the snapshots, latest first. */
  function Rollback(p: Pool, undo: seq<Undo>): Pool
    decreases |undo|
  {
    if undo == [] then p
    else
      var last := undo[|undo| - 1];
      Rollback(Put(p, last.cell, last.before), undo[..|undo| - 1])
  }

  // ---------- Threads ----------

  datatype WriterPc =
    | Idle
    | Linked(req: Request)        // the new node hangs off tail_, tail_ not advanced yet
    | Advanced(req: Request)      // about to return 0
    | HandoverLocked              // holds flush_mutex_, flushing not examined yet
    | HandoverTx(tx: Tx, stores: nat)
    | HandedOver                  // transaction committed, tail_ still the old one
    | HandoverDone                // about to release flush_mutex_

  datatype FlusherPc =
    | NoFlusher                   // no flusher holds flush_mutex_
    | Visiting(cur: Addr, visited: nat)
    | Freeing(cur: Addr, tx: Tx)
    | FreeStored(tx: Tx)
    | FlushDone                   // about to release flush_mutex_

  datatype Lock = Unlocked | HeldByWriter | HeldByFlusher

  datatype Process =
    | Down
    | Recovering(tail: Addr)
    | Up(tail: Addr, lock: Lock, writer: WriterPc, flusher: FlusherPc)

  // ---------- History ----------

  datatype Log = Log(commits: seq<Commit<Request>>, returned: seq<Request>, freed: seq<Request>, crashes: nat)

  // ---------- Steps ----------

  datatype State = State(pool: Pool, proc: Process, file: File, log: Log)

  /** Blocked: the step is not possible here. Fault: it would use a null, dangling or freed pointer. */
  datatype Outcome = Blocked | Fault | Ok(state: State)

  datatype Event =
    // runtimeInitialize
    | CreateSentinel(a: Addr) | SentinelFails | BeginWalk | Walk | StartThreads
    // tryPwrite
    | Allocate(req: Request, a: Addr) | AllocationFails | AdvanceTail | ReturnZero
    // tryEnqueueFlush
    | WriterLocks | WriterChecks | HandoverStore | HandoverCommits | HandoverAborts | ResetTail | WriterUnlocks
    // flushAll
    | FlusherLocks | CallbackWrites(part: File) | CallbackContinues | CallbackAborts | CallbackThrows
    | BeginFree | FreeNode | ClearFlushing | FreeCommits | FreeAborts | FlusherUnlocks
    | Crash

  function Init(file: File): State {
    State(Pool(map[], NULL, NULL), Down, file, Log([], [], [], 0))
  }

  /** Persistent memory as the next open finds it if the process dies now. */
  function Durable(s: State): Pool {
    if s.proc.Up? then
      var p := if s.proc.writer.HandoverTx? then Rollback(s.pool, s.proc.writer.tx.undo) else s.pool;
      if s.proc.flusher.Freeing? || s.proc.flusher.FreeStored? then Rollback(p, s.proc.flusher.tx.undo) else p
    else s.pool
  }

  function Step(s: State, e: Event): Outcome {
    if e.Crash? then
      Ok(s.(pool := Durable(s), proc := Down, log := s.log.(crashes := s.log.crashes + 1)))
    else match s.proc
      case Down => StepDown(s, e)
      case Recovering(_) => StepRecovering(s, e)
      case Up(_, _, _, _) =>
        if e.FlusherLocks? || e.CallbackWrites? || e.CallbackContinues? || e.CallbackAborts? || e.CallbackThrows?
           || e.BeginFree? || e.FreeNode? || e.ClearFlushing? || e.FreeCommits? || e.FreeAborts? || e.FlusherUnlocks?
        then StepFlusher(s, e)
        else StepWriter(s, e)
  }

  function StepDown(s: State, e: Event): Outcome
    requires s.proc.Down?
  {
    var p := s.pool;
    match e
    case CreateSentinel(a) =>
      if p.active == NULL && a != NULL && a !in p.heap
      then Ok(s.(pool := p.(active := a, heap := p.heap[a := Node(NULL, Request(0, ""))])))
      else Blocked
    case SentinelFails => if p.active == NULL then Ok(s) else Blocked
    case BeginWalk => if p.active != NULL then Ok(s.(proc := Recovering(p.active))) else Blocked
    case _ => Blocked
  }

  function StepRecovering(s: State, e: Event): Outcome
    requires s.proc.Recovering?
  {
    var t := s.proc.tail;
    match e
    case Walk =>
      if t !in s.pool.heap then Fault
      else if s.pool.heap[t].next == NULL then Blocked
      else Ok(s.(proc := Recovering(s.pool.heap[t].next)))
    case StartThreads =>
      if t !in s.pool.heap then Fault
      else if s.pool.heap[t].next != NULL then Blocked
      else Ok(s.(proc := Up(t, Unlocked, Idle, NoFlusher)))
    case _ => Blocked
  }

  function StepWriter(s: State, e: Event): Outcome
    requires s.proc.Up?
  {
    var p, u, l := s.pool, s.proc, s.log;
    match e
    case Allocate(req, a) =>
      if !u.writer.Idle? || a == NULL || a in p.heap then Blocked
      else if u.tail !in p.heap then Fault
      else Ok(s.(pool := p.(heap := p.heap[u.tail := p.heap[u.tail].(next := a)][a := Node(NULL, req)]),
                 proc := u.(writer := Linked(req)),
                 log := l.(commits := Record(l.commits, req))))
    case AllocationFails => if u.writer.Idle? then Ok(s) else Blocked
    case AdvanceTail =>
      if !u.writer.Linked? then Blocked
      else if u.tail !in p.heap then Fault
      else Ok(s.(proc := u.(tail := p.heap[u.tail].next, writer := Advanced(u.writer.req))))
    case ReturnZero =>
      if !u.writer.Advanced? || l.commits == [] then Blocked
      else Ok(s.(proc := u.(writer := Idle),
                 log := l.(returned := l.returned + [u.writer.req], commits := MarkLast(l.commits))))
    case WriterLocks =>
      if u.writer.Idle? && u.lock.Unlocked?
      then Ok(s.(proc := u.(lock := HeldByWriter, writer := HandoverLocked))) else Blocked
    case WriterChecks =>
      if !u.writer.HandoverLocked? then Blocked
      else if p.flushing != NULL then Ok(s.(proc := u.(writer := HandoverDone)))
      else Ok(s.(proc := u.(writer := HandoverTx(Tx([], []), 0))))
    case HandoverStore =>
      if !u.writer.HandoverTx? || u.writer.stores >= 2 then Blocked
      else if p.active !in p.heap then Fault
      else if u.writer.stores == 0 then
        var undo := u.writer.tx.undo + [Undo(FlushingCell, p.flushing)];
        Ok(s.(pool := Put(p, FlushingCell, p.heap[p.active].next),
              proc := u.(writer := HandoverTx(Tx(undo, u.writer.tx.frees), 1))))
      else
        var undo := u.writer.tx.undo + [Undo(NextCell(p.active), p.heap[p.active].next)];
        Ok(s.(pool := Put(p, NextCell(p.active), NULL),
              proc := u.(writer := HandoverTx(Tx(undo, u.writer.tx.frees), 2))))
    case HandoverCommits =>
      if u.writer.HandoverTx? && u.writer.stores == 2 then Ok(s.(proc := u.(writer := HandedOver))) else Blocked
    case HandoverAborts =>
      if u.writer.HandoverTx?
      then Ok(s.(pool := Rollback(p, u.writer.tx.undo), proc := u.(writer := HandoverDone))) else Blocked
    case ResetTail =>
      if u.writer.HandedOver? then Ok(s.(proc := u.(tail := p.active, writer := HandoverDone))) else Blocked
    case WriterUnlocks =>
      if u.writer.HandoverDone? then Ok(s.(proc := u.(lock := Unlocked, writer := Idle))) else Blocked
    case _ => Blocked
  }

  function StepFlusher(s: State, e: Event): Outcome
    requires s.proc.Up?
  {
    var p, u, l := s.pool, s.proc, s.log;
    match e
    case FlusherLocks =>
      if u.flusher.NoFlusher? && u.lock.Unlocked?
      then Ok(s.(proc := u.(lock := HeldByFlusher, flusher := Visiting(p.flushing, 0)))) else Blocked
    case CallbackWrites(part) =>
      // The callback is under way: any bytes of the region it covers may already be durable.
      if !u.flusher.Visiting? || u.flusher.cur == NULL then Blocked
      else if u.flusher.cur !in p.heap then Fault
      else if part.Keys <= Image(p.heap[u.flusher.cur].payload).Keys then Ok(s.(file := s.file + part)) else Blocked
    case CallbackContinues =>
      if !u.flusher.Visiting? || u.flusher.cur == NULL then Blocked
      else if u.flusher.cur !in p.heap then Fault
      else
        var n := p.heap[u.flusher.cur];
        Ok(s.(file := s.file + Image(n.payload), proc := u.(flusher := Visiting(n.next, u.flusher.visited + 1))))
    case CallbackAborts =>
      if u.flusher.Visiting? && u.flusher.cur != NULL then Ok(s.(proc := u.(flusher := FlushDone))) else Blocked
    case CallbackThrows =>
      if u.flusher.Visiting? && u.flusher.cur != NULL then Ok(s.(proc := u.(flusher := FlushDone))) else Blocked
    case BeginFree =>
      if u.flusher.Visiting? && u.flusher.cur == NULL
      then Ok(s.(proc := u.(flusher := Freeing(p.flushing, Tx([], []))))) else Blocked
    case FreeNode =>
      if !u.flusher.Freeing? || u.flusher.cur == NULL then Blocked
      else if u.flusher.cur !in p.heap || u.flusher.cur in u.flusher.tx.frees then Fault
      else
        var tx := u.flusher.tx;
        Ok(s.(proc := u.(flusher := Freeing(p.heap[u.flusher.cur].next, tx.(frees := tx.frees + [u.flusher.cur])))))
    case ClearFlushing =>
      if !u.flusher.Freeing? || u.flusher.cur != NULL then Blocked
      else
        var tx := u.flusher.tx;
        Ok(s.(pool := Put(p, FlushingCell, NULL),
              proc := u.(flusher := FreeStored(tx.(undo := tx.undo + [Undo(FlushingCell, p.flushing)])))))
    case FreeCommits =>
      if !u.flusher.FreeStored? then Blocked
      else
        var frees := u.flusher.tx.frees;
        if !Allocated(p.heap, frees) then Fault
        else Ok(s.(pool := p.(heap := p.heap - (set a | a in frees)),
                   proc := u.(flusher := FlushDone),
                   log := l.(freed := l.freed + Payloads(p.heap, frees))))
    case FreeAborts =>
      if u.flusher.Freeing? || u.flusher.FreeStored?
      then Ok(s.(pool := Rollback(p, u.flusher.tx.undo), proc := u.(flusher := FlushDone))) else Blocked
    case FlusherUnlocks =>
      if u.flusher.FlushDone? then Ok(s.(proc := u.(lock := Unlocked, flusher := NoFlusher))) else Blocked
    case _ => Blocked
  }

  /** Executes the events in order; the first one that is not possible or faults decides the outcome. */
  function Run(s: State, es: seq<Event>): Outcome {
    if es == [] then Ok(s)
    else match Run(s, es[..|es| - 1])
      case Ok(t) => Step(t, es[|es| - 1])
      case o => o
  }
}

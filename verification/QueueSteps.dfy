/** The persistent queue store by store. Every push and pop runs in one transaction; `before` is what a crash,
    or an exception, brings back. Frees take effect when the transaction commits. */
module QueueSteps {
  import opened History
  import opened LinkedHeap

  datatype Pool = Pool(heap: Heap<int>, head: Addr, tail: Addr)

  datatype Pc =
    | Idle
    | Pushing(v: int, node: Addr, stores: nat, before: Pool)  // 0: begun, 1: allocated, 2: filled, 3/4: linked
    | Popping(ptr: Addr, v: int, stores: nat, before: Pool)   // 1: head advanced, 2: deleted, 3: tail settled
    | Pushed(v: int)                                          // committed, not returned
    | Popped(v: int)

  datatype Op = Push(v: int) | Pop(v: int)

  datatype Log = Log(commits: seq<Commit<Op>>, returned: seq<Op>, crashes: nat)

  datatype State = State(pool: Pool, pc: Pc, log: Log)

  /** Fault: a null, dangling or freed pointer would be followed. */
  datatype Outcome = Blocked | Fault | Ok(state: State)

  datatype Event =
    | BeginPush(v: int) | Allocate(a: Addr)
    | BeginPop | PopThrows
    | TxStore | TxCommit | TxAbort
    | Return | Crash

  function Init(): State {
    State(Pool(map[], NULL, NULL), Idle, Log([], [], 0))
  }

  /** The pool as the next open finds it if the process dies now. */
  function Durable(s: State): Pool {
    if s.pc.Pushing? || s.pc.Popping? then s.pc.before else s.pool
  }

  function Logged(l: Log, o: Op): Log {
    l.(commits := Record(l.commits, o))
  }

  function Answered(l: Log, o: Op): Log
    requires l.commits != []
  {
    l.(commits := MarkLast(l.commits), returned := l.returned + [o])
  }

  function PushStore(s: State): Outcome
    requires s.pc.Pushing?
  {
    var p, a := s.pool, s.pc.node;
    var next := Pushing(s.pc.v, a, s.pc.stores + 1, s.pc.before);
    match s.pc.stores
    case 1 =>
      if a !in p.heap then Fault else Ok(s.(pool := p.(heap := p.heap[a := Node(NULL, s.pc.v)]), pc := next))
    case 2 =>
      if p.head == NULL then Ok(s.(pool := p.(tail := a), pc := next))
      else if p.tail !in p.heap then Fault
      else Ok(s.(pool := p.(heap := p.heap[p.tail := p.heap[p.tail].(next := a)]), pc := next))
    case 3 =>
      if p.head == NULL then Ok(s.(pool := p.(head := a), pc := next)) else Ok(s.(pool := p.(tail := a), pc := next))
    case _ => Blocked
  }

  function PopStore(s: State): Outcome
    requires s.pc.Popping?
  {
    var p := s.pool;
    var next := Popping(s.pc.ptr, s.pc.v, s.pc.stores + 1, s.pc.before);
    match s.pc.stores
    case 0 => if p.head !in p.heap then Fault else Ok(s.(pool := p.(head := p.heap[p.head].next), pc := next))
    case 1 => if s.pc.ptr !in p.heap then Fault else Ok(s.(pc := next))
    case 2 => Ok(s.(pool := if p.head == NULL then p.(tail := NULL) else p, pc := next))
    case _ => Blocked
  }

  function Step(s: State, e: Event): Outcome {
    var p := s.pool;
    match (e, s.pc)
    case (Crash, _) => Ok(State(Durable(s), Idle, s.log.(crashes := s.log.crashes + 1)))
    case (BeginPush(v), Idle) => Ok(s.(pc := Pushing(v, NULL, 0, p)))
    case (Allocate(a), Pushing(v, _, n, b)) =>
      if n == 0 && a != NULL && a !in p.heap
      then Ok(s.(pool := p.(heap := p.heap[a := Node(NULL, 0)]), pc := Pushing(v, a, 1, b))) else Blocked
    case (TxStore, Pushing(_, _, _, _)) => PushStore(s)
    case (BeginPop, Idle) =>
      if p.head == NULL then Blocked
      else if p.head !in p.heap then Fault
      else Ok(s.(pc := Popping(p.head, p.heap[p.head].payload, 0, p)))
    case (PopThrows, Idle) => if p.head == NULL then Ok(s) else Blocked
    case (TxStore, Popping(_, _, _, _)) => PopStore(s)
    case (TxCommit, Pushing(v, _, n, _)) =>
      if n == 4 then Ok(s.(pc := Pushed(v), log := Logged(s.log, Push(v)))) else Blocked
    case (TxCommit, Popping(a, v, n, _)) =>
      if n == 3 then Ok(s.(pool := p.(heap := p.heap - {a}), pc := Popped(v), log := Logged(s.log, Pop(v)))) else Blocked
    case (TxAbort, Pushing(_, _, _, b)) => Ok(s.(pool := b, pc := Idle))
    case (TxAbort, Popping(_, _, _, b)) => Ok(s.(pool := b, pc := Idle))
    case (Return, Pushed(v)) =>
      if s.log.commits == [] then Blocked else Ok(s.(pc := Idle, log := Answered(s.log, Push(v))))
    case (Return, Popped(v)) =>
      if s.log.commits == [] then Blocked else Ok(s.(pc := Idle, log := Answered(s.log, Pop(v))))
    case _ => Blocked
  }

  function Run(es: seq<Event>): Outcome {
    if es == [] then Ok(Init())
    else match Run(es[..|es| - 1])
      case Ok(s) => Step(s, es[|es| - 1])
      case o => o
  }
}

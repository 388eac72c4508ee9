/** The persistent queue refines a FIFO over every run of pushes, pops, aborts and crashes. */
module QueueProofs {
  import opened History
  import opened LinkedHeap
  import opened QueueSteps

  // ---------- FIFO ----------

  function PushedValues(os: seq<Op>): seq<int> {
    if os == [] then []
    else PushedValues(os[..|os| - 1]) + match os[|os| - 1] case Push(v) => [v] case Pop(_) => []
  }

  function PoppedValues(os: seq<Op>): seq<int> {
    if os == [] then []
    else PoppedValues(os[..|os| - 1]) + match os[|os| - 1] case Push(_) => [] case Pop(v) => [v]
  }

  // ---------- Shape ----------

  /** One acyclic chain from head to tail that uses up the heap, or nothing at all. */
  ghost predicate Chain(p: Pool, ns: seq<Addr>) {
    && IsList(p.heap, p.head, ns) && Distinct(ns) && Allocated(p.heap, ns)
    && p.tail == (if ns == [] then NULL else ns[|ns| - 1])
    && forall a :: a in p.heap ==> a in ns
  }

  lemma ChainLink(p: Pool, ns: seq<Addr>, i: nat)
    requires Chain(p, ns) && i < |ns|
    ensures ns[i] != NULL && ns[i] in p.heap && p.heap[ns[i]].next == At(ns, i + 1) && p.head == ns[0]
  {
    assert Link(p.heap, ns, i) && Link(p.heap, ns, 0);
  }

  lemma ChainPayloads(p: Pool, ns: seq<Addr>)
    requires Chain(p, ns)
    ensures Allocated(p.heap, ns) && p.head == At(ns, 0)
  {
  }

  lemma ChainEmpty(p: Pool, ns: seq<Addr>)
    requires Chain(p, ns)
    ensures p.head == NULL <==> ns == []
  {
    if ns != [] {
      ChainLink(p, ns, 0);
    }
  }

  /** The pool once a node for `v` has been linked at the end. */
  function Appended(p: Pool, a: Addr, v: int): Pool
    requires p.head == NULL || p.tail in p.heap
  {
    var h := p.heap[a := Node(NULL, v)];
    if p.head == NULL then Pool(h, a, a) else Pool(h[p.tail := h[p.tail].(next := a)], p.head, a)
  }

  lemma AppendChain(p: Pool, ns: seq<Addr>, a: Addr, v: int)
    requires Chain(p, ns) && a != NULL && a !in p.heap
    ensures p.head == NULL || p.tail in p.heap
    ensures Chain(Appended(p, a, v), ns + [a])
    ensures Payloads(Appended(p, a, v).heap, ns + [a]) == Payloads(p.heap, ns) + [v]
  {
    ChainEmpty(p, ns);
    var q := Appended(p, a, v);
    var ms := ns + [a];
    forall i | 0 <= i < |ms| ensures Link(q.heap, ms, i) {
      assert i < |ns| ==> Link(p.heap, ns, i);
    }
    PayloadsFrame(p.heap, q.heap, ns);
    PayloadsSnoc(q.heap, ns, a);
  }

  /** The pool once the first node is gone. */
  function Removed(p: Pool): Pool
    requires p.head in p.heap
  {
    var next := p.heap[p.head].next;
    Pool(p.heap - {p.head}, next, if next == NULL then NULL else p.tail)
  }

  lemma RemoveChain(p: Pool, ns: seq<Addr>)
    requires Chain(p, ns) && ns != []
    ensures p.head in p.heap && Chain(Removed(p), ns[1..])
    ensures Payloads(p.heap, ns) == [p.heap[p.head].payload] + Payloads(Removed(p).heap, ns[1..])
  {
    hide Payloads, IsList, Distinct, Allocated;
    ChainLink(p, ns, 0);
    if |ns| > 1 {
      ChainLink(p, ns, 1);
    }
    RemoveLinks(p.heap, ns);
    RemovePayloads(p.heap, ns);
  }

  lemma RemoveLinks(h: Heap<int>, ns: seq<Addr>)
    requires ns != [] && IsList(h, ns[0], ns) && Distinct(ns)
    ensures IsList(h - {ns[0]}, At(ns, 1), ns[1..]) && Distinct(ns[1..])
  {
    forall i | 0 <= i < |ns[1..]| ensures Link(h - {ns[0]}, ns[1..], i) {
      assert Link(h, ns, i + 1);
    }
  }

  lemma RemovePayloads(h: Heap<int>, ns: seq<Addr>)
    requires ns != [] && Allocated(h, ns) && Distinct(ns)
    ensures Allocated(h - {ns[0]}, ns[1..])
    ensures Payloads(h, ns) == [h[ns[0]].payload] + Payloads(h - {ns[0]}, ns[1..])
  {
    PayloadsFrame(h, h - {ns[0]}, ns[1..]);
  }

  // ---------- Invariant ----------

  ghost predicate PushOk(s: State)
    requires s.pc.Pushing?
  {
    var p, b, a, v := s.pool, s.pc.before, s.pc.node, s.pc.v;
    match s.pc.stores
    case 0 => p == b
    case _ =>
      && a != NULL && a !in b.heap && (b.head == NULL || b.tail in b.heap)
      && match s.pc.stores
         case 1 => p == b.(heap := b.heap[a := Node(NULL, 0)])
         case 2 => p == b.(heap := b.heap[a := Node(NULL, v)])
         case 3 => p == if b.head == NULL then b.(heap := b.heap[a := Node(NULL, v)], tail := a)
                        else Appended(b, a, v).(tail := b.tail)
         case 4 => p == Appended(b, a, v)
         case _ => false
  }

  ghost predicate PopOk(s: State)
    requires s.pc.Popping?
  {
    var p, b := s.pool, s.pc.before;
    && b.head != NULL && b.head in b.heap && s.pc.ptr == b.head && s.pc.v == b.heap[b.head].payload
    && var next := b.heap[b.head].next;
       match s.pc.stores
       case 0 => p == b
       case 1 => p == b.(head := next)
       case 2 => p == b.(head := next)
       case 3 => p == Pool(b.heap, next, if next == NULL then NULL else b.tail)
       case _ => false
  }

  ghost predicate LogOk(s: State) {
    var l := s.log;
    && l.returned == Returned(l.commits)
    && if s.pc.Pushed? || s.pc.Popped?
       then && Unreturned(l.commits) <= l.crashes + 1 && l.commits != []
            && l.commits[|l.commits| - 1] == Commit(if s.pc.Pushed? then Push(s.pc.v) else Pop(s.pc.v), false)
       else Unreturned(l.commits) <= l.crashes
  }

  ghost predicate Fifo(p: Pool, ns: seq<Addr>, os: seq<Op>) {
    PushedValues(os) == PoppedValues(os) + Payloads(p.heap, ns)
  }

  ghost predicate Inv(s: State, ns: seq<Addr>) {
    && Chain(Durable(s), ns)
    && Fifo(Durable(s), ns, Items(s.log.commits))
    && (s.pc.Pushing? ==> PushOk(s))
    && (s.pc.Popping? ==> PopOk(s))
    && LogOk(s)
  }

  lemma OneMoreOp(os: seq<Op>, o: Op)
    ensures PushedValues(os + [o]) == PushedValues(os) + (if o.Push? then [o.v] else [])
    ensures PoppedValues(os + [o]) == PoppedValues(os) + (if o.Pop? then [o.v] else [])
  {
    assert (os + [o])[..|os|] == os;
  }

  lemma LoggedItems(l: Log, o: Op)
    ensures Items(Logged(l, o).commits) == Items(l.commits) + [o]
    ensures PushedValues(Items(l.commits) + [o]) == PushedValues(Items(l.commits)) + (if o.Push? then [o.v] else [])
    ensures PoppedValues(Items(l.commits) + [o]) == PoppedValues(Items(l.commits)) + (if o.Pop? then [o.v] else [])
    ensures Returned(Logged(l, o).commits) == Returned(l.commits)
    ensures Unreturned(Logged(l, o).commits) == Unreturned(l.commits) + 1
  {
    RecordAdds(l.commits, o);
    OneMoreOp(Items(l.commits), o);
  }

  lemma {:induction false} PushStoreKeeps(s: State, ns: seq<Addr>)
    requires Inv(s, ns) && s.pc.Pushing?
    ensures var r := PushStore(s); !r.Fault? && (r.Ok? ==> Inv(r.state, ns))
  {
    hide Chain, Fifo, Items, Returned, Unreturned;
  }

  lemma PopStoreKeeps(s: State, ns: seq<Addr>)
    requires Inv(s, ns) && s.pc.Popping?
    ensures var r := PopStore(s); !r.Fault? && (r.Ok? ==> Inv(r.state, ns))
  {
    hide Chain, Fifo, Items, Returned, Unreturned;
  }

  lemma BeginKeeps(s: State, e: Event, ns: seq<Addr>)
    requires Inv(s, ns) && (e.BeginPush? || e.Allocate? || e.BeginPop? || e.PopThrows?)
    ensures var r := Step(s, e); !r.Fault? && (r.Ok? ==> Inv(r.state, ns))
  {
    hide Chain, Fifo, Items, Returned, Unreturned, Payloads;
    ChainEmpty(Durable(s), ns);
    if ns != [] {
      ChainLink(Durable(s), ns, 0);
      ChainLink(Durable(s), ns, |ns| - 1);
      ChainTail(Durable(s), ns);
    }
  }

  lemma ChainTail(p: Pool, ns: seq<Addr>)
    requires Chain(p, ns) && ns != []
    ensures p.tail == ns[|ns| - 1]
  {
  }

  lemma PushCommitKeeps(s: State, ns: seq<Addr>)
    requires Inv(s, ns) && s.pc.Pushing? && s.pc.stores == 4
    ensures var r := Step(s, TxCommit); r.Ok? && Inv(r.state, ns + [s.pc.node])
  {
    hide Chain, Items, Returned, Unreturned, PushedValues, PoppedValues, Payloads, Appended;
    AppendChain(s.pc.before, ns, s.pc.node, s.pc.v);
    LoggedItems(s.log, Push(s.pc.v));
  }

  lemma PopCommitKeeps(s: State, ns: seq<Addr>)
    requires Inv(s, ns) && s.pc.Popping? && s.pc.stores == 3
    ensures ns != []
    ensures var r := Step(s, TxCommit); r.Ok? && Inv(r.state, ns[1..])
  {
    hide Chain, Items, Returned, Unreturned, PushedValues, PoppedValues, Payloads;
    ChainEmpty(s.pc.before, ns);
    RemoveChain(s.pc.before, ns);
    LoggedItems(s.log, Pop(s.pc.v));
  }

  lemma RestKeeps(s: State, e: Event, ns: seq<Addr>)
    requires Inv(s, ns) && (e.Crash? || e.TxAbort? || e.Return?)
    ensures var r := Step(s, e); !r.Fault? && (r.Ok? ==> Inv(r.state, ns))
  {
    hide Chain, Items, Returned, Unreturned, PushedValues, PoppedValues, Payloads, PushOk, PopOk, MarkLast;
    if s.pc.Pushed? || s.pc.Popped? {
      MarkLastReturns(s.log.commits);
    }
  }

  lemma StepKeeps(s: State, e: Event, ns: seq<Addr>) returns (ns': seq<Addr>)
    requires Inv(s, ns)
    ensures var r := Step(s, e); !r.Fault? && (r.Ok? ==> Inv(r.state, ns'))
  {
    hide Inv, PushStore, PopStore;
    ns' := ns;
    if e.Crash? || e.TxAbort? || e.Return? {
      RestKeeps(s, e, ns);
    } else if e.TxStore? {
      if s.pc.Pushing? { PushStoreKeeps(s, ns); }
      if s.pc.Popping? { PopStoreKeeps(s, ns); }
    } else if e.TxCommit? {
      if s.pc.Pushing? && s.pc.stores == 4 {
        PushCommitKeeps(s, ns);
        ns' := ns + [s.pc.node];
      }
      if s.pc.Popping? && s.pc.stores == 3 {
        PopCommitKeeps(s, ns);
        ns' := ns[1..];
      }
    } else {
      BeginKeeps(s, e, ns);
    }
  }

  lemma {:induction false} RunKeeps(es: seq<Event>) returns (ns: seq<Addr>)
    ensures !Run(es).Fault? && (Run(es).Ok? ==> Inv(Run(es).state, ns))
    decreases |es|
  {
    hide Step;
    ns := [];
    if es != [] {
      ns := RunKeeps(es[..|es| - 1]);
      var r := Run(es[..|es| - 1]);
      if r.Ok? {
        ns := StepKeeps(r.state, es[|es| - 1], ns);
      }
    }
  }

  // ---------- Theorems ----------

  /** No run follows a null, dangling or freed pointer. */
  lemma NoRunFaults(es: seq<Event>)
    ensures !Run(es).Fault?
  {
    var _ := RunKeeps(es);
  }

  /** The durable chain holds exactly the pushed values that were not popped, first pushed first, so the popped
      values are a prefix of the pushed ones; every allocated node is on the chain, once. */
  lemma QueueIsFifo(es: seq<Event>, s: State, ns: seq<Addr>)
    requires Run(es) == Ok(s) && IsList(Durable(s).heap, Durable(s).head, ns)
    ensures Fifo(Durable(s), ns, Items(s.log.commits))
    ensures Chain(Durable(s), ns)
    ensures PoppedValues(Items(s.log.commits)) <= PushedValues(Items(s.log.commits))
  {
    hide Run;
    var ms := RunKeeps(es);
    ListUnique(Durable(s).heap, Durable(s).head, ms, ns);
  }

  lemma ChainExists(es: seq<Event>, s: State)
    requires Run(es) == Ok(s)
    ensures exists ns :: IsList(Durable(s).heap, Durable(s).head, ns)
  {
    hide Run;
    var ns := RunKeeps(es);
  }

  /** A pop returns what was at the front; popping an empty queue throws and changes nothing. */
  lemma PopTakesTheFront(es: seq<Event>, s: State, ns: seq<Addr>)
    requires Run(es) == Ok(s) && s.pc.Idle? && IsList(s.pool.heap, s.pool.head, ns)
    ensures if ns == [] then Step(s, PopThrows) == Ok(s) && Step(s, BeginPop).Blocked?
            else Step(s, BeginPop).Ok? && [Step(s, BeginPop).state.pc.v] <= Payloads(s.pool.heap, ns)
  {
    hide Run, Chain, Fifo, Items, PushedValues, PoppedValues;
    QueueIsFifo(es, s, ns);
    ChainEmpty(s.pool, ns);
    ChainPayloads(s.pool, ns);
    if ns != [] {
      ChainLink(s.pool, ns, 0);
    }
  }

  /** In every reachable state: between operations a push or pop can begin, popping an empty queue throws, an open
      transaction can go on or fail at every store, and the process may die at any moment. */
  lemma {:induction false} StepIsPossible(es: seq<Event>, s: State, e: Event)
    requires Run(es) == Ok(s)
    ensures Step(s, e).Ok? <==>
              match e
              case BeginPush(_) => s.pc.Idle?
              case Allocate(a) => s.pc.Pushing? && s.pc.stores == 0 && a != NULL && a !in s.pool.heap
              case BeginPop => s.pc.Idle? && s.pool.head != NULL
              case PopThrows => s.pc.Idle? && s.pool.head == NULL
              case TxStore => (s.pc.Pushing? && 1 <= s.pc.stores <= 3) || (s.pc.Popping? && s.pc.stores <= 2)
              case TxCommit => (s.pc.Pushing? && s.pc.stores == 4) || (s.pc.Popping? && s.pc.stores == 3)
              case TxAbort => s.pc.Pushing? || s.pc.Popping?
              case Return => s.pc.Pushed? || s.pc.Popped?
              case Crash => true
  {
    hide Run, Chain, Fifo, Items, Returned, Unreturned;
    var ns := RunKeeps(es);
    var _ := StepKeeps(s, e, ns);
  }

  // ---------- The history read off the events ----------

  /** What the program asks of the queue. */
  datatype Ask = AskPush(v: int) | AskPop

  /** The push or pop begun last. */
  function LastAsk(es: seq<Event>): seq<Ask> {
    if es == [] then []
    else match es[|es| - 1]
      case BeginPush(v) => [AskPush(v)]
      case BeginPop => [AskPop]
      case _ => LastAsk(es[..|es| - 1])
  }

  /** What was asked by the operations that committed, in order. */
  function Asks(es: seq<Event>): seq<Ask> {
    if es == [] then []
    else Asks(es[..|es| - 1]) + if es[|es| - 1].TxCommit? then LastAsk(es[..|es| - 1]) else []
  }

  datatype Served = Served(ops: seq<Op>, left: seq<int>)

  /** A sequence of values that serves the asks one after the other. */
  function Serve(asks: seq<Ask>): Served {
    if asks == [] then Served([], [])
    else
      var Served(ops, left) := Serve(asks[..|asks| - 1]);
      match asks[|asks| - 1]
      case AskPush(v) => Served(ops + [Push(v)], left + [v])
      case AskPop => if left == [] then Served(ops, left) else Served(ops + [Pop(left[0])], left[1..])
  }

  lemma {:induction false} ServeIsFifo(asks: seq<Ask>)
    ensures PushedValues(Serve(asks).ops) == PoppedValues(Serve(asks).ops) + Serve(asks).left
    decreases |asks|
  {
    if asks != [] {
      hide PushedValues, PoppedValues;
      var pre, last := Serve(asks[..|asks| - 1]), asks[|asks| - 1];
      ServeIsFifo(asks[..|asks| - 1]);
      if last.AskPush? {
        OneMoreOp(pre.ops, Push(last.v));
      } else if pre.left != [] {
        OneMoreOp(pre.ops, Pop(pre.left[0]));
        assert pre.left == [pre.left[0]] + pre.left[1..];
      }
    } else {
      assert PushedValues([]) == [] == PoppedValues([]);
    }
  }

  /** The log follows the events: the committed operations are those that a sequence of values would answer to
      the same asks, pops included. */
  ghost predicate Traced(es: seq<Event>, s: State) {
    && Items(s.log.commits) == Serve(Asks(es)).ops
    && s.log.crashes == multiset(es)[Crash] && |s.log.returned| == multiset(es)[Return]
    && (s.pc.Pushing? ==> LastAsk(es) == [AskPush(s.pc.v)])
    && (s.pc.Popping? ==> LastAsk(es) == [AskPop])
  }

  lemma PushServed(asks: seq<Ask>, v: int)
    ensures Serve(asks + [AskPush(v)]).ops == Serve(asks).ops + [Push(v)]
  {
    assert (asks + [AskPush(v)])[..|asks|] == asks;
  }

  /** A pop that the FIFO order allows is the one that is served. */
  lemma PopServed(asks: seq<Ask>, v: int, rest: seq<int>)
    requires var ops := Serve(asks).ops + [Pop(v)]; PushedValues(ops) == PoppedValues(ops) + rest
    ensures Serve(asks + [AskPop]).ops == Serve(asks).ops + [Pop(v)]
  {
    hide PushedValues, PoppedValues;
    assert (asks + [AskPop])[..|asks|] == asks;
    var pre := Serve(asks);
    ServeIsFifo(asks);
    OneMoreOp(pre.ops, Pop(v));
    var popped := PoppedValues(pre.ops);
    assert (popped + [v]) + rest == popped + ([v] + rest);
    SamePrefix(popped, pre.left, [v] + rest);
  }

  lemma CommitTraced(es: seq<Event>, s: State, ns: seq<Addr>, ns': seq<Addr>)
    requires Traced(es, s) && Inv(s, ns) && Step(s, TxCommit).Ok? && Inv(Step(s, TxCommit).state, ns')
    ensures Traced(es + [TxCommit], Step(s, TxCommit).state)
  {
    hide Chain, PushOk, PopOk, Payloads, PushedValues, PoppedValues, Items, Returned, Unreturned;
    hide LastAsk, Asks, Serve, Record;
    var s' := Step(s, TxCommit).state;
    OneMoreEvent(es, TxCommit);
    LoggedItems(s.log, if s.pc.Pushing? then Push(s.pc.v) else Pop(s.pc.v));
    if s.pc.Pushing? {
      PushServed(Asks(es), s.pc.v);
    } else {
      PopServed(Asks(es), s.pc.v, Payloads(s'.pool.heap, ns'));
    }
  }

  lemma SamePrefix<T>(a: seq<T>, b: seq<T>, c: seq<T>)
    requires a + b == a + c
    ensures b == c
  {
    assert b == (a + b)[|a|..];
  }

  lemma OneMoreEvent(es: seq<Event>, e: Event)
    ensures LastAsk(es + [e])
         == if e.BeginPush? then [AskPush(e.v)] else if e.BeginPop? then [AskPop] else LastAsk(es)
    ensures Asks(es + [e]) == Asks(es) + (if e.TxCommit? then LastAsk(es) else [])
    ensures multiset(es + [e])[Crash] == multiset(es)[Crash] + (if e.Crash? then 1 else 0)
    ensures multiset(es + [e])[Return] == multiset(es)[Return] + (if e.Return? then 1 else 0)
  {
    assert (es + [e])[..|es|] == es;
  }

  lemma StepLogs(s: State, e: Event)
    requires Step(s, e).Ok? && !e.TxCommit?
    ensures var l, l' := s.log, Step(s, e).state.log;
            && Items(l'.commits) == Items(l.commits)
            && l'.crashes == l.crashes + (if e.Crash? then 1 else 0)
            && |l'.returned| == |l.returned| + (if e.Return? then 1 else 0)
  {
    hide Items, MarkLast;
    if e.Return? {
      MarkLastItems(s.log.commits);
    }
  }

  lemma StepTraced(es: seq<Event>, s: State, e: Event)
    requires Traced(es, s) && Step(s, e).Ok? && !e.TxCommit?
    ensures Traced(es + [e], Step(s, e).state)
  {
    hide Items, Serve, LastAsk, Asks, MarkLast;
    OneMoreEvent(es, e);
    assert Asks(es + [e]) == Asks(es);
    StepLogs(s, e);
  }

  lemma {:induction false} LogIsTrace(es: seq<Event>, s: State)
    requires Run(es) == Ok(s)
    ensures Traced(es, s)
    ensures Items(s.log.commits) == Serve(Asks(es)).ops
    ensures s.log.crashes == multiset(es)[Crash] && |s.log.returned| == multiset(es)[Return]
    decreases |es|
  {
    if es != [] {
      hide Inv, Step;
      var pre, e := es[..|es| - 1], es[|es| - 1];
      var r := Run(pre);
      LogIsTrace(pre, r.state);
      assert pre + [e] == es;
      if e.TxCommit? {
        var ns := RunKeeps(pre);
        var ns' := RunKeeps(es);
        CommitTraced(pre, r.state, ns, ns');
      } else {
        StepTraced(pre, r.state, e);
      }
    }
  }

  /** The durable chain holds what a sequence of values would hold after the committed asks. */
  lemma QueueServesAsks(es: seq<Event>, s: State, ns: seq<Addr>)
    requires Run(es) == Ok(s) && IsList(Durable(s).heap, Durable(s).head, ns)
    ensures Allocated(Durable(s).heap, ns) && Payloads(Durable(s).heap, ns) == Serve(Asks(es)).left
  {
    hide Run, Serve, Items, IsList, PushedValues, PoppedValues, Durable;
    QueueIsFifo(es, s, ns);
    LogIsTrace(es, s);
    ServeIsFifo(Asks(es));
    var popped, left := PoppedValues(Items(s.log.commits)), Serve(Asks(es)).left;
    SamePrefix(popped, left, Payloads(Durable(s).heap, ns));
  }

  // ---------- Interrupted operations ----------

  lemma {:induction false} UncommittedKeepsPool(es: seq<Event>, s: State, inside: seq<Event>)
    requires Run(es) == Ok(s) && s.pc.Idle? && TxCommit !in inside && Run(es + inside).Ok?
    ensures var s' := Run(es + inside).state;
            Durable(s') == s.pool && s'.log.commits == s.log.commits && !s'.pc.Pushed? && !s'.pc.Popped?
    decreases |inside|
  {
    if inside == [] {
      assert es + inside == es;
    } else {
      var m := |inside| - 1;
      assert (es + inside)[..|es + inside| - 1] == es + inside[..m];
      UncommittedKeepsPool(es, s, inside[..m]);
    }
  }

  /** Whatever a push or pop has stored, and however often it was begun, retried or crashed: as long as nothing
      commits, a crash or an exception leaves the pool as it was when the queue was last idle. */
  lemma InterruptedOperationIsUndone(es: seq<Event>, s: State, inside: seq<Event>)
    requires Run(es) == Ok(s) && s.pc.Idle? && TxCommit !in inside && Run(es + inside).Ok?
    ensures var s' := Run(es + inside).state;
            && Step(s', Crash).Ok? && Step(s', Crash).state.pool == s.pool
            && (Step(s', TxAbort).Ok? <==> !s'.pc.Idle?)
            && (Step(s', TxAbort).Ok? ==> Step(s', TxAbort).state.pool == s.pool && Step(s', TxAbort).state.pc.Idle?)
            && (s'.pc.Idle? ==> s'.pool == s.pool)
  {
    hide Run;
    UncommittedKeepsPool(es, s, inside);
  }

  /** Operations that returned are committed, in order; a crash leaves at most one that did not return. */
  lemma ReturnedOperationsAreCommitted(es: seq<Event>, s: State)
    requires Run(es) == Ok(s)
    ensures s.log.returned == Returned(s.log.commits)
    ensures |s.log.commits| <= multiset(es)[Return] + multiset(es)[Crash] + (if s.pc.Pushed? || s.pc.Popped? then 1 else 0)
  {
    hide Run, Chain, Fifo;
    var _ := RunKeeps(es);
    LogIsTrace(es, s);
    CommitsSplit(s.log.commits);
  }

  // ---------- Operations that are not interrupted ----------

  lemma Next(es: seq<Event>, s: State, e: Event)
    requires Run(es) == Ok(s)
    ensures Run(es + [e]) == Step(s, e)
  {
    hide Step;
    assert (es + [e])[..|es|] == es;
  }

  function PushEvents(v: int, a: Addr): seq<Event> {
    [BeginPush(v), Allocate(a), TxStore, TxStore, TxStore, TxCommit, Return]
  }

  /** Left alone, a push returns with the value at the end of the queue. */
  lemma PushCompletes(es: seq<Event>, s: State, v: int, a: Addr)
    requires Run(es) == Ok(s) && s.pc.Idle? && a != NULL && a !in s.pool.heap
    ensures s.pool.head == NULL || s.pool.tail in s.pool.heap
    ensures var r := Run(es + PushEvents(v, a));
            && r.Ok? && r.state.pc.Idle? && r.state.pool == Appended(s.pool, a, v)
            && r.state.log.returned == s.log.returned + [Push(v)]
  {
    hide Run, Chain, Fifo, Payloads, Items, Returned, Unreturned;
    var ns := RunKeeps(es);
    AppendChain(s.pool, ns, a, v);
    var fs, cur, done := PushEvents(v, a), s, es;
    Next(done, cur, fs[0]); cur, done := Step(cur, fs[0]).state, done + [fs[0]];
    Next(done, cur, fs[1]); cur, done := Step(cur, fs[1]).state, done + [fs[1]];
    Next(done, cur, fs[2]); cur, done := Step(cur, fs[2]).state, done + [fs[2]];
    Next(done, cur, fs[3]); cur, done := Step(cur, fs[3]).state, done + [fs[3]];
    Next(done, cur, fs[4]); cur, done := Step(cur, fs[4]).state, done + [fs[4]];
    Next(done, cur, fs[5]); cur, done := Step(cur, fs[5]).state, done + [fs[5]];
    Next(done, cur, fs[6]); cur, done := Step(cur, fs[6]).state, done + [fs[6]];
    assert done == es + fs;
  }

  function PopEvents(): seq<Event> {
    [BeginPop, TxStore, TxStore, TxStore, TxCommit, Return]
  }

  /** Left alone, a pop of a non-empty queue returns its front value and frees its node. */
  lemma PopCompletes(es: seq<Event>, s: State)
    requires Run(es) == Ok(s) && s.pc.Idle? && s.pool.head != NULL
    ensures s.pool.head in s.pool.heap
    ensures var r := Run(es + PopEvents());
            && r.Ok? && r.state.pc.Idle? && r.state.pool == Removed(s.pool)
            && r.state.log.returned == s.log.returned + [Pop(s.pool.heap[s.pool.head].payload)]
  {
    hide Run, Chain, Fifo, Payloads, Items, Returned, Unreturned;
    var ns := RunKeeps(es);
    ChainEmpty(s.pool, ns);
    ChainLink(s.pool, ns, 0);
    var fs, cur, done := PopEvents(), s, es;
    Next(done, cur, fs[0]); cur, done := Step(cur, fs[0]).state, done + [fs[0]];
    Next(done, cur, fs[1]); cur, done := Step(cur, fs[1]).state, done + [fs[1]];
    Next(done, cur, fs[2]); cur, done := Step(cur, fs[2]).state, done + [fs[2]];
    Next(done, cur, fs[3]); cur, done := Step(cur, fs[3]).state, done + [fs[3]];
    Next(done, cur, fs[4]); cur, done := Step(cur, fs[4]).state, done + [fs[4]];
    Next(done, cur, fs[5]); cur, done := Step(cur, fs[5]).state, done + [fs[5]];
    assert done == es + fs;
  }
}

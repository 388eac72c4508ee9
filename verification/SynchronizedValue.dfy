/** Any number of synchronized values and threads: every operation locks its operands, reads and writes them in
    separate steps, and unlocks. Two operands are locked as std::lock does: take one, try the other, back off. */
module SynchronizedValue {
  import opened Options

  datatype Op<V> =
    | Assign(a: nat, v: V)            // a = v
    | Copy(a: nat, b: nat)            // a = b
    | Move(a: nat, b: nat, left: V)   // a = std::move(b), which leaves `left` in b
    | Get(a: nat)
    | Swap(a: nat, b: nat)
    | Exchange(a: nat, v: V)          // swap with a plain value

  /** Operations with two operands. */
  predicate Binary<V>(op: Op<V>) {
    op.Copy? || op.Move? || op.Swap?
  }

  /** Operations on one object twice return at once without locking. */
  predicate Aliased<V>(op: Op<V>) {
    Binary(op) && op.a == op.b
  }

  /** The second operand to lock, if any. */
  function Other<V>(op: Op<V>, x: nat): nat {
    if Binary(op) then (if x == op.a then op.b else op.a) else op.a
  }

  predicate Locks<V>(op: Op<V>, x: nat) {
    x == op.a || (Binary(op) && x == op.b)
  }

  datatype Thread<V> =
    | Idle
    | Wanting(op: Op<V>)
    | Half(op: Op<V>, held: nat)                           // one of two operands locked
    | Locked(op: Op<V>, step: nat, tmp: Option<V>)         // all operands locked
    | Finished(op: Op<V>, result: Option<V>)               // effect complete, all operands locked
    | Releasing(op: Op<V>, held: nat, result: Option<V>)   // one operand left to unlock

  datatype Entry<V> = Entry(t: nat, op: Op<V>, result: Option<V>)

  /** `log` records each operation when its effect is complete. */
  datatype State<V> = State(vals: seq<V>, owner: seq<Option<nat>>, threads: seq<Thread<V>>, log: seq<Entry<V>>)

  datatype Event<V> =
    | Call(t: nat, op: Op<V>) | LockOne(t: nat, x: nat) | TryOther(t: nat) | Act(t: nat) | Unlock(t: nat)

  function Init<V>(vals: seq<V>, nthreads: nat): State<V> {
    State(vals, seq(|vals|, _ => None), seq(nthreads, _ => Idle), [])
  }

  predicate InRange<V>(op: Op<V>, n: nat) {
    op.a < n && (Binary(op) ==> op.b < n)
  }

  function With<V>(s: State<V>, t: nat, th: Thread<V>): State<V>
    requires t < |s.threads|
  {
    s.(threads := s.threads[t := th])
  }

  function Complete<V>(s: State<V>, t: nat, op: Op<V>, result: Option<V>): State<V>
    requires t < |s.threads|
  {
    State(s.vals, s.owner, s.threads[t := Finished(op, result)], s.log + [Entry(t, op, result)])
  }

  /** One read or write of an operation that holds its locks. */
  function ActStep<V>(s: State<V>, t: nat): State<V>
    requires t < |s.threads| && s.threads[t].Locked? && InRange(s.threads[t].op, |s.vals|)
  {
    var th := s.threads[t];
    var vs := s.vals;
    match th.op
    case Assign(a, v) => Complete(s.(vals := vs[a := v]), t, th.op, None)
    case Get(a) => Complete(s, t, th.op, Some(vs[a]))
    case Copy(a, b) =>
      if th.tmp.None? then With(s, t, Locked(th.op, 1, Some(vs[b])))
      else Complete(s.(vals := vs[a := th.tmp.value]), t, th.op, None)
    case Move(a, b, left) =>
      if th.tmp.None? then With(s, t, Locked(th.op, 1, Some(vs[b])))
      else if th.step == 1 then With(s.(vals := vs[a := th.tmp.value]), t, Locked(th.op, 2, th.tmp))
      else Complete(s.(vals := vs[b := left]), t, th.op, None)
    case Exchange(a, v) =>
      if th.tmp.None? then With(s, t, Locked(th.op, 1, Some(vs[a])))
      else Complete(s.(vals := vs[a := v]), t, th.op, th.tmp)
    case Swap(a, b) =>
      if th.tmp.None? then With(s, t, Locked(th.op, 1, Some(vs[a])))
      else if th.step == 1 then With(s.(vals := vs[a := vs[b]]), t, Locked(th.op, 2, th.tmp))
      else Complete(s.(vals := vs[b := th.tmp.value]), t, th.op, None)
  }

  predicate Shaped<V>(s: State<V>) {
    && |s.owner| == |s.vals|
    && forall t :: 0 <= t < |s.threads| && !s.threads[t].Idle? ==> InRange(s.threads[t].op, |s.vals|)
  }

  function Step<V>(s: State<V>, e: Event<V>): Option<State<V>>
    requires Shaped(s)
  {
    if e.t >= |s.threads| then None
    else
      var th := s.threads[e.t];
      match e
      case Call(t, op) =>
        if !th.Idle? || !InRange(op, |s.vals|) then None
        else if Aliased(op) then Some(s.(log := s.log + [Entry(t, op, None)]))
        else Some(With(s, t, Wanting(op)))
      case LockOne(t, x) =>
        if !th.Wanting? || !Locks(th.op, x) || s.owner[x].Some? then None
        else
          var next := if Binary(th.op) then Half(th.op, x) else Locked(th.op, 0, None);
          Some(With(s.(owner := s.owner[x := Some(t)]), t, next))
      case TryOther(t) =>
        if !th.Half? || th.held >= |s.owner| then None
        else
          var y := Other(th.op, th.held);
          if s.owner[y].None? then Some(With(s.(owner := s.owner[y := Some(t)]), t, Locked(th.op, 0, None)))
          else Some(With(s.(owner := s.owner[th.held := None]), t, Wanting(th.op)))
      case Act(t) => if th.Locked? then Some(ActStep(s, t)) else None
      case Unlock(t) =>
        if th.Releasing? && th.held < |s.owner| then Some(With(s.(owner := s.owner[th.held := None]), t, Idle))
        else if th.Finished? then
          var next := if Binary(th.op) then Releasing(th.op, th.op.b, th.result) else Idle;
          Some(With(s.(owner := s.owner[th.op.a := None]), t, next))
        else None
  }

  // ---------- Serial execution ----------

  /** The values after one whole operation. */
  function Effect<V>(vs: seq<V>, op: Op<V>): (r: seq<V>)
    ensures |r| == |vs|
  {
    if !InRange(op, |vs|) then vs
    else match op
      case Assign(a, v) => vs[a := v]
      case Copy(a, b) => vs[a := vs[b]]
      case Move(a, b, left) => if a == b then vs else vs[a := vs[b]][b := left]
      case Get(_) => vs
      case Swap(a, b) => vs[a := vs[b]][b := vs[a]]
      case Exchange(a, v) => vs[a := v]
  }

  /** What the operation returns. */
  function Answer<V>(vs: seq<V>, op: Op<V>): Option<V> {
    if !InRange(op, |vs|) then None
    else match op
      case Get(a) => Some(vs[a])
      case Exchange(a, _) => Some(vs[a])
      case _ => None
  }

  /** The values after the logged operations, one whole operation after the other. */
  function Serial<V>(vals0: seq<V>, log: seq<Entry<V>>): (vs: seq<V>)
    ensures |vs| == |vals0|
  {
    if log == [] then vals0 else Effect(Serial(vals0, log[..|log| - 1]), log[|log| - 1].op)
  }

  /** Every logged result is the one the serial execution gives. */
  predicate Answers<V(==)>(vals0: seq<V>, log: seq<Entry<V>>) {
    log == [] ||
    (Answers(vals0, log[..|log| - 1])
     && log[|log| - 1].result == Answer(Serial(vals0, log[..|log| - 1]), log[|log| - 1].op))
  }

  lemma LogOne<V>(vals0: seq<V>, log: seq<Entry<V>>, e: Entry<V>)
    requires Answers(vals0, log) && e.result == Answer(Serial(vals0, log), e.op)
    ensures Answers(vals0, log + [e])
    ensures Serial(vals0, log + [e]) == Effect(Serial(vals0, log), e.op)
  {
    assert (log + [e])[..|log|] == log;
  }

  // ---------- Invariant ----------

  /** The thread holds the lock of `x`. */
  predicate Holds<V>(th: Thread<V>, x: nat) {
    match th
    case Idle => false
    case Wanting(_) => false
    case Half(_, h) => x == h
    case Locked(op, _, _) => Locks(op, x)
    case Finished(op, _) => Locks(op, x)
    case Releasing(_, h, _) => x == h
  }

  /** Half-way through a swap or a move the first operand already has its new value. */
  predicate Dirty<V>(th: Thread<V>, x: nat) {
    th.Locked? && (th.op.Swap? || th.op.Move?) && th.step == 2 && x == th.op.a
  }

  /** What a running operation has read, against the serial values `ser`. */
  ghost predicate ThreadOk<V>(th: Thread<V>, vals: seq<V>, ser: seq<V>)
    requires |vals| == |ser|
  {
    && (!th.Idle? ==> InRange(th.op, |ser|) && !Aliased(th.op))
    && (th.Half? || th.Releasing? ==> Locks(th.op, th.held))
    && (th.Locked? ==>
          match th.op
          case Copy(_, b) => th.tmp.Some? ==> th.tmp.value == ser[b]
          case Exchange(a, _) => th.tmp.Some? ==> th.tmp.value == ser[a]
          case Move(a, b, _) =>
            && (th.tmp.None? ==> th.step == 0)
            && (th.tmp.Some? ==> th.tmp.value == ser[b] && (th.step == 1 || th.step == 2))
            && (th.step == 2 ==> vals[a] == ser[b])
          case Swap(a, b) =>
            && (th.tmp.None? ==> th.step == 0)
            && (th.tmp.Some? ==> th.tmp.value == ser[a] && (th.step == 1 || th.step == 2))
            && (th.step == 2 ==> vals[a] == ser[b])
          case _ => true)
  }

  /** Each lock belongs to the one thread that holds it. */
  ghost predicate Owned<V>(s: State<V>)
    requires |s.vals| == |s.owner|
  {
    && (forall t, x :: 0 <= t < |s.threads| && 0 <= x < |s.vals| && Holds(s.threads[t], x) ==> s.owner[x] == Some(t))
    && (forall x :: 0 <= x < |s.vals| && s.owner[x].Some? ==>
          s.owner[x].value < |s.threads| && Holds(s.threads[s.owner[x].value], x))
  }

  /** The values are the serial ones, except where a swap or move that holds the lock is half done. */
  ghost predicate Clean<V>(s: State<V>, ser: seq<V>)
    requires |s.vals| == |s.owner| == |ser|
  {
    forall x :: 0 <= x < |s.vals| && s.vals[x] != ser[x] ==>
      s.owner[x].Some? && s.owner[x].value < |s.threads| && Dirty(s.threads[s.owner[x].value], x)
  }

  ghost predicate ThreadsOk<V>(s: State<V>, ser: seq<V>)
    requires |s.vals| == |ser|
  {
    forall t :: 0 <= t < |s.threads| ==> ThreadOk(s.threads[t], s.vals, ser)
  }

  ghost predicate Inv<V>(s: State<V>, vals0: seq<V>) {
    var ser := Serial(vals0, s.log);
    && |s.vals| == |s.owner| == |vals0|
    && Answers(vals0, s.log)
    && Owned(s) && Clean(s, ser) && ThreadsOk(s, ser)
  }

  lemma InitInv<V>(vals0: seq<V>, nthreads: nat)
    ensures Inv(Init(vals0, nthreads), vals0)
  {
  }

  lemma CallKeeps<V>(s: State<V>, vals0: seq<V>, t: nat, op: Op<V>)
    requires Inv(s, vals0) && Shaped(s) && Step(s, Call(t, op)).Some?
    ensures Inv(Step(s, Call(t, op)).value, vals0)
  {
    hide Serial, Answers;
    if Aliased(op) {
      LogOne(vals0, s.log, Entry(t, op, None));
      AliasedChangesNothing(Serial(vals0, s.log), op);
    }
  }

  lemma AliasedChangesNothing<V>(vs: seq<V>, op: Op<V>)
    requires Aliased(op) && InRange(op, |vs|)
    ensures Effect(vs, op) == vs && Answer(vs, op) == None
  {
  }

  /** Nothing is half done on an object that nobody holds, or that a thread holds which is not inside a swap or move. */
  lemma CleanAt<V>(s: State<V>, ser: seq<V>, x: nat)
    requires |s.vals| == |s.owner| == |ser| && Clean(s, ser) && x < |s.vals|
    requires s.owner[x].Some? && s.owner[x].value < |s.threads| ==> !Dirty(s.threads[s.owner[x].value], x)
    ensures s.vals[x] == ser[x]
  {
  }

  lemma AcquireKeeps<V>(s: State<V>, vals0: seq<V>, t: nat, x: nat, th: Thread<V>)
    requires Inv(s, vals0) && t < |s.threads| && x < |s.vals| && s.owner[x].None?
    requires !s.threads[t].Locked?
    requires forall y :: Holds(th, y) <==> Holds(s.threads[t], y) || y == x
    requires ThreadOk(th, s.vals, Serial(vals0, s.log))
    ensures Inv(With(s.(owner := s.owner[x := Some(t)]), t, th), vals0)
  {
    hide Serial, Answers, ThreadOk, Holds;
    CleanAt(s, Serial(vals0, s.log), x);
  }

  lemma ReleaseKeeps<V>(s: State<V>, vals0: seq<V>, t: nat, x: nat, th: Thread<V>)
    requires Inv(s, vals0) && t < |s.threads| && x < |s.vals| && Holds(s.threads[t], x)
    requires !s.threads[t].Locked?
    requires forall y :: Holds(th, y) <==> Holds(s.threads[t], y) && y != x
    requires ThreadOk(th, s.vals, Serial(vals0, s.log))
    ensures Inv(With(s.(owner := s.owner[x := None]), t, th), vals0)
  {
    hide Serial, Answers, ThreadOk, Holds;
    CleanAt(s, Serial(vals0, s.log), x);
  }

  lemma {:induction false} LockKeeps<V>(s: State<V>, vals0: seq<V>, e: Event<V>)
    requires Inv(s, vals0) && Shaped(s) && (e.LockOne? || e.TryOther? || e.Unlock?) && Step(s, e).Some?
    ensures Inv(Step(s, e).value, vals0)
  {
    hide Serial, Answers, Owned, Clean;
    var t, th, s' := e.t, s.threads[e.t], Step(s, e).value;
    assert ThreadOk(th, s.vals, Serial(vals0, s.log));
    match e
    case LockOne(_, x) => AcquireKeeps(s, vals0, t, x, s'.threads[t]);
    case TryOther(_) =>
      if s'.threads[t].Locked? {
        AcquireKeeps(s, vals0, t, Other(th.op, th.held), s'.threads[t]);
      } else {
        ReleaseKeeps(s, vals0, t, th.held, s'.threads[t]);
      }
    case Unlock(_) => ReleaseKeeps(s, vals0, t, if th.Releasing? then th.held else th.op.a, s'.threads[t]);
  }

  /** What a thread has read stays the serial value as long as only other threads' objects change. */
  lemma ThreadOkFrame<V>(th: Thread<V>, vals: seq<V>, ser: seq<V>, vals': seq<V>, ser': seq<V>)
    requires |vals| == |ser| == |vals'| == |ser'| && ThreadOk(th, vals, ser)
    requires forall x :: 0 <= x < |vals| && Holds(th, x) ==> vals'[x] == vals[x] && ser'[x] == ser[x]
    ensures ThreadOk(th, vals', ser')
  {
    if th.Locked? {
      assert Holds(th, th.op.a);
      assert Binary(th.op) ==> Holds(th, th.op.b);
    }
  }

  /** A step of a thread that holds its locks: it changes values, and the serial values, only where it holds
      the lock, and leaves those in order. */
  lemma HeldStepKeeps<V>(s: State<V>, s': State<V>, t: nat, ser: seq<V>, ser': seq<V>)
    requires |s.vals| == |s.owner| == |ser| == |ser'| == |s'.vals| && t < |s.threads|
    requires Owned(s) && Clean(s, ser) && ThreadsOk(s, ser)
    requires |s'.threads| == |s.threads| && s'.owner == s.owner && s'.threads == s.threads[t := s'.threads[t]]
    requires forall x :: Holds(s'.threads[t], x) <==> Holds(s.threads[t], x)
    requires forall x :: 0 <= x < |s.vals| && !Holds(s.threads[t], x) ==> s'.vals[x] == s.vals[x] && ser'[x] == ser[x]
    requires forall x :: 0 <= x < |s.vals| && Holds(s.threads[t], x) ==> s'.vals[x] == ser'[x] || Dirty(s'.threads[t], x)
    requires ThreadOk(s'.threads[t], s'.vals, ser')
    ensures Owned(s') && Clean(s', ser') && ThreadsOk(s', ser')
  {
    hide Holds, Dirty, ThreadOk;
    forall u | 0 <= u < |s'.threads| ensures ThreadOk(s'.threads[u], s'.vals, ser') {
      if u != t {
        forall x | 0 <= x < |s.vals| && Holds(s.threads[u], x) ensures !Holds(s.threads[t], x) {
          assert s.owner[x] == Some(u);
        }
        ThreadOkFrame(s.threads[u], s.vals, ser, s'.vals, ser');
      }
    }
  }

  /** The operands of a running operation hold their serial values, but for the one of a swap or move that is half done. */
  lemma OperandsClean<V>(s: State<V>, vals0: seq<V>, t: nat)
    requires Inv(s, vals0) && t < |s.threads| && s.threads[t].Locked?
    ensures var op, ser := s.threads[t].op, Serial(vals0, s.log);
            && InRange(op, |s.vals|) && !Aliased(op)
            && (!Dirty(s.threads[t], op.a) ==> s.vals[op.a] == ser[op.a])
            && (Binary(op) ==> s.vals[op.b] == ser[op.b])
  {
    hide Serial, Answers;
    var th, ser := s.threads[t], Serial(vals0, s.log);
    assert ThreadOk(th, s.vals, ser);
    assert Holds(th, th.op.a);
    if Binary(th.op) {
      assert Holds(th, th.op.b);
      CleanAt(s, ser, th.op.b);
    }
  }

  lemma ReadKeeps<V>(s: State<V>, vals0: seq<V>, t: nat, th: Thread<V>)
    requires Inv(s, vals0) && t < |s.threads| && s.threads[t].Locked? && s.threads[t].tmp.None?
    requires var op := s.threads[t].op;
             && (Binary(op) || op.Exchange?) && InRange(op, |s.vals|)
             && th == Locked(op, 1, Some(s.vals[if op.Copy? || op.Move? then op.b else op.a]))
    ensures Inv(With(s, t, th), vals0)
  {
    OperandsClean(s, vals0, t);
    hide Serial, Answers, Owned, Clean, ThreadsOk;
    assert ThreadOk(s.threads[t], s.vals, Serial(vals0, s.log)) by { ThreadOkAt(s, Serial(vals0, s.log), t); }
    var ser := Serial(vals0, s.log);
    HeldStepKeeps(s, With(s, t, th), t, ser, ser);
  }

  lemma ThreadOkAt<V>(s: State<V>, ser: seq<V>, t: nat)
    requires |s.vals| == |ser| && ThreadsOk(s, ser) && t < |s.threads|
    ensures ThreadOk(s.threads[t], s.vals, ser)
  {
  }

  lemma {:induction false} ActKeeps<V>(s: State<V>, vals0: seq<V>, t: nat)
    requires Inv(s, vals0) && Shaped(s) && t < |s.threads| && s.threads[t].Locked?
    ensures Inv(ActStep(s, t), vals0)
  {
    hide Serial, Answers, Owned, Clean, ThreadsOk;
    var th, ser, s' := s.threads[t], Serial(vals0, s.log), ActStep(s, t);
    OperandsClean(s, vals0, t);
    ThreadOkAt(s, ser, t);
    if s'.threads[t].Finished? {
      LogOne(vals0, s.log, Entry(t, th.op, s'.threads[t].result));
      HeldStepKeeps(s, s', t, ser, Effect(ser, th.op));
    } else if th.tmp.None? {
      ReadKeeps(s, vals0, t, s'.threads[t]);
    } else {
      HeldStepKeeps(s, s', t, ser, ser);
    }
  }

  // ---------- Whole runs ----------

  lemma {:induction false} StepKeeps<V>(s: State<V>, vals0: seq<V>, e: Event<V>)
    requires Inv(s, vals0) && Shaped(s) && Step(s, e).Some?
    ensures Inv(Step(s, e).value, vals0)
  {
    hide Inv;
    match e
    case Call(t, op) => CallKeeps(s, vals0, t, op);
    case Act(t) => ActKeeps(s, vals0, t);
    case _ => LockKeeps(s, vals0, e);
  }

  function Run<V>(vals0: seq<V>, nthreads: nat, es: seq<Event<V>>): Option<State<V>> {
    if es == [] then Some(Init(vals0, nthreads))
    else match Run(vals0, nthreads, es[..|es| - 1])
      case Some(s) => if Shaped(s) then Step(s, es[|es| - 1]) else None
      case None => None
  }

  lemma {:induction false} RunKeeps<V>(vals0: seq<V>, nthreads: nat, es: seq<Event<V>>)
    ensures var r := Run(vals0, nthreads, es); r.Some? ==> Inv(r.value, vals0)
    decreases |es|
  {
    hide Inv, Step;
    if es == [] {
      InitInv(vals0, nthreads);
    } else {
      RunKeeps(vals0, nthreads, es[..|es| - 1]);
      if Run(vals0, nthreads, es).Some? {
        StepKeeps(Run(vals0, nthreads, es[..|es| - 1]).value, vals0, es[|es| - 1]);
      }
    }
  }

  /** Every interleaving is equivalent to running the operations whole, in the order in which their effects
      completed: each returned what it returns there, and whenever no operation is inside its effect the values
      are the ones reached there. */
  lemma RunIsSerial<V>(vals0: seq<V>, nthreads: nat, es: seq<Event<V>>, s: State<V>)
    requires Run(vals0, nthreads, es) == Some(s)
    ensures Answers(vals0, s.log)
    ensures (forall t :: 0 <= t < |s.threads| ==> !s.threads[t].Locked?) ==> s.vals == Serial(vals0, s.log)
  {
    hide Run, Serial;
    RunKeeps(vals0, nthreads, es);
  }

  // ---------- The log is what the threads called ----------

  /** The operations thread `t` has called, in order. */
  function Called<V>(es: seq<Event<V>>, t: nat): seq<Op<V>> {
    if es == [] then []
    else
      var e := es[|es| - 1];
      Called(es[..|es| - 1], t) + if e.Call? && e.t == t then [e.op] else []
  }

  /** The logged operations of thread `t`, in log order. */
  function Logged<V>(log: seq<Entry<V>>, t: nat): seq<Op<V>> {
    if log == [] then []
    else
      var e := log[|log| - 1];
      Logged(log[..|log| - 1], t) + if e.t == t then [e.op] else []
  }

  /** The operation that the thread is in and whose effect is not complete. */
  function Open<V>(th: Thread<V>): seq<Op<V>> {
    if th.Wanting? || th.Half? || th.Locked? then [th.op] else []
  }

  /** Every call of the thread counts, and nothing else. */
  lemma CalledSnoc<V>(es: seq<Event<V>>, e: Event<V>, t: nat)
    ensures Called(es + [e], t) == Called(es, t) + if e.Call? && e.t == t then [e.op] else []
  {
    assert (es + [e])[..|es|] == es;
  }

  lemma LoggedSnoc<V>(log: seq<Entry<V>>, e: Entry<V>, t: nat)
    ensures Logged(log + [e], t) == Logged(log, t) + if e.t == t then [e.op] else []
  {
    assert (log + [e])[..|log|] == log;
  }

  lemma {:induction false} StepLogs<V>(s: State<V>, e: Event<V>, t: nat)
    requires Shaped(s) && Step(s, e).Some? && t < |s.threads|
    ensures var s' := Step(s, e).value;
            && |s'.threads| == |s.threads|
            && Logged(s'.log, t) + Open(s'.threads[t])
               == Logged(s.log, t) + Open(s.threads[t]) + (if e.Call? && e.t == t then [e.op] else [])
  {
    hide Logged, ActStep;
    if e.Act? {
      ActLogs(s, e.t, t);
    } else if e.Call? {
      LoggedSnoc(s.log, Entry(e.t, e.op, None), t);
    }
  }

  lemma {:induction false} ActLogs<V>(s: State<V>, u: nat, t: nat)
    requires Shaped(s) && u < |s.threads| && s.threads[u].Locked? && t < |s.threads|
    ensures var s' := ActStep(s, u);
            && |s'.threads| == |s.threads|
            && Logged(s'.log, t) + Open(s'.threads[t]) == Logged(s.log, t) + Open(s.threads[t])
  {
    hide Logged;
    var s' := ActStep(s, u);
    if s'.threads[u].Finished? {
      LoggedSnoc(s.log, Entry(u, s.threads[u].op, s'.threads[u].result), t);
    }
  }

  /** Each thread's operations appear in the serial order in the order the thread called them: all of them, once
      each, except the one whose effect is not complete yet. */
  lemma {:induction false} LogIsWhatWasCalled<V>(vals0: seq<V>, nthreads: nat, es: seq<Event<V>>, t: nat)
    requires t < nthreads
    ensures var r := Run(vals0, nthreads, es);
            r.Some? ==> && |r.value.threads| == nthreads
                        && Logged(r.value.log, t) + Open(r.value.threads[t]) == Called(es, t)
                        && var th := r.value.threads[t];
                           Open(th) == if th.Wanting? || th.Half? || th.Locked? then [th.op] else []
    decreases |es|
  {
    hide Step, Logged, Called;
    if es == [] {
      NothingLogged<V>(t);
    } else if Run(vals0, nthreads, es).Some? {
      CalledSnoc(es[..|es| - 1], es[|es| - 1], t);
      assert es[..|es| - 1] + [es[|es| - 1]] == es;
      LogIsWhatWasCalled(vals0, nthreads, es[..|es| - 1], t);
      StepLogs(Run(vals0, nthreads, es[..|es| - 1]).value, es[|es| - 1], t);
    }
  }

  lemma NothingLogged<V>(t: nat)
    ensures Logged<V>([], t) == [] && Called<V>([], t) == []
  {
  }

  lemma {:induction false} CalledConcat<V>(es: seq<Event<V>>, fs: seq<Event<V>>, t: nat)
    ensures Called(es + fs, t) == Called(es, t) + Called(fs, t)
    decreases |fs|
  {
    if fs == [] {
      assert es + fs == es;
    } else {
      var k := |fs| - 1;
      assert (es + fs)[..|es| + k] == es + fs[..k];
      CalledConcat(es, fs[..k], t);
    }
  }

  lemma {:induction false} LoggedConcat<V>(log: seq<Entry<V>>, more: seq<Entry<V>>, t: nat)
    ensures Logged(log + more, t) == Logged(log, t) + Logged(more, t)
    decreases |more|
  {
    if more == [] {
      assert log + more == log;
    } else {
      var k := |more| - 1;
      assert (log + more)[..|log| + k] == log + more[..k];
      LoggedConcat(log, more[..k], t);
    }
  }

  lemma LogGrows<V>(s: State<V>, e: Event<V>)
    requires Shaped(s) && Step(s, e).Some?
    ensures s.log <= Step(s, e).value.log
  {
  }

  lemma {:induction false} LogIsPrefix<V>(vals0: seq<V>, nthreads: nat, pre: seq<Event<V>>, post: seq<Event<V>>)
    requires Run(vals0, nthreads, pre + post).Some?
    ensures Run(vals0, nthreads, pre).Some?
    ensures Run(vals0, nthreads, pre).value.log <= Run(vals0, nthreads, pre + post).value.log
    decreases |post|
  {
    hide Step;
    if post == [] {
      assert pre + post == pre;
    } else {
      var k := |post| - 1;
      assert (pre + post)[..|pre| + k] == pre + post[..k];
      LogIsPrefix(vals0, nthreads, pre, post[..k]);
      LogGrows(Run(vals0, nthreads, pre + post[..k]).value, post[k]);
    }
  }

  /** Real-time order. What happens after `pre` only extends the log, and the extension consists, for each
      thread, of the operation it was inside at the end of `pre` followed by those it called afterwards. So an
      operation that had returned by then stands before every operation called later, by whatever thread. */
  lemma {:induction false} RealTimeOrder<V>(vals0: seq<V>, nthreads: nat, pre: seq<Event<V>>, post: seq<Event<V>>,
                                            s: State<V>, s': State<V>, t: nat)
    requires Run(vals0, nthreads, pre) == Some(s) && Run(vals0, nthreads, pre + post) == Some(s') && t < nthreads
    ensures |s.threads| == |s'.threads| == nthreads
    ensures s.log <= s'.log
    ensures Logged(s.log, t) + Open(s.threads[t]) == Called(pre, t)
    ensures Logged(s'.log[|s.log|..], t) + Open(s'.threads[t]) == Open(s.threads[t]) + Called(post, t)
  {
    hide Run, Logged, Called;
    LogIsPrefix(vals0, nthreads, pre, post);
    LogIsWhatWasCalled(vals0, nthreads, pre, t);
    LogIsWhatWasCalled(vals0, nthreads, pre + post, t);
    CalledConcat(pre, post, t);
    var rest := s'.log[|s.log|..];
    assert s'.log == s.log + rest;
    LoggedConcat(s.log, rest, t);
    var a := Logged(s.log, t);
    var l, r := Logged(rest, t) + Open(s'.threads[t]), Open(s.threads[t]) + Called(post, t);
    assert a + l == a + Logged(rest, t) + Open(s'.threads[t]);
    assert a + r == a + Open(s.threads[t]) + Called(post, t);
    assert (a + l)[|a|..] == l && (a + r)[|a|..] == r;
  }

  // ---------- Completion ----------

  function Total<V>(ths: seq<Thread<V>>, f: Thread<V> -> nat): nat {
    if ths == [] then 0 else f(ths[0]) + Total(ths[1..], f)
  }

  lemma {:induction false} TotalUpdate<V>(ths: seq<Thread<V>>, t: nat, th: Thread<V>, f: Thread<V> -> nat)
    requires t < |ths|
    ensures Total(ths[t := th], f) == Total(ths, f) - f(ths[t]) + f(th)
    decreases |ths|
  {
    if t == 0 {
      assert ths[t := th][1..] == ths[1..];
    } else {
      assert ths[t := th][1..] == ths[1..][t - 1 := th];
      TotalUpdate(ths[1..], t - 1, th, f);
    }
  }

  /** 1 for an operation that does not hold all its locks yet. */
  function Short<V>(th: Thread<V>): nat {
    if th.Wanting? || th.Half? then 1 else 0
  }

  /** Steps until the thread holds nothing, if it gets no further lock. */
  function Work<V>(th: Thread<V>): nat {
    match th
    case Idle => 0
    case Wanting(_) => 0
    case Half(_, _) => 1
    case Locked(_, step, tmp) => if tmp.None? then 6 else if step == 1 then 5 else 4
    case Finished(_, _) => 2
    case Releasing(_, _, _) => 1
  }

  /** Some thread holds a lock: it can step so that the measure drops. A thread with one of two locks acquires the
      other or backs off. */
  lemma HolderSteps<V>(s: State<V>, vals0: seq<V>, t: nat) returns (e: Event<V>)
    requires Inv(s, vals0) && Shaped(s) && t < |s.threads| && Work(s.threads[t]) > 0
    ensures !e.Call? && Step(s, e).Some?
    ensures var ths, ths' := s.threads, Step(s, e).value.threads;
            || Total(ths', Short) < Total(ths, Short)
            || (Total(ths', Short) == Total(ths, Short) && Total(ths', Work) < Total(ths, Work))
  {
    hide Serial, Answers, Owned, Clean, Total;
    ThreadOkAt(s, Serial(vals0, s.log), t);
    e := if s.threads[t].Half? then TryOther(t) else if s.threads[t].Locked? then Act(t) else Unlock(t);
    var th' := Step(s, e).value.threads[t];
    TotalUpdate(s.threads, t, th', Short);
    TotalUpdate(s.threads, t, th', Work);
  }

  /** Nobody holds a lock: a waiting thread gets all of its locks. The second lock is free because it is not the
      first one: operands are not aliased. */
  lemma WaiterLocks<V>(s: State<V>, vals0: seq<V>, t: nat) returns (fs: seq<Event<V>>)
    requires Inv(s, vals0) && Shaped(s) && t < |s.threads| && s.threads[t].Wanting?
    requires forall u :: 0 <= u < |s.threads| ==> Work(s.threads[u]) == 0
    ensures forall i :: 0 <= i < |fs| ==> !fs[i].Call?
    ensures 1 <= |fs| <= 2 && Step(s, fs[0]).Some? && Shaped(Step(s, fs[0]).value)
    ensures var s1 := Step(s, fs[0]).value;
            && (|fs| == 2 ==> Step(s1, fs[1]).Some?)
            && var s' := if |fs| == 2 then Step(s1, fs[1]).value else s1;
               Total(s'.threads, Short) < Total(s.threads, Short)
  {
    hide Serial, Answers, Clean, Total;
    var op := s.threads[t].op;
    ThreadOkAt(s, Serial(vals0, s.log), t);
    assert s.owner[op.a].None? && (Binary(op) ==> s.owner[op.b].None?);
    fs := if Binary(op) then [LockOne(t, op.a), TryOther(t)] else [LockOne(t, op.a)];
    var ths := s.threads[t := if Binary(op) then Half(op, op.a) else Locked(op, 0, None)];
    assert Step(s, fs[0]).value.threads == ths;
    TotalUpdate(s.threads, t, ths[t], Short);
    TotalUpdate(ths, t, Locked(op, 0, None), Short);
  }

  lemma Extend<V>(vals0: seq<V>, nthreads: nat, es: seq<Event<V>>, s: State<V>, e: Event<V>)
    requires Run(vals0, nthreads, es) == Some(s) && Shaped(s)
    ensures Run(vals0, nthreads, es + [e]) == Step(s, e)
  {
    hide Step;
    assert (es + [e])[..|es|] == es;
  }

  lemma ShapedOfInv<V>(s: State<V>, vals0: seq<V>)
    requires Inv(s, vals0)
    ensures Shaped(s)
  {
    hide Serial, Answers, Owned, Clean;
  }

  ghost predicate CallFree<V>(es: seq<Event<V>>) {
    forall i :: 0 <= i < |es| ==> !es[i].Call?
  }

  /** From every reachable state, without any further call, all operations under way can be brought to their end:
      no deadlock, and no operation that waits for a lock it holds itself. */
  lemma {:induction false} NoDeadlock<V>(vals0: seq<V>, nthreads: nat, es: seq<Event<V>>, s: State<V>)
    returns (fs: seq<Event<V>>, s': State<V>)
    requires Run(vals0, nthreads, es) == Some(s)
    ensures CallFree(fs) && Run(vals0, nthreads, es + fs) == Some(s')
    ensures forall t :: 0 <= t < |s'.threads| ==> s'.threads[t].Idle?
    decreases Total(s.threads, Short), Total(s.threads, Work)
  {
    hide Run, Step, Inv, Total;
    RunKeeps(vals0, nthreads, es);
    ShapedOfInv(s, vals0);
    if t :| 0 <= t < |s.threads| && Work(s.threads[t]) > 0 {
      var e := HolderSteps(s, vals0, t);
      Extend(vals0, nthreads, es, s, e);
      fs, s' := NoDeadlock(vals0, nthreads, es + [e], Step(s, e).value);
      assert es + [e] + fs == es + ([e] + fs);
      fs := [e] + fs;
    } else if t :| 0 <= t < |s.threads| && s.threads[t].Wanting? {
      var gs := WaiterLocks(s, vals0, t);
      Extend(vals0, nthreads, es, s, gs[0]);
      var s1, done := Step(s, gs[0]).value, es + [gs[0]];
      if |gs| == 2 {
        Extend(vals0, nthreads, done, s1, gs[1]);
        s1, done := Step(s1, gs[1]).value, done + [gs[1]];
      }
      assert done == es + gs;
      fs, s' := NoDeadlock(vals0, nthreads, done, s1);
      assert es + gs + fs == es + (gs + fs);
      fs := gs + fs;
    } else {
      assert es + [] == es;
      fs, s' := [], s;
    }
  }

  // ---------- One operation at a time ----------

  /** In every reachable state a thread that is idle can call any operation on objects that exist, a waiting one can
      take any free lock it needs, and every other thread can go on. */
  lemma {:induction false} StepIsPossible<V>(vals0: seq<V>, nthreads: nat, es: seq<Event<V>>, s: State<V>, e: Event<V>)
    requires Run(vals0, nthreads, es) == Some(s)
    ensures Shaped(s) && |s.threads| == nthreads && |s.vals| == |s.owner| == |vals0|
    ensures Step(s, e).Some? <==>
              && e.t < nthreads
              && var th := s.threads[e.t];
                 match e
                 case Call(_, op) =>
                   && th.Idle? && op.a < |vals0|
                   && (op.Copy? || op.Move? || op.Swap? ==> op.b < |vals0|)
                 case LockOne(_, x) =>
                   && th.Wanting? && (x == th.op.a || ((th.op.Copy? || th.op.Move? || th.op.Swap?) && x == th.op.b))
                   && s.owner[x].None?
                 case TryOther(_) => th.Half?
                 case Act(_) => th.Locked?
                 case Unlock(_) => th.Finished? || th.Releasing?
  {
    hide Run, Serial, Answers, Clean, Logged;
    RunKeeps(vals0, nthreads, es);
    ShapedOfInv(s, vals0);
    ThreadCount(vals0, nthreads, es);
    if e.t < |s.threads| {
      ThreadOkAt(s, Serial(vals0, s.log), e.t);
    }
  }

  lemma {:induction false} ThreadCount<V>(vals0: seq<V>, nthreads: nat, es: seq<Event<V>>)
    ensures var r := Run(vals0, nthreads, es); r.Some? ==> |r.value.threads| == nthreads
    decreases |es|
  {
    if es != [] {
      hide Step;
      ThreadCount(vals0, nthreads, es[..|es| - 1]);
      if Run(vals0, nthreads, es).Some? {
        SameThreads(Run(vals0, nthreads, es[..|es| - 1]).value, es[|es| - 1]);
      }
    }
  }

  lemma SameThreads<V>(s: State<V>, e: Event<V>)
    requires Shaped(s) && Step(s, e).Some?
    ensures |Step(s, e).value.threads| == |s.threads|
  {
  }

  ghost predicate AllIdle<V>(s: State<V>) {
    forall t :: 0 <= t < |s.threads| ==> s.threads[t].Idle?
  }

  /** Only thread `t` is inside an operation, or has just been: `op`, called when the log was `log`. */
  ghost predicate Alone<V>(s: State<V>, log: seq<Entry<V>>, t: nat, op: Op<V>) {
    && t < |s.threads|
    && (forall u :: 0 <= u < |s.threads| && u != t ==> s.threads[u].Idle?)
    && (!s.threads[t].Idle? ==> s.threads[t].op == op)
    && if s.threads[t].Wanting? || s.threads[t].Half? || s.threads[t].Locked? then s.log == log
       else |s.log| == |log| + 1 && s.log[..|log|] == log && s.log[|log|].t == t && s.log[|log|].op == op
  }

  lemma AloneStep<V>(s: State<V>, e: Event<V>, log: seq<Entry<V>>, t: nat, op: Op<V>)
    requires Shaped(s) && Alone(s, log, t, op) && !e.Call? && Step(s, e).Some?
    ensures Alone(Step(s, e).value, log, t, op)
  {
  }

  lemma {:induction false} AloneRun<V>(vals0: seq<V>, nthreads: nat, es: seq<Event<V>>, gs: seq<Event<V>>,
                                       log: seq<Entry<V>>, t: nat, op: Op<V>)
    requires Run(vals0, nthreads, es + gs).Some? && CallFree(gs)
    requires Run(vals0, nthreads, es).Some? ==> Alone(Run(vals0, nthreads, es).value, log, t, op)
    ensures Alone(Run(vals0, nthreads, es + gs).value, log, t, op)
    decreases |gs|
  {
    hide Step, Alone;
    if gs == [] {
      assert es + gs == es;
    } else {
      var k := |gs| - 1;
      assert (es + gs)[..|es| + k] == es + gs[..k];
      AloneRun(vals0, nthreads, es, gs[..k], log, t, op);
      AloneStep(Run(vals0, nthreads, es + gs[..k]).value, gs[k], log, t, op);
    }
  }

  /** What one operation does when no other is called while it runs: its operands get what the assignment, copy,
      move or swap says, every other value stays, and the answer is the value that was there. */
  lemma {:induction false} OperationAlone<V>(vals0: seq<V>, nthreads: nat, es: seq<Event<V>>, s: State<V>,
                                             t: nat, op: Op<V>, gs: seq<Event<V>>, s': State<V>)
    requires Run(vals0, nthreads, es) == Some(s) && AllIdle(s) && CallFree(gs)
    requires Run(vals0, nthreads, es + [Call(t, op)] + gs) == Some(s') && AllIdle(s')
    ensures |s.vals| == |s'.vals| == |vals0| && op.a < |vals0|
    ensures op.Copy? || op.Move? || op.Swap? ==> op.b < |vals0|
    ensures |s'.log| == |s.log| + 1 && s'.log[..|s.log|] == s.log && s'.log[|s.log|].t == t && s'.log[|s.log|].op == op
    ensures forall x :: 0 <= x < |vals0| && x != op.a && (op.Move? || op.Swap? ==> x != op.b) ==> s'.vals[x] == s.vals[x]
    ensures var result := s'.log[|s.log|].result;
            match op
            case Assign(a, v) => s'.vals[a] == v && result == None
            case Copy(a, b) => s'.vals[a] == s.vals[b] && result == None
            case Move(a, b, left) =>
              && s'.vals[a] == s.vals[b] && result == None
              && (a != b ==> s'.vals[b] == left)
            case Get(a) => s'.vals == s.vals && result == Some(s.vals[a])
            case Swap(a, b) => s'.vals[a] == s.vals[b] && s'.vals[b] == s.vals[a] && result == None
            case Exchange(a, v) => s'.vals[a] == v && result == Some(s.vals[a])
  {
    hide Run, Step, Serial, Answers, Inv;
    RunPrefix(vals0, nthreads, es + [Call(t, op)], gs);
    StepIsPossible(vals0, nthreads, es, s, Call(t, op));
    Extend(vals0, nthreads, es, s, Call(t, op));
    CallAlone(s, t, op);
    AloneRun(vals0, nthreads, es + [Call(t, op)], gs, s.log, t, op);
    RunIsSerial(vals0, nthreads, es, s);
    RunIsSerial(vals0, nthreads, es + [Call(t, op)] + gs, s');
    OneMoreLogged(vals0, s.log, s'.log);
  }

  lemma OneMoreLogged<V>(vals0: seq<V>, log: seq<Entry<V>>, log': seq<Entry<V>>)
    requires |log'| == |log| + 1 && log'[..|log|] == log && Answers(vals0, log')
    ensures Serial(vals0, log') == Effect(Serial(vals0, log), log'[|log|].op)
    ensures log'[|log|].result == Answer(Serial(vals0, log), log'[|log|].op)
  {
  }

  lemma CallAlone<V>(s: State<V>, t: nat, op: Op<V>)
    requires Shaped(s) && AllIdle(s) && Step(s, Call(t, op)).Some?
    ensures Alone(Step(s, Call(t, op)).value, s.log, t, op)
  {
  }

  lemma {:induction false} RunPrefix<V>(vals0: seq<V>, nthreads: nat, es: seq<Event<V>>, gs: seq<Event<V>>)
    requires Run(vals0, nthreads, es + gs).Some?
    ensures Run(vals0, nthreads, es).Some?
  {
    LogIsPrefix(vals0, nthreads, es, gs);
  }

  /** Any operation on objects that exist can be called, and runs to its end. */
  lemma {:induction false} OperationCompletes<V>(vals0: seq<V>, nthreads: nat, es: seq<Event<V>>, s: State<V>,
                                                 t: nat, op: Op<V>) returns (gs: seq<Event<V>>, s': State<V>)
    requires Run(vals0, nthreads, es) == Some(s) && AllIdle(s) && t < nthreads
    requires op.a < |vals0| && (op.Copy? || op.Move? || op.Swap? ==> op.b < |vals0|)
    ensures CallFree(gs) && Run(vals0, nthreads, es + [Call(t, op)] + gs) == Some(s') && AllIdle(s')
  {
    hide Run, Step;
    StepIsPossible(vals0, nthreads, es, s, Call(t, op));
    Extend(vals0, nthreads, es, s, Call(t, op));
    gs, s' := NoDeadlock(vals0, nthreads, es + [Call(t, op)], Step(s, Call(t, op)).value);
  }

  // ---------- Swaps ----------

  ghost predicate OnlySwaps<V>(log: seq<Entry<V>>) {
    forall i :: 0 <= i < |log| ==> log[i].op.Swap? || log[i].op.Get?
  }

  lemma SwapPermutes<V>(vs: seq<V>, a: nat, b: nat)
    requires a < |vs| && b < |vs|
    ensures multiset(vs[a := vs[b]][b := vs[a]]) == multiset(vs)
  {
  }

  /** Swaps and reads only permute the values. */
  lemma {:induction false} SwapsOnlyPermute<V>(vals0: seq<V>, log: seq<Entry<V>>)
    requires OnlySwaps(log)
    ensures multiset(Serial(vals0, log)) == multiset(vals0)
    decreases |log|
  {
    if log != [] {
      var e := log[|log| - 1];
      SwapsOnlyPermute(vals0, log[..|log| - 1]);
      var mid := Serial(vals0, log[..|log| - 1]);
      if e.op.Swap? && InRange(e.op, |mid|) {
        SwapPermutes(mid, e.op.a, e.op.b);
      }
    }
  }

  /** Over any run whose completed operations are swaps and reads, the values are a permutation of the initial
      ones whenever no operation is inside its effect. */
  lemma {:induction false} RunOfSwapsPermutes<V>(vals0: seq<V>, nthreads: nat, es: seq<Event<V>>, s: State<V>)
    requires Run(vals0, nthreads, es) == Some(s) && OnlySwaps(s.log)
    requires forall t :: 0 <= t < |s.threads| ==> !s.threads[t].Locked?
    ensures multiset(s.vals) == multiset(vals0)
  {
    hide Run, Serial;
    RunIsSerial(vals0, nthreads, es, s);
    SwapsOnlyPermute(vals0, s.log);
  }
}

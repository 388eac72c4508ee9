/** The atomic counter benchmark: `n` workers and the main thread around three barriers, any schedule. */
module AtomicBench {
  import opened Options
  import B = Barrier

  datatype Timer = NotStarted | Running | Frozen

  /** Stages of a worker: 0 first barrier, 1 second barrier, 2 counting, 3 third barrier, 4 finished.
      Stages of the main thread: 0 spawning, 1 first barrier, 2 starting the timer, 3 second barrier,
      4 third barrier, 5 freezing the timer, 6 joining, 7 comparing the counter, 8 finished. */
  datatype State = State(
    bars: seq<B.Barrier>,
    stages: seq<nat>,      // workers 0 .. n - 1, then the main thread
    spawned: nat,
    done: seq<nat>,        // increments of each worker
    counter: nat,
    timer: Timer,
    joined: nat,
    success: bool)

  datatype Event =
    | Spawn | StartBarriers
    | InBarrier(t: nat, act: B.Act) | PassBarrier(t: nat)
    | StartTimer | Freeze | Join | Joined | Compare
    | Increment(t: nat) | CountingDone(t: nat)

  /** The stage in which thread `t` is inside barrier `k`. */
  function BarrierStage(n: nat, t: nat, k: nat): nat {
    if t < n then (if k == 2 then 3 else k) else (if k == 0 then 1 else k + 2)
  }

  /** The barrier that thread `t` is inside at this stage. */
  function BarrierAt(n: nat, t: nat, stage: nat): Option<nat> {
    if stage == BarrierStage(n, t, 0) then Some(0)
    else if stage == BarrierStage(n, t, 1) then Some(1)
    else if stage == BarrierStage(n, t, 2) then Some(2)
    else None
  }

  function Init(n: nat): State {
    State(seq(3, _ => B.Init(n + 1)), seq(n + 1, _ => 0), 0, seq(n, _ => 0), 0, NotStarted, 0, false)
  }

  predicate Shaped(s: State, n: nat) {
    && |s.bars| == 3 && |s.stages| == n + 1 && |s.done| == n
    && (forall k :: 0 <= k < 3 ==> |s.bars[k].pcs| == n + 1)
  }

  /** A worker exists once it has been spawned. */
  predicate Alive(s: State, n: nat, t: nat) {
    t <= n && (t < n ==> t < s.spawned)
  }

  /** `per` increments for each worker; `total` is what the counter is compared with. */
  function Step(s: State, n: nat, per: nat, total: nat, e: Event): Option<State>
    requires Shaped(s, n)
  {
    var m := s.stages[n];
    match e
    case Spawn => if m == 0 && s.spawned < n then Some(s.(spawned := s.spawned + 1)) else None
    case StartBarriers => if m == 0 && s.spawned == n then Some(s.(stages := s.stages[n := 1])) else None
    case InBarrier(t, act) =>
      if !Alive(s, n, t) || BarrierAt(n, t, s.stages[t]).None? then None
      else
        var k := BarrierAt(n, t, s.stages[t]).value;
        (match B.Step(s.bars[k], t, act)
         case Some(b) => Some(s.(bars := s.bars[k := b]))
         case None => None)
    case PassBarrier(t) =>
      if !Alive(s, n, t) || BarrierAt(n, t, s.stages[t]).None? then None
      else if !s.bars[BarrierAt(n, t, s.stages[t]).value].pcs[t].Gone? then None
      else Some(s.(stages := s.stages[t := s.stages[t] + 1]))
    case StartTimer => if m == 2 then Some(s.(timer := Running, stages := s.stages[n := 3])) else None
    case Freeze => if m == 5 then Some(s.(timer := Frozen, stages := s.stages[n := 6])) else None
    case Join =>
      if m == 6 && s.joined < n && s.stages[s.joined] == 4 then Some(s.(joined := s.joined + 1)) else None
    case Joined => if m == 6 && s.joined == n then Some(s.(stages := s.stages[n := 7])) else None
    case Compare => if m == 7 then Some(s.(success := s.counter == total, stages := s.stages[n := 8])) else None
    case Increment(t) =>
      if t < n && s.stages[t] == 2 && s.done[t] < per
      then Some(s.(done := s.done[t := s.done[t] + 1], counter := (s.counter + 1) % B.WORD)) else None
    case CountingDone(t) =>
      if t < n && s.stages[t] == 2 && s.done[t] >= per then Some(s.(stages := s.stages[t := 3])) else None
  }

  function Sum(ds: seq<nat>): nat {
    if ds == [] then 0 else ds[0] + Sum(ds[1..])
  }

  lemma {:induction false} SumUpdate(ds: seq<nat>, t: nat, d: nat)
    requires t < |ds|
    ensures Sum(ds[t := d]) == Sum(ds) - ds[t] + d
    decreases |ds|
  {
    if t == 0 {
      assert ds[t := d][1..] == ds[1..];
    } else {
      assert ds[t := d][1..] == ds[1..][t - 1 := d];
      SumUpdate(ds[1..], t - 1, d);
    }
  }

  lemma {:induction false} SumBound(ds: seq<nat>, per: nat)
    requires forall i :: 0 <= i < |ds| ==> ds[i] <= per
    ensures Sum(ds) <= |ds| * per
    ensures (forall i :: 0 <= i < |ds| ==> ds[i] == per) ==> Sum(ds) == |ds| * per
    decreases |ds|
  {
    if ds != [] {
      SumBound(ds[1..], per);
      assert |ds| * per == |ds[1..]| * per + per;
    }
  }

  lemma {:induction false} SumOfZeros(n: nat)
    ensures Sum(seq(n, _ => 0)) == 0
    decreases n
  {
    if n > 0 {
      assert seq(n, _ => 0)[1..] == seq(n - 1, _ => 0);
      SumOfZeros(n - 1);
    }
  }

  // ---------- Invariant ----------

  /** A thread short of a barrier is outside of it, a thread past it has returned from it. */
  ghost predicate InStep(s: State, n: nat, t: nat, k: nat)
    requires Shaped(s, n) && t <= n && k < 3
  {
    && (s.stages[t] < BarrierStage(n, t, k) ==> s.bars[k].pcs[t].Outside?)
    && (s.stages[t] > BarrierStage(n, t, k) ==> s.bars[k].pcs[t].Gone?)
  }

  ghost predicate WorkerOk(s: State, n: nat, per: nat, t: nat)
    requires Shaped(s, n) && t < n
  {
    && s.stages[t] <= 4 && s.done[t] <= per
    && (s.stages[t] < 2 ==> s.done[t] == 0)
    && (s.stages[t] > 2 ==> s.done[t] == per)
    && (t >= s.spawned ==> s.stages[t] == 0 && s.bars[0].pcs[t].Outside?)
    && (t < s.joined ==> s.stages[t] == 4)
  }

  ghost predicate MainOk(s: State, n: nat, per: nat)
    requires Shaped(s, n)
  {
    var m := s.stages[n];
    && m <= 8 && s.spawned <= n && s.joined <= n
    && (m > 0 ==> s.spawned == n)
    && (m < 6 ==> s.joined == 0) && (m > 6 ==> s.joined == n)
    && s.timer == (if m <= 2 then NotStarted else if m <= 5 then Running else Frozen)
    && s.counter == Sum(s.done)
  }

  ghost predicate Inv(s: State, n: nat, per: nat) {
    && Shaped(s, n)
    && (forall k :: 0 <= k < 3 ==> B.Inv(s.bars[k], n + 1))
    && (forall t, k :: 0 <= t <= n && 0 <= k < 3 ==> InStep(s, n, t, k))
    && (forall t :: 0 <= t < n ==> WorkerOk(s, n, per, t))
    && MainOk(s, n, per)
  }

  /** Nobody is past a barrier that somebody else has not reached. */
  lemma BarrierSeparates(s: State, n: nat, per: nat, k: nat, t: nat, u: nat)
    requires Inv(s, n, per) && k < 3 && t <= n && u <= n && s.stages[t] > BarrierStage(n, t, k)
    ensures s.stages[u] >= BarrierStage(n, u, k)
  {
    assert InStep(s, n, t, k) && InStep(s, n, u, k);
    B.NobodyLeavesEarly(s.bars[k], n + 1, t, u);
  }

  lemma InitInv(n: nat, per: nat)
    requires n + 1 < B.WORD
    ensures Inv(Init(n), n, per)
  {
    B.InitInv(n + 1);
    SumOfZeros(n);
    hide B.Inv, Sum;
  }

  lemma InBarrierKeeps(s: State, n: nat, per: nat, total: nat, t: nat, act: B.Act)
    requires Inv(s, n, per) && Step(s, n, per, total, InBarrier(t, act)).Some?
    ensures Inv(Step(s, n, per, total, InBarrier(t, act)).value, n, per)
  {
    hide B.Inv, B.Step, Sum;
    var s' := Step(s, n, per, total, InBarrier(t, act)).value;
    var k := BarrierAt(n, t, s.stages[t]).value;
    B.StepKeeps(s.bars[k], n + 1, t, act);
    OthersOutsideOrGone(s.bars[k], t, act);
    forall u, j | 0 <= u <= n && 0 <= j < 3 ensures InStep(s', n, u, j) {
      assert InStep(s, n, u, j);
    }
    forall u | 0 <= u < n ensures WorkerOk(s', n, per, u) {
      assert WorkerOk(s, n, per, u);
    }
  }

  /** A thread's step leaves the others inside, outside or gone as they are. */
  lemma OthersOutsideOrGone(b: B.Barrier, t: nat, act: B.Act)
    requires t < |b.pcs| && B.Step(b, t, act).Some?
    ensures var c := B.Step(b, t, act).value;
            && |c.pcs| == |b.pcs|
            && forall u :: 0 <= u < |b.pcs| && u != t ==>
                 (c.pcs[u].Outside? <==> b.pcs[u].Outside?) && (c.pcs[u].Gone? <==> b.pcs[u].Gone?)
  {
  }

  lemma StageKeeps(s: State, n: nat, per: nat, total: nat, e: Event)
    requires Inv(s, n, per) && Step(s, n, per, total, e).Some? && (e.PassBarrier? || e.CountingDone?)
    ensures Inv(Step(s, n, per, total, e).value, n, per)
  {
    hide B.Inv, B.Step, Sum;
    var s' := Step(s, n, per, total, e).value;
    var t := e.t;
    forall u, j | 0 <= u <= n && 0 <= j < 3 ensures InStep(s', n, u, j) {
      assert InStep(s, n, u, j);
    }
    forall u | 0 <= u < n ensures WorkerOk(s', n, per, u) {
      assert WorkerOk(s, n, per, u);
    }
  }

  lemma MainKeeps(s: State, n: nat, per: nat, total: nat, e: Event)
    requires Inv(s, n, per) && Step(s, n, per, total, e).Some?
    requires e.Spawn? || e.StartBarriers? || e.StartTimer? || e.Freeze? || e.Join? || e.Joined? || e.Compare?
    ensures Inv(Step(s, n, per, total, e).value, n, per)
  {
    hide B.Inv, B.Step, Sum;
    var s' := Step(s, n, per, total, e).value;
    forall u, j | 0 <= u <= n && 0 <= j < 3 ensures InStep(s', n, u, j) {
      assert InStep(s, n, u, j);
    }
    forall u | 0 <= u < n ensures WorkerOk(s', n, per, u) {
      assert WorkerOk(s, n, per, u);
    }
  }

  lemma IncrementKeeps(s: State, n: nat, per: nat, total: nat, t: nat)
    requires Inv(s, n, per) && Step(s, n, per, total, Increment(t)).Some? && n * per < B.WORD
    ensures Inv(Step(s, n, per, total, Increment(t)).value, n, per)
  {
    hide B.Inv, B.Step, Sum;
    var s' := Step(s, n, per, total, Increment(t)).value;
    forall u | 0 <= u < n ensures s.done[u] <= per {
      assert WorkerOk(s, n, per, u);
    }
    CountOneMore(s.done, n, per, t);
    forall u | 0 <= u < n ensures WorkerOk(s', n, per, u) {
      assert WorkerOk(s, n, per, u);
    }
    forall u, j | 0 <= u <= n && 0 <= j < 3 ensures InStep(s', n, u, j) {
      assert InStep(s, n, u, j);
    }
  }

  lemma CountOneMore(ds: seq<nat>, n: nat, per: nat, t: nat)
    requires |ds| == n && t < n && ds[t] < per && n * per < B.WORD && forall u :: 0 <= u < n ==> ds[u] <= per
    ensures Sum(ds[t := ds[t] + 1]) == Sum(ds) + 1 < B.WORD
  {
    hide Sum;
    SumUpdate(ds, t, ds[t] + 1);
    SumBound(ds[t := ds[t] + 1], per);
  }

  lemma StepKeeps(s: State, n: nat, per: nat, total: nat, e: Event)
    requires Inv(s, n, per) && Step(s, n, per, total, e).Some? && n * per < B.WORD
    ensures Inv(Step(s, n, per, total, e).value, n, per)
  {
    hide Inv, Step;
    match e
    case InBarrier(t, act) => InBarrierKeeps(s, n, per, total, t, act);
    case PassBarrier(_) => StageKeeps(s, n, per, total, e);
    case CountingDone(_) => StageKeeps(s, n, per, total, e);
    case Increment(t) => IncrementKeeps(s, n, per, total, t);
    case _ => MainKeeps(s, n, per, total, e);
  }

  // ---------- Whole runs ----------

  function Run(n: nat, per: nat, total: nat, es: seq<Event>): Option<State> {
    if es == [] then Some(Init(n))
    else match Run(n, per, total, es[..|es| - 1])
      case Some(s) => if Shaped(s, n) then Step(s, n, per, total, es[|es| - 1]) else None
      case None => None
  }

  lemma {:induction false} RunKeeps(n: nat, per: nat, total: nat, es: seq<Event>)
    requires n + 1 < B.WORD && n * per < B.WORD
    ensures Run(n, per, total, es).Some? ==> Inv(Run(n, per, total, es).value, n, per)
    decreases |es|
  {
    hide Inv, Step;
    if es == [] {
      InitInv(n, per);
    } else {
      RunKeeps(n, per, total, es[..|es| - 1]);
      if Run(n, per, total, es).Some? {
        StepKeeps(Run(n, per, total, es[..|es| - 1]).value, n, per, total, es[|es| - 1]);
      }
    }
  }

  /** Every increment happens while the timer runs. */
  lemma {:induction false} IncrementsAreTimed(n: nat, per: nat, total: nat, es: seq<Event>, s: State, t: nat)
    requires n + 1 < B.WORD && n * per < B.WORD
    requires Run(n, per, total, es) == Some(s) && Shaped(s, n)
    ensures Step(s, n, per, total, Increment(t)).Some? ==> s.timer.Running?
  {
    hide Run;
    RunKeeps(n, per, total, es);
    if Step(s, n, per, total, Increment(t)).Some? {
      BarrierSeparates(s, n, per, 1, t, n);
      if s.stages[n] > BarrierStage(n, n, 2) {
        BarrierSeparates(s, n, per, 2, n, t);
      }
    }
  }

  /** From the comparison on, all workers have counted to the end. */
  lemma AllCounted(s: State, n: nat, per: nat)
    requires Inv(s, n, per) && s.stages[n] >= 7
    ensures s.counter == n * per
    ensures forall t :: 0 <= t < n ==> s.stages[t] == 4 && s.done[t] == per
  {
    forall t | 0 <= t < n ensures s.stages[t] == 4 && s.done[t] == per {
      assert WorkerOk(s, n, per, t);
    }
    SumBound(s.done, per);
  }

  /** When the main thread compares, every worker is joined and has done all its increments, none of them lost; the
      comparison succeeds exactly if the shares add up to the requested total. */
  lemma {:induction false} CounterIsTotal(n: nat, per: nat, total: nat, es: seq<Event>, s: State)
    requires n + 1 < B.WORD && n * per < B.WORD
    requires Run(n, per, total, es) == Some(s) && Shaped(s, n) && s.stages[n] >= 7
    ensures s.counter == n * per
    ensures forall t :: 0 <= t < n ==> s.stages[t] == 4 && s.done[t] == per
    ensures s.stages[n] == 8 ==> (s.success <==> n * per == total)
  {
    hide Run;
    RunKeeps(n, per, total, es);
    AllCounted(s, n, per);
    if s.stages[n] == 8 {
      SuccessIsExact(n, per, total, es, s);
    }
  }

  lemma {:induction false} SuccessIsExact(n: nat, per: nat, total: nat, es: seq<Event>, s: State)
    requires n + 1 < B.WORD && n * per < B.WORD
    requires Run(n, per, total, es) == Some(s) && Shaped(s, n) && s.stages[n] == 8
    ensures s.success <==> n * per == total
    decreases |es|
  {
    hide B.Inv, B.Step, Sum;
    var pre := es[..|es| - 1];
    var r := Run(n, per, total, pre).value;
    RunKeeps(n, per, total, pre);
    if r.stages[n] == 8 {
      SuccessIsExact(n, per, total, pre, r);
    } else {
      AllCounted(r, n, per);
    }
  }

  // ---------- Progress ----------

  /** Barrier `k` has been reached by all and not passed by `u`: some thread can step. */
  lemma BarrierProgress(s: State, n: nat, per: nat, total: nat, k: nat, u: nat) returns (e: Event)
    requires Inv(s, n, per) && s.stages[n] > 0 && k < 3 && u <= n
    requires s.stages[u] <= BarrierStage(n, u, k)
    requires forall t :: 0 <= t <= n ==> s.stages[t] >= BarrierStage(n, t, k)
    ensures Step(s, n, per, total, e).Some? && !(e.InBarrier? && e.act.SpuriousWake?)
  {
    hide B.Inv, Sum;
    if s.bars[k].pcs[u].Gone? {
      e := PassBarrier(u);
    } else {
      var t, a := B.Progress(s.bars[k], n + 1, u);
      assert InStep(s, n, t, k);
      e := InBarrier(t, a);
    }
  }

  /** No schedule deadlocks: until the main thread is finished, some thread can step other than by a spurious
      wakeup. */
  lemma NoDeadlock(s: State, n: nat, per: nat, total: nat) returns (e: Event)
    requires Inv(s, n, per) && s.stages[n] != 8
    ensures Step(s, n, per, total, e).Some? && !(e.InBarrier? && e.act.SpuriousWake?)
  {
    hide B.Inv, B.Step, Sum;
    var m := s.stages[n];
    if m == 0 {
      e := if s.spawned < n then Spawn else StartBarriers;
    } else if u :| 0 <= u <= n && s.stages[u] <= BarrierStage(n, u, 0) {
      e := BarrierProgress(s, n, per, total, 0, u);
    } else if m == 2 {
      e := StartTimer;
    } else if u :| 0 <= u <= n && s.stages[u] <= BarrierStage(n, u, 1) {
      e := BarrierProgress(s, n, per, total, 1, u);
    } else if u :| 0 <= u < n && s.stages[u] == 2 {
      e := if s.done[u] < per then Increment(u) else CountingDone(u);
    } else if u :| 0 <= u <= n && s.stages[u] <= BarrierStage(n, u, 2) {
      e := BarrierProgress(s, n, per, total, 2, u);
    } else if m == 5 {
      e := Freeze;
    } else if m == 6 {
      assert s.joined < n ==> WorkerOk(s, n, per, s.joined) && s.stages[s.joined] > BarrierStage(n, s.joined, 2);
      e := if s.joined < n then Join else Joined;
    } else {
      assert s.stages[n] > BarrierStage(n, n, 2);
      e := Compare;
    }
  }

  /** Threads that have not notified, over the three barriers. */
  function Unnotified(s: State): nat
    requires |s.bars| == 3
  {
    B.Unnotifieds(s.bars[0]) + B.Unnotifieds(s.bars[1]) + B.Unnotifieds(s.bars[2])
  }

  function Weight(s: State): nat
    requires |s.bars| == 3
  {
    B.Weights(s.bars[0]) + B.Weights(s.bars[1]) + B.Weights(s.bars[2])
  }

  /** Stages, spawns, joins and increments still to come. */
  function Remaining(s: State, n: nat, per: nat): int {
    n * (per + 4) + 8 + 2 * n - Sum(s.stages) - Sum(s.done) - s.spawned - s.joined
  }

  ghost predicate Lower(s': State, s: State, n: nat, per: nat)
    requires |s'.bars| == 3 && |s.bars| == 3
  {
    || Unnotified(s') < Unnotified(s)
    || (Unnotified(s') == Unnotified(s)
        && (Remaining(s', n, per) < Remaining(s, n, per)
            || (Remaining(s', n, per) == Remaining(s, n, per) && Weight(s') < Weight(s))))
  }

  lemma {:induction false} StagesBound(stages: seq<nat>, n: nat)
    requires |stages| == n + 1 && stages[n] <= 8 && forall t :: 0 <= t < n ==> stages[t] <= 4
    ensures Sum(stages) <= 4 * n + 8
    decreases n
  {
    if n > 0 {
      StagesBound(stages[1..], n - 1);
    }
  }

  lemma RemainingIsNatural(s: State, n: nat, per: nat)
    requires Inv(s, n, per)
    ensures Remaining(s, n, per) >= 0
  {
    forall t | 0 <= t < n ensures s.stages[t] <= 4 && s.done[t] <= per {
      assert WorkerOk(s, n, per, t);
    }
    StagesBound(s.stages, n);
    SumBound(s.done, per);
    assert n * (per + 4) == n * per + 4 * n;
  }

  /** Every step but a spurious wakeup lowers the measure, so a schedule with finitely many spurious wakeups ends. */
  lemma StepLowersMeasure(s: State, n: nat, per: nat, total: nat, e: Event)
    requires Inv(s, n, per) && Step(s, n, per, total, e).Some? && !(e.InBarrier? && e.act.SpuriousWake?)
    ensures Shaped(s, n) && |Step(s, n, per, total, e).value.bars| == 3
    ensures Lower(Step(s, n, per, total, e).value, s, n, per)
  {
    hide B.Inv, B.Step, Sum, B.Unnotifieds, B.Weights;
    var s' := Step(s, n, per, total, e).value;
    match e
    case InBarrier(t, act) =>
      var k := BarrierAt(n, t, s.stages[t]).value;
      B.StepLowersMeasure(s.bars[k], t, act);
    case Increment(t) => SumUpdate(s.done, t, s.done[t] + 1);
    case PassBarrier(t) => SumUpdate(s.stages, t, s.stages[t] + 1);
    case CountingDone(t) => SumUpdate(s.stages, t, 3);
    case _ => SumUpdate(s.stages, n, s'.stages[n]);
  }

  /** Any run can be continued to its end: in every reachable unfinished state some step lowers the measure. */
  lemma EveryRunCanFinish(n: nat, per: nat, total: nat, es: seq<Event>, s: State) returns (e: Event)
    requires n + 1 < B.WORD && n * per < B.WORD
    requires Run(n, per, total, es) == Some(s) && Shaped(s, n) && s.stages[n] != 8
    ensures Step(s, n, per, total, e).Some? && |Step(s, n, per, total, e).value.bars| == 3
    ensures Lower(Step(s, n, per, total, e).value, s, n, per) && Remaining(s, n, per) >= 0
  {
    hide Run, Step, Inv, Lower, Remaining;
    RunKeeps(n, per, total, es);
    RemainingIsNatural(s, n, per);
    e := NoDeadlock(s, n, per, total);
    StepLowersMeasure(s, n, per, total, e);
  }

  /** Over every run: the main thread's next step and each worker's next increment can happen whenever it is their
      turn, whatever the others are doing. */
  lemma {:induction false} StepIsPossible(n: nat, per: nat, total: nat, es: seq<Event>, s: State, e: Event)
    requires n + 1 < B.WORD && n * per < B.WORD
    requires Run(n, per, total, es) == Some(s)
    ensures Shaped(s, n)
    ensures var m := s.stages[n];
            match e
            case Spawn => Step(s, n, per, total, e).Some? <==> m == 0 && s.spawned < n
            case StartBarriers => Step(s, n, per, total, e).Some? <==> m == 0 && s.spawned == n
            case StartTimer => Step(s, n, per, total, e).Some? <==> m == 2
            case Freeze => Step(s, n, per, total, e).Some? <==> m == 5
            case Join => Step(s, n, per, total, e).Some? <==> m == 6 && s.joined < n && s.stages[s.joined] == 4
            case Joined => Step(s, n, per, total, e).Some? <==> m == 6 && s.joined == n
            case Compare => Step(s, n, per, total, e).Some? <==> m == 7
            case Increment(t) => Step(s, n, per, total, e).Some? <==> t < n && s.stages[t] == 2 && s.done[t] < per
            case CountingDone(t) => Step(s, n, per, total, e).Some? <==> t < n && s.stages[t] == 2 && s.done[t] == per
            case _ => true
  {
    hide Run, B.Inv, B.Step, Sum;
    RunKeeps(n, per, total, es);
    assert (e.Increment? || e.CountingDone?) && e.t < n ==> WorkerOk(s, n, per, e.t);
  }

  /** Inside barrier `k`, which a worker enters in stage 0, 1 or 3 and the main thread in stage 1, 3 or 4, a thread can
      do exactly what that barrier lets it, and leave once it has returned from it. */
  lemma {:induction false} BarrierStepIsPossible(n: nat, per: nat, total: nat, es: seq<Event>, s: State,
                                                 k: nat, t: nat, act: B.Act)
    requires n + 1 < B.WORD && n * per < B.WORD
    requires Run(n, per, total, es) == Some(s) && Shaped(s, n) && k < 3
    requires (t < n && t < s.spawned && s.stages[t] == [0, 1, 3][k]) || (t == n && s.stages[n] == [1, 3, 4][k])
    ensures |s.bars[k].pcs| == n + 1
    ensures var r := Step(s, n, per, total, InBarrier(t, act));
            && (r.Some? <==> B.Step(s.bars[k], t, act).Some?)
            && (r.Some? ==> r.value == s.(bars := s.bars[k := B.Step(s.bars[k], t, act).value]))
    ensures Step(s, n, per, total, PassBarrier(t)).Some? <==> s.bars[k].pcs[t].Gone?
  {
    hide Run, B.Step;
  }

  lemma RunOneMore(n: nat, per: nat, total: nat, es: seq<Event>, s: State, e: Event)
    requires Run(n, per, total, es) == Some(s) && Shaped(s, n)
    ensures Run(n, per, total, es + [e]) == Step(s, n, per, total, e)
  {
    hide Step;
    assert (es + [e])[..|es|] == es;
  }

  lemma ShapedOfInv(s: State, n: nat, per: nat)
    requires Inv(s, n, per)
    ensures Shaped(s, n)
  {
  }

  /** Whatever has happened so far, the run can be continued until the main thread is finished, and then it has
      compared the counter with the requested total: equal exactly if the shares add up to it. */
  lemma {:induction false} EveryRunEnds(n: nat, per: nat, total: nat, es: seq<Event>, s: State)
    returns (fs: seq<Event>, s': State)
    requires n + 1 < B.WORD && n * per < B.WORD
    requires Run(n, per, total, es) == Some(s) && |s.bars| == 3
    ensures Run(n, per, total, es + fs) == Some(s') && Shaped(s', n) && s'.stages[n] == 8
    ensures s'.counter == n * per && (s'.success <==> n * per == total)
    decreases Unnotified(s), Remaining(s, n, per), Weight(s)
  {
    hide Run, Step, Inv, Unnotified, Remaining, Weight;
    RunKeeps(n, per, total, es);
    ShapedOfInv(s, n, per);
    if s.stages[n] == 8 {
      CounterIsTotal(n, per, total, es, s);
      assert es + [] == es;
      fs, s' := [], s;
    } else {
      var e := EveryRunCanFinish(n, per, total, es, s);
      RunOneMore(n, per, total, es, s, e);
      fs, s' := EveryRunEnds(n, per, total, es + [e], Step(s, n, per, total, e).value);
      assert es + [e] + fs == es + ([e] + fs);
      fs := [e] + fs;
    }
  }
}

/** The counting barrier: a monitor with a condition variable, any schedule, spurious wakeups included. */
module Barrier {
  import opened Options

  const WORD := 0x1_0000_0000_0000_0000

  /** Where a thread is inside `enter`. */
  datatype Pc =
    | Outside
    | Entered       // holds the mutex, count not decremented yet
    | Decremented   // holds the mutex, nobody notified yet
    | Checking      // holds the mutex, about to evaluate the predicate
    | Asleep        // waiting on the condition variable, mutex released
    | Woken         // notified or woken spuriously, has to take the mutex again
    | Leaving       // holds the mutex, predicate true
    | Gone          // returned from `enter`

  datatype Barrier = Barrier(count: nat, mutex: Option<nat>, pcs: seq<Pc>)

  datatype Act = Lock | Decrement | NotifyAll | Check | Relock | Unlock | SpuriousWake

  /** A barrier for `n` threads that none of its `n` threads has entered. */
  function Init(n: nat): Barrier {
    Barrier(n, None, seq(n, _ => Outside))
  }

  predicate HoldsMutex(p: Pc) {
    p.Entered? || p.Decremented? || p.Checking? || p.Leaving?
  }

  function WakeAll(pcs: seq<Pc>): (r: seq<Pc>)
    ensures |r| == |pcs|
    ensures forall i :: 0 <= i < |pcs| ==> r[i] == if pcs[i].Asleep? then Woken else pcs[i]
  {
    if pcs == [] then [] else [if pcs[0].Asleep? then Woken else pcs[0]] + WakeAll(pcs[1..])
  }

  /** One step of thread `t`; None if it cannot take it. The count is a 64-bit unsigned number. */
  function Step(b: Barrier, t: nat, a: Act): Option<Barrier>
    requires t < |b.pcs|
  {
    var pc := b.pcs[t];
    match a
    case Lock =>
      if pc.Outside? && b.mutex.None? then Some(Barrier(b.count, Some(t), b.pcs[t := Entered])) else None
    case Decrement =>
      if pc.Entered?
      then Some(b.(count := if b.count == 0 then WORD - 1 else b.count - 1, pcs := b.pcs[t := Decremented])) else None
    case NotifyAll =>
      if pc.Decremented? then Some(b.(pcs := WakeAll(b.pcs)[t := Checking])) else None
    case Check =>
      if !pc.Checking? then None
      else if b.count == 0 then Some(b.(pcs := b.pcs[t := Leaving]))
      else Some(Barrier(b.count, None, b.pcs[t := Asleep]))
    case Relock =>
      if pc.Woken? && b.mutex.None? then Some(Barrier(b.count, Some(t), b.pcs[t := Checking])) else None
    case Unlock => if pc.Leaving? then Some(Barrier(b.count, None, b.pcs[t := Gone])) else None
    case SpuriousWake => if pc.Asleep? then Some(b.(pcs := b.pcs[t := Woken])) else None
  }

  // ---------- Counting over threads ----------

  function Total(pcs: seq<Pc>, f: Pc -> nat): nat {
    if pcs == [] then 0 else f(pcs[0]) + Total(pcs[1..], f)
  }

  lemma {:induction false} TotalUpdate(pcs: seq<Pc>, t: nat, p: Pc, f: Pc -> nat)
    requires t < |pcs|
    ensures Total(pcs[t := p], f) == Total(pcs, f) - f(pcs[t]) + f(p)
    decreases |pcs|
  {
    if t == 0 {
      assert pcs[t := p][1..] == pcs[1..];
    } else {
      assert pcs[t := p][1..] == pcs[1..][t - 1 := p];
      TotalUpdate(pcs[1..], t - 1, p, f);
    }
  }

  lemma {:induction false} TotalWakeAll(pcs: seq<Pc>, f: Pc -> nat)
    requires f(Asleep) == f(Woken)
    ensures Total(WakeAll(pcs), f) == Total(pcs, f)
    decreases |pcs|
  {
    if pcs != [] {
      TotalWakeAll(pcs[1..], f);
      assert WakeAll(pcs)[1..] == WakeAll(pcs[1..]);
    }
  }

  /** A thread that counts leaves a positive total, and a total of 0 means that none counts. */
  lemma {:induction false} TotalPositive(pcs: seq<Pc>, f: Pc -> nat)
    ensures Total(pcs, f) == 0 <==> forall i :: 0 <= i < |pcs| ==> f(pcs[i]) == 0
    decreases |pcs|
  {
    if pcs != [] {
      TotalPositive(pcs[1..], f);
      assert forall i :: 0 < i < |pcs| ==> pcs[i] == pcs[1..][i - 1];
      assert forall i :: 0 <= i < |pcs[1..]| ==> pcs[1..][i] == pcs[i + 1];
    }
  }

  lemma {:induction false} TotalOfSame(n: nat, p: Pc, f: Pc -> nat)
    ensures Total(seq(n, _ => p), f) == n * f(p)
    decreases n
  {
    if n > 0 {
      assert seq(n, _ => p)[1..] == seq(n - 1, _ => p);
      TotalOfSame(n - 1, p, f);
    }
  }

  /** 1 for a thread that has not decremented. */
  function Missing(p: Pc): nat {
    if p.Outside? || p.Entered? then 1 else 0
  }

  /** 1 for a thread that has not notified. */
  function Unnotified(p: Pc): nat {
    if p.Outside? || p.Entered? || p.Decremented? then 1 else 0
  }

  /** Distance of a thread from its return, up to the next notification. */
  function Weight(p: Pc): nat {
    match p
    case Outside => 6
    case Entered => 5
    case Decremented => 4
    case Woken => 3
    case Checking => 2
    case Asleep => 1
    case Leaving => 1
    case Gone => 0
  }

  // ---------- Invariant ----------

  /** The mutex has one holder at most, the count is the number of threads that have not decremented, threads
      leave only at count 0, and at count 0 a sleeper is about to be notified. */
  ghost predicate Inv(b: Barrier, n: nat) {
    && |b.pcs| == n < WORD
    && (b.mutex.Some? ==> b.mutex.value < n && HoldsMutex(b.pcs[b.mutex.value]))
    && (forall t :: 0 <= t < n && HoldsMutex(b.pcs[t]) ==> b.mutex == Some(t))
    && b.count == Total(b.pcs, Missing)
    && (forall t :: 0 <= t < n && (b.pcs[t].Leaving? || b.pcs[t].Gone?) ==> b.count == 0)
    && (b.count == 0 && (exists t :: 0 <= t < n && b.pcs[t].Asleep?) ==>
          b.mutex.Some? && b.pcs[b.mutex.value].Decremented?)
  }

  lemma InitInv(n: nat)
    requires n < WORD
    ensures Inv(Init(n), n)
  {
    TotalOfSame(n, Outside, Missing);
  }

  lemma MissingSame()
    ensures Missing(Asleep) == Missing(Woken) == Missing(Decremented) == Missing(Checking) == 0
  {
  }

  lemma NotifyKeeps(b: Barrier, n: nat, t: nat)
    requires Inv(b, n) && t < n && b.pcs[t].Decremented?
    ensures Inv(Step(b, t, NotifyAll).value, n)
  {
    hide Total, Missing, WakeAll;
    MissingSame();
    TotalWakeAll(b.pcs, Missing);
    TotalUpdate(WakeAll(b.pcs), t, Checking, Missing);
  }

  lemma DecrementKeeps(b: Barrier, n: nat, t: nat)
    requires Inv(b, n) && t < n && b.pcs[t].Entered?
    ensures b.count > 0 && Inv(Step(b, t, Decrement).value, n)
  {
    TotalPositive(b.pcs, Missing);
    hide Total;
    TotalUpdate(b.pcs, t, Decremented, Missing);
  }

  lemma MoveKeeps(b: Barrier, n: nat, t: nat, a: Act)
    requires Inv(b, n) && t < n && Step(b, t, a).Some? && !a.NotifyAll? && !a.Decrement?
    ensures Inv(Step(b, t, a).value, n)
  {
    hide Total;
    TotalUpdate(b.pcs, t, Step(b, t, a).value.pcs[t], Missing);
  }

  lemma StepKeeps(b: Barrier, n: nat, t: nat, a: Act)
    requires Inv(b, n) && t < n && Step(b, t, a).Some?
    ensures Inv(Step(b, t, a).value, n)
  {
    match a
    case NotifyAll => NotifyKeeps(b, n, t);
    case Decrement => DecrementKeeps(b, n, t);
    case _ => MoveKeeps(b, n, t, a);
  }

  /** No thread returns before all have decremented: once one has, every thread is past its decrement. */
  lemma NobodyLeavesEarly(b: Barrier, n: nat, t: nat, u: nat)
    requires Inv(b, n) && t < n && u < n && b.pcs[t].Gone?
    ensures b.count == 0 && !b.pcs[u].Outside? && !b.pcs[u].Entered?
  {
    TotalPositive(b.pcs, Missing);
  }

  // ---------- Progress ----------

  function Unnotifieds(b: Barrier): nat {
    Total(b.pcs, Unnotified)
  }

  function Weights(b: Barrier): nat {
    Total(b.pcs, Weight)
  }

  /** Every step but a spurious wakeup either notifies or brings its thread closer to its return. */
  lemma StepLowersMeasure(b: Barrier, t: nat, a: Act)
    requires t < |b.pcs| && Step(b, t, a).Some? && !a.SpuriousWake?
    ensures var c := Step(b, t, a).value;
            Unnotifieds(c) < Unnotifieds(b) || (Unnotifieds(c) == Unnotifieds(b) && Weights(c) < Weights(b))
    ensures a.NotifyAll? <==> Unnotifieds(Step(b, t, a).value) < Unnotifieds(b)
  {
    hide Total, WakeAll;
    var c := Step(b, t, a).value;
    if a.NotifyAll? {
      TotalWakeAll(b.pcs, Unnotified);
      TotalUpdate(WakeAll(b.pcs), t, Checking, Unnotified);
    } else {
      TotalUpdate(b.pcs, t, c.pcs[t], Unnotified);
      TotalUpdate(b.pcs, t, c.pcs[t], Weight);
    }
  }

  /** Some thread can step, other than by a spurious wakeup, unless all have returned. */
  lemma Progress(b: Barrier, n: nat, u: nat) returns (t: nat, a: Act)
    requires Inv(b, n) && u < n && !b.pcs[u].Gone?
    ensures t < n && !a.SpuriousWake? && Step(b, t, a).Some? && !b.pcs[t].Gone?
  {
    if b.mutex.Some? {
      t := b.mutex.value;
      a := match b.pcs[t]
           case Entered => Decrement
           case Decremented => NotifyAll
           case Checking => Check
           case _ => Unlock;
    } else if w :| 0 <= w < n && (b.pcs[w].Outside? || b.pcs[w].Woken?) {
      t, a := w, if b.pcs[w].Outside? then Lock else Relock;
    } else {
      TotalPositive(b.pcs, Missing);
      assert false;
    }
  }

  // ---------- Whole runs ----------

  function Run(n: nat, es: seq<(nat, Act)>): Option<Barrier> {
    if es == [] then Some(Init(n))
    else
      var (t, a) := es[|es| - 1];
      match Run(n, es[..|es| - 1])
      case Some(b) => if t < |b.pcs| then Step(b, t, a) else None
      case None => None
  }

  lemma {:induction false} RunKeeps(n: nat, es: seq<(nat, Act)>)
    requires n < WORD
    ensures Run(n, es).Some? ==> Inv(Run(n, es).value, n)
    decreases |es|
  {
    hide Inv, Step;
    if es == [] {
      InitInv(n);
    } else {
      var pre := es[..|es| - 1];
      var (t, a) := es[|es| - 1];
      RunKeeps(n, pre);
      if Run(n, es).Some? {
        LengthOfInv(Run(n, pre).value, n);
        StepKeeps(Run(n, pre).value, n, t, a);
      }
    }
  }

  lemma LengthOfInv(b: Barrier, n: nat)
    requires Inv(b, n)
    ensures |b.pcs| == n
  {
  }

  /** Over every run: any thread outside or woken can take a free mutex, its holder can go on, and a sleeper may wake at
      any moment. */
  lemma {:induction false} StepIsPossible(n: nat, es: seq<(nat, Act)>, b: Barrier, t: nat, a: Act)
    requires n < WORD && Run(n, es) == Some(b) && t < n
    ensures |b.pcs| == n
    ensures Step(b, t, a).Some? <==>
              match a
              case Lock => b.pcs[t].Outside? && b.mutex.None?
              case Decrement => b.pcs[t].Entered?
              case NotifyAll => b.pcs[t].Decremented?
              case Check => b.pcs[t].Checking?
              case Relock => b.pcs[t].Woken? && b.mutex.None?
              case Unlock => b.pcs[t].Leaving?
              case SpuriousWake => b.pcs[t].Asleep?
    ensures a.Check? && b.pcs[t].Checking? ==>
              Step(b, t, a).value.pcs[t] == if b.count == 0 then Leaving else Asleep
  {
    hide Run, Total;
    RunKeeps(n, es);
  }

  /** No wakeup is lost, over every run: at count 0 a sleeper means that the holder of the mutex is about to notify,
      and its notification wakes that sleeper; once nobody has a notification outstanding, nobody sleeps. */
  lemma {:induction false} NoLostWakeup(n: nat, es: seq<(nat, Act)>, b: Barrier, u: nat)
    requires n < WORD && Run(n, es) == Some(b) && b.count == 0 && u < n
    ensures |b.pcs| == n
    ensures b.pcs[u].Asleep? ==>
              && b.mutex.Some? && b.mutex.value < n && b.pcs[b.mutex.value].Decremented?
              && Step(b, b.mutex.value, NotifyAll).Some?
              && !Step(b, b.mutex.value, NotifyAll).value.pcs[u].Asleep?
    ensures (forall t :: 0 <= t < n ==> !b.pcs[t].Decremented?) ==> !b.pcs[u].Asleep?
  {
    hide Run, Total;
    RunKeeps(n, es);
  }

  /** `n` threads entering once each, any schedule: nobody has returned while somebody has not decremented, at count
      0 a sleeper is about to be notified and nobody sleeps once no notification is outstanding, and a run that has
      not brought everybody back can be continued by a step that lowers the measure. */
  lemma EveryRunIsSafeAndCanFinish(n: nat, es: seq<(nat, Act)>, b: Barrier, t: nat, u: nat)
    returns (w: nat, a: Act)
    requires n < WORD && Run(n, es) == Some(b) && t < n && u < n
    ensures |b.pcs| == n
    ensures b.pcs[t].Gone? ==> !b.pcs[u].Outside? && !b.pcs[u].Entered?
    ensures b.count == 0 && b.pcs[u].Asleep? ==>
              b.mutex.Some? && b.mutex.value < n && b.pcs[b.mutex.value].Decremented?
    ensures b.count == 0 && (forall v :: 0 <= v < n ==> !b.pcs[v].Decremented?) ==> !b.pcs[u].Asleep?
    ensures !b.pcs[u].Gone? ==>
              && w < n && !a.SpuriousWake? && Step(b, w, a).Some?
              && var c := Step(b, w, a).value;
                 Unnotifieds(c) < Unnotifieds(b) || (Unnotifieds(c) == Unnotifieds(b) && Weights(c) < Weights(b))
  {
    hide Run;
    RunKeeps(n, es);
    if b.pcs[t].Gone? {
      NobodyLeavesEarly(b, n, t, u);
    }
    if b.count == 0 {
      NoLostWakeup(n, es, b, u);
    }
    w, a := 0, Lock;
    if !b.pcs[u].Gone? {
      w, a := Progress(b, n, u);
      StepLowersMeasure(b, w, a);
    }
  }

  /** Whatever has happened so far, the run can be continued until all `n` threads have returned. */
  lemma {:induction false} EveryRunCanFinish(n: nat, es: seq<(nat, Act)>, b: Barrier)
    returns (fs: seq<(nat, Act)>, c: Barrier)
    requires n < WORD && Run(n, es) == Some(b)
    ensures Run(n, es + fs) == Some(c) && |c.pcs| == n && forall t :: 0 <= t < n ==> c.pcs[t].Gone?
    decreases Unnotifieds(b), Weights(b)
  {
    hide Run, Step, Inv, Unnotifieds, Weights;
    RunKeeps(n, es);
    LengthOfInv(b, n);
    if u :| 0 <= u < n && !b.pcs[u].Gone? {
      var w, a := EveryRunIsSafeAndCanFinish(n, es, b, u, u);
      RunOneMore(n, es, b, w, a);
      fs, c := EveryRunCanFinish(n, es + [(w, a)], Step(b, w, a).value);
      assert es + [(w, a)] + fs == es + ([(w, a)] + fs);
      fs := [(w, a)] + fs;
    } else {
      assert es + [] == es;
      fs, c := [], b;
    }
  }

  lemma RunOneMore(n: nat, es: seq<(nat, Act)>, b: Barrier, t: nat, a: Act)
    requires Run(n, es) == Some(b) && t < |b.pcs|
    ensures Run(n, es + [(t, a)]) == Step(b, t, a)
  {
    hide Step;
    assert (es + [(t, a)])[..|es|] == es;
  }
}

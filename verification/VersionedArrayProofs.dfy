/** Whatever is written back and whenever the program dies, the array holds whole inserts only. */
module VersionedArrayProofs {
  import opened History
  import opened SortedInsert
  import opened VersionedArraySteps

  ghost predicate Holds(c: Copy, s: seq<Value>) {
    |s| <= |c.entries| && c.size == |s| && c.entries[..|s|] == s
  }

  /** The current copy is clean and holds `s`. */
  ghost predicate Working(st: State, s: seq<Value>)
    requires Shaped(st.vol, st.slots) && Shaped(st.pm, st.slots)
  {
    var c := st.vol.current;
    && st.pm.current == c
    && st.pm.v[c] == st.vol.v[c]
    && Holds(st.vol.v[c], s)
  }

  /** The working copy holds the part of the new sequence that has been stored so far. */
  ghost predicate Filled(st: State, s: seq<Value>)
    requires Shaped(st.vol, st.slots) && Shaped(st.pm, st.slots)
  {
    var w: Side := 1 - st.vol.current;
    var es := st.vol.v[w].entries;
    match st.pc
    case Ready => true
    case Prefix(x, pos, i) => |s| < st.slots && pos == LowerBound(s, x) && i <= pos && es[..i] == s[..i]
    case Suffix(x, pos, i) =>
      |s| < st.slots && pos == LowerBound(s, x) && pos <= i <= |s| && es[..i + 1] == s[..pos] + [x] + s[pos..i]
    case Written(x) => Holds(st.vol.v[w], Insert(s, x))
    case Persisted(x) => Holds(st.vol.v[w], Insert(s, x)) && st.pm.v[w] == st.vol.v[w]
    case Flipped(_) => true
  }

  ghost predicate ContentsOk(st: State) {
    && Shaped(st.vol, st.slots) && Shaped(st.pm, st.slots)
    && var done := Items(st.log.commits);
       if !st.pc.Flipped? then Working(st, InsertAll(done)) && Filled(st, InsertAll(done))
       else
         && st.pm.v == st.vol.v
         && if st.pm.current == st.vol.current
            then done != [] && done[|done| - 1] == st.pc.x && Holds(st.pm.v[st.pm.current], InsertAll(done))
            else Holds(st.pm.v[st.pm.current], InsertAll(done))
                 && Holds(st.vol.v[st.vol.current], Insert(InsertAll(done), st.pc.x))
  }

  /** Durable, but its insert has not returned. */
  ghost predicate Pending(st: State) {
    st.pc.Flipped? && st.pm.current == st.vol.current
  }

  ghost predicate LogOk(st: State) {
    var l := st.log;
    && l.returned == Returned(l.commits)
    && Unreturned(l.commits) <= l.crashes + (if Pending(st) then 1 else 0)
    && (Pending(st) ==> l.commits != [] && l.commits[|l.commits| - 1] == Commit(st.pc.x, false))
  }

  ghost predicate Inv(st: State) {
    ContentsOk(st) && LogOk(st)
  }

  lemma InitInv(slots: nat)
    ensures Inv(Init(slots))
  {
  }

  lemma BeginKeeps(st: State, x: Value)
    requires Inv(st) && Step(st, Begin(x)).Ok?
    ensures Inv(Step(st, Begin(x)).state)
  {
    hide LowerBound, InsertAll, Items, Returned, Unreturned;
  }

  lemma {:induction false} PrefixKeeps(st: State)
    requires Inv(st) && st.pc.Prefix?
    ensures Step(st, Store).Ok? && Inv(Step(st, Store).state)
  {
    hide LowerBound, InsertAll, Items, Returned, Unreturned;
    var s := InsertAll(Items(st.log.commits));
    var st' := Step(st, Store).state;
    var w := 1 - st.vol.current;
    if st.pc.i < st.pc.pos {
      assert st'.vol.v[w].entries[..st.pc.i + 1] == s[..st.pc.i] + [s[st.pc.i]];
    } else {
      assert st'.vol.v[w].entries[..st.pc.pos + 1] == s[..st.pc.pos] + [st.pc.x] + s[st.pc.pos..st.pc.pos];
    }
  }

  lemma {:induction false} SuffixKeeps(st: State)
    requires Inv(st) && st.pc.Suffix?
    ensures Step(st, Store).Ok? && Inv(Step(st, Store).state)
  {
    hide LowerBound, InsertAll, Items, Returned, Unreturned;
    var s := InsertAll(Items(st.log.commits));
    var st' := Step(st, Store).state;
    var w, i, pos := 1 - st.vol.current, st.pc.i, st.pc.pos;
    if i < |s| {
      assert st'.vol.v[w].entries[..i + 2] == st.vol.v[w].entries[..i + 1] + [s[i]];
      assert s[pos..i + 1] == s[pos..i] + [s[i]];
    } else {
      assert i == |s|;
      assert s[pos..|s|] == s[pos..];
    }
  }

  lemma PersistCopyKeeps(st: State)
    requires Inv(st) && st.pc.Written?
    ensures Inv(Step(st, PersistCopy).state)
  {
    hide LowerBound, Insert, InsertAll, Items, Returned, Unreturned;
  }

  lemma FlipKeeps(st: State)
    requires Inv(st) && st.pc.Persisted?
    ensures Inv(Step(st, Flip).state)
  {
    hide LowerBound, Insert, InsertAll, Items, Returned, Unreturned;
    var st' := Step(st, Flip).state;
    assert st'.pm.v == st'.vol.v;
  }

  /** The durable `current` follows: the insert becomes durable, as a whole. */
  lemma CommitKeeps(st: State, pm: Memory)
    requires Inv(st) && st.pc.Flipped? && pm == st.pm.(current := st.vol.current)
    ensures Inv(Durably(st, pm)) && Pending(Durably(st, pm))
  {
    RecordAdds(st.log.commits, st.pc.x);
    var done := Items(st.log.commits);
    assert (done + [st.pc.x])[..|done|] == done;
    hide LowerBound, Insert, Items, Returned, Unreturned;
  }

  lemma PersistCurrentKeeps(st: State)
    requires Inv(st) && st.pc.Flipped?
    ensures Step(st, PersistCurrent).Ok? && Inv(Step(st, PersistCurrent).state)
  {
    hide LowerBound, Insert, InsertAll, Items, Returned, Unreturned;
    CommitKeeps(st, st.pm.(current := st.vol.current));
    var t := Durably(st, st.pm.(current := st.vol.current));
    MarkLastReturns(t.log.commits);
  }

  lemma {:induction false} EvictKeeps(st: State, cell: Cell)
    requires Inv(st)
    ensures Step(st, Evict(cell)).Ok? && Inv(Step(st, Evict(cell)).state)
  {
    hide LowerBound, Insert, InsertAll, Items, Returned, Unreturned;
    var pm := WriteBack(st.vol, st.pm, cell);
    if cell.CurrentCell? {
      if st.pc.Flipped? {
        CommitKeeps(st, pm);
      }
    } else if st.pc.Flipped? || cell.side == st.vol.current {
      CleanCell(st.vol, st.pm, cell, st.slots);
    }
  }

  /** Writing back a cell of a copy that is clean changes nothing. */
  lemma CleanCell(vol: Memory, pm: Memory, cell: Cell, slots: nat)
    requires Shaped(vol, slots) && Shaped(pm, slots) && !cell.CurrentCell? && pm.v[cell.side] == vol.v[cell.side]
    ensures WriteBack(vol, pm, cell) == pm
  {
    assert pm.v[cell.side := pm.v[cell.side]] == pm.v;
    if cell.EntryCell? && cell.i < slots {
      var es := pm.v[cell.side].entries;
      assert es[cell.i := es[cell.i]] == es;
    }
  }

  lemma CrashKeeps(st: State)
    requires Inv(st)
    ensures Inv(Step(st, Crash).state)
  {
    hide LowerBound, Insert, InsertAll, Items, Returned, Unreturned;
  }

  lemma {:induction false} StepKeeps(st: State, e: Event)
    requires Inv(st)
    ensures Step(st, e).Ok? ==> Inv(Step(st, e).state) && Step(st, e).state.slots == st.slots
  {
    hide Inv;
    match e
    case Begin(x) => if Step(st, e).Ok? { BeginKeeps(st, x); }
    case Store =>
      if st.pc.Prefix? { PrefixKeeps(st); }
      if st.pc.Suffix? { SuffixKeeps(st); }
    case PersistCopy => if st.pc.Written? { PersistCopyKeeps(st); }
    case Flip => if st.pc.Persisted? { FlipKeeps(st); }
    case PersistCurrent => if st.pc.Flipped? { PersistCurrentKeeps(st); }
    case Evict(cell) => EvictKeeps(st, cell);
    case Crash => CrashKeeps(st);
  }

  lemma {:induction false} RunKeeps(slots: nat, es: seq<Event>)
    ensures Run(Init(slots), es).Ok? ==> Inv(Run(Init(slots), es).state) && Run(Init(slots), es).state.slots == slots
    decreases |es|
  {
    hide Inv, Step;
    if es == [] {
      InitInv(slots);
    } else {
      RunKeeps(slots, es[..|es| - 1]);
      var r := Run(Init(slots), es[..|es| - 1]);
      if r.Ok? {
        StepKeeps(r.state, es[|es| - 1]);
      }
    }
  }

  // ---------- The history read off the events ----------

  /** `begun` is the value begun last, `ahead` whether the stored selector is not durable yet. */
  datatype Trace = Trace(begun: seq<Value>, ahead: bool, durable: seq<Value>, returned: seq<Value>, crashes: nat)

  /** An insert is durable once its selector store has been written back or persisted, and returns after the persist. */
  function NextTrace(t: Trace, e: Event): Trace {
    var written := t.(ahead := false, durable := t.durable + if t.ahead then t.begun else []);
    match e
    case Begin(x) => t.(begun := [x])
    case Flip => t.(ahead := true)
    case Evict(cell) => if cell.CurrentCell? then written else t
    case PersistCurrent => written.(returned := t.returned + t.begun)
    case Crash => t.(ahead := false, crashes := t.crashes + 1)
    case _ => t
  }

  function TraceOf(es: seq<Event>): Trace {
    if es == [] then Trace([], false, [], [], 0) else NextTrace(TraceOf(es[..|es| - 1]), es[|es| - 1])
  }

  ghost predicate Traced(t: Trace, st: State) {
    && Items(st.log.commits) == t.durable && st.log.returned == t.returned && st.log.crashes == t.crashes
    && (!st.pc.Ready? ==> t.begun == [st.pc.x])
    && (t.ahead <==> st.pm.current != st.vol.current)
  }

  /** Only a flipped selector that was not persisted is ahead of the durable one. */
  lemma Selectors(st: State)
    requires Inv(st)
    ensures st.pm.current != st.vol.current ==> st.pc.Flipped?
    ensures Pending(st) ==> st.log.commits != []
  {
    hide Items, InsertAll, Insert, Holds, Filled;
  }

  lemma DurablyLogs(st: State, pm: Memory)
    ensures var d := Durably(st, pm);
            && Items(d.log.commits)
               == Items(st.log.commits) + (if pm.current != st.pm.current && st.pc.Flipped? then [st.pc.x] else [])
            && d.log.returned == st.log.returned && d.log.crashes == st.log.crashes
            && d.vol == st.vol && d.pm == pm && d.pc == st.pc
  {
    if pm.current != st.pm.current && st.pc.Flipped? {
      RecordAdds(st.log.commits, st.pc.x);
    }
  }

  lemma PersistTraced(t: Trace, st: State)
    requires Inv(st) && Traced(t, st) && Step(st, PersistCurrent).Ok?
    ensures Traced(NextTrace(t, PersistCurrent), Step(st, PersistCurrent).state)
  {
    Selectors(st);
    hide Items, Inv, Durably, MarkLast;
    var pm := st.pm.(current := st.vol.current);
    DurablyLogs(st, pm);
    MarkLastItems(Durably(st, pm).log.commits);
  }

  lemma EvictTraced(t: Trace, st: State, cell: Cell)
    requires Inv(st) && Traced(t, st) && Step(st, Evict(cell)).Ok?
    ensures Traced(NextTrace(t, Evict(cell)), Step(st, Evict(cell)).state)
  {
    Selectors(st);
    EvictStep(st, cell);
    hide Items, Inv, Durably, Step, WriteBack;
    DurablyLogs(st, WriteBack(st.vol, st.pm, cell));
  }

  lemma EvictStep(st: State, cell: Cell)
    requires Step(st, Evict(cell)).Ok?
    ensures Step(st, Evict(cell)).state == Durably(st, WriteBack(st.vol, st.pm, cell))
    ensures WriteBack(st.vol, st.pm, cell).current == if cell.CurrentCell? then st.vol.current else st.pm.current
  {
    hide Durably;
  }

  /** What the other steps do to the selectors, the log and the value being inserted. */
  lemma PlainStep(st: State, e: Event)
    requires Step(st, e).Ok? && !e.PersistCurrent? && !e.Evict?
    ensures var st' := Step(st, e).state;
            && st'.log == (if e.Crash? then st.log.(crashes := st.log.crashes + 1) else st.log)
            && st'.pm.current == st.pm.current
            && st'.vol.current == (if e.Flip? then 1 - st.vol.current else if e.Crash? then st.pm.current else st.vol.current)
            && (e.Flip? ==> st.pc.Persisted?)
            && (e.Begin? ==> !st'.pc.Ready? && st'.pc.x == e.x)
            && (!e.Begin? && !st'.pc.Ready? ==> !st.pc.Ready? && st'.pc.x == st.pc.x)
  {
    hide LowerBound, StoreEntry, StoreSize;
    SameSelector();
  }

  lemma StepTraced(t: Trace, st: State, e: Event)
    requires Inv(st) && Traced(t, st) && Step(st, e).Ok?
    ensures Traced(NextTrace(t, e), Step(st, e).state)
  {
    hide Inv, Step, Items;
    if e.PersistCurrent? {
      hide Traced, NextTrace;
      PersistTraced(t, st);
    } else if e.Evict? {
      hide Traced, NextTrace;
      EvictTraced(t, st, e.cell);
    } else {
      Selectors(st);
      PlainStep(st, e);
    }
  }

  lemma SameSelector()
    ensures forall m: Memory, c, i, x :: StoreEntry(m, c, i, x).current == m.current
    ensures forall m: Memory, c, n :: StoreSize(m, c, n).current == m.current
  {
  }

  /** The log holds what the events say: the inserts begun whose selector store became durable, those that were
      persisted, and the crashes. */
  lemma {:induction false} LogIsTrace(slots: nat, es: seq<Event>, st: State)
    requires Run(Init(slots), es) == Ok(st)
    ensures Traced(TraceOf(es), st)
    decreases |es|
  {
    if es != [] {
      hide Inv, Traced, Step, NextTrace;
      var pre := es[..|es| - 1];
      var r := Run(Init(slots), pre);
      LogIsTrace(slots, pre, r.state);
      RunKeeps(slots, pre);
      StepTraced(TraceOf(pre), r.state, es[|es| - 1]);
    }
  }

  // ---------- Theorems ----------

  /** At every point of every run, what a crash would leave is exactly the durable inserts, one after the other. */
  lemma SurvivorIsWholeInserts(slots: nat, es: seq<Event>, st: State)
    requires Run(Init(slots), es) == Ok(st)
    ensures Contents(st.pm) == InsertAll(TraceOf(es).durable) && |Contents(st.pm)| <= slots
    ensures st.pm.v[st.pm.current].size == |TraceOf(es).durable|
  {
    hide Run, LowerBound, Insert, Returned, Unreturned, TraceOf, Items, InsertAll;
    RunKeeps(slots, es);
    LogIsTrace(slots, es, st);
    CommitsSplit(st.log.commits);
  }

  /** It is sorted and holds the durable values, each as often as it was inserted. */
  lemma SurvivorIsSorted(slots: nat, es: seq<Event>, st: State)
    requires Run(Init(slots), es) == Ok(st)
    ensures Sorted(Contents(st.pm)) && multiset(Contents(st.pm)) == multiset(TraceOf(es).durable)
  {
    hide Run, TraceOf;
    SurvivorIsWholeInserts(slots, es, st);
    InsertAllSorts(TraceOf(es).durable);
  }

  /** Returned inserts are durable, in order; a crash leaves at most one durable insert that never returned. */
  lemma ReturnedInsertsAreDurable(slots: nat, es: seq<Event>, st: State)
    requires Run(Init(slots), es) == Ok(st)
    ensures TraceOf(es).returned == Returned(st.log.commits) && TraceOf(es).durable == Items(st.log.commits)
    ensures var t := TraceOf(es); |t.durable| <= |t.returned| + multiset(es)[Crash] + (if Pending(st) then 1 else 0)
  {
    hide Run, ContentsOk, TraceOf;
    RunKeeps(slots, es);
    CrashesCounted(es);
    LogIsTrace(slots, es, st);
    CommitsSplit(st.log.commits);
  }

  /** Between inserts the running program and the survivor agree. */
  lemma ReadyMeansClean(slots: nat, es: seq<Event>, st: State)
    requires Run(Init(slots), es) == Ok(st) && st.pc.Ready?
    ensures Contents(st.vol) == Contents(st.pm)
  {
    hide Run;
    RunKeeps(slots, es);
  }

  /** Without crashes the array between inserts is the sorted arrangement of exactly the completed inserts. */
  lemma {:induction false} CompletedInserts(slots: nat, es: seq<Event>, st: State)
    requires Run(Init(slots), es) == Ok(st) && st.pc.Ready? && Crash !in es
    ensures var returned := TraceOf(es).returned;
            && Contents(st.vol) == InsertAll(returned)
            && Sorted(Contents(st.vol)) && multiset(Contents(st.vol)) == multiset(returned)
  {
    hide Run, TraceOf, NextTrace;
    RunKeeps(slots, es);
    LogIsTrace(slots, es, st);
    CrashesCounted(es);
    AllReturned(st.log.commits);
    InsertAllSorts(st.log.returned);
  }

  lemma {:induction false} CrashesCounted(es: seq<Event>)
    ensures TraceOf(es).crashes == multiset(es)[Crash]
    decreases |es|
  {
    if es != [] {
      CrashesCounted(es[..|es| - 1]);
      CountLast(es, Crash);
    }
  }

  lemma {:induction false} AllReturned(cs: seq<Commit<Value>>)
    requires Unreturned(cs) == 0
    ensures Returned(cs) == Items(cs)
    decreases |cs|
  {
    if cs != [] {
      AllReturned(cs[..|cs| - 1]);
    }
  }

  // ---------- What can happen, and what it makes durable ----------

  /** In every reachable state an insert can begin exactly between inserts while a slot is free, the running insert
      can take its next step and no other, and any cell may be written back and the process may die at any time. */
  lemma {:induction false} StepIsPossible(slots: nat, es: seq<Event>, st: State, e: Event)
    requires Run(Init(slots), es) == Ok(st)
    ensures Step(st, e).Ok? <==> match e
                                 case Begin(_) => st.pc.Ready? && |Contents(st.vol)| < slots
                                 case Store => st.pc.Prefix? || st.pc.Suffix?
                                 case PersistCopy => st.pc.Written?
                                 case Flip => st.pc.Persisted?
                                 case PersistCurrent => st.pc.Flipped?
                                 case Evict(_) => true
                                 case Crash => true
  {
    hide Run, Insert, LowerBound, InsertAll, Items, Returned, Unreturned;
    RunKeeps(slots, es);
    if e.PersistCurrent? && st.pc.Flipped? {
      PersistCurrentKeeps(st);
    }
  }

  /** Stores stay volatile: persistent memory changes only where a persist or a write-back puts the program's view,
      and a crash makes it the program's view. */
  lemma {:induction false} StepMakesDurable(slots: nat, es: seq<Event>, st: State, e: Event)
    requires Run(Init(slots), es) == Ok(st) && Step(st, e).Ok?
    ensures Shaped(st.vol, slots) && Shaped(st.pm, slots)
    ensures var st', w := Step(st, e).state, 1 - st.vol.current;
            match e
            case PersistCopy => st'.vol == st.vol && st'.pm == st.pm.(v := st.pm.v[w := st.vol.v[w]])
            case PersistCurrent => st'.vol == st.vol && st'.pm == st.pm.(current := st.vol.current)
            case Evict(EntryCell(c, i)) =>
              && st'.vol == st.vol
              && (i >= slots ==> st'.pm == st.pm)
              && (i < slots ==>
                    var entries := st.pm.v[c].entries[i := st.vol.v[c].entries[i]];
                    st'.pm == st.pm.(v := st.pm.v[c := st.pm.v[c].(entries := entries)]))
            case Evict(SizeCell(c)) =>
              st'.vol == st.vol && st'.pm == st.pm.(v := st.pm.v[c := st.pm.v[c].(size := st.vol.v[c].size)])
            case Evict(CurrentCell) => st'.vol == st.vol && st'.pm == st.pm.(current := st.vol.current)
            case Crash => st'.vol == st'.pm == st.pm
            case _ => st'.pm == st.pm
  {
    hide Run, Insert, LowerBound, InsertAll, Items, Returned, Unreturned, Working, Filled, LogOk;
    RunKeeps(slots, es);
  }

  // ---------- One insert: before or after, never a mix ----------

  /** Events inside one insert: stores, persists and any write-backs. */
  ghost predicate Inside(es: seq<Event>) {
    forall i :: 0 <= i < |es| ==> !es[i].Begin? && !es[i].Crash? && !es[i].PersistCurrent?
  }

  /** The insert of `x` into the contents of `st0` is under way: the copy that was current is unmodified, both
      in the program's view and durably, and at most this insert has become durable since. */
  ghost predicate During(st0: State, st: State, x: Value)
    requires Inv(st0) && Inv(st)
  {
    var c, done := st0.vol.current, Items(st0.log.commits);
    && !st.pc.Ready? && st.pc.x == x
    && st.vol.v[c] == st.pm.v[c] == st0.vol.v[c]
    && st.vol.current == (if st.pc.Flipped? then 1 - c else c)
    && (Items(st.log.commits) == done || (Pending(st) && Items(st.log.commits) == done + [x]))
  }

  lemma {:induction false} DuringStep(st0: State, st: State, e: Event, x: Value)
    requires Inv(st0) && Inv(st) && During(st0, st, x) && !e.Begin? && !e.Crash? && !e.PersistCurrent?
    ensures Step(st, e).Ok? ==> Inv(Step(st, e).state) && During(st0, Step(st, e).state, x)
  {
    hide Items, Returned, Unreturned, InsertAll, Insert, LowerBound, Holds, Filled, LogOk;
    StepKeeps(st, e);
    if e.Evict? {
      DuringEvict(st0, st, e.cell, x);
    }
  }

  lemma {:induction false} DuringEvict(st0: State, st: State, cell: Cell, x: Value)
    requires Inv(st0) && Inv(st) && During(st0, st, x)
    ensures Step(st, Evict(cell)).Ok? && Inv(Step(st, Evict(cell)).state) && During(st0, Step(st, Evict(cell)).state, x)
  {
    EvictKeeps(st, cell);
    hide Items, Returned, Unreturned, InsertAll, Insert, LowerBound, Holds, Filled, LogOk;
    if cell.CurrentCell? {
      RecordAdds(st.log.commits, x);
    } else if st.pc.Flipped? || cell.side == st.vol.current {
      CleanCell(st.vol, st.pm, cell, st.slots);
    }
  }

  lemma {:induction false} DuringRun(st0: State, st: State, es: seq<Event>, x: Value)
    requires Inv(st0) && Inv(st) && During(st0, st, x) && Inside(es)
    ensures Run(st, es).Ok? ==> Inv(Run(st, es).state) && During(st0, Run(st, es).state, x)
    decreases |es|
  {
    hide Inv, During, Step;
    if es != [] {
      var pre, e := es[..|es| - 1], es[|es| - 1];
      DuringRun(st0, st, pre, x);
      if Run(st, pre).Ok? {
        DuringStep(st0, Run(st, pre).state, e, x);
      }
    }
  }

  /** A crash anywhere inside an insert, after any write-backs, leaves the sequence from before it or the one
      from after it; until then the copy that was current stays as it was. */
  lemma CrashLeavesBeforeOrAfter(slots: nat, es: seq<Event>, st: State, x: Value, inside: seq<Event>)
    requires Run(Init(slots), es) == Ok(st) && st.pc.Ready? && |Contents(st.vol)| < slots
    requires forall i :: 0 <= i < |inside| ==> !inside[i].Begin? && !inside[i].Crash? && !inside[i].PersistCurrent?
    requires Run(st, [Begin(x)] + inside).Ok?
    ensures var now := Run(st, [Begin(x)] + inside).state;
            && |now.vol.v| == |st.vol.v| == 2 && now.vol.v[st.vol.current] == st.vol.v[st.vol.current]
            && Step(now, Crash).Ok?
            && var left := Contents(Step(now, Crash).state.vol);
               left == Contents(st.vol) || left == Insert(Contents(st.vol), x)
  {
    hide Run, Insert, LowerBound, Returned, Unreturned;
    RunKeeps(slots, es);
    StepIsPossible(slots, es, st, Begin(x));
    var begun, done := Step(st, Begin(x)).state, Items(st.log.commits);
    RunCons(st, Begin(x), inside);
    BeginKeeps(st, x);
    DuringRun(st, begun, inside, x);
    assert (done + [x])[..|done|] == done;
    CrashContents(Run(begun, inside).state);
    assert Contents(st.vol) == InsertAll(done);
  }

  lemma CrashContents(st: State)
    requires Inv(st)
    ensures Step(st, Crash).Ok? && Contents(Step(st, Crash).state.vol) == InsertAll(Items(st.log.commits))
  {
    hide Insert, LowerBound, InsertAll, Items, Returned, Unreturned;
  }

  // ---------- An insert that is not interrupted ----------

  lemma {:induction false} RunCons(st: State, e: Event, es: seq<Event>)
    requires Step(st, e).Ok?
    ensures Run(st, [e] + es) == Run(Step(st, e).state, es)
    decreases |es|
  {
    hide Step;
    var all := [e] + es;
    if es == [] {
      assert all[..0] == [];
      assert Run(st, all[..0]) == Ok(st);
    } else {
      assert all[..|all| - 1] == [e] + es[..|es| - 1];
      RunCons(st, e, es[..|es| - 1]);
    }
  }

  /** Steps that the running insert still has to take. */
  ghost function StepsLeft(st: State): int
    requires Shaped(st.vol, st.slots)
  {
    var size := st.vol.v[st.vol.current].size;
    match st.pc
    case Ready => 0
    case Prefix(_, pos, i) => 5 + (size - i)
    case Suffix(_, _, i) => 4 + (size - i)
    case Written(_) => 3
    case Persisted(_) => 2
    case Flipped(_) => 1
  }

  function NextEvent(pc: Pc): Event {
    match pc
    case Written(_) => PersistCopy
    case Persisted(_) => Flip
    case Flipped(_) => PersistCurrent
    case _ => Store
  }

  lemma {:induction false} NextStep(st: State)
    requires Inv(st) && !st.pc.Ready?
    ensures var r := Step(st, NextEvent(st.pc));
            && r.Ok? && Inv(r.state) && StepsLeft(st) > 0 && StepsLeft(r.state) < StepsLeft(st)
            && (st.pc.Flipped? <==> r.state.pc.Ready?)
            && (!st.pc.Flipped? ==> r.state.pc.x == st.pc.x && r.state.log == st.log && !Pending(r.state))
  {
    hide Items, Returned, Unreturned, InsertAll, Insert, LowerBound, LogOk;
    match st.pc
    case Prefix(_, _, _) => PrefixKeeps(st);
    case Suffix(_, _, _) => SuffixKeeps(st);
    case Written(_) => PersistCopyKeeps(st);
    case Persisted(_) => FlipKeeps(st);
    case Flipped(_) => PersistCurrentKeeps(st);
  }

  lemma LastStep(st: State)
    requires Inv(st) && st.pc.Flipped?
    ensures var l, l' := st.log, Step(st, PersistCurrent).state.log;
            && l'.returned == l.returned + [st.pc.x] && l'.crashes == l.crashes
            && Items(l'.commits) == Items(l.commits) + if Pending(st) then [] else [st.pc.x]
  {
    hide Items, Returned, Unreturned, InsertAll, Insert, LowerBound;
    PersistCurrentKeeps(st);
    RecordAdds(st.log.commits, st.pc.x);
    if Pending(st) {
      MarkLastItems(st.log.commits);
    }
    MarkLastItems(Record(st.log.commits, st.pc.x));
  }

  lemma {:induction false} Finishes(st: State) returns (es: seq<Event>)
    requires Inv(st) && !st.pc.Ready?
    ensures var r := Run(st, es);
            && r.Ok? && r.state.pc.Ready? && Inv(r.state)
            && r.state.log.returned == st.log.returned + [st.pc.x] && r.state.log.crashes == st.log.crashes
            && Items(r.state.log.commits) == Items(st.log.commits) + if Pending(st) then [] else [st.pc.x]
    decreases StepsLeft(st)
  {
    NextStep(st);
    hide Inv, Items, StepsLeft;
    var e := NextEvent(st.pc);
    if st.pc.Flipped? {
      LastStep(st);
      es := [];
    } else {
      es := Finishes(Step(st, e).state);
    }
    RunCons(st, e, es);
    es := [e] + es;
  }

  /** While a slot is free an insert can begin, and left alone it ends, having returned, with the new sequence
      visible. */
  lemma InsertCompletes(slots: nat, es: seq<Event>, st: State, x: Value) returns (rest: seq<Event>)
    requires Run(Init(slots), es) == Ok(st) && st.pc.Ready? && |Contents(st.vol)| < slots
    ensures var r := Run(st, [Begin(x)] + rest);
            && r.Ok? && r.state.pc.Ready?
            && r.state.log.returned == st.log.returned + [x] && r.state.log.crashes == st.log.crashes
            && Contents(r.state.vol) == Insert(Contents(st.vol), x)
  {
    hide Run, Insert, LowerBound, Items, Returned, Unreturned;
    RunKeeps(slots, es);
    StepIsPossible(slots, es, st, Begin(x));
    BeginKeeps(st, x);
    rest := Finishes(Step(st, Begin(x)).state);
    RunCons(st, Begin(x), rest);
    var done := Items(st.log.commits);
    assert (done + [x])[..|done|] == done;
    ReadyContents(st);
    ReadyContents(Run(st, [Begin(x)] + rest).state);
  }

  lemma ReadyContents(st: State)
    requires Inv(st) && st.pc.Ready?
    ensures Contents(st.vol) == InsertAll(Items(st.log.commits))
  {
    hide Insert, LowerBound, InsertAll, Items, Returned, Unreturned;
  }

  lemma {:induction false} RunSplit(st: State, es: seq<Event>, fs: seq<Event>)
    requires Run(st, es).Ok?
    ensures Run(st, es + fs) == Run(Run(st, es).state, fs)
    decreases |fs|
  {
    hide Step;
    if fs == [] {
      assert es + fs == es;
    } else {
      assert (es + fs)[..|es + fs| - 1] == es + fs[..|fs| - 1];
      RunSplit(st, es, fs[..|fs| - 1]);
    }
  }

  /** Any sequence of at most `slots` values can be inserted: some run returns from exactly these inserts, in this
      order, and leaves their sorted arrangement in the program's view and in persistent memory. */
  lemma {:induction false} AllCanBeInserted(slots: nat, xs: seq<Value>) returns (es: seq<Event>)
    requires |xs| <= slots
    ensures var r := Run(Init(slots), es);
            && r.Ok? && r.state.pc.Ready? && TraceOf(es).returned == xs && Crash !in es
            && Contents(r.state.vol) == Contents(r.state.pm) == InsertAll(xs)
    decreases |xs|
  {
    hide Insert, LowerBound, TraceOf, Step;
    if xs == [] {
      es := [];
      StartsEmpty(slots);
    } else {
      var k := |xs| - 1;
      var pre := AllCanBeInserted(slots, xs[..k]);
      var st := Run(Init(slots), pre).state;
      var rest := InsertCompletes(slots, pre, st, xs[k]);
      es := pre + ([Begin(xs[k])] + rest);
      RunSplit(Init(slots), pre, [Begin(xs[k])] + rest);
      var st' := Run(Init(slots), es).state;
      LogIsTrace(slots, pre, st);
      LogIsTrace(slots, es, st');
      CrashesCounted(pre);
      CrashesCounted(es);
      ReadyMeansClean(slots, es, st');
    }
  }

  lemma StartsEmpty(slots: nat)
    ensures TraceOf([]) == Trace([], false, [], [], 0)
    ensures Contents(Init(slots).vol) == [] && Run(Init(slots), []) == Ok(Init(slots))
  {
  }
}

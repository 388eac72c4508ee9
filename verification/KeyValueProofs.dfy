/** Both stores refine a finite map over every run, and a rebuilt index is the one the program would have kept. */
module KeyValueProofs {
  import opened History
  import opened KeyValueIndex
  import opened Options
  import opened KeyValueSteps
  import opened KeyValueSessions

  ghost predicate LogOk<V>(l: Log<V>, pending: bool, k: Key, v: V) {
    && l.returned == Returned(l.commits)
    && Unreturned(l.commits) <= l.crashes + (if pending then 1 else 0)
    && (pending ==> l.commits != [] && l.commits[|l.commits| - 1] == Commit((k, v), false))
  }

  lemma LoggedOk<V>(l: Log<V>, k: Key, v: V, k0: Key, v0: V)
    requires LogOk(l, false, k0, v0)
    ensures LogOk(Logged(l, k, v), true, k, v)
    ensures Items(Logged(l, k, v).commits) == Items(l.commits) + [(k, v)]
    ensures PutAll(Items(Logged(l, k, v).commits)) == PutData(PutAll(Items(l.commits)), k, v)
  {
    RecordAdds(l.commits, (k, v));
    var ps := Items(l.commits);
    assert (ps + [(k, v)])[..|ps|] == ps;
  }

  lemma AnsweredOk<V>(l: Log<V>, k: Key, v: V, k0: Key, v0: V)
    requires LogOk(l, true, k, v)
    ensures LogOk(Answered(l, k, v), false, k0, v0)
    ensures Items(Answered(l, k, v).commits) == Items(l.commits)
  {
    MarkLastReturns(l.commits);
  }

  // ---------- Volatile index ----------

  ghost predicate PcOk<V>(cfg: Config, d: Data<V>, u: Process<V>, l: Log<V>)
    requires cfg.Valid() && u.Up?
  {
    match u.pc
    case Idle => u.buckets == Rebuild(cfg, d.keys)
    case Updating(k, v, i, stored, b) =>
      && u.buckets == Rebuild(cfg, b.keys)
      && k in b.keys && i == IndexOf(b.keys, k) && |b.keys| == |b.values|
      && d == (if stored then PutData(b, k, v) else b)
    case Appending(k, v, n, b) =>
      && u.buckets == Rebuild(cfg, b.keys)
      && k !in b.keys && n <= 2
      && d == Data(if n == 2 then b.keys + [k] else b.keys, if n >= 1 then b.values + [v] else b.values)
    case Unindexed(k, v) =>
      d.keys != [] && d.keys[|d.keys| - 1] == k && u.buckets == Rebuild(cfg, d.keys[..|d.keys| - 1])
    case Returning(k, v) => u.buckets == Rebuild(cfg, d.keys)
  }

  ghost predicate RebuiltLogOk<V>(s: Rebuilt<V>) {
    && s.log.returned == Returned(s.log.commits)
    && if s.proc.Up? && (s.proc.pc.Unindexed? || s.proc.pc.Returning?)
       then LogOk(s.log, true, s.proc.pc.k, s.proc.pc.v)
       else Unreturned(s.log.commits) <= s.log.crashes
  }

  ghost predicate RebuiltInv<V>(cfg: Config, s: Rebuilt<V>)
    requires cfg.Valid()
  {
    && Durable(s) == PutAll(Items(s.log.commits))
    && DataOk(Durable(s))
    && (s.proc.Up? ==> PcOk(cfg, s.data, s.proc, s.log))
    && RebuiltLogOk(s)
  }

  lemma {:induction false} BeginKeeps<V>(cfg: Config, s: Rebuilt<V>, k: Key, v: V)
    requires cfg.Valid() && RebuiltInv(cfg, s) && s.proc.Up? && s.proc.pc.Idle?
    ensures var r := StepRebuilt(cfg, s, BeginPut(k, v)); r.Ok? && RebuiltInv(cfg, r.state)
  {
    hide Rebuild, Find, PutAll, Items, Returned, Unreturned, IndexOf;
    FindIsIndexOf(cfg, s.data.keys, k);
  }

  lemma StoreKeeps<V>(cfg: Config, s: Rebuilt<V>)
    requires cfg.Valid() && RebuiltInv(cfg, s) && s.proc.Up? && (s.proc.pc.Updating? || s.proc.pc.Appending?)
    ensures var r := StepRebuilt(cfg, s, TxStore); !r.Fault? && (r.Ok? ==> RebuiltInv(cfg, r.state))
  {
    hide Rebuild, Find, PutAll, Items, Returned, Unreturned, NoDuplicates;
  }

  lemma {:induction false} CommitKeeps<V>(cfg: Config, s: Rebuilt<V>)
    requires cfg.Valid() && RebuiltInv(cfg, s) && s.proc.Up? && (s.proc.pc.Updating? || s.proc.pc.Appending?)
    ensures var r := StepRebuilt(cfg, s, TxCommit); !r.Fault? && (r.Ok? ==> RebuiltInv(cfg, r.state))
  {
    hide Find, PutAll, AsMap, Items, Returned, Unreturned, NoDuplicates, Logged, Rebuild;
    var pc := s.proc.pc;
    LoggedOk(s.log, pc.k, pc.v, pc.k, pc.v);
    PutIsMapUpdate(Durable(s), pc.k, pc.v);
    if pc.Appending? {
      assert (pc.before.keys + [pc.k])[..|pc.before.keys|] == pc.before.keys;
    }
  }

  lemma QuietKeeps<V>(cfg: Config, s: Rebuilt<V>, e: Event<V>)
    requires cfg.Valid() && RebuiltInv(cfg, s) && (e.Crash? || e.Open? || e.TxAbort?)
    ensures var r := StepRebuilt(cfg, s, e); !r.Fault? && (r.Ok? ==> RebuiltInv(cfg, r.state))
  {
    hide Rebuild, Find, PutAll, Items, Returned, Unreturned, NoDuplicates;
  }

  lemma {:induction false} IndexKeeps<V>(cfg: Config, s: Rebuilt<V>)
    requires cfg.Valid() && RebuiltInv(cfg, s) && s.proc.Up? && s.proc.pc.Unindexed?
    ensures var r := StepRebuilt(cfg, s, IndexNewKey); r.Ok? && RebuiltInv(cfg, r.state)
    ensures StepRebuilt(cfg, s, IndexNewKey).state.proc.buckets == Rebuild(cfg, s.data.keys)
  {
    hide Find, PutAll, Items, Returned, Unreturned, NoDuplicates;
  }

  lemma ReturnKeeps<V>(cfg: Config, s: Rebuilt<V>)
    requires cfg.Valid() && RebuiltInv(cfg, s) && s.proc.Up? && s.proc.pc.Returning?
    ensures var r := StepRebuilt(cfg, s, Return); r.Ok? && RebuiltInv(cfg, r.state)
  {
    AnsweredOk(s.log, s.proc.pc.k, s.proc.pc.v, s.proc.pc.k, s.proc.pc.v);
    hide Rebuild, Find, PutAll, Items, Returned, Unreturned, NoDuplicates;
  }

  lemma {:induction false} RebuiltStepKeeps<V>(cfg: Config, s: Rebuilt<V>, e: Event<V>)
    requires cfg.Valid() && RebuiltInv(cfg, s)
    ensures var r := StepRebuilt(cfg, s, e); !r.Fault? && (r.Ok? ==> RebuiltInv(cfg, r.state))
  {
    hide RebuiltInv;
    if e.Crash? || e.Open? || e.TxAbort? {
      QuietKeeps(cfg, s, e);
    } else if s.proc.Up? {
      match (e, s.proc.pc)
      case (BeginPut(k, v), Idle) => BeginKeeps(cfg, s, k, v);
      case (TxStore, Updating(_, _, _, _, _)) => StoreKeeps(cfg, s);
      case (TxStore, Appending(_, _, _, _)) => StoreKeeps(cfg, s);
      case (TxCommit, Updating(_, _, _, _, _)) => CommitKeeps(cfg, s);
      case (TxCommit, Appending(_, _, _, _)) => CommitKeeps(cfg, s);
      case (IndexNewKey, Unindexed(_, _)) => IndexKeeps(cfg, s);
      case (Return, Returning(_, _)) => ReturnKeeps(cfg, s);
      case _ =>
    }
  }

  lemma {:induction false} RebuiltRunKeeps<V>(cfg: Config, es: seq<Event<V>>)
    requires cfg.Valid()
    ensures var r := RunRebuilt(cfg, es); !r.Fault? && (r.Ok? ==> RebuiltInv(cfg, r.state))
    decreases |es|
  {
    hide StepRebuilt;
    if es != [] {
      RebuiltRunKeeps(cfg, es[..|es| - 1]);
      var r := RunRebuilt(cfg, es[..|es| - 1]);
      if r.Ok? {
        RebuiltStepKeeps(cfg, r.state, es[|es| - 1]);
      }
    }
  }

  // ---------- Index in persistent memory ----------

  ghost predicate IndexedPcOk<V>(cfg: Config, s: Indexed<V>, d: Data<V>)
    requires cfg.Valid() && |d.keys| == |d.values|
  {
    match s.pc
    case AtRest => true
    case Changed(k, v) => LogOk(s.log, true, k, v)
    case Changing(k, v, f, n, t, vs) =>
      && t == Rebuild(cfg, d.keys) && vs == d.values
      && f == (if k in d.keys then Some(IndexOf(d.keys, k)) else None)
      && (f.Some? ==> n <= 1 && s.table == t && s.values == if n == 1 then vs[f.value := v] else vs)
      && (f.None? ==> n <= 2 && s.values == (if n >= 1 then vs + [v] else vs)
                      && s.table == if n == 2 then AddEntry(cfg, t, k, |vs|) else t)
  }

  ghost predicate IndexedInv<V>(cfg: Config, s: Indexed<V>)
    requires cfg.Valid()
  {
    var d := PutAll(Items(s.log.commits));
    && DataOk(d)
    && DurableTable(s) == Rebuild(cfg, d.keys) && DurableValues(s) == d.values
    && IndexedPcOk(cfg, s, d)
    && s.log.returned == Returned(s.log.commits)
    && (!s.pc.Changed? ==> Unreturned(s.log.commits) <= s.log.crashes)
  }

  lemma IndexedBeginKeeps<V>(cfg: Config, s: Indexed<V>, k: Key, v: V)
    requires cfg.Valid() && IndexedInv(cfg, s) && s.pc.AtRest?
    ensures var r := StepIndexed(cfg, s, BeginPut(k, v)); r.Ok? && IndexedInv(cfg, r.state)
  {
    FindIsIndexOf(cfg, PutAll(Items(s.log.commits)).keys, k);
    hide Rebuild, Find, PutAll, Items, Returned, Unreturned, NoDuplicates;
  }

  lemma IndexedStoreKeeps<V>(cfg: Config, s: Indexed<V>)
    requires cfg.Valid() && IndexedInv(cfg, s) && s.pc.Changing?
    ensures var r := StepIndexed(cfg, s, TxStore); !r.Fault? && (r.Ok? ==> IndexedInv(cfg, r.state))
  {
    hide Rebuild, Find, PutAll, Items, Returned, Unreturned, NoDuplicates, AddEntry;
  }

  lemma IndexedCommitKeeps<V>(cfg: Config, s: Indexed<V>)
    requires cfg.Valid() && IndexedInv(cfg, s) && s.pc.Changing?
    ensures var r := StepIndexed(cfg, s, TxCommit); !r.Fault? && (r.Ok? ==> IndexedInv(cfg, r.state))
  {
    hide Find, PutAll, AsMap, Items, Returned, Unreturned, NoDuplicates, AddEntry, Rebuild, Logged;
    var d, pc := PutAll(Items(s.log.commits)), s.pc;
    LoggedOk(s.log, pc.k, pc.v, pc.k, pc.v);
    PutIsMapUpdate(d, pc.k, pc.v);
    RebuildSnoc(cfg, d.keys, pc.k);
  }

  lemma RebuildSnoc(cfg: Config, keys: seq<Key>, k: Key)
    requires cfg.Valid()
    ensures Rebuild(cfg, keys + [k]) == AddEntry(cfg, Rebuild(cfg, keys), k, |keys|)
  {
    assert (keys + [k])[..|keys|] == keys;
  }

  lemma IndexedRestKeeps<V>(cfg: Config, s: Indexed<V>, e: Event<V>)
    requires cfg.Valid() && IndexedInv(cfg, s) && (e.Crash? || e.TxAbort? || e.Return?)
    ensures var r := StepIndexed(cfg, s, e); !r.Fault? && (r.Ok? ==> IndexedInv(cfg, r.state))
  {
    hide Rebuild, Find, PutAll, Items, Returned, Unreturned, NoDuplicates, AddEntry, Answered;
    if s.pc.Changed? {
      AnsweredOk(s.log, s.pc.k, s.pc.v, s.pc.k, s.pc.v);
    }
  }

  lemma {:induction false} IndexedRunKeeps<V>(cfg: Config, es: seq<Event<V>>)
    requires cfg.Valid()
    ensures var r := RunIndexed(cfg, es); !r.Fault? && (r.Ok? ==> IndexedInv(cfg, r.state))
    decreases |es|
  {
    if es == [] {
      assert PutAll<V>([]) == Data([], []);
    } else {
      hide IndexedInv;
      IndexedRunKeeps(cfg, es[..|es| - 1]);
      var r, e := RunIndexed(cfg, es[..|es| - 1]), es[|es| - 1];
      if r.Ok? {
        if e.Crash? || e.TxAbort? || e.Return? {
          IndexedRestKeeps(cfg, r.state, e);
        } else {
          match (e, r.state.pc)
          case (BeginPut(k, v), AtRest) => IndexedBeginKeeps(cfg, r.state, k, v);
          case (TxStore, Changing(_, _, _, _, _, _)) => IndexedStoreKeeps(cfg, r.state);
          case (TxCommit, Changing(_, _, _, _, _, _)) => IndexedCommitKeeps(cfg, r.state);
          case _ =>
        }
      }
    }
  }

  // ---------- The history read off the events ----------

  /** `begun` is the put begun last. */
  datatype Trace<V> = Trace(begun: seq<(Key, V)>, puts: seq<(Key, V)>, returned: seq<(Key, V)>, crashes: nat)

  function NextTrace<V>(t: Trace<V>, e: Event<V>): Trace<V> {
    match e
    case BeginPut(k, v) => t.(begun := [(k, v)])
    case TxCommit => t.(puts := t.puts + t.begun)
    case Return => t.(returned := t.returned + t.begun)
    case Crash => t.(crashes := t.crashes + 1)
    case _ => t
  }

  /** The puts whose transaction committed, those that returned, and the crashes. */
  function TraceOf<V>(es: seq<Event<V>>): Trace<V> {
    if es == [] then Trace([], [], [], 0) else NextTrace(TraceOf(es[..|es| - 1]), es[|es| - 1])
  }

  lemma {:induction false} CrashesCounted<V>(es: seq<Event<V>>)
    ensures TraceOf(es).crashes == multiset(es)[Crash]
    decreases |es|
  {
    if es != [] {
      CrashesCounted(es[..|es| - 1]);
      CountLast(es, Crash);
    }
  }

  ghost predicate LogTraced<V>(t: Trace<V>, l: Log<V>) {
    Items(l.commits) == t.puts && l.returned == t.returned && l.crashes == t.crashes
  }

  ghost predicate RebuiltTraced<V>(t: Trace<V>, s: Rebuilt<V>) {
    LogTraced(t, s.log) && (s.proc.Up? && !s.proc.pc.Idle? ==> t.begun == [(s.proc.pc.k, s.proc.pc.v)])
  }

  ghost predicate IndexedTraced<V>(t: Trace<V>, s: Indexed<V>) {
    LogTraced(t, s.log) && (!s.pc.AtRest? ==> t.begun == [(s.pc.k, s.pc.v)])
  }

  lemma RebuiltStepTraced<V>(cfg: Config, t: Trace<V>, s: Rebuilt<V>, e: Event<V>)
    requires cfg.Valid() && RebuiltTraced(t, s) && StepRebuilt(cfg, s, e).Ok?
    ensures RebuiltTraced(NextTrace(t, e), StepRebuilt(cfg, s, e).state)
  {
    hide Items, Find, Rebuild, AddEntry, Record, MarkLast, Config.Slot;
    if e.TxCommit? {
      RecordAdds(s.log.commits, (s.proc.pc.k, s.proc.pc.v));
    } else if e.Return? {
      MarkLastItems(s.log.commits);
    }
  }

  lemma IndexedStepTraced<V>(cfg: Config, t: Trace<V>, s: Indexed<V>, e: Event<V>)
    requires cfg.Valid() && IndexedTraced(t, s) && StepIndexed(cfg, s, e).Ok?
    ensures IndexedTraced(NextTrace(t, e), StepIndexed(cfg, s, e).state)
  {
    hide Items, Find, Rebuild, AddEntry, Record, MarkLast, Config.Slot;
    if e.TxCommit? {
      RecordAdds(s.log.commits, (s.pc.k, s.pc.v));
    } else if e.Return? {
      MarkLastItems(s.log.commits);
    }
  }

  /** The log holds what the events say. */
  lemma {:induction false} RebuiltLogIsTrace<V>(cfg: Config, es: seq<Event<V>>, s: Rebuilt<V>)
    requires cfg.Valid() && RunRebuilt(cfg, es) == Ok(s)
    ensures RebuiltTraced(TraceOf(es), s)
    decreases |es|
  {
    if es != [] {
      hide StepRebuilt, NextTrace, RebuiltTraced;
      var pre := es[..|es| - 1];
      var r := RunRebuilt(cfg, pre);
      RebuiltLogIsTrace(cfg, pre, r.state);
      RebuiltStepTraced(cfg, TraceOf(pre), r.state, es[|es| - 1]);
    }
  }

  lemma {:induction false} IndexedLogIsTrace<V>(cfg: Config, es: seq<Event<V>>, s: Indexed<V>)
    requires cfg.Valid() && RunIndexed(cfg, es) == Ok(s)
    ensures IndexedTraced(TraceOf(es), s)
    decreases |es|
  {
    if es != [] {
      hide StepIndexed, NextTrace, IndexedTraced;
      var pre := es[..|es| - 1];
      var r := RunIndexed(cfg, pre);
      IndexedLogIsTrace(cfg, pre, r.state);
      IndexedStepTraced(cfg, TraceOf(pre), r.state, es[|es| - 1]);
    }
  }

  // ---------- Theorems ----------

  /** At every crash point keys and values have the same length, no key occurs twice, and they stand for exactly
      the committed puts. */
  lemma DurableDataIsCommittedPuts<V>(cfg: Config, es: seq<Event<V>>, s: Rebuilt<V>)
    requires cfg.Valid() && RunRebuilt(cfg, es) == Ok(s)
    ensures DataOk(Durable(s)) && AsMap(Durable(s)) == MapAll(TraceOf(es).puts)
  {
    hide RunRebuilt, TraceOf;
    RebuiltRunKeeps(cfg, es);
    RebuiltLogIsTrace(cfg, es, s);
    PutAllIsMap(TraceOf(es).puts);
  }

  /** Crashing now and reopening yields, bucket by bucket and in order, the table that the running program has
      once its last committed put is finished. */
  lemma RebuiltTableIsMaintainedTable<V>(cfg: Config, es: seq<Event<V>>, s: Rebuilt<V>)
    requires cfg.Valid() && RunRebuilt(cfg, es) == Ok(s) && s.proc.Up?
    ensures var finished := if s.proc.pc.Unindexed? then StepRebuilt(cfg, s, IndexNewKey) else Ok(s);
            && finished.Ok? && finished.state.proc.Up?
            && StepRebuilt(cfg, StepRebuilt(cfg, s, Crash).state, Open)
               == Ok(Rebuilt(Durable(s), Up(finished.state.proc.buckets, Idle), s.log.(crashes := s.log.crashes + 1)))
  {
    hide RunRebuilt, Find, PutAll, Items, Returned, Unreturned, NoDuplicates, Rebuild;
    RebuiltRunKeeps(cfg, es);
    if s.proc.pc.Unindexed? {
      IndexKeeps(cfg, s);
    }
  }

  /** Between operations `get` answers from the map of the committed puts: the last one for the key, or absence. */
  lemma RebuiltGetIsMapLookup<V>(cfg: Config, es: seq<Event<V>>, s: Rebuilt<V>, k: Key)
    requires cfg.Valid() && RunRebuilt(cfg, es) == Ok(s) && s.proc.Up? && s.proc.pc.Idle?
    ensures |s.proc.buckets| == cfg.n
    ensures var m := MapAll(TraceOf(es).puts);
            Lookup(cfg, s.proc.buckets, s.data.values, k) == if k in m then Some(m[k]) else None
  {
    hide RunRebuilt, TraceOf;
    RebuiltRunKeeps(cfg, es);
    RebuiltLogIsTrace(cfg, es, s);
    LookupIsMapLookup(cfg, TraceOf(es).puts, k);
  }

  lemma IndexedGetIsMapLookup<V>(cfg: Config, es: seq<Event<V>>, s: Indexed<V>, k: Key)
    requires cfg.Valid() && RunIndexed(cfg, es) == Ok(s) && s.pc.AtRest?
    ensures |s.table| == cfg.n
    ensures var m := MapAll(TraceOf(es).puts);
            Lookup(cfg, s.table, s.values, k) == if k in m then Some(m[k]) else None
  {
    hide RunIndexed, TraceOf;
    IndexedRunKeeps(cfg, es);
    IndexedLogIsTrace(cfg, es, s);
    LookupIsMapLookup(cfg, TraceOf(es).puts, k);
  }

  /** The two stores agree: after runs that committed the same puts, whatever else happened, tables and values
      are equal, so every `get` answers the same. */
  lemma StoresAgree<V>(cfg: Config, es: seq<Event<V>>, s: Rebuilt<V>, fs: seq<Event<V>>, t: Indexed<V>)
    requires cfg.Valid() && RunRebuilt(cfg, es) == Ok(s) && s.proc.Up? && s.proc.pc.Idle?
    requires RunIndexed(cfg, fs) == Ok(t) && t.pc.AtRest?
    requires TraceOf(es).puts == TraceOf(fs).puts
    ensures s.proc.buckets == t.table && s.data.values == t.values
  {
    hide RunRebuilt, RunIndexed, TraceOf, Items, PutAll, Rebuild;
    RebuiltRunKeeps(cfg, es);
    IndexedRunKeeps(cfg, fs);
    RebuiltLogIsTrace(cfg, es, s);
    IndexedLogIsTrace(cfg, fs, t);
  }

  /** Every position is indexed exactly once: a bucket entry for each, and no two entries share one. */
  lemma EntriesAreABijection<V>(cfg: Config, es: seq<Event<V>>, s: Rebuilt<V>, j: nat)
    requires cfg.Valid() && RunRebuilt(cfg, es) == Ok(s) && s.proc.Up? && s.proc.pc.Idle? && j < cfg.n
    ensures |s.proc.buckets| == cfg.n && |s.data.keys| == |s.data.values|
    ensures BucketOk(cfg, s.data.keys, s.proc.buckets[j], j)
  {
    RebuiltRunKeeps(cfg, es);
    BucketsPartitionPositions(cfg, s.data.keys, j);
  }

  /** Puts that returned are committed, in order; a crash leaves at most one committed put that never returned. */
  lemma ReturnedPutsAreCommitted<V>(cfg: Config, es: seq<Event<V>>, s: Rebuilt<V>)
    requires cfg.Valid() && RunRebuilt(cfg, es) == Ok(s)
    ensures TraceOf(es).puts == Items(s.log.commits) && TraceOf(es).returned == Returned(s.log.commits)
    ensures var t := TraceOf(es);
            var pending := s.proc.Up? && (s.proc.pc.Unindexed? || s.proc.pc.Returning?);
            |t.puts| <= |t.returned| + multiset(es)[Crash] + if pending then 1 else 0
  {
    hide RunRebuilt, TraceOf;
    RebuiltRunKeeps(cfg, es);
    RebuiltLogIsTrace(cfg, es, s);
    CrashesCounted(es);
    CommitsSplit(s.log.commits);
  }

  lemma IndexedReturnedPutsAreCommitted<V>(cfg: Config, es: seq<Event<V>>, s: Indexed<V>)
    requires cfg.Valid() && RunIndexed(cfg, es) == Ok(s)
    ensures TraceOf(es).puts == Items(s.log.commits) && TraceOf(es).returned == Returned(s.log.commits)
    ensures var t := TraceOf(es); |t.puts| <= |t.returned| + multiset(es)[Crash] + if s.pc.Changed? then 1 else 0
  {
    hide RunIndexed, TraceOf;
    IndexedRunKeeps(cfg, es);
    IndexedLogIsTrace(cfg, es, s);
    CrashesCounted(es);
    CommitsSplit(s.log.commits);
  }

  /** In every reachable state: between puts one can begin, an open transaction can go on or fail at every store, and
      the process may die at any moment. */
  lemma {:induction false} RebuiltStepIsPossible<V>(cfg: Config, es: seq<Event<V>>, s: Rebuilt<V>, e: Event<V>)
    requires cfg.Valid() && RunRebuilt(cfg, es) == Ok(s)
    ensures StepRebuilt(cfg, s, e).Ok? <==>
              || e.Crash?
              || (s.proc.Down? && e.Open?)
              || (s.proc.Up? &&
                  match e
                  case BeginPut(_, _) => s.proc.pc.Idle?
                  case TxStore =>
                    (s.proc.pc.Updating? && !s.proc.pc.stored) || (s.proc.pc.Appending? && s.proc.pc.stores < 2)
                  case TxCommit =>
                    (s.proc.pc.Updating? && s.proc.pc.stored) || (s.proc.pc.Appending? && s.proc.pc.stores == 2)
                  case TxAbort => s.proc.pc.Updating? || s.proc.pc.Appending?
                  case IndexNewKey => s.proc.pc.Unindexed?
                  case Return => s.proc.pc.Returning?
                  case _ => false)
  {
    hide RunRebuilt, Rebuild, Find, PutAll, Items, Returned, Unreturned, NoDuplicates;
    RebuiltRunKeeps(cfg, es);
    RebuiltStepKeeps(cfg, s, e);
  }

  lemma {:induction false} IndexedStepIsPossible<V>(cfg: Config, es: seq<Event<V>>, s: Indexed<V>, e: Event<V>)
    requires cfg.Valid() && RunIndexed(cfg, es) == Ok(s)
    ensures StepIndexed(cfg, s, e).Ok? <==>
              match e
              case BeginPut(_, _) => s.pc.AtRest?
              case TxStore => s.pc.Changing? && s.pc.stores < (if s.pc.found.Some? then 1 else 2)
              case TxCommit => s.pc.Changing? && s.pc.stores == (if s.pc.found.Some? then 1 else 2)
              case TxAbort => s.pc.Changing?
              case Return => s.pc.Changed?
              case Crash => true
              case _ => false
  {
    hide RunIndexed, Rebuild, Find, PutAll, Items, Returned, Unreturned, NoDuplicates, AddEntry;
    IndexedRunKeeps(cfg, es);
    if s.pc.Changing? {
      IndexedStoreKeeps(cfg, s);
    }
  }

  /** As long as nothing commits, a crash or an exception brings back keys and values as they were between puts. */
  lemma {:induction false} RebuiltPutIsUndone<V>(cfg: Config, es: seq<Event<V>>, s: Rebuilt<V>, inside: seq<Event<V>>)
    requires cfg.Valid() && RunRebuilt(cfg, es) == Ok(s) && s.proc.Up? && s.proc.pc.Idle?
    requires TxCommit !in inside && RunRebuilt(cfg, es + inside).Ok?
    ensures var s' := RunRebuilt(cfg, es + inside).state;
            var c, r := StepRebuilt(cfg, s', Crash), StepRebuilt(cfg, s', TxAbort);
            && c.Ok? && c.state.data == s.data
            && (r.Ok? ==> r.state.data == s.data && r.state.proc == Up(s'.proc.buckets, Idle))
  {
    hide RunRebuilt, Rebuild, Find;
    RebuiltUncommitted(cfg, es, s, inside);
  }

  lemma {:induction false} RebuiltUncommitted<V>(cfg: Config, es: seq<Event<V>>, s: Rebuilt<V>, inside: seq<Event<V>>)
    requires cfg.Valid() && RunRebuilt(cfg, es) == Ok(s) && s.proc.Up? && s.proc.pc.Idle?
    requires TxCommit !in inside && RunRebuilt(cfg, es + inside).Ok?
    ensures var s' := RunRebuilt(cfg, es + inside).state;
            Durable(s') == s.data && (s'.proc.Up? ==> !s'.proc.pc.Unindexed? && !s'.proc.pc.Returning?)
    decreases |inside|
  {
    hide StepRebuilt;
    if inside == [] {
      assert es + inside == es;
    } else {
      var m := |inside| - 1;
      assert (es + inside)[..|es + inside| - 1] == es + inside[..m];
      RebuiltUncommitted(cfg, es, s, inside[..m]);
      RebuiltUncommittedStep(cfg, RunRebuilt(cfg, es + inside[..m]).state, inside[m]);
    }
  }

  lemma RebuiltUncommittedStep<V>(cfg: Config, s: Rebuilt<V>, e: Event<V>)
    requires cfg.Valid() && !e.TxCommit? && StepRebuilt(cfg, s, e).Ok?
    requires s.proc.Up? ==> !s.proc.pc.Unindexed? && !s.proc.pc.Returning?
    ensures var s' := StepRebuilt(cfg, s, e).state;
            Durable(s') == Durable(s) && (s'.proc.Up? ==> !s'.proc.pc.Unindexed? && !s'.proc.pc.Returning?)
  {
    hide Rebuild, Find, AddEntry;
  }

  lemma {:induction false} IndexedPutIsUndone<V>(cfg: Config, es: seq<Event<V>>, s: Indexed<V>, inside: seq<Event<V>>)
    requires cfg.Valid() && RunIndexed(cfg, es) == Ok(s) && s.pc.AtRest?
    requires TxCommit !in inside && RunIndexed(cfg, es + inside).Ok?
    ensures var s' := RunIndexed(cfg, es + inside).state;
            var c, r := StepIndexed(cfg, s', Crash), StepIndexed(cfg, s', TxAbort);
            && c.Ok? && c.state.table == s.table && c.state.values == s.values
            && (r.Ok? ==> r.state.table == s.table && r.state.values == s.values && r.state.pc.AtRest?)
  {
    hide RunIndexed, Rebuild, Find;
    IndexedUncommitted(cfg, es, s, inside);
    IndexedStepIsPossible(cfg, es + inside, RunIndexed(cfg, es + inside).state, Crash);
  }

  lemma {:induction false} IndexedUncommitted<V>(cfg: Config, es: seq<Event<V>>, s: Indexed<V>, inside: seq<Event<V>>)
    requires cfg.Valid() && RunIndexed(cfg, es) == Ok(s) && s.pc.AtRest?
    requires TxCommit !in inside && RunIndexed(cfg, es + inside).Ok?
    ensures var s' := RunIndexed(cfg, es + inside).state;
            DurableTable(s') == s.table && DurableValues(s') == s.values && !s'.pc.Changed?
    decreases |inside|
  {
    hide StepIndexed, DurableTable, DurableValues;
    if inside == [] {
      assert es + inside == es;
      AtRestIsDurable(s);
    } else {
      var m := |inside| - 1;
      assert (es + inside)[..|es + inside| - 1] == es + inside[..m];
      IndexedUncommitted(cfg, es, s, inside[..m]);
      IndexedUncommittedStep(cfg, RunIndexed(cfg, es + inside[..m]).state, inside[m]);
    }
  }

  lemma AtRestIsDurable<V>(s: Indexed<V>)
    requires s.pc.AtRest?
    ensures DurableTable(s) == s.table && DurableValues(s) == s.values
  {
  }

  lemma IndexedUncommittedStep<V>(cfg: Config, s: Indexed<V>, e: Event<V>)
    requires cfg.Valid() && !s.pc.Changed? && !e.TxCommit? && StepIndexed(cfg, s, e).Ok?
    ensures var s' := StepIndexed(cfg, s, e).state;
            DurableTable(s') == DurableTable(s) && DurableValues(s') == DurableValues(s) && !s'.pc.Changed?
  {
    hide Find, AddEntry;
  }

  /** If the bucket append that a put owes throws, the wrapper is where a session with that lost entry leaves it. */
  lemma LostEntryIsLostCall<V>(cfg: Config, es: seq<Event<V>>, s: Rebuilt<V>)
    requires cfg.Valid() && RunRebuilt(cfg, es) == Ok(s) && s.proc.Up? && s.proc.pc.Unindexed?
    ensures s.data.keys != [] && |s.data.keys| == |s.data.values|
    ensures var m := |s.data.keys| - 1;
            var before := Data(s.data.keys[..m], s.data.values[..m]);
            && DataOk(before)
            && View(s.data, s.proc.buckets) == Session(cfg, before, [Call(s.proc.pc.k, s.proc.pc.v, false)])
  {
    hide RunRebuilt, Rebuild;
    RebuiltRunKeeps(cfg, es);
    var d, k, v := s.data, s.proc.pc.k, s.proc.pc.v;
    var m := |d.keys| - 1;
    assert d.values[m] == v;
    assert d.keys == d.keys[..m] + [k] && d.values == d.values[..m] + [v];
    assert k !in d.keys[..m];
    var before, calls := Data(d.keys[..m], d.values[..m]), [Call(k, v, false)];
    FindIsIndexOf(cfg, before.keys, k);
    assert calls[..0] == [];
    assert Session(cfg, before, []) == View(before, Rebuild(cfg, before.keys));
  }

  // ---------- A put that is not interrupted ----------

  lemma RebuiltThen<V>(cfg: Config, es: seq<Event<V>>, s: Rebuilt<V>, e: Event<V>)
    requires cfg.Valid() && RunRebuilt(cfg, es) == Ok(s)
    ensures RunRebuilt(cfg, es + [e]) == StepRebuilt(cfg, s, e)
  {
    hide StepRebuilt;
    assert (es + [e])[..|es|] == es;
  }

  /** One more step that keeps the invariant. */
  lemma RebuiltNext<V>(cfg: Config, es: seq<Event<V>>, s: Rebuilt<V>, e: Event<V>) returns (s': Rebuilt<V>)
    requires cfg.Valid() && RunRebuilt(cfg, es) == Ok(s) && RebuiltInv(cfg, s) && StepRebuilt(cfg, s, e).Ok?
    ensures Ok(s') == StepRebuilt(cfg, s, e) && RunRebuilt(cfg, es + [e]) == Ok(s') && RebuiltInv(cfg, s')
  {
    hide RebuiltInv, RunRebuilt, StepRebuilt;
    RebuiltStepKeeps(cfg, s, e);
    RebuiltThen(cfg, es, s, e);
    s' := StepRebuilt(cfg, s, e).state;
  }

  /** Left alone, a put returns with the key's value stored and its entry in the table, new key or not. */
  lemma PutCompletes<V>(cfg: Config, es: seq<Event<V>>, s: Rebuilt<V>, k: Key, v: V)
    returns (all: seq<Event<V>>, t: Rebuilt<V>)
    requires cfg.Valid() && RunRebuilt(cfg, es) == Ok(s) && s.proc.Up? && s.proc.pc.Idle?
    ensures es <= all && RunRebuilt(cfg, all) == Ok(t)
    ensures t.proc.Up? && t.proc.pc.Idle? && t.log.returned == s.log.returned + [(k, v)]
    ensures |s.data.keys| == |s.data.values| && t.data == PutData(s.data, k, v)
    ensures t.proc.buckets == Rebuild(cfg, t.data.keys)
  {
    hide RunRebuilt, Rebuild, Find, PutAll, Items, Returned, Unreturned, NoDuplicates, IndexOf, AddEntry;
    RebuiltRunKeeps(cfg, es);
    BeginKeeps(cfg, s, k, v);
    t := RebuiltNext(cfg, es, s, BeginPut(k, v));
    all := es + [BeginPut(k, v)];
    t, all := PutStores(cfg, all, t);
    var u := RebuiltNext(cfg, all, t, TxCommit);
    all := all + [TxCommit];
    if u.proc.pc.Unindexed? {
      IndexKeeps(cfg, u);
      var w := RebuiltNext(cfg, all, u, IndexNewKey);
      all, u := all + [IndexNewKey], w;
    }
    t := RebuiltNext(cfg, all, u, Return);
    all := all + [Return];
  }

  /** The stores of the transaction, one by one. */
  lemma PutStores<V>(cfg: Config, es: seq<Event<V>>, s: Rebuilt<V>) returns (t: Rebuilt<V>, all: seq<Event<V>>)
    requires cfg.Valid() && RunRebuilt(cfg, es) == Ok(s) && RebuiltInv(cfg, s) && s.proc.Up?
    requires (s.proc.pc.Updating? && !s.proc.pc.stored) || (s.proc.pc.Appending? && s.proc.pc.stores == 0)
    ensures es <= all && RunRebuilt(cfg, all) == Ok(t) && RebuiltInv(cfg, t)
    ensures t.log == s.log && t.proc.Up? && |s.data.keys| == |s.data.values|
    ensures t.data == PutData(s.data, s.proc.pc.k, s.proc.pc.v)
    ensures t.proc.pc == if s.proc.pc.Updating? then s.proc.pc.(stored := true) else s.proc.pc.(stores := 2)
  {
    hide RunRebuilt, Rebuild, Find, PutAll, Items, Returned, Unreturned, NoDuplicates;
    StoreKeeps(cfg, s);
    t := RebuiltNext(cfg, es, s, TxStore);
    all := es + [TxStore];
    if s.proc.pc.Appending? {
      var u := RebuiltNext(cfg, all, t, TxStore);
      t, all := u, all + [TxStore];
    }
  }

  lemma IndexedThen<V>(cfg: Config, es: seq<Event<V>>, s: Indexed<V>, e: Event<V>)
    requires cfg.Valid() && RunIndexed(cfg, es) == Ok(s)
    ensures RunIndexed(cfg, es + [e]) == StepIndexed(cfg, s, e)
  {
    hide StepIndexed;
    assert (es + [e])[..|es|] == es;
  }

  /** A put on the store whose index is persistent: one store for a known key, two for a new one. */
  function IndexedPutEvents<V>(k: Key, v: V, known: bool): seq<Event<V>> {
    [BeginPut(k, v), TxStore] + (if known then [] else [TxStore]) + [TxCommit, Return]
  }

  lemma {:induction false} IndexedPutCompletes<V>(cfg: Config, es: seq<Event<V>>, s: Indexed<V>, k: Key, v: V)
    requires cfg.Valid() && RunIndexed(cfg, es) == Ok(s) && s.pc.AtRest?
    ensures var d := PutAll(TraceOf(es).puts);
            var r := RunIndexed(cfg, es + IndexedPutEvents(k, v, k in d.keys));
            && r.Ok? && r.state.pc.AtRest? && r.state.log.returned == s.log.returned + [(k, v)]
            && r.state.values == PutData(d, k, v).values && r.state.table == Rebuild(cfg, PutData(d, k, v).keys)
  {
    hide RunIndexed, TraceOf, Find, PutAll, Items, Returned, Unreturned, NoDuplicates, AddEntry, Rebuild;
    IndexedRunKeeps(cfg, es);
    IndexedLogIsTrace(cfg, es, s);
    var d := PutAll(TraceOf(es).puts);
    FindIsIndexOf(cfg, d.keys, k);
    RebuildSnoc(cfg, d.keys, k);
    var s1 := StepIndexed(cfg, s, BeginPut(k, v)).state;
    IndexedThen(cfg, es, s, BeginPut(k, v));
    var es2 := es + [BeginPut(k, v)] + [TxStore];
    var s2 := StepIndexed(cfg, s1, TxStore).state;
    IndexedThen(cfg, es + [BeginPut(k, v)], s1, TxStore);
    var es3, s3 := es2, s2;
    if k !in d.keys {
      es3, s3 := es2 + [TxStore], StepIndexed(cfg, s2, TxStore).state;
      IndexedThen(cfg, es2, s2, TxStore);
    }
    IndexedThen(cfg, es3, s3, TxCommit);
    var s4 := StepIndexed(cfg, s3, TxCommit).state;
    IndexedThen(cfg, es3 + [TxCommit], s4, Return);
    assert es3 + [TxCommit] + [Return] == es + IndexedPutEvents(k, v, k in d.keys);
  }
}

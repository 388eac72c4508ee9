/** Both key-value stores step by step, with transactions that roll back on a crash or an exception. */
module KeyValueSteps {
  import opened History
  import opened KeyValueIndex
  import opened Options

  datatype Log<V> = Log(commits: seq<Commit<(Key, V)>>, returned: seq<(Key, V)>, crashes: nat)

  /** Fault: a position outside the value vector would be used. */
  datatype Outcome<S> = Blocked | Fault | Ok(state: S)

  datatype Event<V> =
    | Open                                    // construct the runtime wrapper, rebuilding its buckets
    | BeginPut(k: Key, v: V)                  // hash, search the bucket, begin the transaction
    | TxStore | TxCommit | TxAbort
    | IndexNewKey                             // append to the volatile bucket after the commit
    | Return
    | Crash

  // ---------- Volatile index, rebuilt on restart ----------

  datatype Pc<V> =
    | Idle
    | Updating(k: Key, v: V, i: nat, stored: bool, before: Data<V>)
    | Appending(k: Key, v: V, stores: nat, before: Data<V>)
    | Unindexed(k: Key, v: V)                 // committed, bucket entry missing
    | Returning(k: Key, v: V)

  datatype Process<V> = Down | Up(buckets: seq<Bucket>, pc: Pc<V>)

  datatype Rebuilt<V> = Rebuilt(data: Data<V>, proc: Process<V>, log: Log<V>)

  function InitRebuilt<V>(): Rebuilt<V> {
    Rebuilt(Data([], []), Down, Log([], [], 0))
  }

  /** Keys and values as the next open finds them if the process dies now. */
  function Durable<V>(s: Rebuilt<V>): Data<V> {
    if s.proc.Up? && (s.proc.pc.Updating? || s.proc.pc.Appending?) then s.proc.pc.before else s.data
  }

  function Logged<V>(l: Log<V>, k: Key, v: V): Log<V> {
    l.(commits := Record(l.commits, (k, v)))
  }

  function Answered<V>(l: Log<V>, k: Key, v: V): Log<V>
    requires l.commits != []
  {
    l.(commits := MarkLast(l.commits), returned := l.returned + [(k, v)])
  }

  function StepRebuilt<V>(cfg: Config, s: Rebuilt<V>, e: Event<V>): Outcome<Rebuilt<V>>
    requires cfg.Valid()
  {
    if e.Crash? then
      Ok(Rebuilt(Durable(s), Down, s.log.(crashes := s.log.crashes + 1)))
    else if s.proc.Down? then
      if e.Open? then Ok(s.(proc := Up(Rebuild(cfg, s.data.keys), Idle))) else Blocked
    else if |s.proc.buckets| != cfg.n then Blocked
    else
      var d, u := s.data, s.proc;
      match (e, u.pc)
      case (BeginPut(k, v), Idle) =>
        (match Find(u.buckets[cfg.Slot(k)], k)
         case Some(i) => Ok(s.(proc := u.(pc := Updating(k, v, i, false, d))))
         case None => Ok(s.(proc := u.(pc := Appending(k, v, 0, d)))))
      case (TxStore, Updating(k, v, i, false, b)) =>
        if i >= |d.values| then Fault
        else Ok(s.(data := d.(values := d.values[i := v]), proc := u.(pc := Updating(k, v, i, true, b))))
      case (TxStore, Appending(k, v, n, b)) =>
        if n == 0 then Ok(s.(data := d.(values := d.values + [v]), proc := u.(pc := Appending(k, v, 1, b))))
        else if n == 1 then Ok(s.(data := d.(keys := d.keys + [k]), proc := u.(pc := Appending(k, v, 2, b))))
        else Blocked
      case (TxCommit, Updating(k, v, _, true, _)) =>
        Ok(s.(proc := u.(pc := Returning(k, v)), log := Logged(s.log, k, v)))
      case (TxCommit, Appending(k, v, n, _)) =>
        if n == 2 then Ok(s.(proc := u.(pc := Unindexed(k, v)), log := Logged(s.log, k, v))) else Blocked
      case (TxAbort, Updating(_, _, _, _, b)) => Ok(s.(data := b, proc := u.(pc := Idle)))
      case (TxAbort, Appending(_, _, _, b)) => Ok(s.(data := b, proc := u.(pc := Idle)))
      case (IndexNewKey, Unindexed(k, v)) =>
        if d.values == [] then Fault
        else Ok(s.(proc := Up(AddEntry(cfg, u.buckets, k, |d.values| - 1), Returning(k, v))))
      case (Return, Returning(k, v)) =>
        if s.log.commits == [] then Blocked
        else Ok(s.(proc := u.(pc := Idle), log := Answered(s.log, k, v)))
      case _ => Blocked
  }

  function RunRebuilt<V>(cfg: Config, es: seq<Event<V>>): Outcome<Rebuilt<V>>
    requires cfg.Valid()
  {
    if es == [] then Ok(InitRebuilt())
    else match RunRebuilt(cfg, es[..|es| - 1])
      case Ok(s) => StepRebuilt(cfg, s, es[|es| - 1])
      case o => o
  }

  // ---------- Index in persistent memory ----------

  datatype Indexed<V> = Indexed(table: seq<Bucket>, values: seq<V>, pc: IndexedPc<V>, log: Log<V>)

  datatype IndexedPc<V> =
    | AtRest
    | Changing(k: Key, v: V, found: Option<nat>, stores: nat, table: seq<Bucket>, values: seq<V>)
    | Changed(k: Key, v: V)

  function InitIndexed<V>(cfg: Config): Indexed<V> {
    Indexed(seq(cfg.n, _ => []), [], AtRest, Log([], [], 0))
  }

  function DurableTable<V>(s: Indexed<V>): seq<Bucket> {
    if s.pc.Changing? then s.pc.table else s.table
  }

  function DurableValues<V>(s: Indexed<V>): seq<V> {
    if s.pc.Changing? then s.pc.values else s.values
  }

  function StepIndexed<V>(cfg: Config, s: Indexed<V>, e: Event<V>): Outcome<Indexed<V>>
    requires cfg.Valid()
  {
    if |s.table| != cfg.n then Blocked
    else match (e, s.pc)
      case (Crash, _) =>
        Ok(Indexed(DurableTable(s), DurableValues(s), AtRest, s.log.(crashes := s.log.crashes + 1)))
      case (BeginPut(k, v), AtRest) =>
        Ok(s.(pc := Changing(k, v, Find(s.table[cfg.Slot(k)], k), 0, s.table, s.values)))
      case (TxStore, Changing(k, v, Some(i), 0, _, _)) =>
        if i >= |s.values| then Fault else Ok(s.(values := s.values[i := v], pc := s.pc.(stores := 1)))
      case (TxStore, Changing(k, v, None, n, _, _)) =>
        if n == 0 then Ok(s.(values := s.values + [v], pc := s.pc.(stores := 1)))
        else if n == 1 then
          if s.values == [] then Fault
          else Ok(s.(table := AddEntry(cfg, s.table, k, |s.values| - 1), pc := s.pc.(stores := 2)))
        else Blocked
      case (TxCommit, Changing(k, v, f, n, _, _)) =>
        if n == (if f.Some? then 1 else 2) then Ok(s.(pc := Changed(k, v), log := Logged(s.log, k, v))) else Blocked
      case (TxAbort, Changing(_, _, _, _, t, vs)) => Ok(s.(table := t, values := vs, pc := AtRest))
      case (Return, Changed(k, v)) =>
        if s.log.commits == [] then Blocked else Ok(s.(pc := AtRest, log := Answered(s.log, k, v)))
      case _ => Blocked
  }

  function RunIndexed<V>(cfg: Config, es: seq<Event<V>>): Outcome<Indexed<V>>
    requires cfg.Valid()
  {
    if es == [] then Ok(InitIndexed(cfg))
    else match RunIndexed(cfg, es[..|es| - 1])
      case Ok(s) => StepIndexed(cfg, s, es[|es| - 1])
      case o => o
  }
}

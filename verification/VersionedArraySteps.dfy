/** The double-buffered sorted array store by store. `vol` is what the program reads and writes, `pm` what
    survives a crash; any cell may reach `pm` at any time, and `persist` forces a range to do so. */
module VersionedArraySteps {
  import opened History
  import opened SortedInsert

  datatype Copy = Copy(entries: seq<Value>, size: nat)

  type Side = x: nat | x <= 1

  datatype Memory = Memory(v: seq<Copy>, current: Side)

  datatype Cell = EntryCell(side: Side, i: nat) | SizeCell(side: Side) | CurrentCell

  /** Where the running insert of `x` stands. */
  datatype Pc =
    | Ready
    | Prefix(x: Value, pos: nat, i: nat)   // copying the elements before the position
    | Suffix(x: Value, pos: nat, i: nat)   // the new element is stored; copying the rest
    | Written(x: Value)                    // size stored, working copy not persisted yet
    | Persisted(x: Value)
    | Flipped(x: Value)                    // current stored, not persisted yet

  datatype Log = Log(commits: seq<Commit<Value>>, returned: seq<Value>, crashes: nat)

  datatype State = State(slots: nat, vol: Memory, pm: Memory, pc: Pc, log: Log)

  datatype Event =
    | Begin(x: Value) | Store | PersistCopy | Flip | PersistCurrent
    | Evict(cell: Cell)
    | Crash

  datatype Outcome = Blocked | Ok(state: State)

  ghost predicate Shaped(m: Memory, slots: nat) {
    |m.v| == 2 && |m.v[0].entries| == slots && |m.v[1].entries| == slots
  }

  /** A zeroed pool. */
  function Init(slots: nat): State {
    var c := Copy(seq(slots, _ => Value(0, 0)), 0);
    var m := Memory([c, c], 0);
    State(slots, m, m, Ready, Log([], [], 0))
  }

  /** What a reader of the array sees. */
  function Contents(m: Memory): seq<Value> {
    if |m.v| == 2 && m.v[m.current].size <= |m.v[m.current].entries|
    then m.v[m.current].entries[..m.v[m.current].size] else []
  }

  function StoreEntry(m: Memory, c: Side, i: nat, x: Value): Memory {
    if c < |m.v| && i < |m.v[c].entries|
    then m.(v := m.v[c := m.v[c].(entries := m.v[c].entries[i := x])]) else m
  }

  function StoreSize(m: Memory, c: Side, n: nat): Memory {
    if c < |m.v| then m.(v := m.v[c := m.v[c].(size := n)]) else m
  }

  /** Persistent memory after one cell has been written back. */
  function WriteBack(vol: Memory, pm: Memory, cell: Cell): Memory {
    match cell
    case EntryCell(c, i) =>
      if c < |vol.v| && i < |vol.v[c].entries| then StoreEntry(pm, c, i, vol.v[c].entries[i]) else pm
    case SizeCell(c) => if c < |vol.v| then StoreSize(pm, c, vol.v[c].size) else pm
    case CurrentCell => pm.(current := vol.current)
  }

  /** The insert takes effect at the moment the durable `current` changes. */
  function Durably(s: State, pm: Memory): State {
    var l := if pm.current != s.pm.current && s.pc.Flipped?
             then s.log.(commits := Record(s.log.commits, s.pc.x)) else s.log;
    s.(pm := pm, log := l)
  }

  function Step(s: State, e: Event): Outcome {
    if |s.vol.v| != 2 || |s.pm.v| != 2 then Blocked
    else
      var c := s.vol.current;
      var w: Side := 1 - c;
      var size := s.vol.v[c].size;
      match e
      case Begin(x) =>
        if s.pc.Ready? && size < s.slots && size <= |s.vol.v[c].entries|
        then Ok(s.(pc := Prefix(x, LowerBound(s.vol.v[c].entries[..size], x), 0))) else Blocked
      case Store =>
        (match s.pc
         case Prefix(x, pos, i) =>
           if i < pos && i < |s.vol.v[c].entries|
           then Ok(s.(vol := StoreEntry(s.vol, w, i, s.vol.v[c].entries[i]), pc := Prefix(x, pos, i + 1)))
           else Ok(s.(vol := StoreEntry(s.vol, w, pos, x), pc := Suffix(x, pos, pos)))
         case Suffix(x, pos, i) =>
           if i < size && i < |s.vol.v[c].entries|
           then Ok(s.(vol := StoreEntry(s.vol, w, i + 1, s.vol.v[c].entries[i]), pc := Suffix(x, pos, i + 1)))
           else Ok(s.(vol := StoreSize(s.vol, w, size + 1), pc := Written(x)))
         case _ => Blocked)
      case PersistCopy =>
        if s.pc.Written?
        then Ok(s.(pm := s.pm.(v := s.pm.v[w := s.vol.v[w]]), pc := Persisted(s.pc.x))) else Blocked
      case Flip =>
        if s.pc.Persisted? then Ok(s.(vol := s.vol.(current := w), pc := Flipped(s.pc.x))) else Blocked
      case PersistCurrent =>
        if !s.pc.Flipped? then Blocked
        else
          var t := Durably(s, s.pm.(current := s.vol.current));
          if t.log.commits == [] then Blocked
          else Ok(t.(pc := Ready, log := t.log.(commits := MarkLast(t.log.commits), returned := t.log.returned + [s.pc.x])))
      case Evict(cell) => Ok(Durably(s, WriteBack(s.vol, s.pm, cell)))
      case Crash => Ok(s.(vol := s.pm, pc := Ready, log := s.log.(crashes := s.log.crashes + 1)))
  }

  function Run(s: State, es: seq<Event>): Outcome {
    if es == [] then Ok(s)
    else match Run(s, es[..|es| - 1])
      case Ok(t) => Step(t, es[|es| - 1])
      case Blocked => Blocked
  }
}

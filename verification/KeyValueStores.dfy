/** The two key-value stores as objects, for calls that run to completion. */
module KeyValueStores {
  import opened History
  import opened KeyValueIndex
  import opened KeyValueSessions
  import opened Options

  /** The search loop that `get` and `put` share. */
  method Search(b: Bucket, k: Key) returns (r: Option<nat>)
    ensures r == Find(b, k)
  {
    var p := 0;
    while p < |b|
      invariant p <= |b|
      invariant Find(b, k) == Find(b[p..], k)
    {
      if b[p].key == k {
        return Some(b[p].index);
      }
      p := p + 1;
    }
    r := None;
  }

  /** Index and values both in persistent memory; `keys` is the order in which keys were first put. */
  class SimpleKv<V> {
    const cfg: Config
    var buckets: seq<Bucket>
    var values: seq<V>
    ghost var keys: seq<Key>

    ghost predicate Valid()
      reads this
    {
      cfg.Valid() && DataOk(Data(keys, values)) && buckets == Rebuild(cfg, keys)
    }

    ghost function Contents(): map<Key, V>
      reads this
      requires Valid()
    {
      AsMap(Data(keys, values))
    }

    constructor (c: Config)
      requires c.n > 0
      ensures Valid() && cfg == c && Contents() == map[]
    {
      cfg := c;
      buckets, values, keys := seq(c.n, _ => []), [], [];
    }

    method Get(k: Key) returns (r: Option<V>)
      requires Valid()
      ensures r == if k in Contents() then Some(Contents()[k]) else None
    {
      FindIsIndexOf(cfg, keys, k);
      AsMapLookup(Data(keys, values), k);
      var f := Search(buckets[cfg.Slot(k)], k);
      r := if f.Some? then Some(values[f.value]) else None;
    }

    /** A transaction that fails, after some of its stores or before the first, rolls them back and throws. */
    method Put(k: Key, v: V, outcome: TxOutcome) returns (ok: bool)
      requires Valid()
      modifies this
      ensures Valid() && (ok <==> outcome.Commits?)
      ensures ok ==> Contents() == old(Contents())[k := v]
      ensures ok ==> Data(keys, values) == PutData(old(Data(keys, values)), k, v)
      ensures !ok ==> buckets == old(buckets) && values == old(values) && keys == old(keys)
    {
      FindIsIndexOf(cfg, keys, k);
      PutIsMapUpdate(Data(keys, values), k, v);
      var j := cfg.Slot(k);
      var f := Search(buckets[j], k);
      var buckets0, values0 := buckets, values;
      if outcome == FailsAfter(0) {
        return false;
      }
      if f.Some? {
        values := values[f.value := v];
      } else {
        values := values + [v];
        if outcome != FailsAfter(1) {
          buckets := buckets[j := buckets[j] + [Entry(k, |values| - 1)]];
        }
      }
      if outcome.FailsAfter? {
        buckets, values := buckets0, values0;
        return false;
      }
      if f.None? {
        keys := keys + [k];
        assert keys[..|keys| - 1] == old(keys);
      }
      ok := true;
    }
  }

  /** How a put on the rebuilt store ends: it returns, its transaction rolled back, or the bucket append threw. */
  datatype PutResult = Done | RolledBack | NotIndexed

  /** Only keys and values are persistent; the buckets live in the wrapper and are rebuilt by its constructor. */
  class SimpleKvRuntime<V> {
    const cfg: Config
    var keys: seq<Key>
    var values: seq<V>
    var buckets: seq<Bucket>

    // the data it was opened on and the puts committed since
    ghost var start: Data<V>
    ghost var calls: seq<Call<V>>

    ghost predicate Valid()
      reads this
    {
      cfg.Valid() && DataOk(start) && View(Data(keys, values), buckets) == Session(cfg, start, calls)
    }

    /** The buckets are what a reopening would build. */
    ghost predicate Complete()
      reads this
      requires cfg.Valid()
    {
      DataOk(Data(keys, values)) && buckets == Rebuild(cfg, keys)
    }

    /** What the stored keys and values stand for. */
    ghost function Contents(): map<Key, V>
      reads this
      requires |keys| == |values|
    {
      AsMap(Data(keys, values))
    }

    /** What callers of `Get` see. */
    ghost function Visible(): map<Key, V>
      reads this
      requires Valid()
    {
      Seen(AsMap(start), calls)
    }

    constructor (c: Config, d: Data<V>)
      requires c.n > 0 && |d.keys| == |d.values| && NoDuplicates(d.keys)
      ensures Valid() && cfg == c && Data(keys, values) == d && start == d && calls == []
      ensures Complete() && Visible() == Contents()
    {
      cfg, keys, values, start, calls := c, d.keys, d.values, d, [];
      var t: seq<Bucket> := seq(c.n, _ => []);
      var i := 0;
      while i < |d.values|
        invariant i <= |d.values| && |t| == c.n
        invariant t == Rebuild(c, d.keys[..i])
      {
        var j := c.Slot(d.keys[i]);
        t := t[j := t[j] + [Entry(d.keys[i], i)]];
        assert d.keys[..i + 1][..i] == d.keys[..i];
        i := i + 1;
      }
      assert d.keys[..i] == d.keys;
      buckets := t;
    }

    method Get(k: Key) returns (r: Option<V>)
      requires Valid()
      ensures r == if k in Visible() then Some(Visible()[k]) else None
      ensures Complete() ==> r == if k in Contents() then Some(Contents()[k]) else None
    {
      SessionSeen(cfg, start, calls, k);
      var f := Search(buckets[cfg.Slot(k)], k);
      r := if f.Some? then Some(values[f.value]) else None;
      if Complete() {
        FindIsIndexOf(cfg, keys, k);
        AsMapLookup(Data(keys, values), k);
      }
    }

    /** `indexed` if the bucket append for a new key succeeds. */
    method Put(k: Key, v: V, outcome: TxOutcome, indexed: bool) returns (r: PutResult)
      requires Valid()
      modifies this
      ensures Valid() && start == old(start)
      ensures r.RolledBack? <==> outcome.FailsAfter?
      ensures r.NotIndexed? <==> outcome.Commits? && !indexed && k !in old(Visible())
      ensures calls == old(calls) + if r.RolledBack? then [] else [Call(k, v, indexed)]
      ensures r.RolledBack? ==> keys == old(keys) && values == old(values) && buckets == old(buckets)
      ensures Visible() == if r.Done? then old(Visible())[k := v] else old(Visible())
      ensures LostKeysRest(start.keys, calls) <==> DataOk(Data(keys, values))
      ensures |keys| == |values| && |old(keys)| == |old(values)|
      ensures !r.RolledBack? && DataOk(Data(keys, values)) ==> Contents() == old(Contents())[k := v]
      ensures old(Complete()) && r.Done? ==>
                Complete() && Data(keys, values) == PutData(old(Data(keys, values)), k, v)
    {
      hide Session, Seen, AsMap, Rebuild, NoDuplicates, LostKeysRest, Find, Config.Slot;
      var j := cfg.Slot(k);
      var f := Search(buckets[j], k);
      var keys0, values0 := keys, values;
      SessionSeen(cfg, start, calls, k);
      ghost var c, w := Call(k, v, indexed), View(Data(keys, values), buckets);
      OneMoreCall(cfg, start, calls, c);
      if Complete() && (indexed || k in keys) {
        CompleteStays(cfg, w, c);
      }
      if outcome == FailsAfter(0) {
        return RolledBack;
      }
      if f.Some? {
        values := values[f.value := v];
      } else {
        values := values + [v];
        if outcome != FailsAfter(1) {
          keys := keys + [k];
        }
      }
      if outcome.FailsAfter? {
        keys, values := keys0, values0;
        return RolledBack;
      }
      calls := calls + [Call(k, v, indexed)];
      r := Done;
      if f.None? {
        if indexed {
          buckets := buckets[j := buckets[j] + [Entry(k, |values| - 1)]];
        } else {
          r := NotIndexed;
        }
      }
    }
  }
}

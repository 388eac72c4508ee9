/** The hash index that both key-value stores keep, and the data it points into. */
module KeyValueIndex {
  import opened Options

  type Key = string

  /** One bucket entry: a key and the position of its value. */
  datatype Entry = Entry(key: Key, index: nat)

  type Bucket = seq<Entry>

  /** Number of buckets and hash function. */
  datatype Config = Config(n: nat, hash: Key -> nat) {
    predicate Valid() {
      n > 0
    }

    function Slot(k: Key): (j: nat)
      requires Valid()
      ensures j < n
    {
      hash(k) % n
    }
  }

  /** The position stored with the first entry for `k`. */
  function Find(b: Bucket, k: Key): Option<nat> {
    if b == [] then None
    else if b[0].key == k then Some(b[0].index)
    else Find(b[1..], k)
  }

  lemma {:induction false} FindSnoc(b: Bucket, e: Entry, k: Key)
    ensures Find(b + [e], k) == match Find(b, k)
                                case Some(i) => Some(i)
                                case None => if e.key == k then Some(e.index) else None
    decreases |b|
  {
    if b == [] {
      assert b + [e] == [e];
      assert Find([e], k) == if e.key == k then Some(e.index) else None;
    } else {
      assert (b + [e])[1..] == b[1..] + [e];
      FindSnoc(b[1..], e, k);
    }
  }

  // ---------- The table for a list of keys ----------

  function AddEntry(cfg: Config, t: seq<Bucket>, k: Key, i: nat): (r: seq<Bucket>)
    requires cfg.Valid() && |t| == cfg.n
    ensures |r| == cfg.n
  {
    var j := cfg.Slot(k);
    t[j := t[j] + [Entry(k, i)]]
  }

  /** The table that a restart builds from the keys. */
  function Rebuild(cfg: Config, keys: seq<Key>): (t: seq<Bucket>)
    requires cfg.Valid()
    ensures |t| == cfg.n
  {
    if keys == [] then seq(cfg.n, _ => [])
    else
      var m := |keys| - 1;
      AddEntry(cfg, Rebuild(cfg, keys[..m]), keys[m], m)
  }

  ghost predicate NoDuplicates(keys: seq<Key>) {
    forall i, j :: 0 <= i < j < |keys| ==> keys[i] != keys[j]
  }

  function IndexOf(keys: seq<Key>, k: Key): (i: nat)
    requires k in keys
    ensures i < |keys| && keys[i] == k
  {
    var m := |keys| - 1;
    if keys[m] == k then m else IndexOf(keys[..m], k)
  }

  /** Searching the key's own bucket finds its position among all keys, or that it has none. */
  lemma {:induction false} FindIsIndexOf(cfg: Config, keys: seq<Key>, k: Key)
    requires cfg.Valid() && NoDuplicates(keys)
    ensures cfg.Slot(k) == cfg.hash(k) % cfg.n
    ensures Find(Rebuild(cfg, keys)[cfg.hash(k) % cfg.n], k) == if k in keys then Some(IndexOf(keys, k)) else None
    decreases |keys|
  {
    if keys != [] {
      var m := |keys| - 1;
      FindIsIndexOf(cfg, keys[..m], k);
      assert keys == keys[..m] + [keys[m]];
      if cfg.Slot(keys[m]) == cfg.Slot(k) {
        FindSnoc(Rebuild(cfg, keys[..m])[cfg.Slot(k)], Entry(keys[m], m), k);
      }
    }
  }

  /** Each bucket lists, in increasing order, the positions of the keys that hash to it. */
  ghost predicate BucketOk(cfg: Config, keys: seq<Key>, b: Bucket, j: nat)
    requires cfg.Valid()
  {
    && (forall p :: 0 <= p < |b| ==> b[p].index < |keys| && keys[b[p].index] == b[p].key && cfg.Slot(b[p].key) == j)
    && (forall p, q :: 0 <= p < q < |b| ==> b[p].index < b[q].index)
    && (forall i :: 0 <= i < |keys| && cfg.Slot(keys[i]) == j ==> Entry(keys[i], i) in b)
  }

  lemma {:induction false} BucketsPartitionPositions(cfg: Config, keys: seq<Key>, j: nat)
    requires cfg.Valid() && j < cfg.n
    ensures BucketOk(cfg, keys, Rebuild(cfg, keys)[j], j)
    decreases |keys|
  {
    hide BucketOk;
    if keys == [] {
      EmptyBucketOk(cfg, j);
    } else {
      var m := |keys| - 1;
      BucketsPartitionPositions(cfg, keys[..m], j);
      BucketGrows(cfg, keys[..m], keys[m], Rebuild(cfg, keys[..m])[j], j);
      assert keys == keys[..m] + [keys[m]];
    }
  }

  /** A key has one entry in the whole table. */
  lemma OneEntryPerKey(cfg: Config, keys: seq<Key>, i: nat, p: nat, j: nat, q: nat)
    requires cfg.Valid() && NoDuplicates(keys) && i < cfg.n && j < cfg.n
    requires p < |Rebuild(cfg, keys)[i]| && q < |Rebuild(cfg, keys)[j]|
    requires Rebuild(cfg, keys)[i][p].key == Rebuild(cfg, keys)[j][q].key
    ensures i == j && p == q
  {
    BucketsPartitionPositions(cfg, keys, i);
    BucketsPartitionPositions(cfg, keys, j);
  }

  lemma EmptyBucketOk(cfg: Config, j: nat)
    requires cfg.Valid()
    ensures BucketOk(cfg, [], [], j)
  {
  }

  lemma BucketGrows(cfg: Config, keys: seq<Key>, k: Key, b: Bucket, j: nat)
    requires cfg.Valid() && BucketOk(cfg, keys, b, j)
    ensures BucketOk(cfg, keys + [k], if cfg.Slot(k) == j then b + [Entry(k, |keys|)] else b, j)
  {
    hide Config.Slot;
    var b', ks := if cfg.Slot(k) == j then b + [Entry(k, |keys|)] else b, keys + [k];
    forall p | 0 <= p < |b'|
      ensures b'[p].index < |ks| && ks[b'[p].index] == b'[p].key && cfg.Slot(b'[p].key) == j
    {
      assert p < |b| ==> b'[p] == b[p];
    }
    forall i | 0 <= i < |ks| && cfg.Slot(ks[i]) == j ensures Entry(ks[i], i) in b' {
      if i < |keys| {
        assert Entry(keys[i], i) in b;
      } else {
        assert b'[|b|] == Entry(k, |keys|);
      }
    }
  }

  // ---------- Keys and values ----------

  datatype Data<V> = Data(keys: seq<Key>, values: seq<V>)

  ghost predicate DataOk<V>(d: Data<V>) {
    |d.keys| == |d.values| && NoDuplicates(d.keys)
  }

  /** Overwrites the value of a known key, appends a new one. */
  function PutData<V>(d: Data<V>, k: Key, v: V): (r: Data<V>)
    requires |d.keys| == |d.values|
    ensures |r.keys| == |r.values|
  {
    if k in d.keys then d.(values := d.values[IndexOf(d.keys, k) := v])
    else Data(d.keys + [k], d.values + [v])
  }

  /** The finite map that keys and values stand for. */
  function AsMap<V>(d: Data<V>): map<Key, V>
    requires |d.keys| == |d.values|
    decreases |d.keys|
  {
    if d.keys == [] then map[]
    else
      var m := |d.keys| - 1;
      AsMap(Data(d.keys[..m], d.values[..m]))[d.keys[m] := d.values[m]]
  }

  lemma {:induction false} AsMapLookup<V>(d: Data<V>, k: Key)
    requires DataOk(d)
    ensures k in AsMap(d) <==> k in d.keys
    ensures k in d.keys ==> AsMap(d)[k] == d.values[IndexOf(d.keys, k)]
    decreases |d.keys|
  {
    if d.keys != [] {
      var m := |d.keys| - 1;
      AsMapLookup(Data(d.keys[..m], d.values[..m]), k);
      assert d.keys == d.keys[..m] + [d.keys[m]];
    }
  }

  /** Putting into the data is updating the map. */
  lemma PutIsMapUpdate<V>(d: Data<V>, k: Key, v: V)
    requires DataOk(d)
    ensures DataOk(PutData(d, k, v)) && AsMap(PutData(d, k, v)) == AsMap(d)[k := v]
  {
    var r := PutData(d, k, v);
    if k in d.keys {
      forall x ensures x in AsMap(r) <==> x in AsMap(d)[k := v] {
        AsMapLookup(d, x);
        AsMapLookup(r, x);
      }
      forall x | x in AsMap(r) ensures AsMap(r)[x] == AsMap(d)[k := v][x] {
        AsMapLookup(d, x);
        AsMapLookup(r, x);
        AsMapLookup(d, k);
        if x != k {
          assert IndexOf(d.keys, x) != IndexOf(d.keys, k);
        }
      }
    } else {
      assert r.keys[..|d.keys|] == d.keys && r.values[..|d.values|] == d.values;
    }
  }

  /** The data after a sequence of puts on an empty store. */
  function PutAll<V>(ps: seq<(Key, V)>): (d: Data<V>)
    ensures |d.keys| == |d.values|
  {
    if ps == [] then Data([], [])
    else
      var (k, v) := ps[|ps| - 1];
      PutData(PutAll(ps[..|ps| - 1]), k, v)
  }

  /** The map after the same puts. */
  function MapAll<V>(ps: seq<(Key, V)>): map<Key, V> {
    if ps == [] then map[] else MapAll(ps[..|ps| - 1])[ps[|ps| - 1].0 := ps[|ps| - 1].1]
  }

  lemma {:induction false} PutAllIsMap<V>(ps: seq<(Key, V)>)
    ensures DataOk(PutAll(ps)) && AsMap(PutAll(ps)) == MapAll(ps)
    decreases |ps|
  {
    if ps != [] {
      PutAllIsMap(ps[..|ps| - 1]);
      PutIsMapUpdate(PutAll(ps[..|ps| - 1]), ps[|ps| - 1].0, ps[|ps| - 1].1);
    }
  }

  /** What `get` answers: the value behind the bucket entry, absence otherwise. */
  function Lookup<V>(cfg: Config, t: seq<Bucket>, values: seq<V>, k: Key): Option<V>
    requires cfg.Valid() && |t| == cfg.n
  {
    match Find(t[cfg.Slot(k)], k)
    case Some(i) => if i < |values| then Some(values[i]) else None
    case None => None
  }

  /** Looking up through the hash index is looking up in the map, for any hash function and bucket count. */
  lemma {:induction false} LookupIsMapLookup<V>(cfg: Config, ps: seq<(Key, V)>, k: Key)
    requires cfg.Valid()
    ensures var d := PutAll(ps);
            Lookup(cfg, Rebuild(cfg, d.keys), d.values, k)
            == if k in MapAll(ps) then Some(MapAll(ps)[k]) else None
  {
    var d := PutAll(ps);
    PutAllIsMap(ps);
    FindIsIndexOf(cfg, d.keys, k);
    AsMapLookup(d, k);
  }
}

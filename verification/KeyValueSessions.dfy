/** One life of the wrapper that keeps its buckets in volatile memory. A put appends the new key's bucket entry
    after its transaction has committed; if that append throws, the key is stored but not indexed. */
module KeyValueSessions {
  import opened KeyValueIndex
  import opened Options

  /** A put whose transaction commits; `indexed` if the bucket append behind it succeeds. */
  datatype Call<V> = Call(k: Key, v: V, indexed: bool)

  /** The stored vectors and the volatile buckets. */
  datatype View<V> = View(data: Data<V>, table: seq<Bucket>)

  function PutThrough<V>(cfg: Config, w: View<V>, c: Call<V>): (r: View<V>)
    requires cfg.Valid() && |w.table| == cfg.n
    ensures |r.table| == cfg.n
  {
    var d := w.data;
    match Find(w.table[cfg.Slot(c.k)], c.k)
    case Some(i) => if i < |d.values| then w.(data := d.(values := d.values[i := c.v])) else w
    case None =>
      View(Data(d.keys + [c.k], d.values + [c.v]),
           if c.indexed then AddEntry(cfg, w.table, c.k, |d.values|) else w.table)
  }

  /** The wrapper opened on `d`, after the calls. */
  function Session<V>(cfg: Config, d: Data<V>, calls: seq<Call<V>>): (w: View<V>)
    requires cfg.Valid()
    ensures |w.table| == cfg.n
  {
    if calls == [] then View(d, Rebuild(cfg, d.keys))
    else PutThrough(cfg, Session(cfg, d, calls[..|calls| - 1]), calls[|calls| - 1])
  }

  // ---------- What the running wrapper answers ----------

  /** The map that callers of `get` see: a put without a bucket entry is not seen. */
  function Seen<V>(m: map<Key, V>, calls: seq<Call<V>>): map<Key, V> {
    if calls == [] then m
    else
      var before, c := Seen(m, calls[..|calls| - 1]), calls[|calls| - 1];
      if c.indexed || c.k in before then before[c.k := c.v] else before
  }

  /** All puts, seen or not. */
  function PutsOn<V>(m: map<Key, V>, calls: seq<Call<V>>): map<Key, V> {
    if calls == [] then m else PutsOn(m, calls[..|calls| - 1])[calls[|calls| - 1].k := calls[|calls| - 1].v]
  }

  /** The table's entry for `k` leads to a slot of `k` that holds the value seen. */
  ghost predicate EntryOk<V>(cfg: Config, w: View<V>, seen: map<Key, V>, k: Key)
    requires cfg.Valid() && |w.table| == cfg.n
  {
    match Find(w.table[cfg.Slot(k)], k)
    case None => k !in seen
    case Some(i) =>
      && i < |w.data.keys| && w.data.keys[i] == k
      && i < |w.data.values| && k in seen && w.data.values[i] == seen[k]
  }

  lemma FindAfterAdd(cfg: Config, t: seq<Bucket>, x: Key, i: nat, k: Key)
    requires cfg.Valid() && |t| == cfg.n && Find(t[cfg.Slot(x)], x).None?
    ensures Find(AddEntry(cfg, t, x, i)[cfg.Slot(k)], k) == if k == x then Some(i) else Find(t[cfg.Slot(k)], k)
  {
    hide Find, Config.Slot;
    if cfg.Slot(k) == cfg.Slot(x) {
      FindSnoc(t[cfg.Slot(k)], Entry(x, i), k);
    }
  }

  lemma PutThroughSeen<V>(cfg: Config, w: View<V>, seen: map<Key, V>, c: Call<V>, k: Key)
    requires cfg.Valid() && |w.table| == cfg.n && |w.data.keys| == |w.data.values|
    requires EntryOk(cfg, w, seen, k) && EntryOk(cfg, w, seen, c.k)
    ensures var w' := PutThrough(cfg, w, c);
            && |w'.data.keys| == |w'.data.values|
            && EntryOk(cfg, w', if c.indexed || c.k in seen then seen[c.k := c.v] else seen, k)
  {
    hide Find, AddEntry, Config.Slot;
    if Find(w.table[cfg.Slot(c.k)], c.k).None? {
      FindAfterAdd(cfg, w.table, c.k, |w.data.values|, k);
    }
  }

  lemma {:induction false} SessionSeen<V>(cfg: Config, d: Data<V>, calls: seq<Call<V>>, k: Key)
    requires cfg.Valid() && DataOk(d)
    ensures var w := Session(cfg, d, calls);
            |w.data.keys| == |w.data.values| && EntryOk(cfg, w, Seen(AsMap(d), calls), k)
    decreases |calls|
  {
    if calls == [] {
      FindIsIndexOf(cfg, d.keys, k);
      AsMapLookup(d, k);
    } else {
      hide EntryOk, PutThrough, AsMap;
      var pre, c := calls[..|calls| - 1], calls[|calls| - 1];
      SessionSeen(cfg, d, pre, k);
      SessionSeen(cfg, d, pre, c.k);
      PutThroughSeen(cfg, Session(cfg, d, pre), Seen(AsMap(d), pre), c, k);
    }
  }

  /** Through any puts, with or without their entries, `get` answers from the map of the puts seen, and no
      position lies outside the vectors. */
  lemma SessionGetIsSeen<V>(cfg: Config, d: Data<V>, calls: seq<Call<V>>, k: Key)
    requires cfg.Valid() && DataOk(d)
    ensures var w, m := Session(cfg, d, calls), Seen(AsMap(d), calls);
            Lookup(cfg, w.table, w.data.values, k) == if k in m then Some(m[k]) else None
  {
    hide Session, Seen, AsMap;
    SessionSeen(cfg, d, calls, k);
  }

  // ---------- What is stored ----------

  /** The call at `i` is the first to put a key that the data did not hold. */
  ghost predicate FirstPut<V>(keys: seq<Key>, calls: seq<Call<V>>, i: nat) {
    && i < |calls| && calls[i].k !in keys
    && forall h :: 0 <= h < i ==> calls[h].k != calls[i].k
  }

  /** No key is put again after its first put lost its entry. */
  ghost predicate LostKeysRest<V>(keys: seq<Key>, calls: seq<Call<V>>) {
    forall i, j :: 0 <= i < j < |calls| && calls[i].k == calls[j].k && FirstPut(keys, calls, i) ==> calls[i].indexed
  }

  ghost predicate IsPut<V>(calls: seq<Call<V>>, k: Key) {
    exists i :: 0 <= i < |calls| && calls[i].k == k
  }

  lemma PutThroughKeys<V>(cfg: Config, w: View<V>, seen: map<Key, V>, c: Call<V>)
    requires cfg.Valid() && |w.table| == cfg.n && EntryOk(cfg, w, seen, c.k)
    ensures PutThrough(cfg, w, c).data.keys == w.data.keys + if c.k in seen then [] else [c.k]
    ensures c.k in seen ==> c.k in w.data.keys
  {
    hide Find, AddEntry, Config.Slot;
  }

  lemma OneMorePut<V>(calls: seq<Call<V>>, k: Key)
    requires calls != []
    ensures IsPut(calls, k) <==> IsPut(calls[..|calls| - 1], k) || calls[|calls| - 1].k == k
  {
    var m := |calls| - 1;
    if i :| 0 <= i < m && calls[i].k == k {
      assert calls[..m][i].k == k;
    }
  }

  lemma {:induction false} StoredKeys<V>(cfg: Config, d: Data<V>, calls: seq<Call<V>>, k: Key)
    requires cfg.Valid() && DataOk(d)
    ensures k in Session(cfg, d, calls).data.keys <==> k in d.keys || IsPut(calls, k)
    decreases |calls|
  {
    if calls != [] {
      hide PutThrough, EntryOk, Seen, AsMap, IsPut;
      var m := |calls| - 1;
      StoredKeys(cfg, d, calls[..m], k);
      SessionSeen(cfg, d, calls[..m], calls[m].k);
      PutThroughKeys(cfg, Session(cfg, d, calls[..m]), Seen(AsMap(d), calls[..m]), calls[m]);
      OneMorePut(calls, k);
    }
  }

  ghost predicate IsIndexed<V>(calls: seq<Call<V>>, k: Key) {
    exists i :: 0 <= i < |calls| && calls[i].k == k && calls[i].indexed
  }

  lemma {:induction false} SeenKeys<V>(d: Data<V>, calls: seq<Call<V>>, k: Key)
    requires DataOk(d)
    ensures k in Seen(AsMap(d), calls) <==> k in d.keys || IsIndexed(calls, k)
    decreases |calls|
  {
    if calls == [] {
      AsMapLookup(d, k);
    } else {
      hide AsMap;
      var m := |calls| - 1;
      SeenKeys(d, calls[..m], k);
      assert IsIndexed(calls, k) <==> IsIndexed(calls[..m], k) || (calls[m].k == k && calls[m].indexed);
    }
  }

  lemma {:induction false} FirstPutExists<V>(keys: seq<Key>, calls: seq<Call<V>>, k: Key, n: nat) returns (i: nat)
    requires n < |calls| && calls[n].k == k && k !in keys
    ensures i <= n && FirstPut(keys, calls, i) && calls[i].k == k
  {
    i := n;
    if h :| 0 <= h < n && calls[h].k == k {
      i := FirstPutExists(keys, calls, k, h);
    }
  }

  /** Under the condition so far, one more call breaks it exactly if its key is stored but has no entry. */
  lemma RestGrows<V>(keys: seq<Key>, calls: seq<Call<V>>)
    requires calls != [] && LostKeysRest(keys, calls[..|calls| - 1])
    ensures var pre, k := calls[..|calls| - 1], calls[|calls| - 1].k;
            LostKeysRest(keys, calls) <==> k in keys || IsIndexed(pre, k) || !IsPut(pre, k)
  {
    var m := |calls| - 1;
    var pre, k := calls[..m], calls[m].k;
    forall i | 0 <= i < m ensures FirstPut(keys, calls, i) == FirstPut(keys, pre, i) {
    }
    if k !in keys && IsPut(pre, k) {
      var n :| 0 <= n < m && calls[n].k == k;
      var i := FirstPutExists(keys, calls, k, n);
      if IsIndexed(pre, k) {
        var j :| 0 <= j < m && calls[j].k == k && calls[j].indexed;
        assert i < j ==> pre[i].k == pre[j].k;
      } else {
        assert !pre[i].indexed;
      }
    }
  }

  lemma RestShrinks<V>(keys: seq<Key>, calls: seq<Call<V>>)
    requires calls != [] && LostKeysRest(keys, calls)
    ensures LostKeysRest(keys, calls[..|calls| - 1])
  {
    var pre := calls[..|calls| - 1];
    forall i, j | 0 <= i < j < |pre| && pre[i].k == pre[j].k && FirstPut(keys, pre, i) ensures pre[i].indexed {
      assert FirstPut(keys, calls, i);
    }
  }

  /** A put found through the table, or of a key that is not stored, is a put into the data. */
  lemma PutThroughIsPutData<V>(cfg: Config, w: View<V>, seen: map<Key, V>, c: Call<V>)
    requires cfg.Valid() && |w.table| == cfg.n && DataOk(w.data) && EntryOk(cfg, w, seen, c.k)
    ensures c.k in seen || c.k !in w.data.keys ==> PutThrough(cfg, w, c).data == PutData(w.data, c.k, c.v)
  {
    hide Find, AddEntry, Config.Slot;
  }

  /** Keys only grow, so a duplicate stays. */
  lemma DuplicateStays<V>(cfg: Config, w: View<V>, c: Call<V>)
    requires cfg.Valid() && |w.table| == cfg.n && !NoDuplicates(w.data.keys)
    ensures !NoDuplicates(PutThrough(cfg, w, c).data.keys)
  {
    var w' := PutThrough(cfg, w, c);
    var i, j :| 0 <= i < j < |w.data.keys| && w.data.keys[i] == w.data.keys[j];
    assert w'.data.keys[i] == w'.data.keys[j];
  }

  /** The stored keys stay free of duplicates exactly if no key whose first put lost its entry is put again before
      the wrapper is reopened; the data then stands for all the puts. */
  lemma {:induction false} SessionIsExact<V>(cfg: Config, d: Data<V>, calls: seq<Call<V>>)
    requires cfg.Valid() && DataOk(d)
    ensures var e := Session(cfg, d, calls).data;
            && (DataOk(e) <==> LostKeysRest(d.keys, calls))
            && |e.keys| == |e.values|
            && (DataOk(e) ==> AsMap(e) == PutsOn(AsMap(d), calls))
    decreases |calls|
  {
    if calls != [] {
      hide PutThrough, AsMap, PutData, EntryOk, LostKeysRest, NoDuplicates, IsPut, IsIndexed;
      var pre, c := calls[..|calls| - 1], calls[|calls| - 1];
      var w := Session(cfg, d, pre);
      SessionIsExact(cfg, d, pre);
      SessionSeen(cfg, d, calls, c.k);
      if !LostKeysRest(d.keys, pre) {
        DuplicateStays(cfg, w, c);
        if LostKeysRest(d.keys, calls) {
          RestShrinks(d.keys, calls);
        }
      } else {
        RestGrows(d.keys, calls);
        SessionSeen(cfg, d, pre, c.k);
        SeenKeys(d, pre, c.k);
        StoredKeys(cfg, d, pre, c.k);
        PutThroughIsPutData(cfg, w, Seen(AsMap(d), pre), c);
        PutThroughKeys(cfg, w, Seen(AsMap(d), pre), c);
        PutIsMapUpdate(w.data, c.k, c.v);
        if !LostKeysRest(d.keys, calls) {
          AppendDuplicates(w.data.keys, c.k);
        }
      }
    }
  }

  lemma AppendDuplicates(keys: seq<Key>, k: Key)
    requires k in keys
    ensures !NoDuplicates(keys + [k])
  {
    var i :| 0 <= i < |keys| && keys[i] == k;
    assert (keys + [k])[i] == (keys + [k])[|keys|];
  }

  /** One more call: what it does to the data, to what is seen, and to a table that was complete. */
  lemma OneMoreCall<V>(cfg: Config, d: Data<V>, calls: seq<Call<V>>, c: Call<V>)
    requires cfg.Valid() && DataOk(d)
    ensures var w, w' := Session(cfg, d, calls), Session(cfg, d, calls + [c]);
            var seen := Seen(AsMap(d), calls);
            && w' == PutThrough(cfg, w, c)
            && Seen(AsMap(d), calls + [c]) == (if c.indexed || c.k in seen then seen[c.k := c.v] else seen)
            && |w.data.keys| == |w.data.values| && |w'.data.keys| == |w'.data.values|
            && (DataOk(w.data) <==> LostKeysRest(d.keys, calls))
            && (DataOk(w'.data) <==> LostKeysRest(d.keys, calls + [c]))
            && (DataOk(w'.data) ==> DataOk(w.data) && AsMap(w'.data) == AsMap(w.data)[c.k := c.v])
  {
    hide PutThrough, AsMap, LostKeysRest, NoDuplicates;
    assert (calls + [c])[..|calls|] == calls;
    SessionIsExact(cfg, d, calls);
    SessionIsExact(cfg, d, calls + [c]);
    if !DataOk(Session(cfg, d, calls).data) {
      DuplicateStays(cfg, Session(cfg, d, calls), c);
    }
  }

  lemma CompleteStays<V>(cfg: Config, w: View<V>, c: Call<V>)
    requires cfg.Valid() && DataOk(w.data) && w.table == Rebuild(cfg, w.data.keys)
    requires c.indexed || c.k in w.data.keys
    ensures var w' := PutThrough(cfg, w, c);
            && DataOk(w'.data) && w'.table == Rebuild(cfg, w'.data.keys) && w'.data == PutData(w.data, c.k, c.v)
  {
    hide Find;
    FindIsIndexOf(cfg, w.data.keys, c.k);
    assert (w.data.keys + [c.k])[..|w.data.keys|] == w.data.keys;
  }

  /** Under that condition reopening repairs the index: every `get` answers the last put of its key. */
  lemma ReopenSeesAllPuts<V>(cfg: Config, d: Data<V>, calls: seq<Call<V>>, k: Key)
    requires cfg.Valid() && DataOk(d) && LostKeysRest(d.keys, calls)
    ensures var e, m := Session(cfg, d, calls).data, PutsOn(AsMap(d), calls);
            Lookup(cfg, Rebuild(cfg, e.keys), e.values, k) == if k in m then Some(m[k]) else None
  {
    hide Session, PutsOn, LostKeysRest;
    SessionIsExact(cfg, d, calls);
    var e := Session(cfg, d, calls).data;
    FindIsIndexOf(cfg, e.keys, k);
    AsMapLookup(e, k);
  }

  /** Without it the key is stored twice, and reopening brings the older value back. */
  lemma LostKeyPutAgain(cfg: Config, k: Key)
    requires cfg.Valid()
    ensures var w := Session(cfg, Data([], []), [Call(k, 1, false), Call(k, 2, true)]);
            && w.data == Data([k, k], [1, 2])
            && Lookup(cfg, w.table, w.data.values, k) == Some(2)
            && Lookup(cfg, Rebuild(cfg, w.data.keys), w.data.values, k) == Some(1)
  {
    var calls := [Call(k, 1, false), Call(k, 2, true)];
    var d: Data<int> := Data([], []);
    assert calls[..1] == [Call(k, 1, false)] && calls[..1][..0] == [];
    assert Session(cfg, d, calls[..1]) == View(Data([k], [1]), Rebuild(cfg, []));
    FindAfterAdd(cfg, Rebuild(cfg, []), k, 1, k);
    FindAfterAdd(cfg, Rebuild(cfg, []), k, 0, k);
    assert [k, k][..1] == [k] && [k][..0] == [];
    assert Rebuild(cfg, [k]) == AddEntry(cfg, Rebuild(cfg, []), k, 0);
    FindSnoc(Rebuild(cfg, [k])[cfg.Slot(k)], Entry(k, 1), k);
  }
}

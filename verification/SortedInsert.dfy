/** Sequences kept in order by lower-bound insertion. */
module SortedInsert {

  /** An element; its operator< compares the keys only. */
  datatype Value = Value(key: int, tag: int)

  ghost predicate Sorted(s: seq<Value>) {
    forall i, j :: 0 <= i < j < |s| ==> s[i].key <= s[j].key
  }

  /** The first position whose element is not less than `x`. */
  function LowerBound(s: seq<Value>, x: Value): (p: nat)
    ensures p <= |s|
    ensures forall i :: 0 <= i < p ==> s[i].key < x.key
    ensures p < |s| ==> s[p].key >= x.key
  {
    if s == [] || s[0].key >= x.key then 0 else 1 + LowerBound(s[1..], x)
  }

  function Insert(s: seq<Value>, x: Value): (r: seq<Value>)
    ensures |r| == |s| + 1
  {
    var p := LowerBound(s, x);
    s[..p] + [x] + s[p..]
  }

  /** The outcome of inserting the elements one after the other into an empty sequence. */
  function InsertAll(xs: seq<Value>): (r: seq<Value>)
    ensures |r| == |xs|
  {
    if xs == [] then [] else Insert(InsertAll(xs[..|xs| - 1]), xs[|xs| - 1])
  }

  /** In a sorted sequence any boundary between smaller and not smaller elements is the lower bound. */
  lemma {:induction false} LowerBoundUnique(s: seq<Value>, x: Value, p: nat)
    requires p <= |s|
    requires forall i :: 0 <= i < p ==> s[i].key < x.key
    requires forall i :: p <= i < |s| ==> s[i].key >= x.key
    ensures p == LowerBound(s, x)
  {
    if p > 0 {
      LowerBoundUnique(s[1..], x, p - 1);
    }
  }

  lemma InsertAt(s: seq<Value>, x: Value, i: nat)
    requires i <= |s|
    ensures var p := LowerBound(s, x);
            Insert(s, x)[i] == if i < p then s[i] else if i == p then x else s[i - 1]
  {
  }

  /** A sequence put together from the two parts and the element is the insertion. */
  lemma InsertFromParts(s: seq<Value>, x: Value, r: seq<Value>)
    requires |r| == |s| + 1
    requires var p := LowerBound(s, x); r[..p] == s[..p] && r[p] == x && r[p + 1..] == s[p..]
    ensures r == Insert(s, x)
  {
    var p := LowerBound(s, x);
    assert r == r[..p] + [r[p]] + r[p + 1..];
  }

  lemma InsertAdds(s: seq<Value>, x: Value)
    ensures multiset(Insert(s, x)) == multiset(s) + multiset{x}
  {
    var p := LowerBound(s, x);
    assert s == s[..p] + s[p..];
  }

  lemma InsertKeepsSorted(s: seq<Value>, x: Value)
    requires Sorted(s)
    ensures Sorted(Insert(s, x)) && multiset(Insert(s, x)) == multiset(s) + multiset{x}
  {
    hide Insert, LowerBound;
    InsertAdds(s, x);
    var p, r := LowerBound(s, x), Insert(s, x);
    forall i, j | 0 <= i < j < |r| ensures r[i].key <= r[j].key {
      InsertAt(s, x, i);
      InsertAt(s, x, j);
    }
  }

  /** Inserting all elements yields them all, in order. */
  lemma {:induction false} InsertAllSorts(xs: seq<Value>)
    ensures Sorted(InsertAll(xs)) && multiset(InsertAll(xs)) == multiset(xs)
    decreases |xs|
  {
    if xs != [] {
      var k := |xs| - 1;
      assert xs == xs[..k] + [xs[k]];
      InsertAllSorts(xs[..k]);
      InsertKeepsSorted(InsertAll(xs[..k]), xs[k]);
    }
  }

  ghost predicate NewestFirst(s: seq<Value>) {
    forall i, j :: 0 <= i < j < |s| && s[i].key == s[j].key ==> s[i].tag > s[j].tag
  }

  lemma InsertKeepsNewestFirst(s: seq<Value>, x: Value)
    requires Sorted(s) && NewestFirst(s) && forall i :: 0 <= i < |s| ==> s[i].tag < x.tag
    ensures NewestFirst(Insert(s, x))
  {
    hide Insert, LowerBound;
    var p, r := LowerBound(s, x), Insert(s, x);
    forall i, j | 0 <= i < j < |r| && r[i].key == r[j].key ensures r[i].tag > r[j].tag {
      InsertAt(s, x, i);
      InsertAt(s, x, j);
    }
  }

  /** Tags number the insertions: among equal keys the sequence runs from the newest to the oldest. */
  lemma {:induction false} EqualKeysNewestFirst(xs: seq<Value>)
    requires forall i :: 0 <= i < |xs| ==> xs[i].tag == i
    ensures NewestFirst(InsertAll(xs))
    decreases |xs|
  {
    hide Insert, Sorted, NewestFirst;
    if xs == [] {
      EmptyIsNewestFirst();
    } else {
      var k := |xs| - 1;
      var s := InsertAll(xs[..k]);
      EqualKeysNewestFirst(xs[..k]);
      InsertAllSorts(xs[..k]);
      forall i | 0 <= i < |s| ensures s[i].tag < k {
        assert s[i] in multiset(xs[..k]);
      }
      InsertKeepsNewestFirst(s, xs[k]);
    }
  }

  lemma EmptyIsNewestFirst()
    ensures NewestFirst([])
  {
  }
}

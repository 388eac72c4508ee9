/** The versioned array's insert as it changes memory in place when it is not interrupted. */
module VersionedArray {
  import opened SortedInsert

  class Versioned {
    const slots: nat
    const v0: array<Value>
    const v1: array<Value>
    var size0: nat
    var size1: nat
    var current: nat

    ghost predicate Valid()
      reads this, v0, v1
    {
      && v0 != v1 && v0.Length == v1.Length == slots
      && size0 <= slots && size1 <= slots && current <= 1
      && Sorted(Contents())
    }

    /** The elements of the current version. */
    ghost function Contents(): seq<Value>
      reads this, v0, v1
      requires v0.Length == v1.Length == slots && size0 <= slots && size1 <= slots
    {
      if current == 0 then v0[..size0] else v1[..size1]
    }

    /** A zeroed pool. */
    constructor (n: nat)
      ensures Valid() && fresh(v0) && fresh(v1) && slots == n && current == 0 && Contents() == []
    {
      slots := n;
      v0 := new Value[n](_ => Value(0, 0));
      v1 := new Value[n](_ => Value(0, 0));
      size0, size1, current := 0, 0, 0;
    }

    /** The halving search of std::lower_bound. */
    static method Search(a: array<Value>, size: nat, x: Value) returns (first: nat)
      requires size <= a.Length && Sorted(a[..size])
      ensures first == LowerBound(a[..size], x)
    {
      first := 0;
      var count := size;
      while count > 0
        invariant first + count <= size
        invariant forall i :: 0 <= i < first ==> a[i].key < x.key
        invariant forall i :: first + count <= i < size ==> a[i].key >= x.key
      {
        var step := count / 2;
        var it := first + step;
        assert forall i :: 0 <= i < size ==> a[..size][i] == a[i];
        if a[it].key < x.key {
          first := it + 1;
          count := count - (step + 1);
        } else {
          count := step;
        }
      }
      LowerBoundUnique(a[..size], x, first);
    }

    /** std::copy of src[from .. to] to dst[at ..]. */
    static method CopyRange(src: array<Value>, from: nat, to: nat, dst: array<Value>, at: nat)
      requires src != dst && from <= to <= src.Length && at + (to - from) <= dst.Length
      modifies dst
      ensures dst[..at] == old(dst[..at]) && dst[at..at + (to - from)] == src[from..to]
    {
      var k := 0;
      while from + k < to
        invariant from + k <= to
        invariant dst[..at] == old(dst[..at]) && dst[at..at + k] == src[from..from + k]
      {
        dst[at + k] := src[from + k];
        k := k + 1;
      }
    }

    /** Fills the working array with the new sequence; the consistent array is only read. */
    static method FillWorking(consistent: array<Value>, size: nat, working: array<Value>, x: Value)
      requires consistent != working && consistent.Length == working.Length && size < consistent.Length
      requires Sorted(consistent[..size])
      modifies working
      ensures working[..size + 1] == SortedInsert.Insert(consistent[..size], x)
    {
      var pos := Search(consistent, size, x);
      hide Sorted, LowerBound, SortedInsert.Insert;
      CopyRange(consistent, 0, pos, working, 0);
      assert working[..pos] == consistent[..size][..pos];
      working[pos] := x;
      ghost var front := working[..pos + 1];
      CopyRange(consistent, pos, size, working, pos + 1);
      ghost var r := working[..size + 1];
      assert r[..pos] == front[..pos] && r[pos] == front[pos];
      assert r[pos + 1..] == working[pos + 1..pos + 1 + (size - pos)] == consistent[..size][pos..];
      InsertFromParts(consistent[..size], x, r);
    }

    /** Writes the other version, then selects it; the version that was current keeps its elements and size. */
    method Insert(x: Value)
      requires Valid() && |Contents()| < slots
      modifies this`size0, this`size1, this`current, v0, v1
      ensures Valid() && current == 1 - old(current)
      ensures Contents() == SortedInsert.Insert(old(Contents()), x)
      ensures if old(current) == 0 then v0[..] == old(v0[..]) && size0 == old(size0)
                                   else v1[..] == old(v1[..]) && size1 == old(size1)
    {
      hide Sorted, SortedInsert.Insert, LowerBound;
      InsertKeepsSorted(Contents(), x);
      if current == 0 {
        FillWorking(v0, size0, v1, x);
        size1 := size0 + 1;
      } else {
        FillWorking(v1, size1, v0, x);
        size0 := size1 + 1;
      }
      current := 1 - current;
    }
  }
}

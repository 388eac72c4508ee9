/** What a run of a persistent structure has made durable, and which of it its callers were told about. */
module History {

  /** How a transaction ends: by committing, or by an error after some of its operations, which rolls it back. */
  datatype TxOutcome = Commits | FailsAfter(done: nat)

  /** One durable effect, and whether the operation behind it has returned. */
  datatype Commit<T> = Commit(item: T, returned: bool)

  function Items<T>(cs: seq<Commit<T>>): seq<T> {
    if cs == [] then [] else Items(cs[..|cs| - 1]) + [cs[|cs| - 1].item]
  }

  /** The items whose operation returned, in commit order. */
  function Returned<T>(cs: seq<Commit<T>>): seq<T> {
    if cs == [] then []
    else
      var last := cs[|cs| - 1];
      Returned(cs[..|cs| - 1]) + if last.returned then [last.item] else []
  }

  function Unreturned<T>(cs: seq<Commit<T>>): nat {
    if cs == [] then 0 else Unreturned(cs[..|cs| - 1]) + if cs[|cs| - 1].returned then 0 else 1
  }

  function Record<T>(cs: seq<Commit<T>>, x: T): seq<Commit<T>> {
    cs + [Commit(x, false)]
  }

  function MarkLast<T>(cs: seq<Commit<T>>): seq<Commit<T>>
    requires cs != []
  {
    cs[|cs| - 1 := cs[|cs| - 1].(returned := true)]
  }

  lemma RecordAdds<T>(cs: seq<Commit<T>>, x: T)
    ensures Items(Record(cs, x)) == Items(cs) + [x]
    ensures Returned(Record(cs, x)) == Returned(cs)
    ensures Unreturned(Record(cs, x)) == Unreturned(cs) + 1
  {
    assert Record(cs, x)[..|cs|] == cs;
  }

  lemma {:induction false} MarkLastItems<T>(cs: seq<Commit<T>>)
    requires cs != []
    ensures Items(MarkLast(cs)) == Items(cs)
  {
    assert MarkLast(cs)[..|cs| - 1] == cs[..|cs| - 1];
  }

  lemma {:induction false} MarkLastReturns<T>(cs: seq<Commit<T>>)
    requires cs != [] && !cs[|cs| - 1].returned
    ensures Items(MarkLast(cs)) == Items(cs)
    ensures Returned(MarkLast(cs)) == Returned(cs) + [cs[|cs| - 1].item]
    ensures Unreturned(MarkLast(cs)) == Unreturned(cs) - 1
  {
    assert MarkLast(cs)[..|cs| - 1] == cs[..|cs| - 1];
  }

  lemma {:induction false} CommitsSplit<T>(cs: seq<Commit<T>>)
    ensures |Items(cs)| == |cs| == |Returned(cs)| + Unreturned(cs)
    decreases |cs|
  {
    if cs != [] {
      CommitsSplit(cs[..|cs| - 1]);
    }
  }

  /** How often an event occurs, one event more. */
  lemma CountLast<E>(es: seq<E>, x: E)
    requires es != []
    ensures multiset(es)[x] == multiset(es[..|es| - 1])[x] + if es[|es| - 1] == x then 1 else 0
  {
    assert es == es[..|es| - 1] + [es[|es| - 1]];
  }
}

/** Persistent heap of singly linked nodes, shared by the burst buffer and the persistent queue. */
module LinkedHeap {

  /** A persistent pointer; 0 is the null pointer. */
  type Addr = nat

  const NULL: Addr := 0

  datatype Node<P> = Node(next: Addr, payload: P)

  type Heap<P> = map<Addr, Node<P>>

  /** The i-th node of a list, or null past its end. */
  function At(ns: seq<Addr>, i: nat): Addr {
    if i < |ns| then ns[i] else NULL
  }

  /** The i-th node is allocated and points to the one after it, or to null if it is the last. */
  ghost predicate Link<P>(h: Heap<P>, ns: seq<Addr>, i: nat)
    requires i < |ns|
  {
    ns[i] != NULL && ns[i] in h && h[ns[i]].next == At(ns, i + 1)
  }

  /** `ns` are the nodes met from `p` up to the null pointer, all of them allocated. */
  ghost predicate IsList<P>(h: Heap<P>, p: Addr, ns: seq<Addr>) {
    && p == At(ns, 0)
    && forall i :: 0 <= i < |ns| ==> Link(h, ns, i)
  }

  ghost predicate Distinct(ns: seq<Addr>) {
    forall i, j :: 0 <= i < j < |ns| ==> ns[i] != ns[j]
  }

  ghost predicate Disjoint(ms: seq<Addr>, ns: seq<Addr>) {
    forall i, j :: 0 <= i < |ms| && 0 <= j < |ns| ==> ms[i] != ns[j]
  }

  predicate Allocated<P>(h: Heap<P>, ns: seq<Addr>) {
    forall i :: 0 <= i < |ns| ==> ns[i] in h
  }

  /** The payloads along a list. */
  function Payloads<P>(h: Heap<P>, ns: seq<Addr>): (ps: seq<P>)
    ensures Allocated(h, ns) ==> |ps| == |ns| && forall i :: 0 <= i < |ns| ==> ps[i] == h[ns[i]].payload
  {
    if ns == [] then []
    else (if ns[0] in h then [h[ns[0]].payload] else []) + Payloads(h, ns[1..])
  }

  /** Payloads depend only on the payload fields of the listed nodes. */
  lemma PayloadsFrame<P>(h: Heap<P>, h': Heap<P>, ns: seq<Addr>)
    requires Allocated(h, ns) && Allocated(h', ns)
    requires forall i :: 0 <= i < |ns| ==> h'[ns[i]].payload == h[ns[i]].payload
    ensures Payloads(h', ns) == Payloads(h, ns)
  {
  }

  lemma PayloadsSnoc<P>(h: Heap<P>, ns: seq<Addr>, a: Addr)
    requires Allocated(h, ns) && a in h
    ensures Payloads(h, ns + [a]) == Payloads(h, ns) + [h[a].payload]
  {
    assert Allocated(h, ns + [a]);
  }

  /** A pointer starts at most one null-terminated list. */
  lemma ListUnique<P>(h: Heap<P>, p: Addr, ms: seq<Addr>, ns: seq<Addr>)
    requires IsList(h, p, ms) && IsList(h, p, ns)
    ensures ms == ns
  {
    var k := 0;
    while k < |ms| && k < |ns|
      invariant k <= |ms| && k <= |ns|
      invariant ms[..k] == ns[..k]
      invariant At(ms, k) == At(ns, k)
    {
      assert Link(h, ms, k) && Link(h, ns, k);
      k := k + 1;
    }
    assert k < |ms| ==> Link(h, ms, k);
    assert k < |ns| ==> Link(h, ns, k);
  }

  /** A null-terminated list never meets a node twice. */
  lemma ListAcyclic<P>(h: Heap<P>, p: Addr, ns: seq<Addr>)
    requires IsList(h, p, ns)
    ensures Distinct(ns)
  {
    forall i, j | 0 <= i < j < |ns| ensures ns[i] != ns[j] {
      if ns[i] == ns[j] {
        Suffix(h, p, ns, i);
        Suffix(h, p, ns, j);
        ListUnique(h, ns[i], ns[i..], ns[j..]);
      }
    }
  }

  lemma Suffix<P>(h: Heap<P>, p: Addr, ns: seq<Addr>, k: nat)
    requires IsList(h, p, ns) && k <= |ns|
    ensures IsList(h, At(ns, k), ns[k..])
  {
    var t := ns[k..];
    forall i | 0 <= i < |t| ensures Link(h, t, i) {
      assert Link(h, ns, k + i);
    }
  }
}

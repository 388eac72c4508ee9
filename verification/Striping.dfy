/** The striped block access of the block and object benchmarks: (stripe, thread, slot) to block number. */
module Striping {

  /** The command line parameters, positive 64-bit numbers except that `total` may be 0. */
  datatype Params = Params(total: nat, stripe: nat, block: nat, nthreads: nat) {
    predicate Positive() {
      stripe > 0 && block > 0 && nthreads > 0
    }

    /** The argument check. */
    predicate Accepted()
      requires Positive()
    {
      && total % stripe == 0 && total % block == 0 && stripe % block == 0 && stripe % nthreads == 0
      && stripe / nthreads >= block
    }

    function StripeCount(): nat requires Positive() { total / stripe }

    function StripUnit(): nat requires Positive() { stripe / nthreads }

    function BlocksInStripUnit(): nat requires Positive() { StripUnit() / block }

    function BlocksInStripe(): nat requires Positive() { stripe / block }

    /** The block that thread `i` touches in slot `j` of a stripe. */
    function BlockOfs(access: seq<nat>, stripe_: nat, i: nat, j: nat): nat
      requires Positive() && j < |access|
    {
      access[j] + (stripe_ * BlocksInStripe() + i * BlocksInStripUnit())
    }
  }

  // ---------- Permutations ----------

  function Iota(m: nat): seq<nat> {
    seq(m, i => i)
  }

  /** What a shuffle of 0, 1, ..., m - 1 can yield. */
  ghost predicate Shuffled(access: seq<nat>, m: nat) {
    multiset(access) == multiset(Iota(m))
  }

  lemma {:induction false} IotaCounts(m: nat, v: nat)
    ensures multiset(Iota(m))[v] == if v < m then 1 else 0
    decreases m
  {
    if m > 0 {
      assert Iota(m) == Iota(m - 1) + [m - 1];
      IotaCounts(m - 1, v);
    }
  }

  lemma ShuffledHits(access: seq<nat>, m: nat, v: nat)
    requires Shuffled(access, m)
    ensures v in access <==> v < m
  {
    IotaCounts(m, v);
    assert v in access <==> v in multiset(access);
  }

  lemma ShuffledDistinct(access: seq<nat>, m: nat, i: nat, j: nat)
    requires Shuffled(access, m) && i < j < |access|
    ensures access[i] != access[j]
  {
    assert access == access[..j] + access[j..];
    assert access[j] == access[j..][0] && access[i] == access[..j][i];
    assert access[i] in multiset(access[..j]) && access[j] in multiset(access[j..]);
    IotaCounts(m, access[j]);
  }

  lemma ShuffledLength(access: seq<nat>, m: nat)
    requires Shuffled(access, m)
    ensures |access| == m
  {
    assert |multiset(access)| == |access|;
    assert |multiset(Iota(m))| == m;
  }

  // ---------- Arithmetic ----------

  lemma DivExact(a: nat, b: nat)
    requires b > 0 && a % b == 0
    ensures a == (a / b) * b
  {
  }

  lemma {:induction false} MulStep(y: nat, q: nat, r: nat)
    requires y < q
    ensures y * r + r <= q * r
  {
    assert y * r + r == (y + 1) * r;
    var d := q - (y + 1);
    assert q * r == (y + 1) * r + d * r;
  }

  lemma MulMonotone(a: nat, b: nat, c: nat)
    requires a <= b
    ensures a * c <= b * c
  {
    if a < b {
      MulStep(a, b, c);
    }
  }

  /** Positions in a mixed radix with digits x < r and y: equal values have equal digits. */
  lemma {:induction false} DigitsUnique(x: nat, y: nat, x': nat, y': nat, r: nat)
    requires x < r && x' < r && x + y * r == x' + y' * r
    ensures x == x' && y == y'
  {
    if y < y' {
      MulStep(y, y', r);
    } else if y' < y {
      MulStep(y', y, r);
    }
  }

  lemma {:induction false} DigitsBound(x: nat, y: nat, r: nat, q: nat)
    requires x < r && y < q
    ensures x + y * r < q * r
  {
    MulStep(y, q, r);
  }

  lemma {:induction false} DivOfProduct(q: nat, b: nat)
    requires b > 0
    ensures (q * b) / b == q && (q * b) % b == 0
  {
    var x := q * b;
    DigitsUnique(x % b, x / b, 0, q, b);
  }

  /** The blocks of a strip unit, of a stripe and of the whole area. */
  lemma Sizes(p: Params)
    requires p.Positive() && p.Accepted()
    ensures p.BlocksInStripUnit() > 0
    ensures p.total / p.block == p.StripeCount() * p.BlocksInStripe()
    ensures p.nthreads * p.BlocksInStripUnit() <= p.BlocksInStripe()
    ensures p.nthreads * p.BlocksInStripUnit() == p.BlocksInStripe() <==> p.StripUnit() % p.block == 0
  {
    var u, b, n := p.BlocksInStripUnit(), p.block, p.nthreads;
    var q, rest := p.BlocksInStripe(), p.StripUnit() % p.block;
    DivExact(p.total, p.stripe);
    DivExact(p.stripe, b);
    DivExact(p.stripe, n);
    assert p.StripUnit() == u * b + rest;
    assert p.total == (p.StripeCount() * q) * b by {
      assert p.StripeCount() * (q * b) == (p.StripeCount() * q) * b;
    }
    DivOfProduct(p.StripeCount() * q, b);
    UnitsInStripe(q, b, n, u, rest);
  }

  /** A thread's strip unit is its share of the stripe, and its blocks are as many as fit into it. */
  lemma UnitSizes(p: Params)
    requires p.Positive() && p.Accepted()
    ensures p.nthreads * p.StripUnit() == p.stripe == p.BlocksInStripe() * p.block && p.StripUnit() >= p.block
    ensures p.BlocksInStripUnit() * p.block <= p.StripUnit() < (p.BlocksInStripUnit() + 1) * p.block
    ensures p.StripeCount() * p.stripe == p.total
  {
    DivExact(p.stripe, p.nthreads);
    DivExact(p.stripe, p.block);
    DivExact(p.total, p.stripe);
    assert (p.BlocksInStripUnit() + 1) * p.block == p.BlocksInStripUnit() * p.block + p.block;
  }

  /** The argument check accepts all parameters whose total is whole stripes and whose stripe is whole blocks and divides
      evenly among the threads, each getting at least one block. */
  lemma DividesIsAccepted(p: Params, c: nat, q: nat, w: nat)
    requires p.stripe > 0 && p.block > 0 && p.nthreads > 0
    requires p.total == c * p.stripe && p.stripe == q * p.block && p.stripe == w * p.nthreads && w >= p.block
    ensures p.Positive() && p.Accepted()
  {
    DivOfProduct(c, p.stripe);
    DivOfProduct(q, p.block);
    DivOfProduct(w, p.nthreads);
    assert c * (q * p.block) == (c * q) * p.block;
    DivOfProduct(c * q, p.block);
  }

  lemma UnitsInStripe(q: nat, b: nat, n: nat, u: nat, rest: nat)
    requires b > 0 && n > 0 && q * b == (u * b + rest) * n
    ensures n * u <= q && (n * u == q <==> rest == 0)
  {
    assert (u * b + rest) * n == (n * u) * b + rest * n;
    if n * u > q {
      MulStep(q, n * u, b);
    }
    if rest == 0 {
      assert (n * u) * b == q * b;
      DivOfProduct(n * u, b);
      DivOfProduct(q, b);
    } else {
      assert rest * n > 0;
    }
  }

  // ---------- Theorems ----------

  /** A (stripe, thread, slot) triple of the loops. */
  predicate Visited(p: Params, access: seq<nat>, s: nat, i: nat, j: nat)
    requires p.Positive()
  {
    s < p.StripeCount() && i < p.nthreads && j < p.BlocksInStripUnit() && |access| == p.BlocksInStripUnit()
  }

  /** The position within its stripe. */
  lemma {:induction false} WithinStripe(p: Params, access: seq<nat>, s: nat, i: nat, j: nat)
    requires p.Positive() && p.Accepted() && Shuffled(access, p.BlocksInStripUnit()) && Visited(p, access, s, i, j)
    ensures access[j] < p.BlocksInStripUnit()
    ensures access[j] + i * p.BlocksInStripUnit() < p.nthreads * p.BlocksInStripUnit() <= p.BlocksInStripe()
  {
    ShuffledHits(access, p.BlocksInStripUnit(), access[j]);
    DigitsBound(access[j], i, p.BlocksInStripUnit(), p.nthreads);
    Sizes(p);
  }

  /** Every touched block exists, and no intermediate value of its computation exceeds the block count, so
      64-bit arithmetic never wraps. */
  lemma {:induction false} InBounds(p: Params, access: seq<nat>, s: nat, i: nat, j: nat)
    requires p.Positive() && p.Accepted() && Shuffled(access, p.BlocksInStripUnit()) && Visited(p, access, s, i, j)
    ensures p.BlockOfs(access, s, i, j) < p.total / p.block <= p.total
    ensures s * p.BlocksInStripe() + i * p.BlocksInStripUnit() <= p.BlockOfs(access, s, i, j)
  {
    hide Params.BlocksInStripe, Params.BlocksInStripUnit, Params.StripUnit, Params.StripeCount;
    WithinStripe(p, access, s, i, j);
    Sizes(p);
    StripeBound(access[j], i * p.BlocksInStripUnit(), s, p.BlocksInStripe(), p.StripeCount());
    QuotientAtMost(p.total, p.block);
  }

  lemma {:induction false} StripeBound(x: nat, y: nat, s: nat, q: nat, c: nat)
    requires x + y < q && s < c
    ensures x + (s * q + y) < c * q
  {
    DigitsBound(x + y, s, q, c);
  }

  lemma {:induction false} QuotientAtMost(a: nat, b: nat)
    requires b > 0
    ensures a / b <= a
  {
    MulMonotone(1, b, a / b);
  }

  lemma {:induction false} SameDigits(v: nat, i: nat, s: nat, v': nat, i': nat, s': nat, u: nat, q: nat)
    requires v < u && v' < u && v + i * u < q && v' + i' * u < q
    requires v + (s * q + i * u) == v' + (s' * q + i' * u)
    ensures v == v' && i == i' && s == s'
  {
    DigitsUnique(v + i * u, s, v' + i' * u, s', q);
    DigitsUnique(v, i, v', i', u);
  }

  /** No two triples touch the same block. */
  lemma {:induction false} NoBlockTwice(p: Params, access: seq<nat>, s: nat, i: nat, j: nat, s': nat, i': nat, j': nat)
    requires p.Positive() && p.Accepted() && Shuffled(access, p.BlocksInStripUnit())
    requires Visited(p, access, s, i, j) && Visited(p, access, s', i', j')
    requires p.BlockOfs(access, s, i, j) == p.BlockOfs(access, s', i', j')
    ensures s == s' && i == i' && j == j'
  {
    hide Params.BlocksInStripe, Params.BlocksInStripUnit, Params.StripUnit, Params.StripeCount, Shuffled;
    WithinStripe(p, access, s, i, j);
    WithinStripe(p, access, s', i', j');
    var u := p.BlocksInStripUnit();
    SameDigits(access[j], i, s, access[j'], i', s', u, p.BlocksInStripe());
    if j < j' {
      ShuffledDistinct(access, u, j, j');
    } else if j' < j {
      ShuffledDistinct(access, u, j', j);
    }
  }

  ghost predicate Touched(p: Params, access: seq<nat>, x: nat)
    requires p.Positive()
  {
    exists s: nat, i: nat, j: nat :: Visited(p, access, s, i, j) && p.BlockOfs(access, s, i, j) == x
  }

  /** A position in a stripe whose strip units are whole numbers of blocks belongs to one thread and slot. */
  lemma BlockIsTouched(p: Params, access: seq<nat>, x: nat)
    requires p.Positive() && p.Accepted() && Shuffled(access, p.BlocksInStripUnit())
    requires p.StripUnit() % p.block == 0 && x < p.total / p.block
    ensures Touched(p, access, x)
  {
    hide Params.BlocksInStripe, Params.BlocksInStripUnit, Params.StripUnit, Params.StripeCount, Shuffled;
    Sizes(p);
    var u, q := p.BlocksInStripUnit(), p.BlocksInStripe();
    ShuffledLength(access, u);
    var s, y := Split(x, q, p.StripeCount());
    var i, v := Split(y, u, p.nthreads);
    ShuffledHits(access, u, v);
    var j :| 0 <= j < |access| && access[j] == v;
    assert Visited(p, access, s, i, j) && p.BlockOfs(access, s, i, j) == x;
  }

  /** The digits of a number below c * r. */
  lemma Split(x: nat, r: nat, c: nat) returns (hi: nat, lo: nat)
    requires x < c * r
    ensures hi < c && lo < r && x == lo + hi * r
  {
    assert r > 0;
    hi, lo := x / r, x % r;
    if hi >= c {
      MulMonotone(c, hi, r);
    }
  }

  /** The block after the last strip unit of the first stripe is never touched if strip units leave a rest. */
  lemma {:induction false} RestIsUntouched(p: Params, access: seq<nat>)
    requires p.Positive() && p.Accepted() && Shuffled(access, p.BlocksInStripUnit()) && p.total > 0
    requires p.StripUnit() % p.block != 0
    ensures p.nthreads * p.BlocksInStripUnit() < p.total / p.block
    ensures !Touched(p, access, p.nthreads * p.BlocksInStripUnit())
  {
    Sizes(p);
    DivExact(p.total, p.stripe);
    MulMonotone(1, p.StripeCount(), p.BlocksInStripe());
    forall s: nat, i: nat, j: nat | Visited(p, access, s, i, j)
      ensures p.BlockOfs(access, s, i, j) != p.nthreads * p.BlocksInStripUnit()
    {
      NotTheRest(p, access, s, i, j);
    }
  }

  lemma {:induction false} NotTheRest(p: Params, access: seq<nat>, s: nat, i: nat, j: nat)
    requires p.Positive() && p.Accepted() && Shuffled(access, p.BlocksInStripUnit()) && Visited(p, access, s, i, j)
    ensures p.StripUnit() % p.block != 0 ==> p.BlockOfs(access, s, i, j) != p.nthreads * p.BlocksInStripUnit()
  {
    hide Params.BlocksInStripe, Params.BlocksInStripUnit, Params.StripUnit, Params.StripeCount, Shuffled;
    WithinStripe(p, access, s, i, j);
    Sizes(p);
    if p.StripUnit() % p.block != 0 {
      OtherPosition(access[j], i * p.BlocksInStripUnit(), p.nthreads * p.BlocksInStripUnit(), s, p.BlocksInStripe());
    }
  }

  lemma OtherPosition(v: nat, w: nat, x: nat, s: nat, q: nat)
    requires v + w < x < q
    ensures v + (s * q + w) != x
  {
    if s > 0 {
      MulMonotone(1, s, q);
    }
  }

  /** The benchmark touches every block exactly when a strip unit is a whole number of blocks. */
  lemma {:induction false} CoversAllIff(p: Params, access: seq<nat>)
    requires p.Positive() && p.Accepted() && Shuffled(access, p.BlocksInStripUnit()) && p.total > 0
    ensures (forall x :: 0 <= x < p.total / p.block ==> Touched(p, access, x)) <==> p.StripUnit() % p.block == 0
  {
    if p.StripUnit() % p.block == 0 {
      forall x | 0 <= x < p.total / p.block ensures Touched(p, access, x) {
        BlockIsTouched(p, access, x);
      }
    } else {
      RestIsUntouched(p, access);
    }
  }

  /** The argument check lets parameters through for which it does not: stripe 12, 2 threads, blocks of 4. */
  lemma CoverageCanFail()
    ensures var p := Params(12, 12, 4, 2);
            p.Positive() && p.Accepted() && p.StripUnit() % p.block != 0 && !Touched(p, [0], 2)
  {
    var p := Params(12, 12, 4, 2);
    assert Iota(1) == [0];
    RestIsUntouched(p, [0]);
  }

  // ---------- One worker's loops ----------

  /** The blocks thread `i` touches in its first `k` accesses. */
  function Trace(p: Params, access: seq<nat>, i: nat, k: nat): (r: seq<nat>)
    requires p.Positive() && |access| == p.BlocksInStripUnit() > 0
    ensures |r| == k
  {
    seq(k, x requires 0 <= x => p.BlockOfs(access, x / |access|, i, x % |access|))
  }

  lemma {:induction false} TraceNext(p: Params, access: seq<nat>, i: nat, s: nat, j: nat)
    requires p.Positive() && |access| == p.BlocksInStripUnit() && j < |access|
    ensures Trace(p, access, i, s * |access| + j + 1)
         == Trace(p, access, i, s * |access| + j) + [p.BlockOfs(access, s, i, j)]
  {
    var x := s * |access| + j;
    DigitsUnique(x % |access|, x / |access|, j, s, |access|);
    assert Trace(p, access, i, x + 1)[..x] == Trace(p, access, i, x);
  }

  /** The access at position `j` of a stripe's round goes to the slot `access[j]` of the thread's own strip unit. */
  lemma {:induction false} TraceAt(p: Params, access: seq<nat>, i: nat, k: nat, s: nat, j: nat)
    requires p.Positive() && |access| == p.BlocksInStripUnit() && j < |access| && s * |access| + j < k
    ensures Trace(p, access, i, k)[s * |access| + j]
         == s * (p.stripe / p.block) + i * (p.stripe / p.nthreads / p.block) + access[j]
  {
    var x := s * |access| + j;
    DigitsUnique(x % |access|, x / |access|, j, s, |access|);
  }

  /** A stripe is begun only if no flag was seen before it. */
  lemma StripesBegun(a: nat, stripe: nat, k: nat, count: nat, flag: nat -> bool)
    requires k <= (stripe + 1) * a && forall r :: 0 <= r < stripe ==> !flag(r)
    ensures forall s :: 0 <= s < count && flag(s) ==> k <= (s + 1) * a
  {
    forall s | 0 <= s < count && flag(s) ensures k <= (s + 1) * a {
      MulMonotone(stripe + 1, s + 1, a);
    }
  }

  lemma FirstFlagged(a: nat, stripe: nat, count: nat, flag: nat -> bool)
    requires flag(stripe) && forall r :: 0 <= r < stripe ==> !flag(r)
    ensures forall s :: 0 <= s < count && flag(s) && (forall r :: 0 <= r < s ==> !flag(r)) ==>
                          (stripe + 1) * a == (s + 1) * a
  {
    forall s | 0 <= s < count && flag(s) && (forall r :: 0 <= r < s ==> !flag(r)) ensures s == stripe {
    }
  }

  /** Stripe by stripe, slot by slot, until an access fails (`io`) or the shared failure flag is seen set after
      a stripe (`flag`). */
  method Worker(p: Params, access: seq<nat>, i: nat, io: nat -> bool, flag: nat -> bool)
    returns (touched: seq<nat>, failed: bool)
    requires p.Positive() && |access| == p.BlocksInStripUnit() > 0
    ensures touched == Trace(p, access, i, |touched|) && |touched| <= p.StripeCount() * |access|
    ensures forall x :: 0 <= x < |touched| - 1 ==> io(touched[x])
    ensures failed ==> touched != [] && !io(touched[|touched| - 1])
    ensures !failed ==> forall x :: 0 <= x < |touched| ==> io(touched[x])
    ensures !failed && (forall s :: 0 <= s < p.StripeCount() ==> !flag(s)) ==> |touched| == p.StripeCount() * |access|
    ensures !failed ==> forall s :: 0 <= s < p.StripeCount() && flag(s) && (forall r :: 0 <= r < s ==> !flag(r)) ==>
                                      |touched| == (s + 1) * |access|
    ensures forall s :: 0 <= s < p.StripeCount() && flag(s) ==> |touched| <= (s + 1) * |access|
    ensures |touched| < p.StripeCount() * |access| ==> failed || exists s :: 0 <= s < p.StripeCount() && flag(s)
  {
    hide Trace, Params.StripeCount, Params.BlocksInStripe, Params.BlocksInStripUnit, Params.StripUnit;
    touched, failed := [], false;
    StartOfTrace(p, access, i);
    var stripe := 0;
    while stripe < p.StripeCount()
      invariant stripe <= p.StripeCount() && !failed
      invariant |touched| == stripe * |access| && touched == Trace(p, access, i, |touched|)
      invariant forall x :: 0 <= x < |touched| ==> io(touched[x])
      invariant forall r :: 0 <= r < stripe ==> !flag(r)
    {
      var stripOfs := stripe * p.BlocksInStripe() + i * p.BlocksInStripUnit();
      MulMonotone(stripe + 1, p.StripeCount(), |access|);
      var j := 0;
      while j < p.BlocksInStripUnit()
        invariant j <= |access| && !failed
        invariant |touched| == stripe * |access| + j && touched == Trace(p, access, i, |touched|)
        invariant forall x :: 0 <= x < |touched| ==> io(touched[x])
      {
        TraceNext(p, access, i, stripe, j);
        var blockOfs := access[j] + stripOfs;
        touched := touched + [blockOfs];
        if !io(blockOfs) {
          StripesBegun(|access|, stripe, |touched|, p.StripeCount(), flag);
          return touched, true;
        }
        j := j + 1;
      }
      if flag(stripe) {
        StripesBegun(|access|, stripe, |touched|, p.StripeCount(), flag);
        FirstFlagged(|access|, stripe, p.StripeCount(), flag);
        return;
      }
      stripe := stripe + 1;
    }
  }

  lemma StartOfTrace(p: Params, access: seq<nat>, i: nat)
    requires p.Positive() && |access| == p.BlocksInStripUnit() > 0
    ensures Trace(p, access, i, 0) == []
  {
  }
}

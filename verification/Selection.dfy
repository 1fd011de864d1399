/** Weighted least-connections selection of src/backend_set.cpp: the cross-multiplying scan,
    and the share of picks it gives each backend. */
module Selection {
  import opened Counting

  const WORD: nat := 0x1_0000_0000_0000_0000
  const HALF: nat := 0x1_0000_0000

  /** Multiplication of 64-bit unsigned words. */
  function Mul64(a: nat, b: nat): nat {
    a * b % WORD
  }

  predicate WellFormed(loads: seq<nat>, weights: seq<nat>) {
    0 < |loads| == |weights| && forall i :: 0 <= i < |weights| ==> weights[i] > 0
  }

  predicate Fits64(a: nat, b: nat) { a * b < WORD }

  /** No product of a load and a weight leaves 64 bits. */
  ghost predicate NoWrap(loads: seq<nat>, weights: seq<nat>) {
    forall i, j :: 0 <= i < |loads| && 0 <= j < |weights| ==> Fits64(loads[i], weights[j])
  }

  predicate Within(loads: seq<nat>, weights: seq<nat>, maxLoad: nat, maxWeight: nat) {
    && (forall i :: 0 <= i < |loads| ==> loads[i] <= maxLoad)
    && (forall i :: 0 <= i < |weights| ==> weights[i] <= maxWeight)
  }

  /** Backend `i` carries no more load per unit of weight than backend `j`. */
  predicate NoHeavier(loads: seq<nat>, weights: seq<nat>, i: nat, j: nat)
    requires |loads| == |weights| && i < |loads| && j < |loads|
  {
    loads[i] * weights[j] <= loads[j] * weights[i]
  }

  ghost predicate Minimal(loads: seq<nat>, weights: seq<nat>, i: nat)
    requires |loads| == |weights|
  {
    i < |loads| && forall j :: 0 <= j < |loads| ==> NoHeavier(loads, weights, i, j)
  }

  function Score(loads: seq<nat>, weights: seq<nat>, i: nat): real
    requires |loads| == |weights| && i < |loads| && weights[i] > 0
  {
    (loads[i] as real) / (weights[i] as real)
  }

  /** Backend `i` has the smallest load per weight among the first `n`, as rationals, and is the leftmost such. */
  ghost predicate Leftmost(loads: seq<nat>, weights: seq<nat>, i: nat, n: nat)
    requires WellFormed(loads, weights) && n <= |loads|
  {
    && i < n
    && (forall j :: 0 <= j < n ==> Score(loads, weights, i) <= Score(loads, weights, j))
    && (forall j :: 0 <= j < i ==> Score(loads, weights, i) < Score(loads, weights, j))
  }

  /** The index the first `n` candidates leave as best, products taken modulo 2^64. */
  function Scan(loads: seq<nat>, weights: seq<nat>, n: nat): (best: nat)
    requires WellFormed(loads, weights) && 0 < n <= |loads|
    ensures best < n
  {
    if n == 1 then 0
    else
      var best := Scan(loads, weights, n - 1);
      if Mul64(loads[n - 1], weights[best]) < Mul64(loads[best], weights[n - 1]) then n - 1 else best
  }

  function Pick(loads: seq<nat>, weights: seq<nat>): (best: nat)
    requires WellFormed(loads, weights)
    ensures best < |loads|
  {
    Scan(loads, weights, |loads|)
  }

  // ---------------------------------------------------------------- the scan is a leftmost rational minimum

  lemma CrossMultiply(a: nat, b: nat, c: nat, d: nat)
    requires b > 0 && d > 0
    ensures a * d < c * b <==> (a as real) / (b as real) < (c as real) / (d as real)
    ensures a * d <= c * b <==> (a as real) / (b as real) <= (c as real) / (d as real)
  {
    var x, y := (a as real) / (b as real), (c as real) / (d as real);
    var p := (b as real) * (d as real);
    assert x * p == (a as real) * (d as real) == (a * d) as real;
    assert y * p == (c as real) * (b as real) == (c * b) as real;
    assert (x - y) * p == (a * d) as real - (c * b) as real;
  }

  /** The comparison the code makes, products modulo 2^64, is the comparison of the two rationals. */
  lemma WrappedCompare(a: nat, b: nat, c: nat, d: nat)
    requires b > 0 && d > 0 && Fits64(a, d) && Fits64(c, b)
    ensures Mul64(a, d) < Mul64(c, b) <==> (a as real) / (b as real) < (c as real) / (d as real)
  {
    CrossMultiply(a, b, c, d);
  }

  lemma OneMoreCandidate(loads: seq<nat>, weights: seq<nat>, best: nat, n: nat)
    requires WellFormed(loads, weights) && n < |loads| && Leftmost(loads, weights, best, n)
    ensures Leftmost(loads, weights, if Score(loads, weights, n) < Score(loads, weights, best) then n else best, n + 1)
  {
  }

  lemma {:induction false} ScanIsLeftmost(loads: seq<nat>, weights: seq<nat>, n: nat)
    requires WellFormed(loads, weights) && NoWrap(loads, weights) && 0 < n <= |loads|
    ensures Leftmost(loads, weights, Scan(loads, weights, n), n)
  {
    if n > 1 {
      ScanIsLeftmost(loads, weights, n - 1);
      var best := Scan(loads, weights, n - 1);
      WrappedCompare(loads[n - 1], weights[n - 1], loads[best], weights[best]);
      OneMoreCandidate(loads, weights, best, n - 1);
    }
  }

  /** `pick_lowest_load_locked_`: as long as no product leaves 64 bits the choice is the leftmost backend
      with the smallest load per weight, as rationals. */
  method PickLowestLoad(loads: seq<nat>, weights: seq<nat>) returns (best: nat)
    requires WellFormed(loads, weights)
    ensures best < |loads| && best == Pick(loads, weights)
    ensures NoWrap(loads, weights) ==> Leftmost(loads, weights, best, |loads|)
  {
    best := 0;
    var bestLoad, bestWeight := loads[0], weights[0];
    var i := 1;
    while i < |loads|
      invariant 1 <= i <= |loads| && best == Scan(loads, weights, i)
      invariant bestLoad == loads[best] && bestWeight == weights[best]
    {
      var candLoad, candWeight := loads[i], weights[i];
      if Mul64(candLoad, bestWeight) < Mul64(bestLoad, candWeight) {
        best, bestLoad, bestWeight := i, candLoad, candWeight;
      }
      i := i + 1;
    }
    if NoWrap(loads, weights) {
      ScanIsLeftmost(loads, weights, |loads|);
    }
  }

  lemma PickIsMinimal(loads: seq<nat>, weights: seq<nat>)
    requires WellFormed(loads, weights) && NoWrap(loads, weights)
    ensures Minimal(loads, weights, Pick(loads, weights))
  {
    var best := Pick(loads, weights);
    ScanIsLeftmost(loads, weights, |loads|);
    forall j | 0 <= j < |loads| ensures NoHeavier(loads, weights, best, j) {
      assert Score(loads, weights, best) <= Score(loads, weights, j);
      CrossMultiply(loads[best], weights[best], loads[j], weights[j]);
    }
  }

  // ---------------------------------------------------------------- exactly when wrap-around does no harm

  lemma ProductWithin(a: nat, b: nat, maxLoad: nat, maxWeight: nat)
    requires a <= maxLoad && b <= maxWeight && Fits64(maxLoad, maxWeight)
    ensures Fits64(a, b)
  {
    assert a * b <= maxLoad * b <= maxLoad * maxWeight;
  }

  lemma WithinDoesNotWrap(loads: seq<nat>, weights: seq<nat>, maxLoad: nat, maxWeight: nat)
    requires Within(loads, weights, maxLoad, maxWeight) && Fits64(maxLoad, maxWeight)
    ensures NoWrap(loads, weights)
  {
    forall i, j | 0 <= i < |loads| && 0 <= j < |weights| ensures Fits64(loads[i], weights[j]) {
      ProductWithin(loads[i], weights[j], maxLoad, maxWeight);
    }
  }

  /** Whatever the loads and weights within these limits, the pick is the leftmost rational minimum. */
  ghost predicate AlwaysLeftmost(maxLoad: nat, maxWeight: nat) {
    forall loads, weights :: WellFormed(loads, weights) && Within(loads, weights, maxLoad, maxWeight)
                             ==> Leftmost(loads, weights, Pick(loads, weights), |loads|)
  }

  /** The least weight whose product with `load` leaves 64 bits. */
  function Overflowing(load: nat): nat
    requires load > 0
  {
    (WORD + load - 1) / load
  }

  lemma MulMonotone(a: nat, x: int, y: int)
    requires x <= y
    ensures a * x <= a * y
  {
  }

  lemma Ceiling(n: nat, d: nat)
    requires d > 0
    ensures var q := (n + d - 1) / d; n <= d * q < n + d && d * (q - 1) < n
  {
    var q := (n + d - 1) / d;
    assert n + d - 1 == d * q + (n + d - 1) % d;
    assert d * (q - 1) == d * q - d;
  }

  lemma JustOverflows(load: nat)
    requires 1 <= load < WORD
    ensures var w := Overflowing(load); w >= 2 && WORD <= load * w < WORD + load
    ensures forall v :: v < Overflowing(load) ==> load * v < WORD
  {
    var w := Overflowing(load);
    Ceiling(WORD, load);
    forall v | v < w ensures load * v < WORD {
      MulMonotone(load, v, w - 1);
    }
    if w < 2 {
      MulMonotone(load, w, 1);
      assert false;
    }
  }

  /** Two backends with equal load, the second of the least weight that overflows: its smaller share is
      overlooked. */
  lemma WrapPicksWrongly(load: nat)
    requires 1 <= load < WORD
    ensures var loads, weights := [load, load], [1, Overflowing(load)];
            WellFormed(loads, weights) && Pick(loads, weights) == 0 && Score(loads, weights, 1) < Score(loads, weights, 0)
  {
    var w := Overflowing(load);
    var loads, weights := [load, load], [1, w];
    JustOverflows(load);
    assert load * w % WORD == load * w - WORD;
    assert Scan(loads, weights, 1) == 0;
    assert load * 1 < load * w by { assert load * w >= WORD; }
    CrossMultiply(load, w, load, 1);
  }

  /** Exactly when the scan decides as exact arithmetic would, for all loads and weights within given limits: when
      the product of the limits fits 64 bits.  Loads themselves are 64-bit words. */
  lemma AlwaysLeftmostIff(maxLoad: nat, maxWeight: nat)
    requires maxLoad < WORD
    ensures AlwaysLeftmost(maxLoad, maxWeight) <==> Fits64(maxLoad, maxWeight)
  {
    if Fits64(maxLoad, maxWeight) {
      forall loads, weights | WellFormed(loads, weights) && Within(loads, weights, maxLoad, maxWeight)
        ensures Leftmost(loads, weights, Pick(loads, weights), |loads|)
      {
        WithinDoesNotWrap(loads, weights, maxLoad, maxWeight);
        ScanIsLeftmost(loads, weights, |loads|);
      }
    } else {
      assert maxLoad > 0 by { assert 0 * maxWeight == 0; }
      var loads, weights := [maxLoad, maxLoad], [1, Overflowing(maxLoad)];
      WrapPicksWrongly(maxLoad);
      JustOverflows(maxLoad);
      assert Within(loads, weights, maxLoad, maxWeight);
      assert !Leftmost(loads, weights, Pick(loads, weights), |loads|);
    }
  }

  /** Weights up to 2^32 are safe while loads stay below 2^32, and no longer. */
  lemma SafeBelowHalfWord()
    ensures AlwaysLeftmost(HALF - 1, HALF) && !AlwaysLeftmost(HALF, HALF)
  {
    AlwaysLeftmostIff(HALF - 1, HALF);
    AlwaysLeftmostIff(HALF, HALF);
  }

  // ---------------------------------------------------------------- shares

  function Zeros(k: nat): seq<nat> { seq(k, _ => 0) }

  /** Loads after a sequence of picks with no release in between. */
  function Loads(k: nat, picks: seq<nat>): (loads: seq<nat>)
    ensures |loads| == k
  {
    if picks == [] then Zeros(k)
    else
      var before, last := Loads(k, picks[..|picks| - 1]), picks[|picks| - 1];
      if last < k then before[last := before[last] + 1] else before
  }

  /** Every pick went to a backend that was then carrying the least load per weight. */
  ghost predicate Greedy(weights: seq<nat>, picks: seq<nat>) {
    picks != [] ==>
      var front := picks[..|picks| - 1];
      Greedy(weights, front) && Minimal(Loads(|weights|, front), weights, picks[|picks| - 1])
  }

  /** Backend `i` is at most one pick ahead of its due, measured against backend `j`. */
  predicate OneAhead(weights: seq<nat>, f: seq<int>, i: nat, j: nat)
    requires |f| == |weights| && i < |f| && j < |f|
  {
    (f[i] - 1) * weights[j] <= f[j] * weights[i]
  }

  ghost predicate Level(weights: seq<nat>, f: seq<int>) {
    |f| == |weights| && forall i: nat, j: nat :: i < |f| && j < |f| ==> OneAhead(weights, f, i, j)
  }

  lemma PickStaysLevel(weights: seq<nat>, f: seq<nat>, last: nat)
    requires Level(weights, f) && Minimal(f, weights, last)
    ensures Level(weights, f[last := f[last] + 1])
  {
    var g: seq<int> := f[last := f[last] + 1];
    forall i: nat, j: nat | i < |f| && j < |f| ensures OneAhead(weights, g, i, j) {
      assert OneAhead(weights, f, i, j);
      assert NoHeavier(f, weights, last, j);
      NoLess(f[j], g[j], weights[i]);
    }
  }

  lemma NoLess(x: nat, y: nat, w: nat)
    requires x <= y
    ensures x * w <= y * w
  {
  }

  /** No backend is ever more than one pick ahead of its due, measured against any other. */
  lemma {:induction false} GreedyIsLevel(weights: seq<nat>, picks: seq<nat>)
    requires Greedy(weights, picks)
    ensures Level(weights, Loads(|weights|, picks))
  {
    if picks != [] {
      GreedyIsLevel(weights, picks[..|picks| - 1]);
      PickStaysLevel(weights, Loads(|weights|, picks[..|picks| - 1]), picks[|picks| - 1]);
    }
  }

  lemma {:induction false} TotalLoad(k: nat, picks: seq<nat>)
    requires forall n :: 0 <= n < |picks| ==> picks[n] < k
    ensures Sum(Loads(k, picks)) == |picks|
  {
    if picks == [] {
      SumZeros(k);
    } else {
      var front, last := picks[..|picks| - 1], picks[|picks| - 1];
      TotalLoad(k, front);
      SumUpdate(Loads(k, front), last, Loads(k, front)[last] + 1);
    }
  }

  lemma {:induction false} SumZeros(k: nat)
    ensures Sum(Zeros(k)) == 0
  {
    if k > 0 {
      assert Zeros(k)[1..] == Zeros(k - 1);
      SumZeros(k - 1);
    }
  }

  lemma {:induction false} GreedyInRange(weights: seq<nat>, picks: seq<nat>)
    requires Greedy(weights, picks)
    ensures forall n :: 0 <= n < |picks| ==> picks[n] < |weights|
  {
    if picks != [] {
      GreedyInRange(weights, picks[..|picks| - 1]);
      assert forall n :: 0 <= n < |picks| - 1 ==> picks[n] == picks[..|picks| - 1][n];
    }
  }

  /** Comparing two sequences element by element compares their scaled sums. */
  lemma {:induction false} ScaledSums(u: seq<int>, a: int, v: seq<int>, b: int)
    requires |u| == |v| && forall j :: 0 <= j < |u| ==> u[j] * a <= v[j] * b
    ensures Sum(u) * a <= Sum(v) * b
  {
    if u != [] {
      assert forall j :: 0 <= j < |u| - 1 ==> u[1..][j] == u[j + 1] && v[1..][j] == v[j + 1];
      ScaledSums(u[1..], a, v[1..], b);
      Distribute(u[0], Sum(u[1..]), a);
      Distribute(v[0], Sum(v[1..]), b);
    }
  }

  lemma Distribute(x: int, y: int, a: int)
    ensures (x + y) * a == x * a + y * a
  {
  }

  /** Everyone's load less one, except backend `i`'s. */
  function Lowered(f: seq<int>, i: nat): (g: seq<int>)
    ensures |g| == |f| && forall j :: 0 <= j < |f| ==> g[j] == if j == i then f[j] else f[j] - 1
  {
    seq(|f|, j requires 0 <= j < |f| => if j == i then f[j] else f[j] - 1)
  }

  lemma {:induction false} SumOnesLess(f: seq<int>, g: seq<int>)
    requires |g| == |f| && forall j :: 0 <= j < |f| ==> g[j] == f[j] - 1
    ensures Sum(g) == Sum(f) - |f|
  {
    if f != [] {
      SumOnesLess(f[1..], g[1..]);
    }
  }

  lemma SumLowered(f: seq<int>, i: nat)
    requires i < |f|
    ensures Sum(Lowered(f, i)) == Sum(f) - (|f| - 1)
  {
    var g := Lowered(f, i);
    SumUpdate(g, i, f[i] - 1);
    SumOnesLess(f, g[i := f[i] - 1]);
  }

  /** Nobody else is more than one pick ahead of backend i ... */
  lemma ShareAtLeast(weights: seq<nat>, f: seq<int>, i: nat)
    requires Level(weights, f) && i < |f|
    ensures (Sum(f) - |f| + 1) * weights[i] <= Sum(weights) * f[i]
  {
    var lowered := Lowered(f, i);
    forall j: nat | j < |f| ensures lowered[j] * weights[i] <= weights[j] * f[i] {
      assert OneAhead(weights, f, j, i);
    }
    ScaledSums(lowered, weights[i], weights, f[i]);
    SumLowered(f, i);
  }

  /** ... and backend i is not more than one ahead of anybody else. */
  lemma ShareAtMost(weights: seq<nat>, f: seq<int>, i: nat)
    requires Level(weights, f) && i < |f|
    ensures Sum(weights) * (f[i] - 1) <= (Sum(f) - 1) * weights[i]
  {
    var less := f[i := f[i] - 1];
    forall j: nat | j < |f| ensures weights[j] * (f[i] - 1) <= less[j] * weights[i] {
      assert OneAhead(weights, f, i, j);
    }
    ScaledSums(weights, f[i] - 1, less, weights[i]);
    SumUpdate(f, i, f[i] - 1);
  }

  /** Proportional share.  After N picks among k backends of total weight W, backend i of weight w
      has had f picks with w(N - k + 1) <= fW and (f - 1)W <= w(N - 1). */
  lemma ProportionalShare(weights: seq<nat>, picks: seq<nat>, i: nat)
    requires Greedy(weights, picks) && i < |weights|
    ensures var f: int, W, N: int, k := Loads(|weights|, picks)[i], Sum(weights), |picks|, |weights|;
            && (N - k + 1) * weights[i] <= W * f
            && W * (f - 1) <= (N - 1) * weights[i]
  {
    GreedyInRange(weights, picks);
    TotalLoad(|weights|, picks);
    GreedyIsLevel(weights, picks);
    ShareAtLeast(weights, Loads(|weights|, picks), i);
    ShareAtMost(weights, Loads(|weights|, picks), i);
  }

  lemma {:induction false} EqualSums(u: seq<int>, v: seq<int>)
    requires |u| == |v| && (forall j :: 0 <= j < |u| ==> u[j] <= v[j]) && Sum(u) == Sum(v)
    ensures u == v
  {
    if u != [] {
      ScaledSums(u[1..], 1, v[1..], 1);
      EqualSums(u[1..], v[1..]);
      assert u == [u[0]] + u[1..] && v == [v[0]] + v[1..];
    }
  }

  function Times(m: nat, weights: seq<nat>): (r: seq<int>)
    ensures |r| == |weights| && forall j :: 0 <= j < |weights| ==> r[j] == m * weights[j]
  {
    seq(|weights|, j requires 0 <= j < |weights| => m * weights[j])
  }

  lemma {:induction false} SumTimes(m: nat, weights: seq<nat>)
    ensures Sum(Times(m, weights)) == m * Sum(weights)
  {
    if weights != [] {
      assert Times(m, weights)[1..] == Times(m, weights[1..]);
      SumTimes(m, weights[1..]);
      Distribute(weights[0], Sum(weights[1..]), m);
    }
  }

  lemma BeyondTimes(f: int, m: nat, w: nat, W: nat)
    requires W > 0 && w > 0 && f > m * w
    ensures W * (f - 1) > (m * W - 1) * w
  {
    calc {
      W * (f - 1);
    >=
      W * (m * w);
    ==
      (m * W) * w;
    ==
      (m * W - 1) * w + w;
    }
  }

  /** After a whole number m of rounds, that is m times the total weight of picks, every backend has
      had exactly m times its weight. */
  lemma ExactShare(weights: seq<nat>, picks: seq<nat>, m: nat)
    requires Greedy(weights, picks) && |picks| == m * Sum(weights)
    requires forall i :: 0 <= i < |weights| ==> weights[i] > 0
    ensures forall i :: 0 <= i < |weights| ==> Loads(|weights|, picks)[i] == m * weights[i]
  {
    var loads := Loads(|weights|, picks);
    GreedyInRange(weights, picks);
    TotalLoad(|weights|, picks);
    forall i | 0 <= i < |weights| ensures loads[i] <= Times(m, weights)[i] {
      ProportionalShare(weights, picks, i);
      PositiveSum(weights);
      if loads[i] > m * weights[i] {
        BeyondTimes(loads[i], m, weights[i], Sum(weights));
      }
    }
    SumTimes(m, weights);
    EqualSums(loads, Times(m, weights));
  }

  lemma {:induction false} PositiveSum(weights: seq<nat>)
    requires forall i :: 0 <= i < |weights| ==> weights[i] > 0
    ensures Sum(weights) >= |weights|
  {
    if weights != [] {
      PositiveSum(weights[1..]);
    }
  }
}

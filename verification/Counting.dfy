/** Counting and summing over finite sequences.
    Thread populations in the state machines are sequences indexed by thread;
    every step changes one entry, so each fold comes with an update lemma. */
module Counting {

  /** Number of positions whose element satisfies `p`. */
  function Count<T>(p: T -> bool, s: seq<T>): nat {
    if s == [] then 0 else (if p(s[0]) then 1 else 0) + Count(p, s[1..])
  }

  lemma {:induction false} CountUpdate<T>(p: T -> bool, s: seq<T>, i: nat, x: T)
    requires i < |s|
    ensures Count(p, s[i := x]) == Count(p, s) - (if p(s[i]) then 1 else 0) + (if p(x) then 1 else 0)
  {
    if i == 0 {
      assert s[i := x][1..] == s[1..];
    } else {
      assert s[i := x][1..] == s[1..][i - 1 := x];
      CountUpdate(p, s[1..], i - 1, x);
    }
  }

  lemma {:induction false} CountBounds<T>(p: T -> bool, s: seq<T>)
    ensures Count(p, s) <= |s|
    ensures Count(p, s) == 0 <==> forall i :: 0 <= i < |s| ==> !p(s[i])
    ensures Count(p, s) == |s| <==> forall i :: 0 <= i < |s| ==> p(s[i])
  {
    if s != [] {
      CountBounds(p, s[1..]);
      assert forall i :: 0 < i < |s| ==> s[i] == s[1..][i - 1];
      assert forall i :: 0 <= i < |s| - 1 ==> s[1..][i] == s[i + 1];
    }
  }

  /** A positive count names a position. */
  lemma Witness<T>(p: T -> bool, s: seq<T>) returns (i: nat)
    requires Count(p, s) > 0
    ensures i < |s| && p(s[i])
  {
    CountBounds(p, s);
    i :| i < |s| && p(s[i]);
  }

  lemma CountAt<T>(p: T -> bool, s: seq<T>, i: nat)
    requires i < |s| && p(s[i])
    ensures Count(p, s) > 0
  {
    CountBounds(p, s);
  }

  /** Counts over two populations of the same threads, one implying the other. */
  lemma {:induction false} CountImplies<T, U>(p: T -> bool, s: seq<T>, q: U -> bool, u: seq<U>)
    requires |s| == |u|
    requires forall i :: 0 <= i < |s| && p(s[i]) ==> q(u[i])
    ensures Count(p, s) <= Count(q, u)
  {
    if s != [] {
      assert forall i :: 0 <= i < |s| - 1 ==> s[1..][i] == s[i + 1] && u[1..][i] == u[i + 1];
      CountImplies(p, s[1..], q, u[1..]);
    }
  }

  function Sum(s: seq<int>): int {
    if s == [] then 0 else s[0] + Sum(s[1..])
  }

  lemma {:induction false} SumUpdate(s: seq<int>, i: nat, x: int)
    requires i < |s|
    ensures Sum(s[i := x]) == Sum(s) - s[i] + x
  {
    if i == 0 {
      assert s[i := x][1..] == s[1..];
    } else {
      assert s[i := x][1..] == s[1..][i - 1 := x];
      SumUpdate(s[1..], i - 1, x);
    }
  }

  /** Total of a measure over a population. */
  function Total<T>(f: T -> nat, s: seq<T>): nat {
    if s == [] then 0 else f(s[0]) + Total(f, s[1..])
  }

  lemma {:induction false} TotalUpdate<T>(f: T -> nat, s: seq<T>, i: nat, x: T)
    requires i < |s|
    ensures Total(f, s[i := x]) + f(s[i]) == Total(f, s) + f(x)
  {
    if i == 0 {
      assert s[i := x][1..] == s[1..];
    } else {
      assert s[i := x][1..] == s[1..][i - 1 := x];
      TotalUpdate(f, s[1..], i - 1, x);
    }
  }

  lemma {:induction false} TotalMonotone<T>(f: T -> nat, s: seq<T>, u: seq<T>)
    requires |s| == |u|
    requires forall i :: 0 <= i < |s| ==> f(s[i]) <= f(u[i])
    ensures Total(f, s) <= Total(f, u)
  {
    if s != [] {
      assert forall i :: 0 <= i < |s| - 1 ==> s[1..][i] == s[i + 1] && u[1..][i] == u[i + 1];
      TotalMonotone(f, s[1..], u[1..]);
    }
  }

  /** What a whole population holds, when each member holds a bag of resources. */
  function Bag<T, R>(f: T -> multiset<R>, s: seq<T>): multiset<R> {
    if s == [] then multiset{} else f(s[0]) + Bag(f, s[1..])
  }

  lemma {:induction false} BagUpdate<T, R>(f: T -> multiset<R>, s: seq<T>, i: nat, x: T)
    requires i < |s|
    ensures Bag(f, s[i := x]) + f(s[i]) == Bag(f, s) + f(x)
  {
    if i == 0 {
      assert s[i := x][1..] == s[1..];
    } else {
      assert s[i := x][1..] == s[1..][i - 1 := x];
      BagUpdate(f, s[1..], i - 1, x);
      Swap(f(s[0]), Bag(f, s[1..][i - 1 := x]), f(s[i]), Bag(f, s[1..]), f(x));
    }
  }

  lemma Swap<R>(a: multiset<R>, b: multiset<R>, c: multiset<R>, d: multiset<R>, e: multiset<R>)
    requires b + c == d + e
    ensures (a + b) + c == (a + d) + e
  {
    assert (a + b) + c == a + (b + c) == a + (d + e);
  }

  lemma BagGains<T, R>(f: T -> multiset<R>, s: seq<T>, i: nat, x: T)
    requires i < |s| && f(s[i]) == multiset{}
    ensures Bag(f, s[i := x]) == Bag(f, s) + f(x)
  {
    BagUpdate(f, s, i, x);
    assert Bag(f, s[i := x]) + multiset{} == Bag(f, s[i := x]);
  }

  lemma BagLoses<T, R>(f: T -> multiset<R>, s: seq<T>, i: nat, x: T)
    requires i < |s| && f(x) == multiset{}
    ensures Bag(f, s) == Bag(f, s[i := x]) + f(s[i])
  {
    BagUpdate(f, s, i, x);
    assert Bag(f, s) + multiset{} == Bag(f, s);
  }

  lemma BagKeeps<T, R>(f: T -> multiset<R>, s: seq<T>, i: nat, x: T)
    requires i < |s| && f(s[i]) == f(x) == multiset{}
    ensures Bag(f, s[i := x]) == Bag(f, s)
  {
    BagGains(f, s, i, x);
    assert Bag(f, s) + multiset{} == Bag(f, s);
  }

  lemma {:induction false} BagSame<T, R>(f: T -> multiset<R>, s: seq<T>, u: seq<T>)
    requires |s| == |u|
    requires forall i :: 0 <= i < |s| ==> f(s[i]) == f(u[i])
    ensures Bag(f, s) == Bag(f, u)
  {
    if s != [] {
      assert forall i :: 0 <= i < |s| - 1 ==> s[1..][i] == s[i + 1] && u[1..][i] == u[i + 1];
      BagSame(f, s[1..], u[1..]);
    }
  }

  // ---------------------------------------------------------------- numbered resources

  /** How many times resource `c` is held across a population, where `h(x, c)` is how many
      times member `x` holds it. */
  function Tally<T>(h: (T, nat) -> nat, s: seq<T>, c: nat): nat {
    if s == [] then 0 else h(s[0], c) + Tally(h, s[1..], c)
  }

  lemma {:induction false} TallyUpdate<T>(h: (T, nat) -> nat, s: seq<T>, i: nat, x: T, c: nat)
    requires i < |s|
    ensures Tally(h, s[i := x], c) + h(s[i], c) == Tally(h, s, c) + h(x, c)
  {
    if i == 0 {
      assert s[i := x][1..] == s[1..];
    } else {
      assert s[i := x][1..] == s[1..][i - 1 := x];
      TallyUpdate(h, s[1..], i - 1, x, c);
    }
  }

  lemma {:induction false} TallyConcat<T>(h: (T, nat) -> nat, s: seq<T>, u: seq<T>, c: nat)
    ensures Tally(h, s + u, c) == Tally(h, s, c) + Tally(h, u, c)
  {
    if s == [] {
      assert s + u == u;
    } else {
      assert (s + u)[1..] == s[1..] + u;
      TallyConcat(h, s[1..], u, c);
    }
  }

  lemma TallySnoc<T>(h: (T, nat) -> nat, s: seq<T>, x: T, c: nat)
    ensures Tally(h, s + [x], c) == Tally(h, s, c) + h(x, c)
  {
    TallyConcat(h, s, [x], c);
  }

  lemma {:induction false} TallySame<T, U>(h: (T, nat) -> nat, s: seq<T>, k: (U, nat) -> nat, u: seq<U>, c: nat)
    requires |s| == |u|
    requires forall i :: 0 <= i < |s| ==> h(s[i], c) == k(u[i], c)
    ensures Tally(h, s, c) == Tally(k, u, c)
  {
    if s != [] {
      assert forall i :: 0 <= i < |s| - 1 ==> s[1..][i] == s[i + 1] && u[1..][i] == u[i + 1];
      TallySame(h, s[1..], k, u[1..], c);
    }
  }

  lemma {:induction false} TallyMember<T>(h: (T, nat) -> nat, s: seq<T>, i: nat, c: nat)
    requires i < |s|
    ensures h(s[i], c) <= Tally(h, s, c)
  {
    if i > 0 {
      TallyMember(h, s[1..], i - 1, c);
    }
  }

  /** Two members of a population between them hold no more than the population does. */
  lemma {:induction false} TallyPair<T>(h: (T, nat) -> nat, s: seq<T>, i: nat, j: nat, c: nat)
    requires i < j < |s|
    ensures h(s[i], c) + h(s[j], c) <= Tally(h, s, c)
  {
    if i > 0 {
      TallyPair(h, s[1..], i - 1, j - 1, c);
    } else {
      TallyMember(h, s[1..], j - 1, c);
    }
  }

  lemma {:induction false} TallyZero<T>(h: (T, nat) -> nat, s: seq<T>, c: nat)
    ensures Tally(h, s, c) == 0 <==> forall i :: 0 <= i < |s| ==> h(s[i], c) == 0
  {
    if s != [] {
      TallyZero(h, s[1..], c);
      assert forall i :: 0 < i < |s| ==> s[i] == s[1..][i - 1];
      assert forall i :: 0 <= i < |s| - 1 ==> s[1..][i] == s[i + 1];
    }
  }

  lemma {:induction false} CountAtMostTally<T, U>(p: T -> bool, s: seq<T>, h: (U, nat) -> nat, u: seq<U>, c: nat)
    requires |s| == |u|
    requires forall i :: 0 <= i < |s| && p(s[i]) ==> h(u[i], c) >= 1
    ensures Count(p, s) <= Tally(h, u, c)
  {
    if s != [] {
      assert forall i :: 0 <= i < |s| - 1 ==> s[1..][i] == s[i + 1] && u[1..][i] == u[i + 1];
      CountAtMostTally(p, s[1..], h, u[1..], c);
    }
  }

  function IsId(x: nat, c: nat): nat { if x == c then 1 else 0 }

  /** The numbers below `n`, in order. */
  function Upto(n: nat): (r: seq<nat>)
    ensures |r| == n && forall i :: 0 <= i < n ==> r[i] == i
  {
    if n == 0 then [] else Upto(n - 1) + [n - 1]
  }

  lemma {:induction false} TallyUpto(n: nat, c: nat)
    ensures Tally(IsId, Upto(n), c) == if c < n then 1 else 0
  {
    if n > 0 {
      var m: nat := n - 1;
      TallyUpto(m, c);
      TallySnoc(IsId, Upto(m), m, c);
    }
  }

  /** Tallying a sequence of numbers is counting in its multiset. */
  lemma {:induction false} TallyIsMultiset(s: seq<nat>, c: nat)
    ensures Tally(IsId, s, c) == multiset(s)[c]
  {
    if s != [] {
      TallyIsMultiset(s[1..], c);
      assert s == [s[0]] + s[1..];
    }
  }

  // ---------------------------------------------------------------- picking out of a sequence, in order

  ghost predicate Increasing(ps: seq<nat>) {
    forall i, j :: 0 <= i < j < |ps| ==> ps[i] < ps[j]
  }

  /** `ps` are exactly the positions in `all` whose element satisfies `p`, in order. */
  ghost predicate Selects<T>(ps: seq<nat>, all: seq<T>, p: T -> bool) {
    Increasing(ps) && forall q: nat :: q in ps <==> q < |all| && p(all[q])
  }

  /** `sub` is what stands at those positions: the elements of `all` that satisfy `p`, each once, in order. */
  ghost predicate Sifts<T(!new)>(sub: seq<T>, all: seq<T>, p: T -> bool) {
    exists ps :: Selects(ps, all, p) && StandsAt(sub, all, ps)
  }

  ghost predicate StandsAt<T>(sub: seq<T>, all: seq<T>, ps: seq<nat>) {
    |sub| == |ps| && forall i :: 0 <= i < |ps| ==> ps[i] < |all| && sub[i] == all[ps[i]]
  }

  lemma SelectsSnoc<T>(ps: seq<nat>, all: seq<T>, x: T, p: T -> bool)
    requires Selects(ps, all, p)
    ensures Selects(if p(x) then ps + [|all|] else ps, all + [x], p)
  {
    forall i | 0 <= i < |ps| ensures ps[i] < |all| {
      assert ps[i] in ps;
    }
  }

  lemma StandsAtSnoc<T>(sub: seq<T>, all: seq<T>, x: T, ps: seq<nat>)
    requires StandsAt(sub, all, ps)
    ensures StandsAt(sub, all + [x], ps) && StandsAt(sub + [x], all + [x], ps + [|all|])
  {
  }

  lemma SiftsSnoc<T(!new)>(sub: seq<T>, all: seq<T>, x: T, p: T -> bool)
    requires Sifts(sub, all, p)
    ensures p(x) ==> Sifts(sub + [x], all + [x], p)
    ensures !p(x) ==> Sifts(sub, all + [x], p)
  {
    var ps: seq<nat> :| Selects(ps, all, p) && StandsAt(sub, all, ps);
    SelectsSnoc(ps, all, x, p);
    StandsAtSnoc(sub, all, x, ps);
  }

  lemma SiftsNone<T(!new)>(p: T -> bool)
    ensures Sifts([], [], p)
  {
    assert Selects([], [], p) && StandsAt<T>([], [], []);
  }

  /** Everything sifted out satisfies the test. */
  lemma SiftedSatisfies<T(!new)>(sub: seq<T>, all: seq<T>, p: T -> bool)
    requires Sifts(sub, all, p)
    ensures forall i :: 0 <= i < |sub| ==> p(sub[i])
  {
    var ps: seq<nat> :| Selects(ps, all, p) && StandsAt(sub, all, ps);
    forall i | 0 <= i < |sub| ensures p(sub[i]) {
      assert ps[i] in ps;
    }
  }
}

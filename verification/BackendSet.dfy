/** The multi-backend front of src/backend_set.cpp: pick-and-bump under the set's own mutex, then
    the chosen pool's borrow or release outside it, with the set's counters updated around them. */
module BackendSet {
  import opened Counting
  import opened Selection
  import Pool = BackendPool
  import PoolInv = BackendPoolInvariants

  /** Where a thread is, as the set sees it; `at` is the pool it picked. */
  datatype Phase = Out | Borrowing(at: nat) | Held(at: nat) | Returning(at: nat)

  datatype State = State(
    weights: seq<nat>, pools: seq<Pool.State>, inFlight: seq<nat>, handled: seq<nat>, threads: seq<Phase>)

  datatype Event =
    | Choose(t: nat)                       // pick and bump, then enter that pool's borrow
    | BorrowWon(t: nat)
    | BorrowLost(t: nat)
    | Release(t: nat, ok: bool)
    | ReleaseDone(t: nat)
    | Inside(i: nat, e: Pool.Event)
    | ShutDown(i: nat)

  /** `fetch_sub(1)` on an unsigned 64-bit counter. */
  function Decrement(x: nat): nat { if x == 0 then WORD - 1 else x - 1 }

  /** The two counters of every backend, and how the locked or atomic sections change them. */
  datatype Counters = Counters(inFlight: seq<nat>, handled: seq<nat>)

  predicate Covers(c: Counters, i: nat) { i < |c.inFlight| && i < |c.handled| }

  /** Picked for a borrow. */
  function Bumped(c: Counters, i: nat): Counters
    requires Covers(c, i)
  {
    c.(inFlight := c.inFlight[i := c.inFlight[i] + 1])
  }

  /** The borrow succeeded. */
  function Won(c: Counters, i: nat): Counters
    requires Covers(c, i)
  {
    c.(handled := c.handled[i := c.handled[i] + 1])
  }

  /** The borrow failed, or the release is done. */
  function Freed(c: Counters, i: nat): Counters
    requires Covers(c, i)
  {
    c.(inFlight := c.inFlight[i := Decrement(c.inFlight[i])])
  }

  function CountersOf(s: State): Counters { Counters(s.inFlight, s.handled) }
  function WithCounters(s: State, c: Counters): State { s.(inFlight := c.inFlight, handled := c.handled) }

  predicate Shape(s: State) {
    && |s.weights| == |s.pools| == |s.inFlight| == |s.handled|
    && (forall i :: 0 <= i < |s.weights| ==> s.weights[i] > 0)
    && (forall i :: 0 <= i < |s.pools| ==> |s.pools[i].clients| == |s.threads|)
  }

  /** Steps a thread or the reaper takes on its own once it is inside a pool. */
  predicate IsInside(e: Pool.Event) {
    !e.Enter? && !e.StartRelease? && !e.Shutdown?
  }

  predicate Enabled(s: State, e: Event)
    requires Shape(s)
  {
    match e
    case Choose(t) => t < |s.threads| && s.threads[t].Out? && s.pools != []
                      && Pool.Enabled(s.pools[Pick(s.inFlight, s.weights)], Pool.Enter(t))
    case BorrowWon(t) => t < |s.threads| && s.threads[t].Borrowing? && s.threads[t].at < |s.pools|
                         && s.pools[s.threads[t].at].clients[t].Holding?
    case BorrowLost(t) => t < |s.threads| && s.threads[t].Borrowing? && s.threads[t].at < |s.pools|
                          && s.pools[s.threads[t].at].clients[t].Away?
    case Release(t, ok) => t < |s.threads| && s.threads[t].Held? && s.threads[t].at < |s.pools|
                           && Pool.Enabled(s.pools[s.threads[t].at], Pool.StartRelease(t, ok))
    case ReleaseDone(t) => t < |s.threads| && s.threads[t].Returning? && s.threads[t].at < |s.pools|
                           && s.pools[s.threads[t].at].clients[t].Away?
    case Inside(i, pe) => i < |s.pools| && IsInside(pe) && Pool.Enabled(s.pools[i], pe)
    case ShutDown(i) => i < |s.pools|
  }

  function Apply(s: State, e: Event): State
    requires Shape(s) && Enabled(s, e)
  {
    match e
    case Choose(t) =>
      var i := Pick(s.inFlight, s.weights);
      WithCounters(s, Bumped(CountersOf(s), i))
      .(threads := s.threads[t := Borrowing(i)], pools := s.pools[i := Pool.Apply(s.pools[i], Pool.Enter(t))])
    case BorrowWon(t) =>
      var i := s.threads[t].at;
      WithCounters(s, Won(CountersOf(s), i)).(threads := s.threads[t := Held(i)])
    case BorrowLost(t) => WithCounters(s, Freed(CountersOf(s), s.threads[t].at)).(threads := s.threads[t := Out])
    case Release(t, ok) =>
      var i := s.threads[t].at;
      s.(threads := s.threads[t := Returning(i)],
         pools := s.pools[i := Pool.Apply(s.pools[i], Pool.StartRelease(t, ok))])
    case ReleaseDone(t) => WithCounters(s, Freed(CountersOf(s), s.threads[t].at)).(threads := s.threads[t := Out])
    case Inside(i, pe) => s.(pools := s.pools[i := Pool.Apply(s.pools[i], pe)])
    case ShutDown(i) => s.(pools := s.pools[i := Pool.Apply(s.pools[i], Pool.Shutdown)])
  }

  /** The weights the set works with: those configured, where zero counts as one. */
  function Effective(weights: seq<nat>): (r: seq<nat>)
    ensures |r| == |weights|
    ensures forall i :: 0 <= i < |weights| ==> (weights[i] > 0 ==> r[i] == weights[i]) && (weights[i] == 0 ==> r[i] == 1)
  {
    seq(|weights|, i requires 0 <= i < |weights| => if weights[i] == 0 then 1 else weights[i])
  }

  function Init(weights: seq<nat>, opts: Pool.Config, threads: nat): State {
    State(Effective(weights), seq(|weights|, _ => Pool.Init(opts, threads)),
          seq(|weights|, _ => 0), seq(|weights|, _ => 0), seq(threads, _ => Out))
  }

  /** The counters as the code updates them; the calls into the chosen pool happen in between. */
  class Front {
    const weights: seq<nat>
    var inFlight: seq<nat>
    var handled: seq<nat>

    ghost function View(): Counters
      reads this
    {
      Counters(inFlight, handled)
    }

    ghost predicate Valid()
      reads this
    {
      |weights| == |inFlight| == |handled| && forall i :: 0 <= i < |weights| ==> weights[i] > 0
    }

    constructor (specs: seq<nat>, ghost opts: Pool.Config, ghost threads: nat)
      ensures Valid() && weights == Init(specs, opts, threads).weights && View() == CountersOf(Init(specs, opts, threads))
      ensures |weights| == |specs| && forall i :: 0 <= i < |specs| ==>
                weights[i] == (if specs[i] == 0 then 1 else specs[i]) && inFlight[i] == 0 && handled[i] == 0
    {
      weights := seq(|specs|, i requires 0 <= i < |specs| => if specs[i] == 0 then 1 else specs[i]);
      inFlight := seq(|specs|, _ => 0);
      handled := seq(|specs|, _ => 0);
    }

    /** The locked part of `borrow`; without backends there is nothing to pick. */
    method PickAndBump() returns (found: bool, i: nat)
      requires Valid()
      modifies this`inFlight
      ensures Valid() && found == (weights != [])
      ensures found ==> i < |weights| && i == Pick(old(inFlight), weights) && View() == Bumped(old(View()), i)
      ensures found && NoWrap(old(inFlight), weights) ==> Leftmost(old(inFlight), weights, i, |weights|)
      ensures !found ==> View() == old(View())
    {
      if weights == [] { return false, 0; }
      i := PickLowestLoad(inFlight, weights);
      inFlight := inFlight[i := inFlight[i] + 1];
      found := true;
    }

    /** The end of `borrow`, once the pool has answered. */
    method FinishBorrow(i: nat, ok: bool)
      requires Valid() && i < |weights|
      modifies this`inFlight, this`handled
      ensures Valid() && View() == if ok then Won(old(View()), i) else Freed(old(View()), i)
    {
      if !ok {
        inFlight := inFlight[i := Decrement(inFlight[i])];
        return;
      }
      handled := handled[i := handled[i] + 1];
    }

    /** The end of `release`; a handle without a descriptor or of no pool is ignored. */
    method FinishRelease(fd: int, i: nat)
      requires Valid()
      modifies this`inFlight
      ensures Valid() && View() == if fd < 0 || i >= |weights| then old(View()) else Freed(old(View()), i)
    {
      if fd < 0 || i >= |weights| { return; }
      inFlight := inFlight[i := Decrement(inFlight[i])];
    }
  }

  // ---------------------------------------------------------------- how pool steps move clients

  predicate IsHolding(c: Pool.Client) { c.Holding? }

  /** What one client can do in one inside step. */
  predicate Local(c: Pool.Client, c': Pool.Client) {
    || c' == c
    || ((c.Trying? || c.Notified?) && (c'.Away? || c'.Holding? || c'.Dialing? || c'.Asleep?))
    || (c.Asleep? && (c'.Away? || c'.Notified?))
    || (c.Dialing? && (c'.Holding? || c'.Away?))
    || (c.Releasing? && (c'.Closing? || c'.Away?))
    || (c.Closing? && c'.Away?)
  }

  lemma InsideIsLocal(s: Pool.State, e: Pool.Event)
    requires Pool.Enabled(s, e) && IsInside(e)
    ensures |Pool.Apply(s, e).clients| == |s.clients|
    ensures forall t :: 0 <= t < |s.clients| ==> Local(s.clients[t], Pool.Apply(s, e).clients[t])
  {
  }

  /** The pool's borrow counter rises exactly when a client comes to hold a connection. */
  lemma BorrowsFollowHolding(s: Pool.State, e: Pool.Event)
    requires Pool.Enabled(s, e) && IsInside(e)
    ensures var r := Pool.Apply(s, e); r.borrows + Count(IsHolding, s.clients) == s.borrows + Count(IsHolding, r.clients)
  {
    var r := Pool.Apply(s, e);
    if e.DialFail? || e.FinishRelease? {
      var x := if e.FinishRelease? && s.clients[e.t].closeIt then Pool.Closing(s.clients[e.t].conn) else Pool.Away;
      CountUpdate(IsHolding, s.clients, e.t, x);
      if e.wake < |s.clients| && s.clients[e.t := x][e.wake].Asleep? {
        CountUpdate(IsHolding, s.clients[e.t := x], e.wake, Pool.Notified);
      }
    } else if PoolInv.OneClient(e) || e.Pass? {
      CountUpdate(IsHolding, s.clients, e.t, r.clients[e.t]);
    } else if e.TellAll? {
      CountImplies(IsHolding, r.clients, IsHolding, s.clients);
      CountImplies(IsHolding, s.clients, IsHolding, r.clients);
    }
  }

  // ---------------------------------------------------------------- invariant

  function On(p: Phase, i: nat): nat { if !p.Out? && p.at == i then 1 else 0 }
  function HeldAt(p: Phase, i: nat): nat { if p.Held? && p.at == i then 1 else 0 }

  /** How a thread's phase and its client in pool `i` fit together. */
  predicate Fits(p: Phase, i: nat, c: Pool.Client) {
    if p.Out? || p.at != i then c.Away?
    else match p
      case Borrowing(_) => !c.Releasing? && !c.Closing?
      case Held(_) => c.Holding?
      case Returning(_) => c.Releasing? || c.Closing? || c.Away?
      case Out => true
  }

  ghost predicate Coupled(s: State)
    requires Shape(s)
  {
    && (forall t :: 0 <= t < |s.threads| && !s.threads[t].Out? ==> s.threads[t].at < |s.pools|)
    && (forall i, t :: 0 <= i < |s.pools| && 0 <= t < |s.threads| ==> Fits(s.threads[t], i, s.pools[i].clients[t]))
  }

  /** The two counters of backend `i`. */
  ghost predicate Tallied(s: State, i: nat)
    requires Shape(s) && i < |s.pools|
  {
    && s.inFlight[i] == Tally(On, s.threads, i)
    && s.pools[i].borrows + Tally(HeldAt, s.threads, i) == s.handled[i] + Count(IsHolding, s.pools[i].clients)
  }

  ghost predicate Inv(s: State) {
    && Shape(s) && Coupled(s)
    && (forall i: nat :: i < |s.pools| ==> Tallied(s, i))
    && (forall i :: 0 <= i < |s.pools| ==> PoolInv.Inv(s.pools[i]))
  }

  lemma InitInv(weights: seq<nat>, opts: Pool.Config, threads: nat)
    ensures Inv(Init(weights, opts, threads))
  {
    var s := Init(weights, opts, threads);
    PoolInv.InitInv(opts, threads);
    forall i: nat | i < |s.pools| ensures Tallied(s, i) {
      TallyZero(On, s.threads, i);
      TallyZero(HeldAt, s.threads, i);
      CountBounds(IsHolding, s.pools[i].clients);
    }
  }

  /** A thread changes phase: the tallies move by what it was and what it is. */
  lemma PhaseMoves(threads: seq<Phase>, t: nat, p: Phase, i: nat)
    requires t < |threads|
    ensures Tally(On, threads[t := p], i) + On(threads[t], i) == Tally(On, threads, i) + On(p, i)
    ensures Tally(HeldAt, threads[t := p], i) + HeldAt(threads[t], i) == Tally(HeldAt, threads, i) + HeldAt(p, i)
  {
    TallyUpdate(On, threads, t, p, i);
    TallyUpdate(HeldAt, threads, t, p, i);
  }

  lemma OwnStepInv(s: State, e: Event)
    requires Inv(s) && Enabled(s, e) && (e.BorrowWon? || e.BorrowLost? || e.ReleaseDone?)
    ensures Inv(Apply(s, e))
  {
    var r := Apply(s, e);
    forall i: nat | i < |r.pools| ensures Tallied(r, i) {
      assert Tallied(s, i);
      PhaseMoves(s.threads, e.t, r.threads[e.t], i);
    }
  }

  lemma EntryStepInv(s: State, t: nat, k: nat, p: Phase, pe: Pool.Event, inFlight: nat)
    requires Inv(s) && t < |s.threads| && k < |s.pools| && Pool.Enabled(s.pools[k], pe)
    requires pe == Pool.Enter(t) || (pe.StartRelease? && pe.t == t)
    requires if pe.Enter? then s.threads[t].Out? && p == Borrowing(k) && inFlight == s.inFlight[k] + 1
             else s.threads[t] == Held(k) && p == Returning(k) && inFlight == s.inFlight[k]
    ensures Inv(s.(inFlight := s.inFlight[k := inFlight], threads := s.threads[t := p],
                   pools := s.pools[k := Pool.Apply(s.pools[k], pe)]))
  {
    var pool := Pool.Apply(s.pools[k], pe);
    var r := s.(inFlight := s.inFlight[k := inFlight], threads := s.threads[t := p], pools := s.pools[k := pool]);
    PoolInv.StepInv(s.pools[k], pe);
    CountUpdate(IsHolding, s.pools[k].clients, t, pool.clients[t]);
    assert Shape(r);
    forall i: nat | i < |r.pools| ensures Tallied(r, i) {
      assert Tallied(s, i);
      PhaseMoves(s.threads, t, p, i);
    }
  }

  lemma InsideStepInv(s: State, k: nat, pe: Pool.Event)
    requires Inv(s) && k < |s.pools| && IsInside(pe) && Pool.Enabled(s.pools[k], pe)
    ensures Inv(Apply(s, Inside(k, pe)))
  {
    var r := Apply(s, Inside(k, pe));
    PoolInv.StepInv(s.pools[k], pe);
    InsideIsLocal(s.pools[k], pe);
    BorrowsFollowHolding(s.pools[k], pe);
    assert Shape(r);
    forall i, t | 0 <= i < |r.pools| && 0 <= t < |r.threads| ensures Fits(r.threads[t], i, r.pools[i].clients[t]) {
      assert Fits(s.threads[t], i, s.pools[i].clients[t]);
    }
    forall i: nat | i < |r.pools| ensures Tallied(r, i) {
      assert Tallied(s, i);
    }
  }

  lemma ShutDownStepInv(s: State, k: nat)
    requires Inv(s) && k < |s.pools|
    ensures Inv(Apply(s, ShutDown(k)))
  {
    var r := Apply(s, ShutDown(k));
    PoolInv.StepInv(s.pools[k], Pool.Shutdown);
    forall i: nat | i < |r.pools| ensures Tallied(r, i) {
      assert Tallied(s, i);
    }
  }

  lemma StepInv(s: State, e: Event)
    requires Inv(s) && Enabled(s, e)
    ensures Inv(Apply(s, e))
  {
    if e.Choose? {
      var k := Pick(s.inFlight, s.weights);
      EntryStepInv(s, e.t, k, Borrowing(k), Pool.Enter(e.t), s.inFlight[k] + 1);
    } else if e.Release? {
      var k := s.threads[e.t].at;
      EntryStepInv(s, e.t, k, Returning(k), Pool.StartRelease(e.t, e.ok), s.inFlight[k]);
      assert s.inFlight[k := s.inFlight[k]] == s.inFlight;
    } else if e.Inside? {
      InsideStepInv(s, e.i, e.e);
    } else if e.ShutDown? {
      ShutDownStepInv(s, e.i);
    } else {
      OwnStepInv(s, e);
    }
  }

  // ---------------------------------------------------------------- every run

  predicate Valid(s: State, es: seq<Event>)
    decreases |es|
  {
    Shape(s) && (es != [] ==> Enabled(s, es[0]) && Valid(Apply(s, es[0]), es[1..]))
  }

  function Final(s: State, es: seq<Event>): State
    requires Valid(s, es)
    decreases |es|
  {
    if es == [] then s else Final(Apply(s, es[0]), es[1..])
  }

  lemma {:induction false} RunInv(s: State, es: seq<Event>)
    requires Inv(s) && Valid(s, es)
    ensures Inv(Final(s, es))
    decreases |es|
  {
    if es != [] {
      StepInv(s, es[0]);
      RunInv(Apply(s, es[0]), es[1..]);
    }
  }

  function BorrowingAt(p: Phase, i: nat): nat { if p.Borrowing? && p.at == i then 1 else 0 }
  function ReturningAt(p: Phase, i: nat): nat { if p.Returning? && p.at == i then 1 else 0 }

  lemma {:induction false} OnIsThreeWay(threads: seq<Phase>, i: nat)
    ensures Tally(On, threads, i) == Tally(BorrowingAt, threads, i) + Tally(HeldAt, threads, i) + Tally(ReturningAt, threads, i)
    ensures Tally(On, threads, i) <= |threads|
  {
    if threads != [] {
      OnIsThreeWay(threads[1..], i);
    }
  }

  /** In every interleaving a backend's load counter is the number of borrows in progress, handles
      out and releases in progress; it is never below the pool's own in_use, and it is
      positive whenever it is about to be decremented. */
  lemma LoadLeadsPool(weights: seq<nat>, opts: Pool.Config, threads: nat, es: seq<Event>, i: nat)
    requires Valid(Init(weights, opts, threads), es) && i < |weights|
    ensures var s := Final(Init(weights, opts, threads), es);
            && Shape(s) && |s.pools| == |weights|
            && s.inFlight[i] == Tally(BorrowingAt, s.threads, i) + Tally(HeldAt, s.threads, i) + Tally(ReturningAt, s.threads, i)
            && s.pools[i].core.inUse <= s.inFlight[i]
            && (forall t :: 0 <= t < |s.threads| && !s.threads[t].Out? && s.threads[t].at == i ==> s.inFlight[i] > 0)
  {
    var s := Final(Init(weights, opts, threads), es);
    InitInv(weights, opts, threads);
    RunInv(Init(weights, opts, threads), es);
    RunSize(Init(weights, opts, threads), es);
    assert Tallied(s, i);
    OnIsThreeWay(s.threads, i);
    forall t | 0 <= t < |s.threads| && Pool.IsCounted(s.pools[i].clients[t]) ensures On(s.threads[t], i) >= 1 {
      assert Fits(s.threads[t], i, s.pools[i].clients[t]);
    }
    CountAtMostTally(Pool.IsCounted, s.pools[i].clients, On, s.threads, i);
    TallyZero(On, s.threads, i);
  }

  lemma {:induction false} RunSize(s: State, es: seq<Event>)
    requires Valid(s, es)
    ensures |Final(s, es).pools| == |s.pools| && |Final(s, es).threads| == |s.threads| && Final(s, es).weights == s.weights
    decreases |es|
  {
    if es != [] {
      RunSize(Apply(s, es[0]), es[1..]);
    }
  }

  /** When every thread is out, all loads are zero and `handled` is exactly the number of
      successful borrows from each pool. */
  lemma QuiescentCounters(weights: seq<nat>, opts: Pool.Config, threads: nat, es: seq<Event>, i: nat)
    requires Valid(Init(weights, opts, threads), es) && i < |weights|
    requires var s := Final(Init(weights, opts, threads), es); forall t :: 0 <= t < |s.threads| ==> s.threads[t].Out?
    ensures var s := Final(Init(weights, opts, threads), es);
            Shape(s) && |s.pools| == |weights| && s.inFlight[i] == 0 && s.handled[i] == s.pools[i].borrows && s.pools[i].core.inUse == 0
  {
    var s := Final(Init(weights, opts, threads), es);
    InitInv(weights, opts, threads);
    RunInv(Init(weights, opts, threads), es);
    RunSize(Init(weights, opts, threads), es);
    assert Tallied(s, i);
    TallyZero(On, s.threads, i);
    TallyZero(HeldAt, s.threads, i);
    forall t | 0 <= t < |s.threads| ensures s.pools[i].clients[t].Away? {
      assert Fits(s.threads[t], i, s.pools[i].clients[t]);
    }
    CountBounds(IsHolding, s.pools[i].clients);
    CountBounds(Pool.IsCounted, s.pools[i].clients);
  }

  // ---------------------------------------------------------------- picks in a concurrent run

  /** As long as the number of threads times any weight fits 64 bits, a thread that is out can always pick, and
      every pick in every interleaving goes to a least loaded backend. */
  lemma ChoosesLeast(s: State, t: nat)
    requires Inv(s) && t < |s.threads| && s.threads[t].Out? && s.pools != []
    requires InRange(s)
    ensures Enabled(s, Choose(t))
    ensures Minimal(s.inFlight, s.weights, Pick(s.inFlight, s.weights))
    ensures Apply(s, Choose(t)).threads[t] == Borrowing(Pick(s.inFlight, s.weights))
  {
    forall i: nat, j: nat | i < |s.inFlight| && j < |s.weights| ensures Fits64(s.inFlight[i], s.weights[j]) {
      assert Tallied(s, i);
      OnIsThreeWay(s.threads, i);
      ProductWithin(s.inFlight[i], s.weights[j], |s.threads|, s.weights[j]);
    }
    PickIsMinimal(s.inFlight, s.weights);
    assert Fits(s.threads[t], Pick(s.inFlight, s.weights), s.pools[Pick(s.inFlight, s.weights)].clients[t]);
  }

  /** The backends picked along a run, in order. */
  function Choices(s: State, es: seq<Event>): seq<nat>
    requires Valid(s, es)
    decreases |es|
  {
    if es == [] then []
    else
      var rest := Choices(Apply(s, es[0]), es[1..]);
      if es[0].Choose? then [Pick(s.inFlight, s.weights)] + rest else rest
  }

  /** No borrow fails and no release completes. */
  predicate OnlyGrows(es: seq<Event>) {
    forall n :: 0 <= n < |es| ==> !es[n].BorrowLost? && !es[n].ReleaseDone?
  }

  /** The picks so far explain the loads. */
  ghost predicate Explained(s: State, history: seq<nat>) {
    Greedy(s.weights, history) && s.inFlight == Loads(|s.weights|, history)
  }

  /** No load there can ever be wraps against any weight. */
  predicate InRange(s: State) {
    forall i :: 0 <= i < |s.weights| ==> Fits64(|s.threads|, s.weights[i])
  }

  lemma StepExplained(s: State, e: Event, history: seq<nat>)
    requires Inv(s) && Enabled(s, e) && !e.BorrowLost? && !e.ReleaseDone? && InRange(s) && Explained(s, history)
    ensures Explained(Apply(s, e), if e.Choose? then history + [Pick(s.inFlight, s.weights)] else history)
    ensures InRange(Apply(s, e))
  {
    if e.Choose? {
      var longer := history + [Pick(s.inFlight, s.weights)];
      ChoosesLeast(s, e.t);
      assert longer[..|longer| - 1] == history;
    }
  }

  lemma {:induction false} RunIsGreedy(s: State, es: seq<Event>, history: seq<nat>)
    requires Inv(s) && Valid(s, es) && OnlyGrows(es) && InRange(s) && Explained(s, history)
    ensures Explained(Final(s, es), history + Choices(s, es))
    decreases |es|
  {
    if es == [] {
      assert history + [] == history;
    } else {
      var e, i := es[0], Pick(s.inFlight, s.weights);
      var longer := if e.Choose? then history + [i] else history;
      StepInv(s, e);
      StepExplained(s, e, history);
      RunIsGreedy(Apply(s, e), es[1..], longer);
      ChoicesCons(s, es, history);
    }
  }

  lemma ChoicesCons(s: State, es: seq<Event>, history: seq<nat>)
    requires Shape(s) && Valid(s, es) && es != []
    ensures var longer := if es[0].Choose? then history + [Pick(s.inFlight, s.weights)] else history;
            history + Choices(s, es) == longer + Choices(Apply(s, es[0]), es[1..])
  {
  }

  /** No load there can ever be wraps against any configured weight. */
  predicate Safe(weights: seq<nat>, threads: nat) {
    forall i :: 0 <= i < |weights| ==> Fits64(threads, Effective(weights)[i])
  }

  lemma RunExplained(weights: seq<nat>, opts: Pool.Config, threads: nat, es: seq<Event>)
    requires Valid(Init(weights, opts, threads), es) && OnlyGrows(es) && Safe(weights, threads)
    ensures var s0 := Init(weights, opts, threads);
            Final(s0, es).weights == Effective(weights) && Explained(Final(s0, es), Choices(s0, es))
  {
    var s0 := Init(weights, opts, threads);
    InitInv(weights, opts, threads);
    RunSize(s0, es);
    assert Explained(s0, []);
    RunIsGreedy(s0, es, []);
    assert [] + Choices(s0, es) == Choices(s0, es);
  }

  lemma PositiveStays(weights: seq<nat>)
    ensures (forall j :: 0 <= j < |weights| ==> weights[j] > 0) ==> Effective(weights) == weights
  {
  }

  /** The proportional-share bounds hold of every concurrent run in which no borrow fails and no handle is
      returned, whatever the interleaving of picks with dials, waits and sweeps: in the effective weights, which are
      the configured ones if these are positive. */
  lemma RunShare(weights: seq<nat>, opts: Pool.Config, threads: nat, es: seq<Event>, i: nat)
    requires Valid(Init(weights, opts, threads), es) && OnlyGrows(es) && Safe(weights, threads) && i < |weights|
    ensures |Final(Init(weights, opts, threads), es).inFlight| == |weights|
    ensures var f: int, N: int := Final(Init(weights, opts, threads), es).inFlight[i], |Choices(Init(weights, opts, threads), es)|;
            var w, W := Effective(weights)[i], Sum(Effective(weights));
            && (N - |weights| + 1) * w <= W * f && W * (f - 1) <= (N - 1) * w
            && ((forall j :: 0 <= j < |weights| ==> weights[j] > 0) ==>
                  (N - |weights| + 1) * weights[i] <= Sum(weights) * f && Sum(weights) * (f - 1) <= (N - 1) * weights[i])
  {
    RunExplained(weights, opts, threads, es);
    ProportionalShare(Effective(weights), Choices(Init(weights, opts, threads), es), i);
    PositiveStays(weights);
  }

  /** After `m` times the total weight choices every backend carries exactly `m` times its weight. */
  lemma RunExactShare(weights: seq<nat>, opts: Pool.Config, threads: nat, es: seq<Event>, m: nat)
    requires Valid(Init(weights, opts, threads), es) && OnlyGrows(es) && Safe(weights, threads)
    requires |Choices(Init(weights, opts, threads), es)| == m * Sum(Effective(weights))
    ensures var s := Final(Init(weights, opts, threads), es);
            && |s.inFlight| == |weights|
            && (forall i :: 0 <= i < |weights| ==> s.inFlight[i] == m * (if weights[i] == 0 then 1 else weights[i]))
  {
    RunExplained(weights, opts, threads, es);
    ExactShare(Effective(weights), Choices(Init(weights, opts, threads), es), m);
  }
}

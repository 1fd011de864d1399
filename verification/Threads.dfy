/** The main thread and the acceptor thread as the loops they are.  What a thread reads from the rest of the
    process is an argument; what it does is recorded as router events, and every path through its code
    is a path of the router machine. */
module Threads {
  import opened Counting
  import R = Router
  import H = Handler
  import TP = ThreadPool

  // ---------------------------------------------------------------- the two threads as automata

  /** Only main's own events move main or count a drop. */
  lemma OnlyMainMovesMain(s: R.State, e: R.Event)
    requires R.Shape(s) && R.Enabled(s, e)
    ensures R.IsMains(e) ==> R.NextMain(s.main, e, s.inFlight) == H.Some(R.Apply(s, e).main)
    ensures !R.IsMains(e) ==> R.Apply(s, e).main == s.main
    ensures !e.Drop? ==> R.Apply(s, e).dropped == s.dropped
  {
  }

  predicate IsAcceptors(e: R.Event) {
    e.Accept? || e.CountAccepted? || e.Offer? || e.OfferAgain? || e.CloseRefused? || e.TallyRefused? || e.AcceptorExit?
  }

  /** The acceptor's next point, when the next client to arrive is number `next` and the pool's answer to a pass
      through submit is `verdict`. */
  function NextAcceptor(a: R.Acceptor, e: R.Event, next: nat, verdict: TP.Submission): H.Option<R.Acceptor> {
    if a.Looping? && e.Accept? then H.Some(R.InHand(next))
    else if a.InHand? && e.CountAccepted? then H.Some(R.Offering(a.fd))
    else if (a.Offering? && e.Offer?) || (a.Waiting? && e.OfferAgain?) then
      H.Some(if verdict.Accepted? then R.Looping else if verdict.MustWait? then R.Waiting(a.fd) else R.Refused(a.fd))
    else if a.Refused? && e.CloseRefused? then H.Some(R.RefusedClosed(a.fd))
    else if a.RefusedClosed? && e.TallyRefused? then H.Some(R.Looping)
    else if a.Looping? && e.AcceptorExit? then H.Some(R.Exited)
    else H.None
  }

  /** What the pool answers a pass through submit; the answer does not depend on the task. */
  function Verdict(s: R.State): TP.Submission { TP.SubmitSection(s.pool.core, 0).1 }

  /** The machine moves the acceptor along this automaton, on the pool's own verdict, and no other thread moves it. */
  lemma MachineFollowsAcceptor(s: R.State, e: R.Event)
    requires R.Shape(s) && R.Enabled(s, e)
    ensures IsAcceptors(e) ==> NextAcceptor(s.acceptor, e, s.arrivals, Verdict(s)) == H.Some(R.Apply(s, e).acceptor)
    ensures !IsAcceptors(e) ==> R.Apply(s, e).acceptor == s.acceptor
  {
  }

  // ---------------------------------------------------------------- main

  /** One of main's events, with the value of in_flight it read where it reads it. */
  datatype Step = Step(e: R.Event, inFlight: nat)

  function Follow(m: R.Main, steps: seq<Step>): H.Option<R.Main> {
    if steps == [] then H.Some(m)
    else
      var last := steps[|steps| - 1];
      match Follow(m, steps[..|steps| - 1])
      case None => H.None
      case Some(n) => R.NextMain(n, last.e, last.inFlight)
  }

  /** The deadline is fixed by reading 0 of the clock and reading 1 may follow at once; each later reading comes
      after a sleep of twenty milliseconds or more. */
  ghost predicate Paced(clock: nat -> int) {
    && clock(0) <= clock(1)
    && forall m: nat, n: nat :: 1 <= m < n ==> clock(m) + 20 * (n - m) <= clock(n)
  }

  ghost predicate StillWaiting(inFlight: nat -> nat, clock: nat -> int, end: int, n: nat) {
    forall k :: 0 <= k < n ==> inFlight(k) > 0 && clock(k + 1) < end
  }

  /** After `n` turns round the loop at most the last sleep reaches beyond the deadline. */
  lemma SleepsBounded(inFlight: nat -> nat, clock: nat -> int, grace: nat, n: nat)
    requires Paced(clock) && StillWaiting(inFlight, clock, clock(0) + grace, n)
    ensures n <= 1 || 20 * (n - 1) < grace
  {
    if n > 1 {
      assert inFlight(n - 1) > 0;
    }
  }

  lemma OneMoreTurn(inFlight: nat -> nat, clock: nat -> int, end: int, n: nat)
    requires StillWaiting(inFlight, clock, end, n) && inFlight(n) > 0 && clock(n + 1) < end
    ensures StillWaiting(inFlight, clock, end, n + 1)
  {
  }

  lemma ClockAdvances(clock: nat -> int, n: nat)
    requires Paced(clock)
    ensures clock(n) <= clock(n + 1) && (n > 0 ==> clock(n) < clock(n + 1))
  {
  }

  /** What the loop has seen when it ends after `polls` readings of in_flight: something in flight and time left
      each time but the last, then zero or the deadline; and all its sleeps but the last fit into the grace period. */
  ghost predicate WaitedFor(inFlight: nat -> nat, clock: nat -> int, grace: nat, polls: nat) {
    && polls >= 1
    && StillWaiting(inFlight, clock, clock(0) + grace, polls - 1)
    && (inFlight(polls - 1) == 0 || clock(polls) >= clock(0) + grace)
    && (polls <= 2 || 20 * (polls - 2) < grace)
  }

  lemma LoopEnded(inFlight: nat -> nat, clock: nat -> int, grace: nat, polls: nat)
    requires Paced(clock) && polls >= 1 && StillWaiting(inFlight, clock, clock(0) + grace, polls - 1)
    requires inFlight(polls - 1) == 0 || clock(polls) >= clock(0) + grace
    ensures WaitedFor(inFlight, clock, grace, polls)
  {
    SleepsBounded(inFlight, clock, grace, polls - 1);
  }

  class MainThread {
    var steps: seq<Step>
    var dropped: nat
    ghost var at: R.Main

    ghost predicate Valid()
      reads this
    {
      Follow(R.Running, steps) == H.Some(at)
    }

    constructor ()
      ensures Valid() && at == R.Running && steps == [] && dropped == 0
    {
      steps, dropped, at := [], 0, R.Running;
    }

    method Do(e: R.Event, inFlight: nat)
      requires Valid() && R.NextMain(at, e, inFlight).Some?
      modifies this`steps, this`at
      ensures Valid() && at == R.NextMain(old(at), e, inFlight).value
    {
      var st := Step(e, inFlight);
      assert (steps + [st])[..|steps|] == steps;
      steps := steps + [st];
      at := R.NextMain(at, e, inFlight).value;
    }

    /** The polling loop.  `inFlight(k)` is the k-th reading of the counter and `clock(k)` the reading of the
        clock after it; `clock(0)` fixes the deadline. */
    method Poll(inFlight: nat -> nat, clock: nat -> int, grace: nat) returns (polls: nat)
      requires Valid() && at == R.Polling && Paced(clock)
      modifies this`steps, this`at
      ensures Valid() && at == R.Reviewing && WaitedFor(inFlight, clock, grace, polls)
    {
      var end := clock(0) + grace;
      polls := 0;
      while true
        invariant Valid() && at == R.Polling && StillWaiting(inFlight, clock, end, polls)
        decreases if polls == 0 then 1 else 0, end - clock(polls)
      {
        ClockAdvances(clock, polls);
        var some := inFlight(polls) > 0;
        Do(R.Poll, inFlight(polls));
        polls := polls + 1;
        if !some { break; }
        var late := clock(polls) >= end;
        Do(R.ReadClock(late), 0);
        if late { break; }
        OneMoreTurn(inFlight, clock, end, polls - 1);
      }
      LoopEnded(inFlight, clock, grace, polls);
    }

    /** Counting what is left as dropped. */
    method CountDropped(remaining: nat)
      requires Valid() && at == R.Counting && dropped == 0
      modifies this
      ensures Valid() && at == R.StopPool && dropped == remaining
    {
      Do(R.CountLeft, remaining);
      var i := 0;
      while i < remaining
        invariant 0 <= i <= remaining && Valid() && dropped == i
        invariant at == if i < remaining then R.Dropping(remaining - i) else R.StopPool
      {
        dropped := dropped + 1;
        Do(R.Drop, 0);
        i := i + 1;
      }
    }

    /** From the signal to the end of main.  The polling loop ends with a zero reading or past the deadline, within
        its share of the grace period; a drop is counted exactly for each request the third reading
        saw, if the second was not zero; and the whole is a path of main's automaton. */
    method Shutdown(inFlight: nat -> nat, clock: nat -> int, grace: nat) returns (polls: nat)
      requires Valid() && at == R.Running && dropped == 0 && Paced(clock)
      modifies this
      ensures Valid() && at == R.Finished && WaitedFor(inFlight, clock, grace, polls)
      ensures dropped == if inFlight(polls) > 0 then inFlight(polls + 1) else 0
    {
      Do(R.RequestShutdown, 0);
      Do(R.JoinAcceptor, 0);
      polls := Poll(inFlight, clock, grace);
      Do(R.Review, inFlight(polls));
      if inFlight(polls) > 0 {
        CountDropped(inFlight(polls + 1));
      }
      StopAll();
    }

    method StopAll()
      requires Valid() && at == R.StopPool
      modifies this`steps, this`at
      ensures Valid() && at == R.Finished
    {
      Do(R.Stop, 0);
      Do(R.NotifyWorkers, 0);
      Do(R.NotifySubmitters, 0);
      Do(R.Join, 0);
      Do(R.ShutBackends, 0);
    }
  }

  // ---------------------------------------------------------------- the acceptor

  /** What `accept4` returns.  For a client: how often the acceptor blocks in submit, and what submit
      finally returns. */
  datatype Accept4 = Client(blocks: nat, ok: bool) | WouldBlock | Interrupted | Failed

  /** What `epoll_wait` reports: the wake descriptor, or the listener with what accepting yields. */
  datatype Ready = WakeFd | Listener(results: seq<Accept4>)
  datatype Wait = WaitInterrupted | WaitFailed | Events(ready: seq<Ready>)

  /** The outcomes of submit for the clients one run of the accept loop takes, in order. */
  function Taken(results: seq<Accept4>): seq<bool> {
    if results == [] || results[0].WouldBlock? || results[0].Failed? then []
    else (if results[0].Client? then [results[0].ok] else []) + Taken(results[1..])
  }

  function TakenAll(ready: seq<Ready>): seq<bool> {
    if ready == [] then []
    else (if ready[0].Listener? then Taken(ready[0].results) else []) + TakenAll(ready[1..])
  }

  /** All clients taken until the stop flag is seen or waiting fails.  `waits[k]` is the k-th wait, made if
      the flag was not seen before it; a script that runs out stands for the flag being seen. */
  function TakenUntilStop(waits: seq<Wait>): seq<bool> {
    if waits == [] || waits[0].WaitFailed? then []
    else (if waits[0].Events? then TakenAll(waits[0].ready) else []) + TakenUntilStop(waits[1..])
  }

  lemma ResultsCons(results: seq<Accept4>, k: nat, oks: seq<bool>)
    requires k < |results|
    ensures var rest := Taken(results[k + 1..]);
            oks + Taken(results[k..]) ==
            if results[k].WouldBlock? || results[k].Failed? then oks else if results[k].Client? then oks + [results[k].ok] + rest else oks + rest
  {
    assert results[k..][0] == results[k] && results[k..][1..] == results[k + 1..];
  }

  lemma ReadyCons(ready: seq<Ready>, k: nat, oks: seq<bool>)
    requires k < |ready|
    ensures var rest := TakenAll(ready[k + 1..]);
            oks + TakenAll(ready[k..]) == if ready[k].Listener? then oks + Taken(ready[k].results) + rest else oks + rest
  {
    assert ready[k..][0] == ready[k] && ready[k..][1..] == ready[k + 1..];
  }

  lemma WaitsCons(waits: seq<Wait>, k: nat, oks: seq<bool>)
    requires k < |waits|
    ensures var rest := TakenUntilStop(waits[k + 1..]);
            oks + TakenUntilStop(waits[k..]) ==
            if waits[k].WaitFailed? then oks else if waits[k].Events? then oks + TakenAll(waits[k].ready) + rest else oks + rest
  {
    assert waits[k..][0] == waits[k] && waits[k..][1..] == waits[k + 1..];
  }

  /** The positions, counted from the first client on, whose submit returned `b`. */
  function Where(oks: seq<bool>, b: bool): seq<nat> {
    if oks == [] then []
    else Where(oks[..|oks| - 1], b) + (if oks[|oks| - 1] == b then [|oks| - 1] else [])
  }

  /** Every client accepted was either handed to the pool or closed, exactly once. */
  lemma {:induction false} EachHandedOrClosed(oks: seq<bool>, c: nat)
    ensures Tally(IsId, Where(oks, true), c) + Tally(IsId, Where(oks, false), c) == if c < |oks| then 1 else 0
  {
    if oks != [] {
      var n: nat := |oks| - 1;
      EachHandedOrClosed(oks[..n], c);
      TallySnoc(IsId, Where(oks[..n], oks[n]), n, c);
      assert Where(oks, oks[n]) == Where(oks[..n], oks[n]) + [n] && Where(oks, !oks[n]) == Where(oks[..n], !oks[n]);
    }
  }

  /** Exactly the clients whose submit returned `b`, in order of arrival. */
  lemma {:induction false} WhereIs(oks: seq<bool>, b: bool)
    ensures Selects(Where(oks, b), oks, ok => ok == b)
  {
    if oks != [] {
      var n := |oks| - 1;
      WhereIs(oks[..n], b);
      WhereSnoc(oks[..n], oks[n], b);
      assert oks == oks[..n] + [oks[n]];
      SelectsSnoc(Where(oks[..n], b), oks[..n], oks[n], ok => ok == b);
    }
  }

  lemma WhereSnoc(oks: seq<bool>, ok: bool, b: bool)
    ensures Where(oks + [ok], b) == if ok == b then Where(oks, b) + [|oks|] else Where(oks, b)
  {
    assert (oks + [ok])[..|oks|] == oks;
  }

  // The clients taken, without recursion: what the accept loop, the event loop and the wait loop make of their scripts.

  predicate IsClient(r: Accept4) { r.Client? }
  predicate EndsLoop(r: Accept4) { r.WouldBlock? || r.Failed? }

  /** The accept loop takes the clients among the first `n` results and no other, if the first result that ends it is
      number `n`, or there is none; interruptions are passed over. */
  lemma {:induction false} TakenExactly(results: seq<Accept4>, n: nat)
    requires n <= |results| && (forall i :: 0 <= i < n ==> !EndsLoop(results[i])) && (n == |results| || EndsLoop(results[n]))
    ensures |Taken(results)| == Count(IsClient, results[..n])
    ensures forall i :: 0 <= i < n && results[i].Client? ==>
              Count(IsClient, results[..i]) < |Taken(results)| && Taken(results)[Count(IsClient, results[..i])] == results[i].ok
  {
    if n > 0 {
      TakenExactly(results[1..], n - 1);
      forall i | 0 <= i <= n ensures Count(IsClient, results[..i]) == (if i > 0 && results[0].Client? then 1 else 0)
                                                                     + (if i > 0 then Count(IsClient, results[1..][..i - 1]) else 0)
      {
        if i > 0 { assert results[..i][1..] == results[1..][..i - 1]; }
      }
    }
  }

  /** Events are dispatched one after the other; the wake descriptor takes nobody. */
  lemma {:induction false} TakenAllConcat(a: seq<Ready>, b: seq<Ready>)
    ensures TakenAll(a + b) == TakenAll(a) + TakenAll(b)
  {
    if a == [] {
      assert a + b == b;
    } else {
      assert (a + b)[1..] == a[1..] + b;
      TakenAllConcat(a[1..], b);
    }
  }

  lemma TakenByOne(results: seq<Accept4>)
    ensures TakenAll([WakeFd]) == [] && TakenAll([Listener(results)]) == Taken(results)
  {
    assert [Listener(results)][1..] == [] && [WakeFd][1..] == [];
  }

  /** Waits follow each other until one fails; an interrupted one takes nobody. */
  lemma {:induction false} TakenUntilFailure(a: seq<Wait>, b: seq<Wait>)
    requires forall i :: 0 <= i < |a| ==> !a[i].WaitFailed?
    ensures TakenUntilStop(a + [WaitFailed] + b) == TakenUntilStop(a)
    ensures TakenUntilStop(a + b) == TakenUntilStop(a) + TakenUntilStop(b)
  {
    if a == [] {
      assert a + [WaitFailed] + b == [WaitFailed] + b && a + b == b;
    } else {
      assert (a + [WaitFailed] + b)[1..] == a[1..] + [WaitFailed] + b && (a + b)[1..] == a[1..] + b;
      TakenUntilFailure(a[1..], b);
    }
  }

  lemma TakenInOneWait(ready: seq<Ready>)
    ensures TakenUntilStop([WaitInterrupted]) == [] && TakenUntilStop([Events(ready)]) == TakenAll(ready)
  {
    assert [Events(ready)][1..] == [] && [WaitInterrupted][1..] == [];
  }

  class AcceptorThread {
    var accepted: nat
    var errored: nat
    var handed: seq<nat>
    var closed: seq<nat>
    ghost var oks: seq<bool>
    ghost var at: R.Acceptor

    /** Between two clients; `oks` is how submit ended for each client so far. */
    ghost predicate Valid()
      reads this
    {
      && at == R.Looping && accepted == |oks| && errored == |closed|
      && handed == Where(oks, true) && closed == Where(oks, false)
    }

    constructor ()
      ensures Valid() && oks == []
    {
      accepted, errored, handed, closed := 0, 0, [], [];
      oks, at := [], R.Looping;
    }

    ghost method Do(e: R.Event, verdict: TP.Submission)
      requires NextAcceptor(at, e, accepted, verdict).Some?
      modifies this`at
      ensures at == NextAcceptor(old(at), e, accepted, verdict).value
    {
      at := NextAcceptor(at, e, accepted, verdict).value;
    }

    /** The call of submit, which blocks as often as the pool is full. */
    method Submit(fd: nat, blocks: nat, ok: bool)
      requires at == R.Offering(fd)
      modifies this`at
      ensures at == if ok then R.Looping else R.Refused(fd)
    {
      ghost var offer := R.Offer(0);
      var i := 0;
      while i < blocks
        invariant at == (if offer.Offer? then R.Offering(fd) else R.Waiting(fd)) && (offer.Offer? || offer.OfferAgain?)
      {
        Do(offer, TP.MustWait);
        offer := R.OfferAgain(0);
        i := i + 1;
      }
      Do(offer, if ok then TP.Accepted else TP.Refused);
    }

    /** Count the client and run the accept callback on it. */
    method TakeClient(blocks: nat, ok: bool)
      requires Valid()
      modifies this
      ensures Valid() && oks == old(oks) + [ok] && accepted == old(accepted) + 1
      ensures ok ==> handed == old(handed) + [old(accepted)] && closed == old(closed) && errored == old(errored)
      ensures !ok ==> closed == old(closed) + [old(accepted)] && handed == old(handed) && errored == old(errored) + 1
    {
      WhereSnoc(oks, ok, true);
      WhereSnoc(oks, ok, false);
      var fd := accepted;
      Do(R.Accept, TP.Accepted);
      Do(R.CountAccepted, TP.Accepted);
      accepted := accepted + 1;
      Submit(fd, blocks, ok);
      if ok {
        handed := handed + [fd];
      } else {
        closed := closed + [fd];
        Do(R.CloseRefused, TP.Accepted);
        errored := errored + 1;
        Do(R.TallyRefused, TP.Accepted);
      }
      oks := oks + [ok];
    }

    /** Accept until there is nobody left. */
    method Drain(results: seq<Accept4>)
      requires Valid()
      modifies this
      ensures Valid() && oks == old(oks) + Taken(results)
    {
      var k := 0;
      while k < |results|
        invariant 0 <= k <= |results| && Valid()
        invariant oks + Taken(results[k..]) == old(oks) + Taken(results)
      {
        ResultsCons(results, k, oks);
        if results[k].WouldBlock? || results[k].Failed? { return; }
        if results[k].Client? {
          TakeClient(results[k].blocks, results[k].ok);
        }
        k := k + 1;
      }
      assert oks + [] == oks;
    }

    method Dispatch(ready: seq<Ready>)
      requires Valid()
      modifies this
      ensures Valid() && oks == old(oks) + TakenAll(ready)
    {
      var k := 0;
      while k < |ready|
        invariant 0 <= k <= |ready| && Valid()
        invariant oks + TakenAll(ready[k..]) == old(oks) + TakenAll(ready)
      {
        ReadyCons(ready, k, oks);
        if ready[k].Listener? {
          Drain(ready[k].results);
        }
        k := k + 1;
      }
      assert oks + [] == oks;
    }

    method Watch(waits: seq<Wait>)
      requires Valid() && oks == []
      modifies this
      ensures Valid() && oks == TakenUntilStop(waits)
    {
      var k := 0;
      while k < |waits|
        invariant 0 <= k <= |waits| && Valid()
        invariant oks + TakenUntilStop(waits[k..]) == TakenUntilStop(waits)
      {
        WaitsCons(waits, k, oks);
        if waits[k].WaitFailed? { break; }
        if waits[k].Events? {
          Dispatch(waits[k].ready);
        }
        k := k + 1;
      }
      assert oks + [] == oks;
    }

    /** `loop_`: every client taken before the flag is seen is counted; those whose submit succeeded are handed
        over, the others closed and counted as errored, both in order of arrival. */
    method Loop(waits: seq<Wait>)
      requires Valid() && oks == []
      modifies this
      ensures at == R.Exited && oks == TakenUntilStop(waits) && accepted == |oks| && errored == |closed|
      ensures Selects(handed, oks, ok => ok) && Selects(closed, oks, ok => !ok)
    {
      Watch(waits);
      WhereIs(oks, true);
      WhereIs(oks, false);
      assert Selects(handed, oks, ok => ok) && Selects(closed, oks, ok => !ok);
      Do(R.AcceptorExit, TP.Accepted);
    }
  }
}

/** What every step of the drain protocol keeps. */
module RouterInvariants {
  import opened Counting
  import opened Router
  import TP = ThreadPool
  import H = Handler

  // ---------------------------------------------------------------- the invariant

  predicate StageFits(w: TP.Worker<nat>, st: Stage) {
    if w.Running? then st.Serving? && st.fd == w.task else st.Idle?
  }

  predicate SubmitterFits(a: Acceptor, p: TP.Submitter<nat>) {
    if a.Waiting? then !p.Away? && p.task == a.fd else p.Away?
  }

  /** The worker pool and the threads that use it agree on who is where. */
  ghost predicate Linked(s: State) {
    && Shape(s)
    && (forall w :: 0 <= w < |s.stages| ==> StageFits(s.pool.workers[w], s.stages[w]))
    && SubmitterFits(s.acceptor, s.pool.submitters[0])
    && !s.pool.core.reject && s.pool.core.drain
  }

  predicate Accepting(m: Main) { m.Running? || m.AwaitAcceptor? }
  predicate InLoop(m: Main) { m.Polling? || m.Clock? }
  predicate Stopped(m: Main) { m.TellWorkers? || m.TellSubmitters? || m.JoinWorkers? || m.CloseBackends? || m.Finished? }

  /** Shutdown happens in main's order: the acceptor is gone before the pool is stopped, so no
      submit is ever refused, and the workers are gone before the backends are shut. */
  ghost predicate Ordered(s: State) {
    && !s.acceptor.Refused? && !s.acceptor.RefusedClosed?
    && (s.pool.core.stop <==> Stopped(s.main))
    && (Accepting(s.main) || s.acceptor.Exited?)
    && (s.main.CloseBackends? || s.main.Finished? ==> forall w :: 0 <= w < |s.pool.workers| ==> s.pool.workers[w].Exited?)
  }

  /** Accepted and counted by the acceptor, not yet in the queue. */
  function Offered(a: Acceptor): nat { if a.Offering? || a.Waiting? || a.Refused? || a.RefusedClosed? then 1 else 0 }

  /** Conservation of requests, and what in_flight counts. */
  ghost predicate Conserved(s: State) {
    && s.accepted == s.completed + s.errored + Offered(s.acceptor) + |s.pool.core.queue| + Count(IsUntallied, s.stages)
    && s.arrivals == s.accepted + (if s.acceptor.InHand? then 1 else 0)
    && s.inFlight == Count(IsInFlight, s.stages)
  }

  function HandFd(a: Acceptor, c: nat): nat {
    if (a.InHand? || a.Offering? || a.Waiting? || a.Refused?) && a.fd == c then 1 else 0
  }

  function Places(s: State, c: nat): nat {
    HandFd(s.acceptor, c) + Tally(IsId, s.pool.core.queue, c) + Tally(OpenFd, s.stages, c) + Tally(IsId, s.closed, c)
  }

  /** Every client connection is in exactly one place. */
  ghost predicate Owned(s: State) {
    forall c: nat :: Places(s, c) == if c < s.arrivals then 1 else 0
  }

  predicate Quiet(st: Stage) { st.Idle? || st.at.Done? }

  /** Nothing is left to do, and nothing can come. */
  ghost predicate Calm(s: State) {
    && s.acceptor.Exited? && s.pool.core.queue == []
    && forall w :: 0 <= w < |s.stages| ==> Quiet(s.stages[w])
  }

  /** How many drops there can be, and what must have happened for there to be any. */
  ghost predicate DropsExplained(s: State) {
    && (Accepting(s.main) || InLoop(s.main) ==> !s.expired && !s.leftover)
    && (Accepting(s.main) || InLoop(s.main) || s.main.Reviewing? || s.main.Counting? ==> s.dropped == 0)
    && s.dropped + (if s.main.Dropping? then s.main.left else 0) <= |s.stages|
    && (!Accepting(s.main) && !InLoop(s.main) && !s.expired && !s.leftover
        ==> Calm(s) && s.dropped == 0 && !s.main.Counting? && !s.main.Dropping?)
  }

  ghost predicate Base(s: State) {
    TP.Inv(s.pool) && Linked(s) && Ordered(s) && Conserved(s) && Owned(s) && DropsExplained(s)
  }

  predicate HasFd(a: Acceptor) { a.InHand? || a.Offering? || a.Waiting? || a.Refused? || a.RefusedClosed? }

  /** Clients are submitted in order of arrival, none left out and none twice: those submitted are all that have
      arrived, but for the one in the acceptor's hand. */
  ghost predicate Numbered(s: State) {
    if HasFd(s.acceptor) then s.arrivals > 0 && s.acceptor.fd == s.arrivals - 1 && s.pool.accepted == Upto(s.arrivals - 1)
    else s.pool.accepted == Upto(s.arrivals)
  }

  ghost predicate Inv(s: State) { Base(s) && Numbered(s) }

  // ---------------------------------------------------------------- how one stage moves the tallies

  lemma StageMoves(stages: seq<Stage>, w: nat, x: Stage)
    requires w < |stages|
    ensures Count(IsUntallied, stages[w := x]) == Count(IsUntallied, stages) - (if IsUntallied(stages[w]) then 1 else 0) + (if IsUntallied(x) then 1 else 0)
    ensures Count(IsInFlight, stages[w := x]) == Count(IsInFlight, stages) - (if IsInFlight(stages[w]) then 1 else 0) + (if IsInFlight(x) then 1 else 0)
    ensures forall c :: Tally(OpenFd, stages[w := x], c) + OpenFd(stages[w], c) == Tally(OpenFd, stages, c) + OpenFd(x, c)
  {
    CountUpdate(IsUntallied, stages, w, x);
    CountUpdate(IsInFlight, stages, w, x);
    forall c: nat ensures Tally(OpenFd, stages[w := x], c) + OpenFd(stages[w], c) == Tally(OpenFd, stages, c) + OpenFd(x, c) {
      TallyUpdate(OpenFd, stages, w, x, c);
    }
  }

  /** A step that moves no client descriptor. */
  lemma SamePlaces(s: State, r: State)
    requires Owned(s) && r.arrivals == s.arrivals
    requires forall c: nat :: Places(r, c) == Places(s, c)
    ensures Owned(r)
  {
    forall c: nat ensures Places(r, c) == if c < r.arrivals then 1 else 0 {
      assert Places(s, c) == if c < s.arrivals then 1 else 0;
    }
  }

  // ---------------------------------------------------------------- the acceptor's steps

  lemma AcceptorInv(s: State, e: Event)
    requires Base(s) && Enabled(s, e) && (e.Accept? || e.CountAccepted? || e.AcceptorExit?)
    ensures Base(Apply(s, e))
  {
    var r := Apply(s, e);
    forall c: nat ensures Places(r, c) == if c < r.arrivals then 1 else 0 {
      assert Places(s, c) == if c < s.arrivals then 1 else 0;
    }
  }

  /** Before the stop flag a pass through submit pushes or blocks; it is never refused. */
  lemma OfferOutcome(s: State, e: Event)
    requires Linked(s) && Ordered(s) && Enabled(s, e) && (e.Offer? || e.OfferAgain?)
    ensures var r, fd := Apply(s, e), s.acceptor.fd;
            && Linked(r) && r.pool.core.stop == s.pool.core.stop
            && r == s.(pool := r.pool, acceptor := r.acceptor)
            && (if |s.pool.core.queue| < s.pool.core.depth
                then r.acceptor == Looping && r.pool.core.queue == s.pool.core.queue + [fd] && r.pool.accepted == s.pool.accepted + [fd]
                else r.acceptor == Waiting(fd) && r.pool.core.queue == s.pool.core.queue && r.pool.accepted == s.pool.accepted)
            && |r.pool.workers| == |s.pool.workers|
  {
  }

  lemma OfferInv(s: State, e: Event)
    requires Base(s) && Enabled(s, e) && (e.Offer? || e.OfferAgain?)
    ensures Base(Apply(s, e))
  {
    var r := Apply(s, e);
    OfferOutcome(s, e);
    TP.StepInv(s.pool, if e.Offer? then TP.Submit(0, s.acceptor.fd, e.wake) else TP.Resubmit(0, e.wake));
    forall c: nat ensures Places(r, c) == Places(s, c) {
      TallySnoc(IsId, s.pool.core.queue, s.acceptor.fd, c);
    }
    SamePlaces(s, r);
  }

  lemma StirInv(s: State, e: Event)
    requires Base(s) && Enabled(s, e) && (e.StirAcceptor? || e.StirWorker?)
    ensures Base(Apply(s, e))
  {
    var r := Apply(s, e);
    TP.StepInv(s.pool, if e.StirAcceptor? then TP.StirSubmitter(0) else TP.StirWorker(e.w));
    SamePlaces(s, r);
  }

  // ---------------------------------------------------------------- the workers' steps

  /** A worker takes the head of the queue, quits or goes to sleep. */
  lemma FetchOutcome(s: State, w: nat, wake: nat)
    requires Linked(s) && Enabled(s, Fetch(w, wake))
    ensures var r := Apply(s, Fetch(w, wake));
            && Linked(r) && r.pool.core.stop == s.pool.core.stop && s.stages[w].Idle?
            && r == s.(pool := r.pool, stages := r.stages)
            && (if s.pool.core.queue == []
                then r.pool.core.queue == [] && r.stages == s.stages
                else r.pool.core.queue == s.pool.core.queue[1..]
                     && r.stages == s.stages[w := Serving(s.pool.core.queue[0], H.Popped)])
            && (forall v :: 0 <= v < |s.stages| && s.pool.workers[v].Exited? ==> r.pool.workers[v].Exited?)
  {
    assert StageFits(s.pool.workers[w], s.stages[w]);
  }

  lemma FetchPoolInv(s: State, w: nat, wake: nat)
    requires Shape(s) && TP.Inv(s.pool) && Enabled(s, Fetch(w, wake))
    ensures TP.Inv(Apply(s, Fetch(w, wake)).pool)
  {
    TP.StepInv(s.pool, TP.Take(w, wake));
  }

  lemma FetchInv(s: State, w: nat, wake: nat)
    requires Base(s) && Enabled(s, Fetch(w, wake))
    ensures Base(Apply(s, Fetch(w, wake)))
  {
    var r := Apply(s, Fetch(w, wake));
    FetchOutcome(s, w, wake);
    FetchPoolInv(s, w, wake);
    if s.pool.core.queue != [] {
      StageMoves(s.stages, w, r.stages[w]);
    }
    SamePlaces(s, r);
  }

  lemma WorkCounts(s: State, w: nat, act: H.Act)
    requires Conserved(s) && Shape(s) && Enabled(s, Work(w, act))
    ensures Conserved(Apply(s, Work(w, act)))
    ensures forall c: nat :: Places(Apply(s, Work(w, act)), c) == Places(s, c)
  {
    var r := Apply(s, Work(w, act));
    H.OneStep(s.stages[w].at, act);
    StageMoves(s.stages, w, r.stages[w]);
    forall c: nat ensures Places(r, c) == Places(s, c) {
      TallySnoc(IsId, s.closed, s.stages[w].fd, c);
    }
  }

  lemma WorkInv(s: State, w: nat, act: H.Act)
    requires Base(s) && Enabled(s, Work(w, act))
    ensures Base(Apply(s, Work(w, act)))
  {
    var r := Apply(s, Work(w, act));
    WorkCounts(s, w, act);
    H.OneStep(s.stages[w].at, act);
    SamePlaces(s, r);
    assert Linked(r);
    assert Ordered(r);
  }

  lemma ReturnInv(s: State, w: nat)
    requires Base(s) && Enabled(s, Return(w))
    ensures Base(Apply(s, Return(w)))
  {
    var r := Apply(s, Return(w));
    TP.StepInv(s.pool, TP.Finish(w));
    StageMoves(s.stages, w, Idle);
    SamePlaces(s, r);
  }

  // ---------------------------------------------------------------- main's steps

  /** Reading zero with nothing unseen means that there is nothing left. */
  lemma ZeroMeansCalm(s: State)
    requires Conserved(s) && s.acceptor.Exited? && s.inFlight <= 0 && !Unseen(s)
    ensures Calm(s)
  {
    CountBounds(IsInFlight, s.stages);
    CountBounds(IsPopped, s.stages);
  }

  lemma CalmMeansZero(s: State)
    requires Calm(s) && Conserved(s)
    ensures s.inFlight == 0
  {
    CountBounds(IsInFlight, s.stages);
  }

  predicate IsCounting(e: Event) {
    e.RequestShutdown? || e.JoinAcceptor? || e.Poll? || e.ReadClock? || e.Review? || e.CountLeft? || e.Drop?
  }

  /** The steps of the poll loop and of the drop count touch nothing but main and its own records. */
  lemma CountingFrame(s: State, e: Event)
    requires Shape(s) && Enabled(s, e) && IsCounting(e)
    ensures var r := Apply(s, e); r == s.(main := r.main, expired := r.expired, leftover := r.leftover, dropped := r.dropped)
  {
  }

  lemma LoopDrops(s: State, e: Event)
    requires Shape(s) && Ordered(s) && Conserved(s) && DropsExplained(s) && Enabled(s, e)
    requires e.RequestShutdown? || e.JoinAcceptor? || e.Poll? || e.ReadClock?
    ensures DropsExplained(Apply(s, e)) && Ordered(Apply(s, e))
  {
    if e.Poll? && s.inFlight <= 0 && !Unseen(s) {
      ZeroMeansCalm(s);
    }
  }

  lemma ReviewDrops(s: State, e: Event)
    requires Shape(s) && Ordered(s) && Conserved(s) && DropsExplained(s) && Enabled(s, e) && (e.Review? || e.CountLeft?)
    ensures DropsExplained(Apply(s, e)) && Ordered(Apply(s, e))
  {
    CountBounds(IsInFlight, s.stages);
    if Calm(s) {
      CalmMeansZero(s);
    }
  }

  lemma DropDrops(s: State)
    requires Shape(s) && Ordered(s) && DropsExplained(s) && Enabled(s, Drop)
    ensures DropsExplained(Apply(s, Drop)) && Ordered(Apply(s, Drop))
  {
  }

  lemma CountingInv(s: State, e: Event)
    requires Base(s) && Enabled(s, e) && IsCounting(e)
    ensures Base(Apply(s, e))
  {
    if e.Drop? {
      DropDrops(s);
    } else if e.Review? || e.CountLeft? {
      ReviewDrops(s, e);
    } else {
      LoopDrops(s, e);
    }
    CountingFrame(s, e);
    SamePlaces(s, Apply(s, e));
  }

  /** Main's steps on the pool leave the queue and the stages alone. */
  lemma StopOutcome(s: State, e: Event)
    requires Linked(s) && Enabled(s, e) && (e.Stop? || e.NotifyWorkers? || e.NotifySubmitters?)
    ensures var r := Apply(s, e);
            && Linked(r) && r.pool.core.stop && r.pool.core.queue == s.pool.core.queue
            && r == s.(pool := r.pool, main := r.main)
            && |r.pool.workers| == |s.pool.workers|
  {
  }

  lemma StopPoolInv(s: State, e: Event)
    requires Shape(s) && TP.Inv(s.pool) && Enabled(s, e) && (e.Stop? || e.NotifyWorkers? || e.NotifySubmitters?)
    ensures TP.Inv(Apply(s, e).pool)
  {
    TP.StepInv(s.pool, if e.Stop? then TP.SetStop(true) else if e.NotifyWorkers? then TP.TellWorkers else TP.TellSubmitters);
  }

  lemma StoppingInv(s: State, e: Event)
    requires Base(s) && Enabled(s, e) && (e.Stop? || e.NotifyWorkers? || e.NotifySubmitters?)
    ensures Base(Apply(s, e))
  {
    StopOutcome(s, e);
    StopPoolInv(s, e);
    SamePlaces(s, Apply(s, e));
  }

  lemma EndingInv(s: State, e: Event)
    requires Base(s) && Enabled(s, e) && (e.Join? || e.ShutBackends?)
    ensures Base(Apply(s, e))
  {
    SamePlaces(s, Apply(s, e));
  }

  // ---------------------------------------------------------------- every run

  lemma InitInv(tls: bool, threads: nat, depth: nat)
    ensures Inv(Init(tls, threads, depth))
  {
    var s := Init(tls, threads, depth);
    TP.InitInv<nat>(threads, 1, depth, false);
    CountBounds(IsUntallied, s.stages);
    CountBounds(IsInFlight, s.stages);
    forall c: nat ensures Places(s, c) == 0 {
      TallyZero(OpenFd, s.stages, c);
    }
  }

  lemma OfferNumbered(s: State, e: Event)
    requires Linked(s) && Ordered(s) && Numbered(s) && Enabled(s, e) && (e.Offer? || e.OfferAgain?)
    ensures Numbered(Apply(s, e))
  {
    OfferOutcome(s, e);
  }

  /** Apart from an offer the worker pool's steps submit nothing. */
  lemma SameSubmitted(s: State, e: Event)
    requires Shape(s) && Enabled(s, e) && (e.StirAcceptor? || e.Fetch? || e.StirWorker? || e.Return? || e.Stop? || e.NotifyWorkers? || e.NotifySubmitters?)
    ensures Apply(s, e).pool.accepted == s.pool.accepted && Apply(s, e).acceptor == s.acceptor && Apply(s, e).arrivals == s.arrivals
  {
  }

  predicate TouchesPool(e: Event) {
    e.Offer? || e.OfferAgain? || e.StirAcceptor? || e.Fetch? || e.StirWorker? || e.Return? || e.Stop? || e.NotifyWorkers? || e.NotifySubmitters?
  }

  lemma SamePool(s: State, e: Event)
    requires Shape(s) && Enabled(s, e) && !TouchesPool(e)
    ensures Apply(s, e).pool == s.pool
    ensures !e.Accept? ==> Apply(s, e).arrivals == s.arrivals
    ensures e.Work? || IsCounting(e) || e.Join? || e.ShutBackends? ==> Apply(s, e).acceptor == s.acceptor
  {
  }

  lemma NumberedStep(s: State, e: Event)
    requires Linked(s) && Ordered(s) && Numbered(s) && Enabled(s, e)
    ensures Numbered(Apply(s, e))
  {
    if e.Offer? || e.OfferAgain? {
      OfferNumbered(s, e);
    } else if TouchesPool(e) {
      SameSubmitted(s, e);
    } else {
      SamePool(s, e);
    }
  }

  lemma StepInv(s: State, e: Event)
    requires Inv(s) && Enabled(s, e)
    ensures Inv(Apply(s, e))
  {
    NumberedStep(s, e);
    if e.Accept? || e.CountAccepted? || e.AcceptorExit? {
      AcceptorInv(s, e);
    } else if e.Offer? || e.OfferAgain? {
      OfferInv(s, e);
    } else if e.StirAcceptor? || e.StirWorker? {
      StirInv(s, e);
    } else if e.Fetch? {
      FetchInv(s, e.w, e.wake);
    } else if e.Work? {
      WorkInv(s, e.w, e.act);
    } else if e.Return? {
      ReturnInv(s, e.w);
    } else if IsCounting(e) {
      CountingInv(s, e);
    } else if e.Join? || e.ShutBackends? {
      EndingInv(s, e);
    } else {
      StoppingInv(s, e);
    }
  }

  lemma {:induction false} RunInv(s: State, es: seq<Event>)
    requires Inv(s) && Valid(s, es)
    ensures Inv(Final(s, es))
    decreases |es|
  {
    if es != [] {
      StepInv(s, es[0]);
      RunInv(Apply(s, es[0]), es[1..]);
    }
  }
}

/** From the stop flag to the end of main: every run is finite, and none can get stuck on the way. */
module RouterDrain {
  import opened Counting
  import opened Router
  import opened RouterInvariants
  import opened RouterTheorems
  import TP = ThreadPool
  import H = Handler

  // ---------------------------------------------------------------- a measure

  /** How many actions a request has left at most. */
  function ActsLeft(p: H.Point): nat {
    match p
    case Popped => 14
    case Counted => 13
    case Shaken => 12
    case Asking => 11
    case Borrowing => 10
    case Connected => 9
    case Asked => 8
    case Answered => 7
    case Failing(_) => 6
    case HandingBack(_, _) => 5
    case Returning(_) => 4
    case Judged(_, _) => 3
    case Tallied => 2
    case Leaving => 1
    case Done => 0
  }

  function StageLeft(st: Stage): nat { if st.Serving? then ActsLeft(st.at) else 0 }

  function MainLeft(m: Main): nat {
    if m.TellWorkers? then 4 else if m.TellSubmitters? then 3 else if m.JoinWorkers? then 2 else if m.CloseBackends? then 1 else 0
  }

  /** Steps left in a stopped router: sixteen for each queued task, what each running request has left, and
      what each worker and main have to do themselves. */
  function Left(s: State): nat {
    16 * |s.pool.core.queue| + Total(StageLeft, s.stages) + Total(TP.Rank<nat>, s.pool.workers) + MainLeft(s.main)
  }

  lemma ActLowers(p: H.Point, a: H.Act)
    requires H.Advance(p, a).Some?
    ensures ActsLeft(H.Advance(p, a).value) < ActsLeft(p)
  {
  }

  lemma WorkLowers(s: State, w: nat, act: H.Act)
    requires Shape(s) && Enabled(s, Work(w, act))
    ensures Left(Apply(s, Work(w, act))) < Left(s)
  {
    ActLowers(s.stages[w].at, act);
    TotalUpdate(StageLeft, s.stages, w, Apply(s, Work(w, act)).stages[w]);
  }

  lemma FetchLowers(s: State, w: nat, wake: nat)
    requires Linked(s) && s.pool.core.stop && Enabled(s, Fetch(w, wake))
    ensures Left(Apply(s, Fetch(w, wake))) < Left(s)
  {
    var r := Apply(s, Fetch(w, wake));
    FetchOutcome(s, w, wake);
    TotalUpdate(StageLeft, s.stages, w, r.stages[w]);
    TotalUpdate(TP.Rank<nat>, s.pool.workers, w, r.pool.workers[w]);
    assert s.stages[w := s.stages[w]] == s.stages;
  }

  lemma ReturnLowers(s: State, w: nat)
    requires Shape(s) && Enabled(s, Return(w))
    ensures Left(Apply(s, Return(w))) < Left(s)
  {
    TotalUpdate(StageLeft, s.stages, w, Idle);
    TotalUpdate(TP.Rank<nat>, s.pool.workers, w, TP.Ready);
  }

  lemma StirLowers(s: State, w: nat)
    requires Shape(s) && Enabled(s, StirWorker(w))
    ensures Left(Apply(s, StirWorker(w))) < Left(s)
  {
    TotalUpdate(TP.Rank<nat>, s.pool.workers, w, TP.Notified);
  }

  lemma MainLowers(s: State, e: Event)
    requires Linked(s) && Ordered(s) && s.pool.core.stop && Enabled(s, e)
    requires e.NotifyWorkers? || e.NotifySubmitters? || e.Join? || e.ShutBackends?
    ensures Left(Apply(s, e)) < Left(s)
  {
    if e.NotifyWorkers? {
      TotalMonotone(TP.Rank<nat>, Apply(s, e).pool.workers, s.pool.workers);
    }
  }

  predicate AfterStop(e: Event) {
    e.Work? || e.Fetch? || e.Return? || e.StirWorker? || e.NotifyWorkers? || e.NotifySubmitters? || e.Join? || e.ShutBackends?
  }

  /** The acceptor is gone by then, so only the workers and main are left. */
  lemma OnlyWorkersAndMain(s: State, e: Event)
    requires Shape(s) && Ordered(s) && s.pool.core.stop && Enabled(s, e)
    ensures AfterStop(e)
  {
  }

  lemma StopStays(s: State, e: Event)
    requires Inv(s) && s.pool.core.stop && Enabled(s, e) && AfterStop(e)
    ensures Inv(Apply(s, e)) && Apply(s, e).pool.core.stop
  {
    StepInv(s, e);
    assert Stopped(Apply(s, e).main);
  }

  /** Every step after the stop flag lowers the measure, spurious wake-ups included. */
  lemma EveryStepLowers(s: State, e: Event)
    requires Linked(s) && Ordered(s) && s.pool.core.stop && Enabled(s, e)
    ensures Left(Apply(s, e)) < Left(s)
  {
    OnlyWorkersAndMain(s, e);
    if e.Work? {
      WorkLowers(s, e.w, e.act);
    } else if e.Fetch? {
      FetchLowers(s, e.w, e.wake);
    } else if e.Return? {
      ReturnLowers(s, e.w);
    } else if e.StirWorker? {
      StirLowers(s, e.w);
    } else {
      MainLowers(s, e);
    }
  }

  lemma {:induction false} RunLowers(s: State, es: seq<Event>)
    requires Inv(s) && s.pool.core.stop && Valid(s, es)
    ensures |es| + Left(Final(s, es)) <= Left(s) && Final(s, es).pool.core.stop
    decreases |es|
  {
    if es != [] {
      OnlyWorkersAndMain(s, es[0]);
      StopStays(s, es[0]);
      EveryStepLowers(s, es[0]);
      RunLowers(Apply(s, es[0]), es[1..]);
    }
  }

  // ---------------------------------------------------------------- never stuck

  /** A request that has not finished always has a next action. */
  lemma RequestCanAct(tls: bool, p: H.Point) returns (a: H.Act)
    requires !p.Done?
    ensures Allowed(tls, p, a)
  {
    match p
    case Popped => a := H.CountIn;
    case Counted => a := if tls then H.Handshake(false) else H.ReadRequest(false);
    case Shaken => a := H.ReadRequest(false);
    case Asking => a := H.StartBorrow;
    case Borrowing => a := H.EndBorrow(false);
    case Connected => a := H.WriteBackend(false);
    case Asked => a := H.ReadBackend(false);
    case Answered => a := H.ReplyClient(false);
    case Failing(_) => a := H.ReplyError;
    case HandingBack(ok, _) => a := H.StartRelease(ok);
    case Returning(_) => a := H.EndRelease;
    case Judged(completed, _) => a := if completed then H.TallyCompleted else H.TallyErrored;
    case Tallied => a := H.CloseClient;
    case Leaving => a := H.CountOut;
  }

  /** A worker that is neither asleep nor gone has a step of its own. */
  lemma WorkerCanStep(s: State, w: nat) returns (e: Event)
    requires Linked(s) && w < |s.pool.workers| && !s.pool.workers[w].Asleep? && !s.pool.workers[w].Exited?
    ensures Enabled(s, e) && (e.Work? || e.Return? || e.Fetch?) && (!s.pool.workers[w].Running? ==> e.Fetch?)
  {
    assert StageFits(s.pool.workers[w], s.stages[w]);
    if !s.pool.workers[w].Running? {
      var wake: nat := 0;
      if Count(TP.IsBlocked<nat>, s.pool.submitters) > 0 {
        wake := Witness(TP.IsBlocked<nat>, s.pool.submitters);
      }
      e := Fetch(w, wake);
    } else if s.stages[w].at.Done? {
      e := Return(w);
    } else {
      var a := RequestCanAct(s.tls, s.stages[w].at);
      e := Work(w, a);
    }
  }

  /** Main joins the workers only after it has woken them. */
  predicate Told(s: State) { s.main.TellSubmitters? || s.main.JoinWorkers? ==> s.pool.toldWorkers }

  lemma ToldStep(s: State, e: Event)
    requires Shape(s) && Enabled(s, e) && Told(s)
    ensures Told(Apply(s, e))
  {
  }

  lemma {:induction false} ToldRun(s: State, es: seq<Event>)
    requires Valid(s, es) && Told(s)
    ensures Told(Final(s, es))
    decreases |es|
  {
    if es != [] {
      ToldStep(s, es[0]);
      ToldRun(Apply(s, es[0]), es[1..]);
    }
  }

  /** So joining never waits for a worker that nobody wakes. */
  lemma JoinCanStep(s: State) returns (e: Event)
    requires Inv(s) && Told(s) && s.main.JoinWorkers?
    ensures Enabled(s, e) && !e.StirWorker?
  {
    if w: nat :| w < |s.pool.workers| && !s.pool.workers[w].Exited? {
      CountBounds(TP.IsAsleep<nat>, s.pool.workers);
      e := WorkerCanStep(s, w);
    } else {
      e := Join;
    }
  }

  lemma StoppedCanStep(s: State) returns (e: Event)
    requires Inv(s) && Told(s) && s.pool.core.stop && !s.main.Finished?
    ensures Enabled(s, e) && !e.StirWorker?
  {
    if s.main.TellWorkers? {
      e := NotifyWorkers;
    } else if s.main.TellSubmitters? {
      e := NotifySubmitters;
    } else if s.main.JoinWorkers? {
      e := JoinCanStep(s);
    } else {
      e := ShutBackends;
    }
  }

  /** The drain always ends: from the stop flag on, every run is bounded by what was left to do, and a run that
      cannot be continued, but for spurious wake-ups, has brought main to its end with every accepted request tallied. */
  lemma DrainEnds(tls: bool, threads: nat, depth: nat, s: State, es: seq<Event>)
    requires Reaches(Init(tls, threads, depth), s) && s.pool.core.stop && Valid(s, es)
    ensures |es| <= Left(s)
    ensures var r := Final(s, es);
            (Shape(r) && forall e :: Enabled(r, e) ==> e.StirWorker?) ==> r.main.Finished? && r.completed + r.errored == r.accepted == r.arrivals
  {
    InitInv(tls, threads, depth);
    ReachInv(Init(tls, threads, depth), s);
    var before :| Valid(Init(tls, threads, depth), before) && Final(Init(tls, threads, depth), before) == s;
    ToldRun(Init(tls, threads, depth), before);
    ToldRun(s, es);
    RunLowers(s, es);
    RunInv(s, es);
    var r := Final(s, es);
    if !r.main.Finished? {
      var e := StoppedCanStep(r);
    } else {
      Drained(r);
    }
  }

  /** Nor does the hand-off: while the acceptor is blocked on a full queue, it has been notified of room or some
      worker can go on. */
  lemma HandOffNeverStuck(tls: bool, threads: nat, depth: nat, s: State) returns (e: Event)
    requires Reaches(Init(tls, threads, depth), s) && s.acceptor.Waiting?
    ensures Shape(s) && Enabled(s, e) && (e.OfferAgain? || e.Work? || e.Return? || e.Fetch?)
  {
    InitInv(tls, threads, depth);
    ReachInv(Init(tls, threads, depth), s);
    if s.pool.submitters[0].Roused? {
      var wake: nat := 0;
      if Count(TP.IsAsleep<nat>, s.pool.workers) > 0 {
        wake := Witness(TP.IsAsleep<nat>, s.pool.workers);
      }
      e := OfferAgain(wake);
    } else {
      CountBounds(TP.IsRoused<nat>, s.pool.submitters);
      CountAt(TP.IsBlocked<nat>, s.pool.submitters, 0);
      TP.WorkAwakens(s.pool);
      var w :| 0 <= w < |s.pool.workers| && !s.pool.workers[w].Asleep? && !s.pool.workers[w].Exited?;
      e := WorkerCanStep(s, w);
    }
  }
}

/** What holds of every run of the drain protocol. */
module RouterTheorems {
  import opened Counting
  import opened Router
  import opened RouterInvariants
  import TP = ThreadPool
  import H = Handler

  ghost predicate Reaches(s: State, r: State) {
    exists es :: Valid(s, es) && Final(s, es) == r
  }

  lemma {:induction false} ValidSnoc(s: State, es: seq<Event>, e: Event)
    requires Valid(s, es) && Shape(Final(s, es)) && Enabled(Final(s, es), e) && Shape(Apply(Final(s, es), e))
    ensures Valid(s, es + [e]) && Final(s, es + [e]) == Apply(Final(s, es), e)
    decreases |es|
  {
    if es == [] {
      assert [e][1..] == [];
    } else {
      assert (es + [e])[1..] == es[1..] + [e];
      ValidSnoc(Apply(s, es[0]), es[1..], e);
    }
  }

  lemma Start(s: State)
    requires Shape(s)
    ensures Reaches(s, s)
  {
    assert Valid(s, []) && Final(s, []) == s;
  }

  lemma Extend(s: State, r: State, e: Event)
    requires Reaches(s, r) && Shape(r) && Enabled(r, e) && Shape(Apply(r, e))
    ensures Reaches(s, Apply(r, e))
  {
    var es :| Valid(s, es) && Final(s, es) == r;
    ValidSnoc(s, es, e);
  }

  lemma Then(s: State, r: State, e: Event) returns (r': State)
    requires Reaches(s, r) && Inv(r) && Enabled(r, e)
    ensures r' == Apply(r, e) && Reaches(s, r') && Inv(r')
  {
    r' := Apply(r, e);
    StepInv(r, e);
    Extend(s, r, e);
  }

  lemma ReachInv(s0: State, s: State)
    requires Inv(s0) && Reaches(s0, s)
    ensures Inv(s)
  {
    var es :| Valid(s0, es) && Final(s0, es) == s;
    RunInv(s0, es);
  }

  /** Conservation: at every moment each accepted request is completed, errored, in the acceptor's hand,
      queued, or popped and not yet tallied; in_flight counts exactly the requests between
      their increment and decrement. */
  lemma Conservation(tls: bool, threads: nat, depth: nat, s: State)
    requires Reaches(Init(tls, threads, depth), s)
    ensures s.accepted == s.completed + s.errored + Offered(s.acceptor) + |s.pool.core.queue| + Count(IsUntallied, s.stages)
    ensures s.inFlight == Count(IsInFlight, s.stages)
    ensures forall c: nat :: Places(s, c) == if c < s.arrivals then 1 else 0
  {
    InitInv(tls, threads, depth);
    ReachInv(Init(tls, threads, depth), s);
  }

  lemma Drained(s: State)
    requires Inv(s) && (s.main.CloseBackends? || s.main.Finished?)
    ensures s.completed + s.errored == s.accepted == s.arrivals
    ensures s.inFlight == 0 && s.pool.core.queue == [] && forall w :: 0 <= w < |s.stages| ==> s.stages[w].Idle?
    ensures forall c: nat :: Tally(IsId, s.closed, c) == if c < s.arrivals then 1 else 0
    ensures s.pool.popped == Upto(s.arrivals)
    ensures forall c: nat :: Tally(IsId, s.pool.finished, c) == if c < s.arrivals then 1 else 0
  {
    TP.AllGone(s.pool);
    forall w | 0 <= w < |s.stages| ensures s.stages[w].Idle? {
      assert StageFits(s.pool.workers[w], s.stages[w]);
    }
    CountBounds(IsUntallied, s.stages);
    CountBounds(IsInFlight, s.stages);
    forall c: nat ensures Tally(IsId, s.closed, c) == if c < s.arrivals then 1 else 0 {
      ClosedOnce(s, c);
    }
    forall c: nat ensures Tally(IsId, s.pool.finished, c) == if c < s.arrivals then 1 else 0 {
      FinishedOnce(s, c);
    }
  }

  lemma ClosedOnce(s: State, c: nat)
    requires Owned(s) && s.acceptor.Exited? && s.pool.core.queue == [] && forall w :: 0 <= w < |s.stages| ==> s.stages[w].Idle?
    ensures Tally(IsId, s.closed, c) == if c < s.arrivals then 1 else 0
  {
    TallyZero(OpenFd, s.stages, c);
    assert Places(s, c) == if c < s.arrivals then 1 else 0;
  }

  lemma FinishedOnce(s: State, c: nat)
    requires multiset(s.pool.finished) == multiset(s.pool.accepted) && s.pool.accepted == Upto(s.arrivals)
    ensures Tally(IsId, s.pool.finished, c) == if c < s.arrivals then 1 else 0
  {
    TallyIsMultiset(s.pool.finished, c);
    TallyIsMultiset(s.pool.accepted, c);
    TallyUpto(s.arrivals, c);
  }

  /** No request is lost: once main has joined the workers, however its poll loop ended, every accepted
      request has been tallied and every client closed exactly once, nothing is queued and
      nothing is in flight; and every client has been through the handler exactly once, having been
      taken to it in order of arrival. */
  lemma NothingLostAtExit(tls: bool, threads: nat, depth: nat, s: State)
    requires Reaches(Init(tls, threads, depth), s) && (s.main.CloseBackends? || s.main.Finished?)
    ensures s.completed + s.errored == s.accepted == s.arrivals
    ensures s.inFlight == 0 && s.pool.core.queue == []
    ensures forall c: nat :: Tally(IsId, s.closed, c) == if c < s.arrivals then 1 else 0
    ensures s.pool.popped == Upto(s.arrivals)
    ensures forall c: nat :: Tally(IsId, s.pool.finished, c) == if c < s.arrivals then 1 else 0
  {
    InitInv(tls, threads, depth);
    ReachInv(Init(tls, threads, depth), s);
    Drained(s);
  }

  /** The failed-submit branch of main's accept callback is never reached: the acceptor is joined
      before the pool is stopped and the pool blocks rather than rejects.  So in every state the clients
      submitted are all that have arrived but for one in the acceptor's hand, in order, and
      workers have taken them in that order, each once. */
  lemma HandOffNeverFails(tls: bool, threads: nat, depth: nat, s: State)
    requires Reaches(Init(tls, threads, depth), s)
    ensures !s.acceptor.Refused? && !s.acceptor.RefusedClosed?
    ensures s.pool.core.stop ==> s.acceptor.Exited?
    ensures s.pool.accepted == Upto(|s.pool.accepted|) && s.pool.popped == Upto(|s.pool.popped|)
    ensures |s.pool.accepted| + (if HasFd(s.acceptor) then 1 else 0) == s.arrivals
  {
    InitInv(tls, threads, depth);
    ReachInv(Init(tls, threads, depth), s);
    assert s.pool.accepted == s.pool.popped + (s.pool.discarded + s.pool.core.queue);
    assert s.pool.popped == s.pool.accepted[..|s.pool.popped|];
  }

  /** The worker pool's own step inside a step of the router. */
  function PoolStep(s: State, e: Event): TP.Event<nat>
    requires TouchesPool(e) && Shape(s) && Enabled(s, e)
  {
    match e
    case Offer(wake) => TP.Submit(0, s.acceptor.fd, wake)
    case OfferAgain(wake) => TP.Resubmit(0, wake)
    case StirAcceptor => TP.StirSubmitter(0)
    case Fetch(w, wake) => TP.Take(w, wake)
    case StirWorker(w) => TP.StirWorker(w)
    case Return(w) => TP.Finish(w)
    case Stop => TP.SetStop(true)
    case NotifyWorkers => TP.TellWorkers
    case NotifySubmitters => TP.TellSubmitters
  }

  lemma StepKeepsSize(s: State, e: Event)
    requires Shape(s) && Enabled(s, e)
    ensures TP.SameShape(s.pool, Apply(s, e).pool) && Apply(s, e).tls == s.tls
  {
    if TouchesPool(e) {
      TP.StepKeepsShape(s.pool, PoolStep(s, e));
      assert Apply(s, e).pool == TP.Apply(s.pool, PoolStep(s, e));
    } else {
      SamePool(s, e);
    }
  }

  lemma {:induction false} RunKeepsSize(s: State, es: seq<Event>)
    requires Valid(s, es)
    ensures TP.SameShape(s.pool, Final(s, es).pool) && Final(s, es).tls == s.tls
    decreases |es|
  {
    if es != [] {
      StepKeepsSize(s, es[0]);
      RunKeepsSize(Apply(s, es[0]), es[1..]);
    }
  }

  /** The router runs with as many workers and as deep a queue as configured. */
  lemma AsConfigured(tls: bool, threads: nat, depth: nat, s: State)
    requires Reaches(Init(tls, threads, depth), s)
    ensures |s.pool.workers| == TP.AtLeastOne(threads) && s.pool.core.depth == TP.AtLeastOne(depth) && s.tls == tls
  {
    var es :| Valid(Init(tls, threads, depth), es) && Final(Init(tls, threads, depth), es) == s;
    RunKeepsSize(Init(tls, threads, depth), es);
  }

  /** Drops are bounded by the number of workers, and there are none unless the deadline passed or,
      when main read zero, some task was queued or popped and not yet counted. */
  lemma DropsBoundedAndExplained(tls: bool, threads: nat, depth: nat, s: State)
    requires Reaches(Init(tls, threads, depth), s)
    ensures s.dropped <= TP.AtLeastOne(threads)
    ensures s.dropped > 0 ==> s.expired || s.leftover
  {
    InitInv(tls, threads, depth);
    ReachInv(Init(tls, threads, depth), s);
    AsConfigured(tls, threads, depth, s);
  }

  /** What is still to be counted as dropped, of `n` in all. */
  predicate Owes(s: State, n: nat) {
    if s.main.Dropping? then s.dropped + s.main.left == n && s.main.left > 0
    else (s.main.StopPool? || Stopped(s.main)) && s.dropped == n
  }

  lemma OwesStep(s: State, e: Event, n: nat)
    requires Shape(s) && Enabled(s, e) && Owes(s, n)
    ensures Owes(Apply(s, e), n)
  {
    if !IsMains(e) {
      OthersKeepRecords(s, e);
    }
  }

  lemma {:induction false} OwesRun(s: State, es: seq<Event>, n: nat)
    requires Valid(s, es) && Owes(s, n)
    ensures Owes(Final(s, es), n)
    decreases |es|
  {
    if es != [] {
      OwesStep(s, es[0], n);
      OwesRun(Apply(s, es[0]), es[1..], n);
    }
  }

  /** Every request main reads as left over is counted as dropped, once, whatever happens to it meanwhile: after any run
      that has brought main to stopping the pool, dropped is exactly what main read. */
  lemma DropsExactlyWhatWasRead(tls: bool, threads: nat, depth: nat, s: State, es: seq<Event>)
    requires Reaches(Init(tls, threads, depth), s) && s.main.Counting? && Shape(s) && Valid(Apply(s, CountLeft), es)
    ensures var r := Final(Apply(s, CountLeft), es);
            s.inFlight >= 0 && Owes(r, s.inFlight) && (!r.main.Dropping? ==> r.dropped == s.inFlight)
  {
    InitInv(tls, threads, depth);
    ReachInv(Init(tls, threads, depth), s);
    OwesRun(Apply(s, CountLeft), es, s.inFlight);
  }

  // ---------------------------------------------------------------- exactly when zero is not the end

  predicate PastLoop(m: Main) { !Accepting(m) && !InLoop(m) }

  lemma OthersKeepRecords(s: State, e: Event)
    requires Shape(s) && Enabled(s, e) && !IsMains(e)
    ensures var r := Apply(s, e); r.expired == s.expired && r.leftover == s.leftover && r.main == s.main && r.dropped == s.dropped
  {
  }

  lemma StepKeepsRecords(s: State, e: Event)
    requires Shape(s) && Enabled(s, e) && PastLoop(s.main)
    ensures var r := Apply(s, e); r.expired == s.expired && r.leftover == s.leftover && PastLoop(r.main)
  {
    if !IsMains(e) {
      OthersKeepRecords(s, e);
    }
  }

  lemma {:induction false} RunKeepsRecords(s: State, es: seq<Event>)
    requires Valid(s, es) && PastLoop(s.main)
    ensures var r := Final(s, es); r.expired == s.expired && r.leftover == s.leftover && PastLoop(r.main)
    decreases |es|
  {
    if es != [] {
      StepKeepsRecords(s, es[0]);
      RunKeepsRecords(Apply(s, es[0]), es[1..]);
    }
  }

  /** Main stands between its two readings of in_flight, and the first one was zero. */
  ghost predicate Between(r: State, leftover: bool) {
    Inv(r) && r.main.Reviewing? && r.inFlight == 0 && !r.expired && r.leftover == leftover
  }

  lemma FetchOne(s: State, r: State, w: nat) returns (r': State)
    requires Reaches(s, r) && Between(r, true) && r.pool.core.queue != []
    requires w < |r.pool.workers| && (r.pool.workers[w].Ready? || r.pool.workers[w].Notified?)
    ensures Reaches(s, r') && Between(r', true) && w < |r'.stages| && IsPopped(r'.stages[w])
  {
    var wake: nat := 0;
    if Count(TP.IsBlocked<nat>, r.pool.submitters) > 0 {
      wake := Witness(TP.IsBlocked<nat>, r.pool.submitters);
    }
    FetchOutcome(r, w, wake);
    r' := Then(s, r, Fetch(w, wake));
  }

  lemma ReturnOne(s: State, r: State, w: nat) returns (r': State)
    requires Reaches(s, r) && Between(r, true) && w < |r.stages| && r.stages[w].Serving? && r.stages[w].at.Done?
    ensures Reaches(s, r') && Between(r', true) && r'.pool.core == r.pool.core
    ensures w < |r'.pool.workers| && r'.pool.workers[w].Ready?
  {
    assert StageFits(r.pool.workers[w], r.stages[w]);
    r' := Then(s, r, Return(w));
  }

  /** With nothing in flight a request the pool holds can be brought to be popped while main stands still. */
  lemma PopOne(s: State, r: State) returns (r': State, w: nat)
    requires Reaches(s, r) && Between(r, true) && Unseen(r)
    ensures Reaches(s, r') && Between(r', true) && w < |r'.stages| && IsPopped(r'.stages[w])
  {
    if Count(IsPopped, r.stages) > 0 {
      w := Witness(IsPopped, r.stages);
      r' := r;
    } else {
      TP.WorkAwakens(r.pool);
      w :| w < |r.pool.workers| && !r.pool.workers[w].Asleep? && !r.pool.workers[w].Exited?;
      r' := r;
      if r.pool.workers[w].Running? {
        NeitherPoppedNorFlying(r, w);
        r' := ReturnOne(s, r, w);
      }
      r' := FetchOne(s, r', w);
    }
  }

  lemma NeitherPoppedNorFlying(r: State, w: nat)
    requires Linked(r) && Conserved(r) && r.inFlight == 0 && Count(IsPopped, r.stages) == 0
    requires w < |r.pool.workers| && r.pool.workers[w].Running?
    ensures r.stages[w].Serving? && r.stages[w].at.Done?
  {
    assert StageFits(r.pool.workers[w], r.stages[w]);
    CountBounds(IsPopped, r.stages);
    CountBounds(IsInFlight, r.stages);
  }

  lemma CountsOneIn(r: State, w: nat)
    requires Inv(r) && r.inFlight == 0 && w < |r.stages| && IsPopped(r.stages[w])
    ensures Enabled(r, Work(w, H.CountIn))
    ensures var q := Apply(r, Work(w, H.CountIn)); q.inFlight == 1 && q.main == r.main && q.expired == r.expired && q.dropped == r.dropped
  {
  }

  lemma CanDrop(s: State, r: State) returns (r': State)
    requires Reaches(s, r) && Between(r, true) && Unseen(r)
    ensures Reaches(s, r') && r'.dropped > 0 && !r'.expired
  {
    var w;
    r', w := PopOne(s, r);
    CountsOneIn(r', w);
    r' := Then(s, r', Work(w, H.CountIn));
    r' := Then(s, r', Review);
    r' := Then(s, r', CountLeft);
    r' := Then(s, r', Drop);
  }

  /** Main has just read zero in the poll loop.  A drop can still be counted if and only if, at that
      moment, some task was queued, or popped and not yet counted. */
  lemma DropPossibleIff(tls: bool, threads: nat, depth: nat, s: State)
    requires Reaches(Init(tls, threads, depth), s) && s.main.Polling? && s.inFlight == 0
    ensures Shape(s) && (Unseen(s) <==> exists r :: Reaches(Apply(s, Poll), r) && r.dropped > 0)
  {
    InitInv(tls, threads, depth);
    ReachInv(Init(tls, threads, depth), s);
    var s' := Apply(s, Poll);
    StepInv(s, Poll);
    Start(s');
    if Unseen(s) {
      var r := CanDrop(s', s');
    } else {
      forall r | Reaches(s', r) ensures r.dropped == 0 {
        var es :| Valid(s', es) && Final(s', es) == r;
        RunKeepsRecords(s', es);
        RunInv(s', es);
      }
    }
  }

  /** The deadline is not the only way to a drop: with one worker, one request still queued when main reads
      zero is counted as dropped although nothing expired (and is answered later, since nothing is
      ever lost). */
  lemma DropWithoutDeadline() returns (r: State)
    ensures Reaches(Init(false, 1, 1), r) && r.dropped > 0 && !r.expired
  {
    r := ReadsZero();
    r := CanDrop(Init(false, 1, 1), r);
  }

  lemma ReadsZero() returns (r: State)
    ensures Reaches(Init(false, 1, 1), r) && Between(r, true) && Unseen(r)
  {
    var s := Init(false, 1, 1);
    r := OneQueued();
    r := Then(s, r, AcceptorExit);
    r := Then(s, r, RequestShutdown);
    r := Then(s, r, JoinAcceptor);
    r := Then(s, r, Poll);
  }

  lemma OneQueued() returns (r: State)
    ensures Reaches(Init(false, 1, 1), r) && Inv(r) && r.main.Running? && r.acceptor.Looping?
    ensures r.inFlight == 0 && r.pool.core.queue == [0]
  {
    var s := Init(false, 1, 1);
    InitInv(false, 1, 1);
    Start(s);
    r := Then(s, s, Accept);
    r := Then(s, r, CountAccepted);
    CountBounds(TP.IsAsleep<nat>, r.pool.workers);
    OfferOutcome(r, Offer(0));
    r := Then(s, r, Offer(0));
  }
}

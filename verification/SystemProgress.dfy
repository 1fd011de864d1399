/** No request ever gets stuck: whatever the backends, the reapers and the other workers have done, a worker can bring
    the request it has in hand to the end by itself; and the drain of the whole router ends. */
module SystemProgress {
  import opened Counting
  import opened Wire
  import opened Conversation
  import opened System
  import opened SystemInvariants
  import opened SystemTheorems
  import R = Router
  import RI = RouterInvariants
  import H = Handler
  import TP = ThreadPool
  import Drain = RouterDrain
  import T = Traffic
  import TI = TrafficInvariants
  import Selection
  import Set = BackendSet
  import Pool = BackendPool
  import PoolInv = BackendPoolInvariants
  import PoolThm = BackendPoolTheorems

  /** A step of worker `w`: its own, with its backend, or inside the pool it is in. */
  predicate StepOf(e: Event, w: nat) {
    || ((Joint(e) || e.ReplyTo?) && e.w == w)
    || (e.Plain? && (e.re.Work? || e.re.Return?) && e.re.w == w)
    || (e.Background? && e.te.Inside? && PoolThm.ClientOf(e.te.e, w))
  }

  /** Where worker `w`'s client is in the pool its thread is at. */
  function ClientAt(s: State, w: nat): Pool.Client
    requires Shape(s) && w < |s.inbox| && !s.traffic.set_.threads[w].Out? && s.traffic.set_.threads[w].at < |s.traffic.lines|
  {
    s.traffic.set_.pools[s.traffic.set_.threads[w].at].clients[w]
  }

  lemma InPool(s: State, w: nat)
    requires Inv(s) && w < |s.inbox| && !s.traffic.set_.threads[w].Out?
    ensures var i := s.traffic.set_.threads[w].at;
            i < |s.traffic.lines| && Set.Fits(s.traffic.set_.threads[w], i, s.traffic.set_.pools[i].clients[w])
  {
  }

  lemma InsideCanStep(s: State, w: nat) returns (e: Event)
    requires Shape(s) && w < |s.inbox| && !s.traffic.set_.threads[w].Out? && s.traffic.set_.threads[w].at < |s.traffic.lines|
    requires !ClientAt(s, w).Away? && !ClientAt(s, w).Holding?
    ensures Enabled(s, e) && StepOf(e, w)
  {
    var i := s.traffic.set_.threads[w].at;
    var pe := PoolThm.ClientCanStep(s.traffic.set_.pools[i], w);
    e := Background(T.Inside(i, pe));
  }

  lemma BorrowerCanStep(s: State, w: nat) returns (e: Event)
    requires Shape(s) && w < |s.inbox| && s.traffic.set_.threads[w].Borrowing? && s.traffic.set_.threads[w].at < |s.traffic.lines|
    requires s.router.stages[w].Serving? && s.router.stages[w].at.Borrowing? && s.traffic.jobs[w].Wanting?
    ensures Enabled(s, e) && StepOf(e, w)
  {
    if ClientAt(s, w).Holding? {
      e := Connect(w);
    } else if ClientAt(s, w).Away? {
      e := GiveUp(w);
    } else {
      e := InsideCanStep(s, w);
    }
  }

  lemma ReturnerCanStep(s: State, w: nat) returns (e: Event)
    requires Shape(s) && w < |s.inbox| && s.traffic.set_.threads[w].Returning? && s.traffic.set_.threads[w].at < |s.traffic.lines|
    requires s.router.stages[w].Serving? && s.router.stages[w].at.Returning? && !ClientAt(s, w).Holding?
    ensures Enabled(s, e) && StepOf(e, w)
  {
    if ClientAt(s, w).Away? {
      e := Leave(w);
    } else {
      e := InsideCanStep(s, w);
    }
  }

  /** A thread past borrow has its connection in hand. */
  lemma HasInHand(t: T.State, w: nat)
    requires TI.Inv(t) && w < |t.jobs| && t.set_.threads[w].Held?
    ensures T.InHand(t, w)
  {
    var i := t.set_.threads[w].at;
    var p := t.set_.pools[i];
    assert Set.Fits(t.set_.threads[w], i, p.clients[w]);
    assert PoolInv.Inv(p) && TI.LinesOk(t.lines[i], p);
    TI.HeldAlone(p, w, p.clients[w].conn);
  }

  /** With a connection in hand the worker can write, read, or hand it back; a write or read may come to nothing. */
  lemma WriterCanStep(s: State, w: nat)
    requires Shape(s) && w < |s.inbox| && T.InHand(s.traffic, w) && s.router.stages[w].Serving?
    requires s.router.stages[w].at.Connected? && s.traffic.jobs[w].Ready? && |s.traffic.jobs[w].req| <= MAX_LENGTH
    ensures Enabled(s, Write(w, 0))
  {
  }

  lemma ReaderCanStep(s: State, w: nat)
    requires Shape(s) && w < |s.inbox| && T.InHand(s.traffic, w) && s.router.stages[w].Serving?
    requires s.router.stages[w].at.Asked? && s.traffic.jobs[w].Asked? && Sane(s.traffic.lines[T.At(s.traffic, w)][T.ConnOf(s.traffic, w)])
    ensures Enabled(s, Read(w, 0, false))
  {
  }

  lemma HanderCanStep(s: State, w: nat)
    requires Shape(s) && w < |s.inbox| && T.InHand(s.traffic, w) && s.router.stages[w].Serving?
    requires var p := s.router.stages[w].at; p.HandingBack? && (if p.ok then s.traffic.jobs[w].Answered? else s.traffic.jobs[w].Broken?)
    ensures Enabled(s, Hand(w, s.router.stages[w].at.ok))
  {
  }

  lemma HolderCanStep(s: State, w: nat) returns (e: Event)
    requires Inv(s) && w < |s.inbox| && s.router.stages[w].Serving?
    requires var p := s.router.stages[w].at; p.Connected? || p.Asked? || p.HandingBack?
    ensures Enabled(s, e) && StepOf(e, w)
  {
    assert FitAt(s, w);
    HasInHand(s.traffic, w);
    TI.InHandJob(s.traffic, w);
    if s.router.stages[w].at.Connected? {
      WriterCanStep(s, w);
      e := Write(w, 0);
    } else if s.router.stages[w].at.Asked? {
      ReaderCanStep(s, w);
      e := Read(w, 0, false);
    } else {
      HanderCanStep(s, w);
      e := Hand(w, s.router.stages[w].at.ok);
    }
  }

  /** Between its dealings with the backend the worker goes on by itself. */
  function OwnAct(tls: bool, p: H.Point): H.Act {
    if p.Popped? then H.CountIn
    else if p.Counted? && tls then H.Handshake(false)
    else if p.Counted? || p.Shaken? then H.ReadRequest(false)
    else if p.Answered? then H.ReplyClient(false)
    else if p.Failing? then H.ReplyError
    else if p.Judged? then (if p.completed then H.TallyCompleted else H.TallyErrored)
    else if p.Tallied? then H.CloseClient
    else H.CountOut
  }

  predicate WithBackend(p: H.Point) {
    p.Asking? || p.Borrowing? || p.Connected? || p.Asked? || p.HandingBack? || p.Returning?
  }

  lemma OwnStep(s: State, w: nat) returns (e: Event)
    requires Shape(s) && RI.Linked(s.router) && w < |s.inbox| && s.router.stages[w].Serving? && !WithBackend(s.router.stages[w].at)
    ensures Enabled(s, e) && StepOf(e, w)
  {
    assert RI.StageFits(s.router.pool.workers[w], s.router.stages[w]);
    if s.router.stages[w].at.Done? {
      e := Plain(R.Return(w));
    } else {
      e := Plain(R.Work(w, OwnAct(s.router.tls, s.router.stages[w].at)));
    }
  }

  /** A request that has been read can be taken to a backend. */
  lemma AskerCanStep(s: State, w: nat) returns (e: Event)
    requires Inv(s) && w < |s.inbox| && s.router.stages[w].Serving? && s.router.stages[w].at.Asking? && s.traffic.set_.pools != []
    ensures Enabled(s, e) && StepOf(e, w)
  {
    assert FitAt(s, w);
    var set_ := s.traffic.set_;
    var i := Selection.Pick(set_.inFlight, set_.weights);
    assert Set.Fits(set_.threads[w], i, set_.pools[i].clients[w]);
    e := Ask(w);
  }

  lemma CanStep(s: State, w: nat) returns (e: Event)
    requires Inv(s) && s.traffic.set_.pools != [] && w < |s.router.stages| && s.router.stages[w].Serving?
    ensures Enabled(s, e) && StepOf(e, w)
  {
    var p := s.router.stages[w].at;
    if !WithBackend(p) {
      e := OwnStep(s, w);
    } else if p.Asking? {
      e := AskerCanStep(s, w);
    } else if p.Connected? || p.Asked? || p.HandingBack? {
      e := HolderCanStep(s, w);
    } else {
      assert FitAt(s, w);
      InPool(s, w);
      if p.Borrowing? { e := BorrowerCanStep(s, w); } else { e := ReturnerCanStep(s, w); }
    }
  }

  // ---------------------------------------------------------------- a request can always be finished

  /** What worker `w` has left to do for its request: the handler's actions, and its steps inside a pool. */
  function Cost(s: State, w: nat): nat
    requires Shape(s) && w < |s.inbox|
  {
    if s.router.stages[w].Idle? then 0
    else 1 + 4 * Drain.ActsLeft(s.router.stages[w].at) + InsideCost(s, w)
  }

  function InsideCost(s: State, w: nat): nat
    requires Shape(s) && w < |s.inbox|
  {
    var phase := s.traffic.set_.threads[w];
    if phase.Out? || phase.at >= |s.traffic.lines| then 0 else PoolThm.StepsLeft(s.traffic.set_.pools[phase.at].clients[w])
  }

  lemma RouterMoveLowers(s: State, e: Event, w: nat)
    requires Shape(s) && Enabled(s, e) && StepOf(e, w) && !e.Background?
    ensures w < |s.inbox| && Shape(Apply(s, e)) ==> Cost(Apply(s, e), w) < Cost(s, w)
    ensures w < |s.inbox|
  {
    StepProjects(s, e);
    var re := RouterStep(s, e);
    if re.Work? {
      Drain.ActLowers(s.router.stages[w].at, re.act);
    }
  }

  lemma InsideLowers(s: State, i: nat, pe: Pool.Event, w: nat)
    requires Shape(s) && Set.Inv(s.traffic.set_) && w < |s.inbox| && s.router.stages[w].Serving?
    requires Enabled(s, Background(T.Inside(i, pe))) && PoolThm.ClientOf(pe, w)
    ensures Shape(Apply(s, Background(T.Inside(i, pe)))) ==> Cost(Apply(s, Background(T.Inside(i, pe))), w) < Cost(s, w)
  {
    PoolThm.ClientStepLowers(s.traffic.set_.pools[i], pe, w);
    assert Set.Fits(s.traffic.set_.threads[w], i, s.traffic.set_.pools[i].clients[w]);
    BackgroundFrame(s.traffic, T.Inside(i, pe));
  }

  /** Each step of its own brings a request nearer to its end. */
  lemma OwnStepLowers(s: State, e: Event, w: nat)
    requires Inv(s) && w < |s.inbox| && s.router.stages[w].Serving? && Enabled(s, e) && StepOf(e, w)
    ensures Shape(Apply(s, e)) ==> Cost(Apply(s, e), w) < Cost(s, w)
  {
    if e.Background? {
      InsideLowers(s, e.te.i, e.te.e, w);
    } else {
      RouterMoveLowers(s, e, w);
    }
  }

  lemma NextOwnStep(s: State, w: nat) returns (e: Event)
    requires Inv(s) && s.traffic.set_.pools != [] && w < |s.inbox| && s.router.stages[w].Serving?
    ensures Enabled(s, e) && StepOf(e, w)
    ensures var r := Apply(s, e); Inv(r) && r.traffic.set_.pools != [] && |r.inbox| == |s.inbox| && Cost(r, w) < Cost(s, w)
  {
    e := CanStep(s, w);
    StepInv(s, e);
    OwnStepLowers(s, e, w);
    StepKeepsConfigs(s, e);
  }

  predicate OnlyStepsOf(es: seq<Event>, w: nat) {
    forall n :: 0 <= n < |es| ==> StepOf(es[n], w)
  }

  /** Run `es` consists of steps of worker `w` alone and ends with the worker done. */
  predicate Finishes(s: State, es: seq<Event>, w: nat) {
    Valid(s, es) && OnlyStepsOf(es, w) && w < |Final(s, es).router.stages| && Final(s, es).router.stages[w].Idle?
  }

  lemma FinishesCons(s: State, e: Event, rest: seq<Event>, w: nat)
    requires Shape(s) && Enabled(s, e) && StepOf(e, w) && Finishes(Apply(s, e), rest, w)
    ensures Finishes(s, [e] + rest, w)
  {
    assert ([e] + rest)[1..] == rest;
  }

  lemma {:induction false} CanFinish(s: State, w: nat) returns (es: seq<Event>)
    requires Inv(s) && s.traffic.set_.pools != [] && w < |s.inbox|
    ensures Finishes(s, es, w)
    decreases Cost(s, w)
  {
    if s.router.stages[w].Idle? {
      es := [];
    } else {
      var e := NextOwnStep(s, w);
      var rest := CanFinish(Apply(s, e), w);
      FinishesCons(s, e, rest, w);
      es := [e] + rest;
    }
  }

  /** No request is ever stuck: in every reachable state, whatever the backends, the reapers and the other workers have
      done, a worker can bring its request to the end by steps of its own alone, if need be by giving up on
      what it waits for. */
  lemma NoRequestIsStuck(u: Setup, s: State, w: nat) returns (es: seq<Event>)
    requires Reachable(u, s) && w < |s.router.stages|
    ensures Finishes(s, es, w)
  {
    ReachInv(u, s);
    ReachConfigs(u, s);
    es := CanFinish(s, w);
  }

  // ---------------------------------------------------------------- the drain ends

  /** Steps that move the router, alone or together with a backend; the others only move pools and backends. */
  predicate MovesRouter(e: Event) { Joint(e) || e.Plain? || e.ReadClient? || e.ReplyTo? || e.ShutAll? }

  function RouterStep(s: State, e: Event): R.Event
    requires Shape(s) && MovesRouter(e)
  {
    if Joint(e) then R.Work(e.w, Act(s, e))
    else match e
      case Plain(re) => re
      case ReadClient(w, _) => R.Work(w, H.ReadRequest(true))
      case ReplyTo(w) => R.Work(w, H.ReplyClient(true))
      case ShutAll => R.ShutBackends
  }

  lemma StepProjects(s: State, e: Event)
    requires Shape(s) && Enabled(s, e)
    ensures if MovesRouter(e) then R.Enabled(s.router, RouterStep(s, e)) && Apply(s, e).router == R.Apply(s.router, RouterStep(s, e))
            else Apply(s, e).router == s.router
  {
  }

  /** The router's own steps along a run. */
  function RouterSteps(s: State, es: seq<Event>): seq<R.Event>
    requires Valid(s, es)
    decreases |es|
  {
    if es == [] then []
    else (if MovesRouter(es[0]) then [RouterStep(s, es[0])] else []) + RouterSteps(Apply(s, es[0]), es[1..])
  }

  /** Seen from the router, a run of the whole is a run of the router machine, so all that holds of that machine
      holds here. */
  lemma {:induction false} RunProjects(s: State, es: seq<Event>)
    requires Valid(s, es)
    ensures R.Valid(s.router, RouterSteps(s, es)) && R.Final(s.router, RouterSteps(s, es)) == Final(s, es).router
    ensures |RouterSteps(s, es)| == Count(MovesRouter, es)
    decreases |es|
  {
    if es != [] {
      StepProjects(s, es[0]);
      RunProjects(Apply(s, es[0]), es[1..]);
      if MovesRouter(es[0]) {
        assert RouterSteps(s, es)[1..] == RouterSteps(Apply(s, es[0]), es[1..]);
      } else {
        assert RouterSteps(s, es) == RouterSteps(Apply(s, es[0]), es[1..]);
      }
    }
  }

  /** A step that takes a worker or main further: not the clock, a reaper, a backend or a spurious wake-up. */
  ghost predicate Advances(e: Event) {
    || (MovesRouter(e) && !(e.Plain? && (e.re.StirWorker? || e.re.StirAcceptor?)))
    || e.ShutPool?
    || exists w: nat :: StepOf(e, w)
  }

  /** A worker that has not exited can go on once it has been woken. */
  lemma WorkerCanGoOn(s: State, w: nat) returns (e: Event)
    requires Inv(s) && s.traffic.set_.pools != [] && w < |s.router.pool.workers|
    requires !s.router.pool.workers[w].Asleep? && !s.router.pool.workers[w].Exited?
    ensures Enabled(s, e) && Advances(e)
  {
    assert RI.StageFits(s.router.pool.workers[w], s.router.stages[w]);
    if s.router.pool.workers[w].Running? {
      e := CanStep(s, w);
    } else {
      var re := Drain.WorkerCanStep(s.router, w);
      e := Plain(re);
    }
  }

  lemma JoinCanGoOn(s: State) returns (e: Event)
    requires Inv(s) && Drain.Told(s.router) && s.traffic.set_.pools != [] && s.router.main.JoinWorkers?
    ensures Enabled(s, e) && Advances(e)
  {
    if w: nat :| w < |s.router.pool.workers| && !s.router.pool.workers[w].Exited? {
      CountBounds(TP.IsAsleep<nat>, s.router.pool.workers);
      e := WorkerCanGoOn(s, w);
    } else {
      e := Plain(R.Join);
    }
  }

  lemma StoppedCanStep(s: State) returns (e: Event)
    requires Inv(s) && Drain.Told(s.router) && s.traffic.set_.pools != [] && s.router.pool.core.stop && !s.router.main.Finished?
    ensures Enabled(s, e) && Advances(e)
  {
    if s.router.main.JoinWorkers? {
      e := JoinCanGoOn(s);
    } else {
      e := MainCanGoOn(s);
    }
  }

  lemma MainCanGoOn(s: State) returns (e: Event)
    requires Shape(s) && RI.Ordered(s.router) && s.shut <= |s.traffic.lines| && s.router.pool.core.stop
    requires !s.router.main.JoinWorkers? && !s.router.main.Finished?
    ensures Enabled(s, e) && Advances(e)
  {
    var m := s.router.main;
    if m.TellWorkers? {
      e := Plain(R.NotifyWorkers);
    } else if m.TellSubmitters? {
      e := Plain(R.NotifySubmitters);
    } else {
      e := if s.shut < |s.traffic.lines| then ShutPool else ShutAll;
    }
  }

  /** The drain of the whole router: from the stop flag on, the steps of workers and main in any run are bounded by what
      was left to do, whatever pools, reapers and backends do in between; and as long as main has not
      finished, some worker or main itself can go on. */
  lemma DrainEnds(u: Setup, s: State, es: seq<Event>)
    requires Reachable(u, s) && s.router.pool.core.stop && Valid(s, es)
    ensures Count(MovesRouter, es) <= Drain.Left(s.router)
    ensures var r := Final(s, es); Shape(r) && (r.router.main.Finished? || exists e :: Enabled(r, e) && Advances(e))
  {
    ReachInv(u, s);
    RunProjects(s, es);
    Drain.RunLowers(s.router, RouterSteps(s, es));
    var r := Final(s, es);
    RunInv(s, es);
    if !r.router.main.Finished? {
      AfterAll(u, s, es);
      var e := StoppedCanStep(r);
    }
  }

  lemma AfterAll(u: Setup, s: State, es: seq<Event>)
    requires Reachable(u, s) && Valid(s, es)
    ensures Drain.Told(Final(s, es).router) && Final(s, es).traffic.set_.pools != []
  {
    var before :| Valid(Init(u), before) && Final(Init(u), before) == s;
    RunProjects(Init(u), before);
    Drain.ToldRun(Init(u).router, RouterSteps(Init(u), before));
    RunProjects(s, es);
    Drain.ToldRun(s.router, RouterSteps(s, es));
    ReachConfigs(u, s);
    RunKeepsConfigs(s, es);
  }
}

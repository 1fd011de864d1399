/** The drain protocol: the acceptor of src/acceptor.cpp, the worker pool, the request handler, the
    counters of src/metrics.h and the shutdown sequence of src/main.cpp, as one transition system.
    Every critical section and every atomic counter access is one step. */
module Router {
  import opened Counting
  import TP = ThreadPool
  import H = Handler

  /** The acceptor thread.  `InHand` has accepted and not yet counted; `Offering` is about to call
      submit; `Waiting` is blocked in it; `Refused` and `RefusedClosed` are the failed-submit branch. */
  datatype Acceptor =
    | Looping | InHand(fd: nat) | Offering(fd: nat) | Waiting(fd: nat)
    | Refused(fd: nat) | RefusedClosed(fd: nat) | Exited

  /** What a worker is doing with its task. */
  datatype Stage = Idle | Serving(fd: nat, at: H.Point)

  /** The main thread.  `Polling` is about to read in_flight in the loop condition and `Clock` to read
      the clock; `Reviewing` has left the loop and is about to read in_flight again, `Counting` to read
      it once more into `remaining`; `Dropping` has that many increments of dropped to go. */
  datatype Main =
    | Running | AwaitAcceptor | Polling | Clock | Reviewing | Counting | Dropping(left: nat)
    | StopPool | TellWorkers | TellSubmitters | JoinWorkers | CloseBackends | Finished

  /** Client connections are numbered in order of acceptance; `closed` lists the closes.  `expired` says that
      the poll loop ended by the deadline, `leftover` that when it ended by reading zero some task
      was queued, or popped and not yet counted. */
  datatype State = State(
    tls: bool, pool: TP.State<nat>, acceptor: Acceptor, stages: seq<Stage>, main: Main,
    accepted: nat, completed: nat, errored: nat, dropped: nat, inFlight: int,
    arrivals: nat, closed: seq<nat>, expired: bool, leftover: bool)

  datatype Event =
    | Accept | CountAccepted | Offer(wake: nat) | OfferAgain(wake: nat) | StirAcceptor
    | CloseRefused | TallyRefused | AcceptorExit
    | Fetch(w: nat, wake: nat) | StirWorker(w: nat) | Work(w: nat, act: H.Act) | Return(w: nat)
    | RequestShutdown | JoinAcceptor | Poll | ReadClock(late: bool) | Review | CountLeft | Drop
    | Stop | NotifyWorkers | NotifySubmitters | Join | ShutBackends

  predicate IsPopped(st: Stage) { st.Serving? && st.at.Popped? }
  predicate IsInFlight(st: Stage) { st.Serving? && H.InFlight(st.at) }
  predicate IsUntallied(st: Stage) { st.Serving? && H.Untallied(st.at) }
  function OpenFd(st: Stage, c: nat): nat { if st.Serving? && st.fd == c && H.ClientOpen(st.at) then 1 else 0 }

  predicate Shape(s: State) {
    |s.stages| == |s.pool.workers| && |s.pool.submitters| == 1
  }

  /** On a plain listener the request is read straight away; on a TLS one after the handshake. */
  predicate Allowed(tls: bool, p: H.Point, a: H.Act) {
    && H.Advance(p, a).Some?
    && (p.Counted? ==> (if tls then a.Handshake? else a.ReadRequest?))
  }

  predicate Enabled(s: State, e: Event)
    requires Shape(s)
  {
    match e
    case Accept => s.acceptor.Looping?
    case CountAccepted => s.acceptor.InHand?
    case Offer(wake) => s.acceptor.Offering? && TP.Enabled(s.pool, TP.Submit(0, s.acceptor.fd, wake))
    case OfferAgain(wake) => s.acceptor.Waiting? && TP.Enabled(s.pool, TP.Resubmit(0, wake))
    case StirAcceptor => s.acceptor.Waiting? && TP.Enabled(s.pool, TP.StirSubmitter(0))
    case CloseRefused => s.acceptor.Refused?
    case TallyRefused => s.acceptor.RefusedClosed?
    case AcceptorExit => s.acceptor.Looping?
    case Fetch(w, wake) => TP.Enabled(s.pool, TP.Take(w, wake))
    case StirWorker(w) => TP.Enabled(s.pool, TP.StirWorker(w))
    case Work(w, act) => w < |s.stages| && s.stages[w].Serving? && Allowed(s.tls, s.stages[w].at, act)
    case Return(w) => w < |s.stages| && s.stages[w].Serving? && s.stages[w].at.Done? && TP.Enabled(s.pool, TP.Finish(w))
    case RequestShutdown => s.main.Running?
    case JoinAcceptor => s.main.AwaitAcceptor? && s.acceptor.Exited?
    case Poll => s.main.Polling?
    case ReadClock(_) => s.main.Clock?
    case Review => s.main.Reviewing?
    case CountLeft => s.main.Counting?
    case Drop => s.main.Dropping?
    case Stop => s.main.StopPool?
    case NotifyWorkers => s.main.TellWorkers? && s.pool.core.stop
    case NotifySubmitters => s.main.TellSubmitters? && s.pool.core.stop
    case Join => s.main.JoinWorkers? && forall w :: 0 <= w < |s.pool.workers| ==> s.pool.workers[w].Exited?
    case ShutBackends => s.main.CloseBackends?
  }

  /** The acceptor after a pass through submit: blocked, done, or refused. */
  function AfterOffer(s: State, pool: TP.State<nat>): State
    requires (s.acceptor.Offering? || s.acceptor.Waiting?) && |pool.submitters| == 1
  {
    var fd := s.acceptor.fd;
    s.(pool := pool,
       acceptor := if pool.submitters[0].Blocked? then Waiting(fd)
                   else if |pool.accepted| > |s.pool.accepted| then Looping
                   else Refused(fd))
  }

  predicate IsMains(e: Event) {
    || e.RequestShutdown? || e.JoinAcceptor? || e.Poll? || e.ReadClock? || e.Review? || e.CountLeft? || e.Drop?
    || e.Stop? || e.NotifyWorkers? || e.NotifySubmitters? || e.Join? || e.ShutBackends?
  }

  /** Main's next point after event `e`, when it reads `inFlight`. */
  function NextMain(m: Main, e: Event, inFlight: int): H.Option<Main> {
    if m.Running? && e.RequestShutdown? then H.Some(AwaitAcceptor)
    else if m.AwaitAcceptor? && e.JoinAcceptor? then H.Some(Polling)
    else if m.Polling? && e.Poll? then H.Some(if inFlight > 0 then Clock else Reviewing)
    else if m.Clock? && e.ReadClock? then H.Some(if e.late then Reviewing else Polling)
    else if m.Reviewing? && e.Review? then H.Some(if inFlight > 0 then Counting else StopPool)
    else if m.Counting? && e.CountLeft? then H.Some(if inFlight > 0 then Dropping(inFlight) else StopPool)
    else if m.Dropping? && e.Drop? then H.Some(if m.left > 1 then Dropping(m.left - 1) else StopPool)
    else if m.StopPool? && e.Stop? then H.Some(TellWorkers)
    else if m.TellWorkers? && e.NotifyWorkers? then H.Some(TellSubmitters)
    else if m.TellSubmitters? && e.NotifySubmitters? then H.Some(JoinWorkers)
    else if m.JoinWorkers? && e.Join? then H.Some(CloseBackends)
    else if m.CloseBackends? && e.ShutBackends? then H.Some(Finished)
    else H.None
  }

  function MoveMain(s: State, e: Event): State
    requires NextMain(s.main, e, s.inFlight).Some?
  {
    s.(main := NextMain(s.main, e, s.inFlight).value)
  }

  /** The effect of a handler action on the counters and on the client descriptor. */
  function Effect(s: State, w: nat, act: H.Act): State
    requires w < |s.stages| && s.stages[w].Serving? && H.Advance(s.stages[w].at, act).Some?
  {
    var fd := s.stages[w].fd;
    s.(stages := s.stages[w := Serving(fd, H.Advance(s.stages[w].at, act).value)],
       inFlight := s.inFlight + H.Bit(act.CountIn?) - H.Bit(act.CountOut?),
       completed := s.completed + H.Bit(act.TallyCompleted?),
       errored := s.errored + H.Bit(act.TallyErrored?),
       closed := if H.Closes(act) then s.closed + [fd] else s.closed)
  }

  /** Something main's zero reading of in_flight missed. */
  predicate Unseen(s: State) {
    s.pool.core.queue != [] || Count(IsPopped, s.stages) > 0
  }

  function Apply(s: State, e: Event): State
    requires Shape(s) && Enabled(s, e)
  {
    match e
    case Accept => s.(acceptor := InHand(s.arrivals), arrivals := s.arrivals + 1)
    case CountAccepted => s.(acceptor := Offering(s.acceptor.fd), accepted := s.accepted + 1)
    case Offer(wake) => AfterOffer(s, TP.Apply(s.pool, TP.Submit(0, s.acceptor.fd, wake)))
    case OfferAgain(wake) => AfterOffer(s, TP.Apply(s.pool, TP.Resubmit(0, wake)))
    case StirAcceptor => s.(pool := TP.Apply(s.pool, TP.StirSubmitter(0)))
    case CloseRefused => s.(acceptor := RefusedClosed(s.acceptor.fd), closed := s.closed + [s.acceptor.fd])
    case TallyRefused => s.(acceptor := Looping, errored := s.errored + 1)
    case AcceptorExit => s.(acceptor := Exited)
    case Fetch(w, wake) =>
      var pool := TP.Apply(s.pool, TP.Take(w, wake));
      s.(pool := pool,
         stages := if pool.workers[w].Running? then s.stages[w := Serving(pool.workers[w].task, H.Popped)] else s.stages)
    case StirWorker(w) => s.(pool := TP.Apply(s.pool, TP.StirWorker(w)))
    case Work(w, act) => Effect(s, w, act)
    case Return(w) => s.(pool := TP.Apply(s.pool, TP.Finish(w)), stages := s.stages[w := Idle])
    case RequestShutdown => MoveMain(s, e)
    case JoinAcceptor => MoveMain(s, e)
    case Poll => if s.inFlight > 0 then MoveMain(s, e) else MoveMain(s, e).(leftover := Unseen(s))
    case ReadClock(late) => MoveMain(s, e).(expired := s.expired || late)
    case Review => MoveMain(s, e)
    case CountLeft => MoveMain(s, e)
    case Drop => MoveMain(s, e).(dropped := if s.main.left > 0 then s.dropped + 1 else s.dropped)
    case Stop => MoveMain(s, e).(pool := TP.Apply(s.pool, TP.SetStop(true)))
    case NotifyWorkers => MoveMain(s, e).(pool := TP.Apply(s.pool, TP.TellWorkers))
    case NotifySubmitters => MoveMain(s, e).(pool := TP.Apply(s.pool, TP.TellSubmitters))
    case Join => MoveMain(s, e)
    case ShutBackends => MoveMain(s, e)
  }

  /** main's own configuration of the pool: it blocks on full, and only the acceptor submits. */
  function Init(tls: bool, threads: nat, depth: nat): State {
    var pool := TP.Init<nat>(threads, 1, depth, false);
    State(tls, pool, Looping, seq(|pool.workers|, _ => Idle), Running, 0, 0, 0, 0, 0, 0, [], false, false)
  }

  predicate Valid(s: State, es: seq<Event>)
    decreases |es|
  {
    Shape(s) && (es != [] ==> Enabled(s, es[0]) && Valid(Apply(s, es[0]), es[1..]))
  }

  function Final(s: State, es: seq<Event>): State
    requires Valid(s, es)
    decreases |es|
  {
    if es == [] then s else Final(Apply(s, es[0]), es[1..])
  }
}

/** The whole router: the drain protocol and the traffic on the backend connections as one machine.
    A worker's step that touches a backend is one step of both. */
module System {
  import opened Wire
  import R = Router
  import H = Handler
  import T = Traffic
  import Pool = BackendPool

  /** A reply delivered to a client: the request read from it, what it was sent, and the entry in the traffic
      log the reply was taken from. */
  datatype Served = Served(fd: nat, request: Bytes, response: Bytes, pos: nat)

  /** A request read in full from a client. */
  datatype Receipt = Receipt(fd: nat, request: Bytes)

  /** `read` lists the requests as they were read; `inbox[w]` is the request worker w has read from its client; `owner[n]` is the client on whose
      behalf exchange n was made; `shut` counts the pools main has shut. */
  datatype State = State(
    router: R.State, traffic: T.State, read: seq<Receipt>, inbox: seq<Bytes>, owner: seq<nat>, served: seq<Served>, shut: nat)

  datatype Event =
    | Plain(re: R.Event)
    | ReadClient(w: nat, req: Bytes)
    | Ask(w: nat)
    | Connect(w: nat)
    | GiveUp(w: nat)
    | Write(w: nat, k: nat)
    | Read(w: nat, k: nat, ok: bool)
    | ReplyTo(w: nat)
    | Hand(w: nat, ok: bool)
    | Leave(w: nat)
    | Background(te: T.Event)
    | ShutPool
    | ShutAll

  predicate Shape(s: State) {
    R.Shape(s.router) && T.Shape(s.traffic) && |s.router.stages| == |s.traffic.jobs| == |s.inbox|
  }

  /** Acts that involve neither a backend nor the content of a message. */
  predicate PlainAct(a: H.Act) {
    || a.CountIn? || a.Handshake? || a == H.ReadRequest(false) || a == H.ReplyClient(false) || a.ReplyError?
    || a.TallyCompleted? || a.TallyErrored? || a.CloseClient? || a.CountOut?
  }

  predicate IsPlain(e: R.Event) { !e.ShutBackends? && (e.Work? ==> PlainAct(e.act)) }

  /** What the reapers, the pools and the backends do on their own. */
  predicate IsBackground(e: T.Event) { e.Inside? || e.PingWrite? || e.PingRead? || e.PingGiveUp? || e.Reply? }

  predicate Joint(e: Event) { e.Ask? || e.Connect? || e.GiveUp? || e.Write? || e.Read? || e.Hand? || e.Leave? }

  /** The two halves of a step a worker takes with its backend. */
  function Act(s: State, e: Event): H.Act
    requires Shape(s) && Joint(e)
  {
    match e
    case Ask(_) => H.StartBorrow
    case Connect(_) => H.EndBorrow(true)
    case GiveUp(_) => H.EndBorrow(false)
    case Write(w, k) =>
      H.WriteBackend(w < |s.traffic.jobs| && s.traffic.jobs[w].Ready? && |s.traffic.jobs[w].req| <= MAX_LENGTH
                     && k == |Encode(s.traffic.jobs[w].req)|)
    case Read(_, _, ok) => H.ReadBackend(ok)
    case Hand(_, ok) => H.StartRelease(ok)
    case Leave(_) => H.EndRelease
  }

  function Move(s: State, e: Event): T.Event
    requires Shape(s) && Joint(e)
  {
    match e
    case Ask(w) => T.Ask(w, if w < |s.inbox| then s.inbox[w] else [])
    case Connect(w) => T.Connect(w)
    case GiveUp(w) => T.GiveUp(w)
    case Write(w, k) => T.Write(w, k)
    case Read(w, k, ok) => T.Read(w, k, ok)
    case Hand(w, ok) => T.Hand(w, ok)
    case Leave(w) => T.Leave(w)
  }

  predicate Enabled(s: State, e: Event)
    requires Shape(s)
  {
    if Joint(e) then R.Enabled(s.router, R.Work(e.w, Act(s, e))) && T.Enabled(s.traffic, Move(s, e))
    else match e
      case Plain(re) => IsPlain(re) && R.Enabled(s.router, re)
      case ReadClient(w, req) => R.Enabled(s.router, R.Work(w, H.ReadRequest(true)))
                                 && |req| <= MAX_LENGTH && |req| <= s.traffic.maxPayload
      case ReplyTo(w) => R.Enabled(s.router, R.Work(w, H.ReplyClient(true)))
                         && s.traffic.jobs[w].Answered? && s.traffic.jobs[w].pos < |s.traffic.log|
      case Background(te) => IsBackground(te) && T.Enabled(s.traffic, te)
      case ShutPool => s.router.main.CloseBackends? && s.shut < |s.traffic.lines|
      case ShutAll => R.Enabled(s.router, R.ShutBackends) && s.shut == |s.traffic.lines|
  }

  function Apply(s: State, e: Event): State
    requires Shape(s) && Enabled(s, e)
  {
    if Joint(e) then
      s.(router := R.Apply(s.router, R.Work(e.w, Act(s, e))), traffic := T.Apply(s.traffic, Move(s, e)),
         owner := if e.Read? && e.ok then s.owner + [s.router.stages[e.w].fd] else s.owner)
    else match e
      case Plain(re) => s.(router := R.Apply(s.router, re))
      case ReadClient(w, req) =>
        s.(router := R.Apply(s.router, R.Work(w, H.ReadRequest(true))), inbox := s.inbox[w := req],
           read := s.read + [Receipt(s.router.stages[w].fd, req)])
      case ReplyTo(w) =>
        var pos := s.traffic.jobs[w].pos;
        s.(router := R.Apply(s.router, R.Work(w, H.ReplyClient(true))),
           served := s.served + [Served(s.router.stages[w].fd, s.inbox[w], s.traffic.log[pos].response, pos)])
      case Background(te) => s.(traffic := T.Apply(s.traffic, te))
      case ShutPool => s.(traffic := T.Apply(s.traffic, T.ShutDown(s.shut)), shut := s.shut + 1)
      case ShutAll => s.(router := R.Apply(s.router, R.ShutBackends))
  }

  /** How the router is started. */
  datatype Setup = Setup(tls: bool, threads: nat, depth: nat, weights: seq<nat>, opts: Pool.Config, maxPayload: nat)

  /** One client for each worker; without a configured backend main adds a default one of weight one. */
  function Init(u: Setup): State {
    var router := R.Init(u.tls, u.threads, u.depth);
    State(router, T.Init(if u.weights == [] then [1] else u.weights, u.opts, |router.stages|, u.maxPayload),
          [], seq(|router.stages|, _ => []), [], [], 0)
  }

  predicate Valid(s: State, es: seq<Event>)
    decreases |es|
  {
    Shape(s) && (es != [] ==> Enabled(s, es[0]) && Valid(Apply(s, es[0]), es[1..]))
  }

  function Final(s: State, es: seq<Event>): State
    requires Valid(s, es)
    decreases |es|
  {
    if es == [] then s else Final(Apply(s, es[0]), es[1..])
  }

  ghost predicate Reachable(u: Setup, s: State) {
    exists es :: Valid(Init(u), es) && Final(Init(u), es) == s
  }
}

/** Requests on backend connections: worker threads that borrow from the backend set, write a request, read a
    reply and release, while the reapers ping idle connections and the backends answer.  The bytes
    on every connection are part of the state. */
module Traffic {
  import opened Wire
  import opened Conversation
  import Set = BackendSet
  import Pool = BackendPool

  /** What a thread is about, from reading a client's request to handing the connection back.
      `Answered` points at its entry in the log. */
  datatype Job =
    | NoJob
    | Wanting(req: Bytes)          // inside borrow
    | Ready(req: Bytes)            // connection in hand, nothing written
    | Asked(req: Bytes)            // request written in full
    | Answered(pos: nat)
    | Broken                       // a write or read failed

  /** How far the reaper is with the first connection it has to check. */
  datatype Ping = Unasked | Sent | Failed

  /** A reply read in full: on which connection, as which answer there, to which request. */
  datatype Exchange = Exchange(pool: nat, conn: nat, index: nat, request: Bytes, response: Bytes)

  /** `lines[i][c]` is connection c of pool i. */
  datatype State = State(
    set_: Set.State, lines: seq<seq<Line>>, jobs: seq<Job>, pings: seq<Ping>, log: seq<Exchange>, maxPayload: nat)

  datatype Event =
    | Ask(t: nat, req: Bytes)
    | Connect(t: nat)
    | GiveUp(t: nat)
    | Write(t: nat, k: nat)
    | Read(t: nat, k: nat, ok: bool)
    | Hand(t: nat, ok: bool)
    | Leave(t: nat)
    | Inside(i: nat, e: Pool.Event)
    | PingWrite(i: nat, k: nat)
    | PingRead(i: nat, k: nat, ok: bool)
    | PingGiveUp(i: nat)
    | Reply(i: nat, c: nat, m: Bytes)
    | ShutDown(i: nat)

  /** kDefaultMaxPayload, which the health check uses. */
  const PING_MAX: nat := 16 * 1024 * 1024

  /** Connection `c` of a pool; one never dialled is as good as fresh. */
  function LineAt(ls: seq<Line>, c: nat): Line {
    if c < |ls| then ls[c] else Fresh()
  }

  predicate Shape(s: State) {
    && Set.Shape(s.set_) && |s.lines| == |s.pings| == |s.set_.pools| && |s.jobs| == |s.set_.threads|
  }

  /** Thread `t` has a connection in hand. */
  predicate InHand(s: State, t: nat)
    requires Shape(s)
  {
    && t < |s.jobs| && s.set_.threads[t].Held? && s.set_.threads[t].at < |s.lines|
    && s.set_.pools[s.set_.threads[t].at].clients[t].Holding?
    && s.set_.pools[s.set_.threads[t].at].clients[t].conn < |s.lines[s.set_.threads[t].at]|
  }

  function At(s: State, t: nat): nat
    requires Shape(s) && InHand(s, t)
  {
    s.set_.threads[t].at
  }

  function ConnOf(s: State, t: nat): (c: nat)
    requires Shape(s) && InHand(s, t)
    ensures c < |s.lines[At(s, t)]|
  {
    s.set_.pools[At(s, t)].clients[t].conn
  }

  /** The reaper of pool `i` stands before a connection to check. */
  predicate Checking(s: State, i: nat)
    requires Shape(s)
  {
    && i < |s.lines| && s.set_.pools[i].reaper.Busy? && s.set_.pools[i].reaper.victims == []
    && s.set_.pools[i].reaper.toCheck != [] && s.set_.pools[i].reaper.toCheck[0].conn < |s.lines[i]|
  }

  function Checked(s: State, i: nat): (c: nat)
    requires Shape(s) && Checking(s, i)
    ensures c < |s.lines[i]|
  {
    s.set_.pools[i].reaper.toCheck[0].conn
  }

  /** What a read of up to one frame may do: on success take exactly the frame the decoder sees, otherwise
      stop anywhere. */
  predicate ReadOutcome(l: Line, maxPayload: nat, k: nat, ok: bool) {
    && Sendable(l.answers) && l.taken <= |EncodeAll(l.answers)| && k <= |Unread(l)|
    && (ok ==> ParseFrame(Unread(l), maxPayload).status.Ok? && k == ParseFrame(Unread(l), maxPayload).consumed)
  }

  predicate Enabled(s: State, e: Event)
    requires Shape(s)
  {
    match e
    case Ask(t, req) => Set.Enabled(s.set_, Set.Choose(t)) && |req| <= MAX_LENGTH && |req| <= s.maxPayload
    case Connect(t) => Set.Enabled(s.set_, Set.BorrowWon(t)) && s.jobs[t].Wanting?
    case GiveUp(t) => Set.Enabled(s.set_, Set.BorrowLost(t))
    case Write(t, k) => InHand(s, t) && s.jobs[t].Ready? && |s.jobs[t].req| <= MAX_LENGTH && k <= |Encode(s.jobs[t].req)|
    case Read(t, k, ok) => InHand(s, t) && s.jobs[t].Asked? && ReadOutcome(s.lines[At(s, t)][ConnOf(s, t)], s.maxPayload, k, ok)
    case Hand(t, ok) => Set.Enabled(s.set_, Set.Release(t, ok)) && (if ok then s.jobs[t].Answered? else s.jobs[t].Broken?)
    case Leave(t) => Set.Enabled(s.set_, Set.ReleaseDone(t))
    case Inside(i, pe) => Set.Enabled(s.set_, Set.Inside(i, pe)) && !pe.Ping?
    case PingWrite(i, k) => Checking(s, i) && s.pings[i].Unasked? && k <= |Encode([])|
    case PingRead(i, k, ok) => Checking(s, i) && s.pings[i].Sent?
                               && ReadOutcome(s.lines[i][Checked(s, i)], PING_MAX, k, ok)
                               && (ok ==> ParseFrame(Unread(s.lines[i][Checked(s, i)]), PING_MAX).payload == [])
    case PingGiveUp(i) => Checking(s, i) && s.pings[i].Failed?
    case Reply(i, c, m) => i < |s.lines| && c < |s.lines[i]| && |m| <= MAX_LENGTH
                           && |s.lines[i][c].answers| < |Frames(s.lines[i][c].sent)|
    case ShutDown(i) => i < |s.lines|
  }

  function WithLine(s: State, i: nat, c: nat, l: Line): State
    requires i < |s.lines| && c < |s.lines[i]|
  {
    s.(lines := s.lines[i := s.lines[i][c := l]])
  }

  function Apply(s: State, e: Event): State
    requires Shape(s) && Enabled(s, e)
  {
    match e
    case Ask(t, req) => s.(set_ := Set.Apply(s.set_, Set.Choose(t)), jobs := s.jobs[t := Wanting(req)])
    case Connect(t) => s.(set_ := Set.Apply(s.set_, Set.BorrowWon(t)), jobs := s.jobs[t := Ready(s.jobs[t].req)])
    case GiveUp(t) => s.(set_ := Set.Apply(s.set_, Set.BorrowLost(t)), jobs := s.jobs[t := NoJob])
    case Write(t, k) =>
      var i, c, req := At(s, t), ConnOf(s, t), s.jobs[t].req;
      WithLine(s, i, c, Send(s.lines[i][c], Encode(req)[..k]))
      .(jobs := s.jobs[t := if k == |Encode(req)| then Asked(req) else Broken])
    case Read(t, k, ok) =>
      var i, c, req := At(s, t), ConnOf(s, t), s.jobs[t].req;
      var l := s.lines[i][c];
      if ok then
        WithLine(s, i, c, Hear(l, k))
        .(jobs := s.jobs[t := Answered(|s.log|)],
          log := s.log + [Exchange(i, c, l.heard, req, ParseFrame(Unread(l), s.maxPayload).payload)])
      else WithLine(s, i, c, Take(l, k)).(jobs := s.jobs[t := Broken])
    case Hand(t, ok) => s.(set_ := Set.Apply(s.set_, Set.Release(t, ok)))
    case Leave(t) => s.(set_ := Set.Apply(s.set_, Set.ReleaseDone(t)))
    case Inside(i, pe) =>
      s.(set_ := Set.Apply(s.set_, Set.Inside(i, pe)),
         lines := if pe.DialOk? then s.lines[i := s.lines[i] + [Fresh()]] else s.lines)
    case PingWrite(i, k) =>
      WithLine(s, i, Checked(s, i), Send(s.lines[i][Checked(s, i)], Encode([])[..k]))
      .(pings := s.pings[i := if k == |Encode([])| then Sent else Failed])
    case PingRead(i, k, ok) =>
      var l := s.lines[i][Checked(s, i)];
      WithLine(s, i, Checked(s, i), if ok then Hear(l, k) else Take(l, k))
      .(set_ := Set.Apply(s.set_, Set.Inside(i, Pool.Ping(ok))), pings := s.pings[i := Unasked])
    case PingGiveUp(i) =>
      s.(set_ := Set.Apply(s.set_, Set.Inside(i, Pool.Ping(false))), pings := s.pings[i := Unasked])
    case Reply(i, c, m) => WithLine(s, i, c, Answer(s.lines[i][c], m))
    case ShutDown(i) => s.(set_ := Set.Apply(s.set_, Set.ShutDown(i)))
  }

  function Init(weights: seq<nat>, opts: Pool.Config, threads: nat, maxPayload: nat): State {
    var set_ := Set.Init(weights, opts, threads);
    State(set_, seq(|set_.pools|, _ => []), seq(threads, _ => NoJob), seq(|set_.pools|, _ => Unasked), [], maxPayload)
  }

  predicate Valid(s: State, es: seq<Event>)
    decreases |es|
  {
    Shape(s) && (es != [] ==> Enabled(s, es[0]) && Valid(Apply(s, es[0]), es[1..]))
  }

  function Final(s: State, es: seq<Event>): State
    requires Valid(s, es)
    decreases |es|
  {
    if es == [] then s else Final(Apply(s, es[0]), es[1..])
  }
}

/** `handle_one` of src/handler.cpp: what one request does, in what order, on every path.
    The two overloads differ only in what they borrow from; the plain and the TLS path differ
    in the handshake and in who closes the client after a failed one. */
module Handler {
  import opened Wire

  /** The visible actions of a request, with how each one turned out. */
  datatype Act =
    | CountIn                       // in_flight + 1
    | Handshake(ok: bool)           // TLS only; a failed handshake closes the client itself
    | ReadRequest(ok: bool)
    | StartBorrow
    | EndBorrow(ok: bool)
    | WriteBackend(ok: bool)
    | ReadBackend(ok: bool)
    | ReplyClient(ok: bool)
    | ReplyError                    // best effort
    | StartRelease(ok: bool)
    | EndRelease
    | TallyCompleted
    | TallyErrored
    | CloseClient
    | CountOut                      // in_flight - 1

  /** Where a request is between two actions. */
  datatype Point =
    | Popped                                // taken off the queue, nothing done yet
    | Counted
    | Shaken
    | Asking                                // request read
    | Borrowing
    | Connected                             // backend connection in hand
    | Asked
    | Answered
    | Failing(connected: bool)
    | HandingBack(ok: bool, completed: bool)
    | Returning(completed: bool)
    | Judged(completed: bool, closed: bool)
    | Tallied
    | Leaving
    | Done

  datatype Option<T> = None | Some(value: T)

  /** The order of actions `handle_one` allows. */
  function Advance(p: Point, a: Act): Option<Point> {
    match (p, a)
    case (Popped, CountIn) => Some(Counted)
    case (Counted, Handshake(ok)) => Some(if ok then Shaken else Judged(false, true))
    case (Counted, ReadRequest(ok)) => Some(if ok then Asking else Judged(false, false))
    case (Shaken, ReadRequest(ok)) => Some(if ok then Asking else Judged(false, false))
    case (Asking, StartBorrow) => Some(Borrowing)
    case (Borrowing, EndBorrow(ok)) => Some(if ok then Connected else Failing(false))
    case (Connected, WriteBackend(ok)) => Some(if ok then Asked else Failing(true))
    case (Asked, ReadBackend(ok)) => Some(if ok then Answered else Failing(true))
    case (Answered, ReplyClient(ok)) => Some(HandingBack(true, ok))
    case (Failing(connected), ReplyError) => Some(if connected then HandingBack(false, false) else Judged(false, false))
    case (HandingBack(ok, completed), StartRelease(o)) => if o == ok then Some(Returning(completed)) else None
    case (Returning(completed), EndRelease) => Some(Judged(completed, false))
    case (Judged(completed, closed), TallyCompleted) => if completed then Some(if closed then Leaving else Tallied) else None
    case (Judged(completed, closed), TallyErrored) => if completed then None else Some(if closed then Leaving else Tallied)
    case (Tallied, CloseClient) => Some(Leaving)
    case (Leaving, CountOut) => Some(Done)
    case _ => None
  }

  function Drive(p: Point, acts: seq<Act>): Option<Point>
    decreases |acts|
  {
    if acts == [] then Some(p)
    else match Advance(p, acts[0])
      case None => None
      case Some(q) => Drive(q, acts[1..])
  }

  /** How the calls `handle_one` makes turn out. */
  datatype Outcomes = Outcomes(
    tls: bool, handshake: bool, clientRead: IoStatus, borrowed: bool,
    backendWrite: IoStatus, backendRead: IoStatus, clientWrite: IoStatus)

  predicate Succeeds(o: Outcomes) {
    (o.tls ==> o.handshake) && o.clientRead.Ok? && o.borrowed && o.backendWrite.Ok? && o.backendRead.Ok? && o.clientWrite.Ok?
  }

  /** src/metrics.h: the counters a request touches. */
  class Metrics {
    var completed: nat
    var errored: nat
    var inFlight: int
  }

  lemma DriveSnoc(p: Point, acts: seq<Act>, a: Act)
    requires Drive(p, acts).Some?
    ensures Drive(p, acts + [a]) == Advance(Drive(p, acts).value, a)
    decreases |acts|
  {
    if acts == [] {
      assert ([] + [a])[1..] == [];
    } else {
      assert (acts + [a])[1..] == acts[1..] + [a];
      DriveSnoc(Advance(p, acts[0]).value, acts[1..], a);
    }
  }

  /** An act that reports how a call turned out reports what the call returned. */
  predicate Truthful(o: Outcomes, a: Act) {
    match a
    case Handshake(ok) => o.tls && ok == o.handshake
    case ReadRequest(ok) => ok == o.clientRead.Ok?
    case EndBorrow(ok) => ok == o.borrowed
    case WriteBackend(ok) => ok == o.backendWrite.Ok?
    case ReadBackend(ok) => ok == o.backendRead.Ok?
    case ReplyClient(ok) => ok == o.clientWrite.Ok?
    case _ => true
  }

  /** All acts are truthful, and a TLS client is greeted before anything is read from it. */
  ghost predicate Obeys(o: Outcomes, acts: seq<Act>) {
    && (forall i :: 0 <= i < |acts| ==> Truthful(o, acts[i]))
    && (o.tls && |acts| > 1 ==> acts[1].Handshake?)
  }

  /** The acts of one request as the code performs them, early returns included; `o` is how the calls
      turn out. */
  class Request {
    const o: Outcomes
    var acts: seq<Act>
    ghost var at: Point

    ghost predicate Valid()
      reads this
    {
      Drive(Popped, acts) == Some(at) && Obeys(o, acts) && (at.Counted? ==> |acts| == 1)
    }

    constructor (o: Outcomes)
      ensures Valid() && at == Popped && acts == [] && this.o == o
    {
      this.o := o;
      acts, at := [], Popped;
    }

    method Do(a: Act)
      requires Valid() && Advance(at, a).Some? && Truthful(o, a) && (at.Counted? && o.tls ==> a.Handshake?)
      modifies this
      ensures Valid() && at == Advance(old(at), a).value
    {
      DriveSnoc(Popped, acts, a);
      SecondAct(acts, at);
      acts := acts + [a];
      at := Advance(at, a).value;
    }

    method Tally(m: Metrics, completed: bool, ghost closed: bool)
      requires Valid() && at == Judged(completed, closed)
      modifies this, m
      ensures Valid() && at == (if closed then Leaving else Tallied) && m.inFlight == old(m.inFlight)
      ensures m.completed == old(m.completed) + (if completed then 1 else 0)
      ensures m.errored == old(m.errored) + (if completed then 0 else 1)
    {
      if completed {
        m.completed := m.completed + 1;
        Do(TallyCompleted);
      } else {
        m.errored := m.errored + 1;
        Do(TallyErrored);
      }
    }

    /** Tally, close the client unless the handshake already did, count out: the tail of every path. */
    method Settle(m: Metrics, completed: bool, closed: bool)
      requires Valid() && at == Judged(completed, closed)
      modifies this, m
      ensures Valid() && at == Done && m.inFlight == old(m.inFlight) - 1
      ensures m.completed == old(m.completed) + (if completed then 1 else 0)
      ensures m.errored == old(m.errored) + (if completed then 0 else 1)
    {
      Tally(m, completed, closed);
      if !closed { Do(CloseClient); }
      m.inFlight := m.inFlight - 1;
      Do(CountOut);
    }

    method GiveBack(m: Metrics, ok: bool, completed: bool)
      requires Valid() && at == HandingBack(ok, completed)
      modifies this, m
      ensures Valid() && at == Done && m.inFlight == old(m.inFlight) - 1
      ensures m.completed == old(m.completed) + (if completed then 1 else 0)
      ensures m.errored == old(m.errored) + (if completed then 0 else 1)
    {
      Do(StartRelease(ok));
      Do(EndRelease);
      Settle(m, completed, false);
    }

    /** Best-effort error reply, then hand the connection back for closing if there is one. */
    method Apologize(m: Metrics, connected: bool)
      requires Valid() && at == Failing(connected)
      modifies this, m
      ensures Valid() && at == Done && m.inFlight == old(m.inFlight) - 1
      ensures m.completed == old(m.completed) && m.errored == old(m.errored) + 1
    {
      Do(ReplyError);
      if connected { GiveBack(m, false, false); } else { Settle(m, false, false); }
    }

    /** The exchange with the backend and the reply to the client. */
    method Converse(m: Metrics)
      requires Valid() && at == Connected
      modifies this, m
      ensures Valid() && at == Done && m.inFlight == old(m.inFlight) - 1
      ensures var ok := o.backendWrite.Ok? && o.backendRead.Ok? && o.clientWrite.Ok?;
              && m.completed == old(m.completed) + (if ok then 1 else 0)
              && m.errored == old(m.errored) + (if ok then 0 else 1)
    {
      Do(WriteBackend(o.backendWrite.Ok?));
      if !o.backendWrite.Ok? { Apologize(m, true); return; }
      Do(ReadBackend(o.backendRead.Ok?));
      if !o.backendRead.Ok? { Apologize(m, true); return; }
      Do(ReplyClient(o.clientWrite.Ok?));
      GiveBack(m, true, o.clientWrite.Ok?);
    }

    /** From reading the request on, the plain and the TLS path do the same. */
    method Serve(m: Metrics)
      requires Valid() && (if o.tls then at == Shaken else at == Counted)
      modifies this, m
      ensures Valid() && at == Done && m.inFlight == old(m.inFlight) - 1
      ensures var ok := o.clientRead.Ok? && o.borrowed && o.backendWrite.Ok? && o.backendRead.Ok? && o.clientWrite.Ok?;
              && m.completed == old(m.completed) + (if ok then 1 else 0)
              && m.errored == old(m.errored) + (if ok then 0 else 1)
    {
      Do(ReadRequest(o.clientRead.Ok?));
      if !o.clientRead.Ok? { Settle(m, false, false); return; }
      Do(StartBorrow);
      Do(EndBorrow(o.borrowed));
      if !o.borrowed { Apologize(m, false); return; }
      Converse(m);
    }

    /** `handle_one`: every path runs from popped to done within the allowed order, reports every call as it turned
        out, leaves in_flight as it found it, and tallies the request once, completed exactly when
        everything worked; and what the client and the backend connection get is as the outcomes demand. */
    method HandleOne(m: Metrics)
      requires Valid() && at == Popped
      modifies this, m
      ensures Valid() && at == Done && m.inFlight == old(m.inFlight)
      ensures m.completed == old(m.completed) + (if Succeeds(o) then 1 else 0)
      ensures m.errored == old(m.errored) + (if Succeeds(o) then 0 else 1)
      ensures Conduct(o, acts)
    {
      m.inFlight := m.inFlight + 1;
      Do(CountIn);
      if o.tls {
        Do(Handshake(o.handshake));
        if !o.handshake {
          Settle(m, false, true);
          ConductOf(o, acts);
          return;
        }
      }
      Serve(m);
      ConductOf(o, acts);
    }
  }

  /** Only the first act of all leads to the point where a TLS client is still to be greeted. */
  lemma SecondAct(acts: seq<Act>, at: Point)
    requires Drive(Popped, acts) == Some(at)
    ensures at.Popped? ==> acts == []
  {
    NeverPoppedAgain(Popped, acts, at);
  }

  lemma {:induction false} NeverPoppedAgain(p: Point, acts: seq<Act>, at: Point)
    requires Drive(p, acts) == Some(at)
    ensures at.Popped? ==> acts == []
    decreases |acts|
  {
    if acts != [] {
      NeverPoppedAgain(Advance(p, acts[0]).value, acts[1..], at);
      if |acts| == 1 {
        assert acts[1..] == [];
      }
    }
  }

  // ---------------------------------------------------------------- what the outcomes demand

  predicate Greeted(o: Outcomes) { o.tls ==> o.handshake }
  predicate Heard(o: Outcomes) { Greeted(o) && o.clientRead.Ok? }
  predicate Answers(o: Outcomes) { o.backendWrite.Ok? && o.backendRead.Ok? }

  /** What happens to the client: it is greeted if it speaks TLS; its request is read if it was greeted; it gets the
      reply if there is one, and an error if its request was read and there is none. */
  ghost predicate ClientConduct(o: Outcomes, acts: seq<Act>) {
    && (forall b :: Handshake(b) in acts <==> o.tls && b == o.handshake)
    && (forall b :: ReadRequest(b) in acts <==> Greeted(o) && b == o.clientRead.Ok?)
    && (forall b :: ReplyClient(b) in acts <==> Heard(o) && o.borrowed && Answers(o) && b == o.clientWrite.Ok?)
    && (ReplyError in acts <==> Heard(o) && !(o.borrowed && Answers(o)))
  }

  /** What happens to the backend: once a request is read a connection is borrowed; a connection that was borrowed is
      written to, read from if that worked, and handed back, as healthy exactly if both worked. */
  ghost predicate BackendConduct(o: Outcomes, acts: seq<Act>) {
    && (forall b :: EndBorrow(b) in acts <==> Heard(o) && b == o.borrowed)
    && (forall b :: WriteBackend(b) in acts <==> Heard(o) && o.borrowed && b == o.backendWrite.Ok?)
    && (forall b :: ReadBackend(b) in acts <==> Heard(o) && o.borrowed && o.backendWrite.Ok? && b == o.backendRead.Ok?)
    && (forall b :: StartRelease(b) in acts <==> Heard(o) && o.borrowed && b == Answers(o))
  }

  ghost predicate Conduct(o: Outcomes, acts: seq<Act>) {
    && ClientConduct(o, acts) && BackendConduct(o, acts)
    && (TallyCompleted in acts <==> Succeeds(o)) && (TallyErrored in acts <==> !Succeeds(o))
  }

  /** Whether an act occurs reporting success, and whether it occurs reporting failure. */
  datatype Seen = Seen(yes: bool, no: bool)

  const NEVER: Seen := Seen(false, false)

  function Once(b: bool): Seen { Seen(b, !b) }
  function Also(x: Seen, b: bool): Seen { if b then x.(yes := true) else x.(no := true) }
  predicate Shows(x: Seen, b: bool) { if b then x.yes else x.no }

  /** Which acts occur, with which outcome. */
  datatype Deeds = Deeds(handshake: Seen, read: Seen, borrow: Seen, write: Seen, hear: Seen, reply: Seen, release: Seen,
                         tally: Seen, apology: bool)

  const NOTHING: Deeds := Deeds(NEVER, NEVER, NEVER, NEVER, NEVER, NEVER, NEVER, NEVER, false)

  function With(d: Deeds, a: Act): Deeds {
    match a
    case Handshake(b) => d.(handshake := Also(d.handshake, b))
    case ReadRequest(b) => d.(read := Also(d.read, b))
    case EndBorrow(b) => d.(borrow := Also(d.borrow, b))
    case WriteBackend(b) => d.(write := Also(d.write, b))
    case ReadBackend(b) => d.(hear := Also(d.hear, b))
    case ReplyClient(b) => d.(reply := Also(d.reply, b))
    case StartRelease(b) => d.(release := Also(d.release, b))
    case TallyCompleted => d.(tally := Also(d.tally, true))
    case TallyErrored => d.(tally := Also(d.tally, false))
    case ReplyError => d.(apology := true)
    case _ => d
  }

  function DeedsOf(acts: seq<Act>): Deeds {
    if acts == [] then NOTHING else With(DeedsOf(acts[1..]), acts[0])
  }

  predicate Includes(d: Deeds, a: Act) {
    match a
    case Handshake(b) => Shows(d.handshake, b)
    case ReadRequest(b) => Shows(d.read, b)
    case EndBorrow(b) => Shows(d.borrow, b)
    case WriteBackend(b) => Shows(d.write, b)
    case ReadBackend(b) => Shows(d.hear, b)
    case ReplyClient(b) => Shows(d.reply, b)
    case StartRelease(b) => Shows(d.release, b)
    case TallyCompleted => d.tally.yes
    case TallyErrored => d.tally.no
    case ReplyError => d.apology
    case _ => false
  }

  predicate Notable(a: Act) { !a.CountIn? && !a.CountOut? && !a.StartBorrow? && !a.EndRelease? && !a.CloseClient? }

  lemma WithIncludes(d: Deeds, x: Act, a: Act)
    requires Notable(a)
    ensures Includes(With(d, x), a) <==> x == a || Includes(d, a)
  {
  }

  lemma {:induction false} DeedsAreActs(acts: seq<Act>, a: Act)
    requires Notable(a)
    ensures a in acts <==> Includes(DeedsOf(acts), a)
  {
    if acts != [] {
      DeedsAreActs(acts[1..], a);
      WithIncludes(DeedsOf(acts[1..]), acts[0], a);
      assert acts == [acts[0]] + acts[1..];
    }
  }

  /** `acts` runs truthfully from `p` to the end. */
  ghost predicate Ends(o: Outcomes, p: Point, acts: seq<Act>) {
    Drive(p, acts) == Some(Done) && forall i :: 0 <= i < |acts| ==> Truthful(o, acts[i])
  }

  lemma HeadAndRest(o: Outcomes, p: Point, acts: seq<Act>)
    requires Ends(o, p, acts) && !p.Done?
    ensures acts != [] && Truthful(o, acts[0]) && Advance(p, acts[0]).Some? && Ends(o, Advance(p, acts[0]).value, acts[1..])
    ensures DeedsOf(acts) == With(DeedsOf(acts[1..]), acts[0])
  {
  }

  lemma NothingAfterDone(acts: seq<Act>)
    requires Drive(Done, acts).Some?
    ensures acts == []
  {
  }

  lemma AfterTally(o: Outcomes, p: Point, acts: seq<Act>)
    requires Ends(o, p, acts) && (p.Tallied? || p.Leaving? || p.Done?)
    ensures DeedsOf(acts) == NOTHING
    decreases |acts|
  {
    if p.Done? {
      NothingAfterDone(acts);
    } else {
      HeadAndRest(o, p, acts);
      AfterTally(o, Advance(p, acts[0]).value, acts[1..]);
    }
  }

  lemma FromJudged(o: Outcomes, p: Point, acts: seq<Act>)
    requires Ends(o, p, acts) && (p.Judged? || p.Returning?)
    ensures DeedsOf(acts) == NOTHING.(tally := Once(p.completed))
    decreases |acts|
  {
    HeadAndRest(o, p, acts);
    if p.Returning? {
      FromJudged(o, Judged(p.completed, false), acts[1..]);
    } else {
      AfterTally(o, Advance(p, acts[0]).value, acts[1..]);
    }
  }

  lemma FromHandingBack(o: Outcomes, p: Point, acts: seq<Act>)
    requires Ends(o, p, acts) && p.HandingBack?
    ensures DeedsOf(acts) == NOTHING.(release := Once(p.ok), tally := Once(p.completed))
  {
    HeadAndRest(o, p, acts);
    FromJudged(o, Returning(p.completed), acts[1..]);
  }

  lemma FromFailing(o: Outcomes, p: Point, acts: seq<Act>)
    requires Ends(o, p, acts) && p.Failing?
    ensures DeedsOf(acts) == NOTHING.(apology := true, release := if p.connected then Once(false) else NEVER, tally := Once(false))
  {
    HeadAndRest(o, p, acts);
    if p.connected {
      FromHandingBack(o, HandingBack(false, false), acts[1..]);
    } else {
      FromJudged(o, Judged(false, false), acts[1..]);
    }
  }

  lemma FromAsked(o: Outcomes, acts: seq<Act>)
    requires Ends(o, Asked, acts)
    ensures var ok := o.backendRead.Ok?;
            DeedsOf(acts) == NOTHING.(hear := Once(ok), reply := if ok then Once(o.clientWrite.Ok?) else NEVER, release := Once(ok),
                                      apology := !ok, tally := Once(ok && o.clientWrite.Ok?))
  {
    HeadAndRest(o, Asked, acts);
    if o.backendRead.Ok? {
      HeadAndRest(o, Answered, acts[1..]);
      FromHandingBack(o, HandingBack(true, o.clientWrite.Ok?), acts[1..][1..]);
    } else {
      FromFailing(o, Failing(true), acts[1..]);
    }
  }

  /** What is due once the connection is there. */
  lemma FromConnected(o: Outcomes, acts: seq<Act>)
    requires Ends(o, Connected, acts)
    ensures DeedsOf(acts) == NOTHING.(write := Once(o.backendWrite.Ok?), hear := if o.backendWrite.Ok? then Once(o.backendRead.Ok?) else NEVER,
                                      reply := if Answers(o) then Once(o.clientWrite.Ok?) else NEVER, release := Once(Answers(o)),
                                      apology := !Answers(o), tally := Once(Answers(o) && o.clientWrite.Ok?))
  {
    HeadAndRest(o, Connected, acts);
    if o.backendWrite.Ok? {
      FromAsked(o, acts[1..]);
    } else {
      FromFailing(o, Failing(true), acts[1..]);
    }
  }

  /** What is due once the request has been read. */
  function Due(o: Outcomes): Deeds {
    var there := o.borrowed;
    NOTHING.(borrow := Once(there), write := if there then Once(o.backendWrite.Ok?) else NEVER,
             hear := if there && o.backendWrite.Ok? then Once(o.backendRead.Ok?) else NEVER,
             reply := if there && Answers(o) then Once(o.clientWrite.Ok?) else NEVER, release := if there then Once(Answers(o)) else NEVER,
             apology := !(there && Answers(o)), tally := Once(there && Answers(o) && o.clientWrite.Ok?))
  }

  lemma FromAsking(o: Outcomes, acts: seq<Act>)
    requires Ends(o, Asking, acts)
    ensures DeedsOf(acts) == Due(o)
  {
    HeadAndRest(o, Asking, acts);
    HeadAndRest(o, Borrowing, acts[1..]);
    if o.borrowed {
      FromConnected(o, acts[1..][1..]);
    } else {
      FromFailing(o, Failing(false), acts[1..][1..]);
    }
  }

  lemma FromReading(o: Outcomes, p: Point, acts: seq<Act>)
    requires Ends(o, p, acts) && (p.Shaken? || p.Counted?) && (acts == [] || !acts[0].Handshake?)
    ensures var ok := o.clientRead.Ok?;
            DeedsOf(acts) == (if ok then Due(o) else NOTHING.(tally := Once(false))).(read := Once(ok))
  {
    HeadAndRest(o, p, acts);
    if o.clientRead.Ok? {
      FromAsking(o, acts[1..]);
    } else {
      FromJudged(o, Judged(false, false), acts[1..]);
    }
  }

  lemma FromCounted(o: Outcomes, acts: seq<Act>)
    requires Ends(o, Counted, acts) && (acts != [] ==> acts[0].Handshake? == o.tls)
    ensures DeedsOf(acts) == AllDue(o)
  {
    HeadAndRest(o, Counted, acts);
    if !o.tls {
      FromReading(o, Counted, acts);
    } else if o.handshake {
      HeadAndRest(o, Shaken, acts[1..]);
      FromReading(o, Shaken, acts[1..]);
    } else {
      FromJudged(o, Judged(false, true), acts[1..]);
    }
  }

  /** All that is due, from the outcomes alone. */
  function AllDue(o: Outcomes): Deeds {
    (if Heard(o) then Due(o) else NOTHING.(tally := Once(false)))
    .(read := if Greeted(o) then Once(o.clientRead.Ok?) else NEVER, handshake := if o.tls then Once(o.handshake) else NEVER)
  }

  lemma ClientDue(o: Outcomes, acts: seq<Act>)
    requires DeedsOf(acts) == AllDue(o)
    ensures ClientConduct(o, acts)
  {
    forall b: bool
      ensures Handshake(b) in acts <==> o.tls && b == o.handshake
      ensures ReadRequest(b) in acts <==> Greeted(o) && b == o.clientRead.Ok?
      ensures ReplyClient(b) in acts <==> Heard(o) && o.borrowed && Answers(o) && b == o.clientWrite.Ok?
    {
      DeedsAreActs(acts, Handshake(b));
      DeedsAreActs(acts, ReadRequest(b));
      DeedsAreActs(acts, ReplyClient(b));
    }
    DeedsAreActs(acts, ReplyError);
  }

  lemma BackendDue(o: Outcomes, acts: seq<Act>)
    requires DeedsOf(acts) == AllDue(o)
    ensures BackendConduct(o, acts)
  {
    forall b: bool
      ensures EndBorrow(b) in acts <==> Heard(o) && b == o.borrowed
      ensures WriteBackend(b) in acts <==> Heard(o) && o.borrowed && b == o.backendWrite.Ok?
      ensures ReadBackend(b) in acts <==> Heard(o) && o.borrowed && o.backendWrite.Ok? && b == o.backendRead.Ok?
      ensures StartRelease(b) in acts <==> Heard(o) && o.borrowed && b == Answers(o)
    {
      DeedsAreActs(acts, EndBorrow(b));
      DeedsAreActs(acts, WriteBackend(b));
      DeedsAreActs(acts, ReadBackend(b));
      DeedsAreActs(acts, StartRelease(b));
    }
  }

  /** A finished request that reports every call truthfully has done what the outcomes demand. */
  lemma ConductOf(o: Outcomes, acts: seq<Act>)
    requires Drive(Popped, acts) == Some(Done) && Obeys(o, acts)
    ensures Conduct(o, acts)
  {
    HeadAndRest(o, Popped, acts);
    HeadAndRest(o, Counted, acts[1..]);
    FromCounted(o, acts[1..]);
    ClientDue(o, acts);
    BackendDue(o, acts);
    DeedsAreActs(acts, TallyCompleted);
    DeedsAreActs(acts, TallyErrored);
  }

  // ---------------------------------------------------------------- what every finished request did

  predicate IsTally(a: Act) { a.TallyCompleted? || a.TallyErrored? }
  predicate Closes(a: Act) { a.CloseClient? || a == Handshake(false) }
  predicate Borrows(a: Act) { a == EndBorrow(true) }
  predicate Releases(a: Act) { a.StartRelease? }
  predicate Cleanly(a: Act) { a == StartRelease(true) }
  predicate HeardBack(a: Act) { a == ReadBackend(true) }
  predicate Delivered(a: Act) { a == ReplyClient(true) }
  predicate Completes(a: Act) { a.TallyCompleted? }
  predicate Replies(a: Act) { a.ReplyClient? }
  predicate Apologies(a: Act) { a.ReplyError? }
  predicate Fails(a: Act) { a == EndBorrow(false) || a == WriteBackend(false) || a == ReadBackend(false) }

  function Times(p: Act -> bool, acts: seq<Act>): nat {
    if acts == [] then 0 else (if p(acts[0]) then 1 else 0) + Times(p, acts[1..])
  }

  /** Still to be tallied. */
  predicate Untallied(p: Point) { !p.Tallied? && !p.Leaving? && !p.Done? }

  /** The client descriptor is still open. */
  predicate ClientOpen(p: Point) { !p.Leaving? && !p.Done? && !(p.Judged? && p.closed) }

  /** Between the increment and the decrement of in_flight. */
  predicate InFlight(p: Point) { !p.Popped? && !p.Done? }

  /** The handler has a backend connection, from the end of borrow to the start of release. */
  predicate HasConn(p: Point) {
    p.Connected? || p.Asked? || p.Answered? || p == Failing(true) || p.HandingBack?
  }

  function Bit(b: bool): int { if b then 1 else 0 }

  /** What one action changes: in_flight on the way in and out, the tally once, the client once. */
  lemma OneStep(p: Point, a: Act)
    requires Advance(p, a).Some?
    ensures var q := Advance(p, a).value;
            && Bit(InFlight(q)) == Bit(InFlight(p)) + Bit(a.CountIn?) - Bit(a.CountOut?)
            && Bit(Untallied(q)) == Bit(Untallied(p)) - Bit(IsTally(a))
            && Bit(ClientOpen(q)) == Bit(ClientOpen(p)) - Bit(Closes(a))
            && !p.Done?
  {
  }

  /** A request that has run from some point to its end has tallied itself and closed its client once if
      that was still due, and counted itself completed only after delivering the reply. */
  lemma {:induction false} ClientSettled(p: Point, acts: seq<Act>)
    requires Drive(p, acts) == Some(Done)
    ensures Times(IsTally, acts) == if Untallied(p) then 1 else 0
    ensures Times(Closes, acts) == if ClientOpen(p) then 1 else 0
    ensures Times(Completes, acts) == Times(Delivered, acts)
              + (if (p.HandingBack? || p.Returning? || p.Judged?) && p.completed then 1 else 0)
    decreases |acts|
  {
    if acts != [] {
      ClientSettled(Advance(p, acts[0]).value, acts[1..]);
    }
  }

  /** It has released once whatever connection it had or went on to get, as healthy only after hearing
      back on it. */
  lemma {:induction false} ConnSettled(p: Point, acts: seq<Act>)
    requires Drive(p, acts) == Some(Done)
    ensures Times(Releases, acts) == Times(Borrows, acts) + (if HasConn(p) then 1 else 0)
    ensures Times(Cleanly, acts) == Times(HeardBack, acts) + (if p.Answered? || (p.HandingBack? && p.ok) then 1 else 0)
    decreases |acts|
  {
    if acts != [] {
      ConnSettled(Advance(p, acts[0]).value, acts[1..]);
    }
  }

  /** Every failed borrow, write or read is followed by its one error reply, and every answer read by its one reply. */
  lemma {:induction false} ClientTold(p: Point, acts: seq<Act>)
    requires Drive(p, acts) == Some(Done)
    ensures Times(Apologies, acts) == Times(Fails, acts) + (if p.Failing? then 1 else 0)
    ensures Times(Replies, acts) == Times(HeardBack, acts) + (if p.Answered? then 1 else 0)
    decreases |acts|
  {
    if acts != [] {
      ClientTold(Advance(p, acts[0]).value, acts[1..]);
    }
  }

  /** The contract of `handle_one` over whole requests: tallied once, closed once, and every backend
      connection taken is handed back once, as healthy exactly when its answer was read;
      counted completed exactly when the reply was delivered. */
  lemma HandledExactlyOnce(acts: seq<Act>)
    requires Drive(Popped, acts) == Some(Done)
    ensures Times(IsTally, acts) == 1 && Times(Closes, acts) == 1
    ensures Times(Releases, acts) == Times(Borrows, acts)
    ensures Times(Cleanly, acts) == Times(HeardBack, acts)
    ensures Times(Completes, acts) == Times(Delivered, acts)
    ensures Times(Apologies, acts) == Times(Fails, acts) && Times(Replies, acts) == Times(HeardBack, acts)
  {
    ClientSettled(Popped, acts);
    ConnSettled(Popped, acts);
    ClientTold(Popped, acts);
  }
}

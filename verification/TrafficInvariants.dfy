/** Every connection that is idle, out for checking or newly borrowed is clean, in every interleaving; so every
    reply that is read answers the request that was written before it. */
module TrafficInvariants {
  import opened Counting
  import opened Wire
  import opened Conversation
  import opened Traffic
  import Set = BackendSet
  import Pool = BackendPool
  import PoolInv = BackendPoolInvariants

  // ---------------------------------------------------------------- the invariant

  ghost predicate SlotsClean(ls: seq<Line>, slots: seq<Pool.Slot>) {
    forall j :: 0 <= j < |slots| ==> Clean(LineAt(ls, slots[j].conn))
  }

  /** The connection being pinged is clean, has the empty request outstanding, or has failed. */
  ghost predicate PingOk(l: Line, p: Ping) {
    match p
    case Unasked => Clean(l)
    case Sent => Pending(l, [])
    case Failed => true
  }

  ghost predicate ReaperOk(ls: seq<Line>, r: Pool.Reaper, p: Ping) {
    if r.Busy? && r.toCheck != [] then
      SlotsClean(ls, r.survivors) && SlotsClean(ls, r.toCheck[1..]) && PingOk(LineAt(ls, r.toCheck[0].conn), p)
    else
      p.Unasked? && (r.Busy? ==> SlotsClean(ls, r.survivors))
  }

  ghost predicate JobOk(l: Line, job: Job) {
    match job
    case Ready(req) => Clean(l) && |req| <= MAX_LENGTH
    case Asked(req) => Pending(l, req)
    case Answered(_) => Clean(l)
    case Broken => true
    case _ => false
  }

  /** What a thread's phase at pool `i` says about the connection it has there. */
  ghost predicate HandOk(ls: seq<Line>, p: Set.Phase, i: nat, c: Pool.Client, job: Job) {
    p.Out? || p.at != i ||
    match p
    case Borrowing(_) => job.Wanting? && |job.req| <= MAX_LENGTH && (c.Holding? ==> Clean(LineAt(ls, c.conn)))
    case Held(_) => c.Holding? ==> JobOk(LineAt(ls, c.conn), job)
    case Returning(_) => c.Releasing? && !c.closeIt ==> Clean(LineAt(ls, c.conn))
    case Out => true
  }

  ghost predicate PoolOk(ls: seq<Line>, p: Pool.State, ping: Ping, threads: seq<Set.Phase>, jobs: seq<Job>, i: nat)
    requires |threads| == |jobs| == |p.clients|
  {
    && SlotsClean(ls, p.core.idle) && ReaperOk(ls, p.reaper, ping)
    && forall t :: 0 <= t < |threads| ==> HandOk(ls, threads[t], i, p.clients[t], jobs[t])
  }

  ghost predicate LinesOk(ls: seq<Line>, p: Pool.State) {
    |ls| == p.dialled && forall c :: 0 <= c < |ls| ==> Sane(ls[c])
  }

  ghost predicate Recorded(lines: seq<seq<Line>>, x: Exchange) {
    && x.pool < |lines| && x.conn < |lines[x.pool]|
    && Paired(lines[x.pool][x.conn], x.index, x.request, x.response)
  }

  predicate SameReply(x: Exchange, y: Exchange) {
    x.pool == y.pool && x.conn == y.conn && x.index == y.index
  }

  /** Every logged exchange pairs a request with its own answer, and no answer is logged twice. */
  ghost predicate LogOk(lines: seq<seq<Line>>, log: seq<Exchange>) {
    && (forall n :: 0 <= n < |log| ==> Recorded(lines, log[n]))
    && (forall m, n :: 0 <= m < n < |log| ==> !SameReply(log[m], log[n]))
  }

  ghost predicate Inv(s: State) {
    && Shape(s) && Set.Inv(s.set_)
    && (forall i :: 0 <= i < |s.lines| ==> LinesOk(s.lines[i], s.set_.pools[i]))
    && (forall i :: 0 <= i < |s.lines| ==> PoolOk(s.lines[i], s.set_.pools[i], s.pings[i], s.set_.threads, s.jobs, i))
    && LogOk(s.lines, s.log)
    && (forall t :: 0 <= t < |s.jobs| && s.jobs[t].Answered? ==> s.jobs[t].pos < |s.log|)
  }

  // ---------------------------------------------------------------- ownership keeps connections apart

  /** A connection one borrower has is nowhere else, and open. */
  lemma HeldAlone(p: Pool.State, t: nat, c: nat)
    requires PoolInv.Ownership(p) && t < |p.clients| && Pool.Carries(p.clients[t], c) == 1
    ensures c < p.dialled
    ensures forall j :: 0 <= j < |p.core.idle| ==> p.core.idle[j].conn != c
    ensures p.reaper.Busy? ==> forall j :: 0 <= j < |p.reaper.toCheck| ==> p.reaper.toCheck[j].conn != c
    ensures p.reaper.Busy? ==> forall j :: 0 <= j < |p.reaper.survivors| ==> p.reaper.survivors[j].conn != c
    ensures p.reaper.Busy? ==> forall j :: 0 <= j < |p.reaper.victims| ==> p.reaper.victims[j].conn != c
    ensures p.reaper.Busy? ==> forall j :: 0 <= j < |p.reaper.dead| ==> p.reaper.dead[j].conn != c
    ensures Tally(IsId, p.closed, c) == 0
    ensures forall u :: 0 <= u < |p.clients| && u != t ==> Pool.Carries(p.clients[u], c) == 0
  {
    assert PoolInv.Places(p, c) == if c < p.dialled then 1 else 0;
    TallyMember(Pool.Carries, p.clients, t, c);
    NotAmong(p.core.idle, c);
    if p.reaper.Busy? {
      NotAmong(p.reaper.toCheck, c);
      NotAmong(p.reaper.survivors, c);
      NotAmong(p.reaper.victims, c);
      NotAmong(p.reaper.dead, c);
    }
    forall u | 0 <= u < |p.clients| && u != t ensures Pool.Carries(p.clients[u], c) == 0 {
      if u < t { TallyPair(Pool.Carries, p.clients, u, t, c); } else { TallyPair(Pool.Carries, p.clients, t, u, c); }
    }
  }

  lemma NotAmong(slots: seq<Pool.Slot>, c: nat)
    ensures Tally(Pool.InSlot, slots, c) == 0 ==> forall j :: 0 <= j < |slots| ==> slots[j].conn != c
  {
    TallyZero(Pool.InSlot, slots, c);
    if Tally(Pool.InSlot, slots, c) == 0 {
      forall j | 0 <= j < |slots| ensures slots[j].conn != c {
        assert Pool.InSlot(slots[j], c) == 0;
      }
    }
  }

  /** The connection being pinged is nowhere else. */
  lemma CheckedAlone(p: Pool.State)
    requires PoolInv.Ownership(p) && p.reaper.Busy? && p.reaper.toCheck != []
    ensures var c := p.reaper.toCheck[0].conn;
            && c < p.dialled
            && (forall j :: 0 <= j < |p.core.idle| ==> p.core.idle[j].conn != c)
            && (forall j :: 0 < j < |p.reaper.toCheck| ==> p.reaper.toCheck[j].conn != c)
            && (forall j :: 0 <= j < |p.reaper.survivors| ==> p.reaper.survivors[j].conn != c)
            && (forall u :: 0 <= u < |p.clients| ==> Pool.Carries(p.clients[u], c) == 0)
  {
    var c := p.reaper.toCheck[0].conn;
    assert PoolInv.Places(p, c) == if c < p.dialled then 1 else 0;
    NotAmong(p.core.idle, c);
    NotAmong(p.reaper.toCheck[1..], c);
    NotAmong(p.reaper.survivors, c);
    TallyZero(Pool.Carries, p.clients, c);
  }

  // ---------------------------------------------------------------- the pool's own steps move only clean connections

  lemma KeptAreIdle(cfg: Pool.Config, now: int, ls: seq<Line>, idle: seq<Pool.Slot>)
    requires SlotsClean(ls, idle)
    ensures SlotsClean(ls, Pool.Kept(cfg, now, idle))
  {
    if idle != [] {
      KeptAreIdle(cfg, now, ls, idle[..|idle| - 1]);
    }
  }

  lemma PassOk(ls: seq<Line>, p: Pool.State, ping: Ping, threads: seq<Set.Phase>, jobs: seq<Job>, i: nat, t: nat)
    requires |threads| == |jobs| == |p.clients| && PoolOk(ls, p, ping, threads, jobs, i)
    requires Pool.Enabled(p, Pool.Pass(t)) && Set.Fits(threads[t], i, p.clients[t])
    ensures PoolOk(ls, Pool.Apply(p, Pool.Pass(t)), ping, threads, jobs, i)
  {
    var r := Pool.Apply(p, Pool.Pass(t));
    assert HandOk(ls, threads[t], i, p.clients[t], jobs[t]);
    if Pool.BorrowSection(p.cfg, p.core).1.Reuse? {
      assert Clean(LineAt(ls, p.core.idle[0].conn));
    }
    forall u | 0 <= u < |threads| ensures HandOk(ls, threads[u], i, r.clients[u], jobs[u]) {
      assert HandOk(ls, threads[u], i, p.clients[u], jobs[u]);
    }
  }

  lemma FinishReleaseOk(ls: seq<Line>, p: Pool.State, ping: Ping, threads: seq<Set.Phase>, jobs: seq<Job>, i: nat, t: nat, wake: nat)
    requires |threads| == |jobs| == |p.clients| && PoolOk(ls, p, ping, threads, jobs, i)
    requires Pool.Enabled(p, Pool.FinishRelease(t, wake)) && Set.Fits(threads[t], i, p.clients[t])
    ensures PoolOk(ls, Pool.Apply(p, Pool.FinishRelease(t, wake)), ping, threads, jobs, i)
  {
    var r := Pool.Apply(p, Pool.FinishRelease(t, wake));
    assert HandOk(ls, threads[t], i, p.clients[t], jobs[t]);
    assert SlotsClean(ls, r.core.idle);
    IdleHands(ls, p.clients, r.clients, threads, jobs, i);
  }

  lemma ReaperStepOk(ls: seq<Line>, p: Pool.State, ping: Ping, threads: seq<Set.Phase>, jobs: seq<Job>, i: nat, e: Pool.Event)
    requires |threads| == |jobs| == |p.clients| && PoolOk(ls, p, ping, threads, jobs, i)
    requires Pool.Enabled(p, e) && (e.Sweep? || e.Bury? || e.Discard? || e.GiveBack? || e.ReaperExit?)
    ensures PoolOk(ls, Pool.Apply(p, e), ping, threads, jobs, i)
  {
    if e.Sweep? {
      KeptAreIdle(p.cfg, p.now, ls, p.core.idle);
    }
  }

  /** A dial makes a connection that was as good as fresh. */
  lemma DialOkOk(ls: seq<Line>, p: Pool.State, ping: Ping, threads: seq<Set.Phase>, jobs: seq<Job>, i: nat, t: nat)
    requires |threads| == |jobs| == |p.clients| && PoolOk(ls, p, ping, threads, jobs, i) && |ls| == p.dialled
    requires Pool.Enabled(p, Pool.DialOk(t)) && Set.Fits(threads[t], i, p.clients[t])
    ensures PoolOk(ls, Pool.Apply(p, Pool.DialOk(t)), ping, threads, jobs, i)
  {
    FreshIsClean();
  }

  /** A client that neither holds nor is about to push a connection is under no obligation about one. */
  lemma IdleHand(ls: seq<Line>, p: Set.Phase, i: nat, c: Pool.Client, c': Pool.Client, job: Job)
    requires HandOk(ls, p, i, c, job) && (c' == c || (!c'.Holding? && !c'.Releasing?))
    ensures HandOk(ls, p, i, c', job)
  {
  }

  lemma IdleHands(ls: seq<Line>, cs: seq<Pool.Client>, cs': seq<Pool.Client>, threads: seq<Set.Phase>, jobs: seq<Job>, i: nat)
    requires |cs| == |cs'| == |threads| == |jobs|
    requires forall u :: 0 <= u < |threads| ==> HandOk(ls, threads[u], i, cs[u], jobs[u])
    requires forall u :: 0 <= u < |cs| ==> cs'[u] == cs[u] || (!cs'[u].Holding? && !cs'[u].Releasing?)
    ensures forall u :: 0 <= u < |threads| ==> HandOk(ls, threads[u], i, cs'[u], jobs[u])
  {
    forall u | 0 <= u < |threads| ensures HandOk(ls, threads[u], i, cs'[u], jobs[u]) {
      IdleHand(ls, threads[u], i, cs[u], cs'[u], jobs[u]);
    }
  }

  lemma OtherStepOk(ls: seq<Line>, p: Pool.State, ping: Ping, threads: seq<Set.Phase>, jobs: seq<Job>, i: nat, e: Pool.Event)
    requires |threads| == |jobs| == |p.clients| && PoolOk(ls, p, ping, threads, jobs, i)
    requires Pool.Enabled(p, e)
    requires e.TimeOut? || e.LateTimeOut? || e.Stir? || e.DialFail? || e.CloseConn? || e.TellAll? || e.Tick?
    ensures PoolOk(ls, Pool.Apply(p, e), ping, threads, jobs, i)
  {
    var r := Pool.Apply(p, e);
    assert r.core.idle == p.core.idle && r.reaper == p.reaper;
    IdleHands(ls, p.clients, r.clients, threads, jobs, i);
  }

  lemma ShutdownOk(ls: seq<Line>, p: Pool.State, ping: Ping, threads: seq<Set.Phase>, jobs: seq<Job>, i: nat)
    requires |threads| == |jobs| == |p.clients| && PoolOk(ls, p, ping, threads, jobs, i)
    ensures PoolOk(ls, Pool.Apply(p, Pool.Shutdown), ping, threads, jobs, i)
  {
  }

  lemma InsideOk(ls: seq<Line>, p: Pool.State, ping: Ping, threads: seq<Set.Phase>, jobs: seq<Job>, i: nat, e: Pool.Event)
    requires |threads| == |jobs| == |p.clients| && PoolOk(ls, p, ping, threads, jobs, i) && |ls| == p.dialled
    requires forall t :: 0 <= t < |threads| ==> Set.Fits(threads[t], i, p.clients[t])
    requires Pool.Enabled(p, e) && Set.IsInside(e) && !e.Ping?
    ensures |Pool.Apply(p, e).clients| == |p.clients|
    ensures PoolOk(ls, Pool.Apply(p, e), ping, threads, jobs, i)
  {
    Set.InsideIsLocal(p, e);
    if e.Pass? {
      PassOk(ls, p, ping, threads, jobs, i, e.t);
    } else if e.FinishRelease? {
      FinishReleaseOk(ls, p, ping, threads, jobs, i, e.t, e.wake);
    } else if e.DialOk? {
      DialOkOk(ls, p, ping, threads, jobs, i, e.t);
    } else if e.Sweep? || e.Bury? || e.Discard? || e.GiveBack? || e.ReaperExit? {
      ReaperStepOk(ls, p, ping, threads, jobs, i, e);
    } else {
      OtherStepOk(ls, p, ping, threads, jobs, i, e);
    }
  }

  // ---------------------------------------------------------------- steps on one connection

  ghost predicate Grows(l: Line, l': Line) {
    Frames(l.sent) <= Frames(l'.sent) && l.answers <= l'.answers && l.heard <= l'.heard <= |l'.answers|
  }

  lemma LogStays(lines: seq<seq<Line>>, log: seq<Exchange>, i: nat, c: nat, l': Line)
    requires LogOk(lines, log) && i < |lines| && c < |lines[i]| && Grows(lines[i][c], l')
    ensures LogOk(lines[i := lines[i][c := l']], log)
  {
    var lines' := lines[i := lines[i][c := l']];
    forall n | 0 <= n < |log| ensures Recorded(lines', log[n]) {
      assert Recorded(lines, log[n]);
      if log[n].pool == i && log[n].conn == c {
        PairedStays(lines[i][c], l', log[n].index, log[n].request, log[n].response);
      }
    }
  }

  lemma LogDials(lines: seq<seq<Line>>, log: seq<Exchange>, i: nat)
    requires LogOk(lines, log) && i < |lines|
    ensures LogOk(lines[i := lines[i] + [Fresh()]], log)
  {
    forall n | 0 <= n < |log| ensures Recorded(lines[i := lines[i] + [Fresh()]], log[n]) {
      assert Recorded(lines, log[n]);
    }
  }

  /** A new entry is for an answer not heard before. */
  lemma LogGrows(lines: seq<seq<Line>>, log: seq<Exchange>, i: nat, c: nat, l': Line, x: Exchange)
    requires LogOk(lines, log) && i < |lines| && c < |lines[i]| && Grows(lines[i][c], l')
    requires x.pool == i && x.conn == c && x.index == lines[i][c].heard
    requires Paired(l', x.index, x.request, x.response)
    ensures LogOk(lines[i := lines[i][c := l']], log + [x])
  {
    LogStays(lines, log, i, c, l');
    forall m | 0 <= m < |log| ensures !SameReply(log[m], x) {
      assert Recorded(lines, log[m]);
    }
  }

  lemma SlotsStay(ls: seq<Line>, c: nat, l': Line, slots: seq<Pool.Slot>)
    requires SlotsClean(ls, slots) && c < |ls| && forall j :: 0 <= j < |slots| ==> slots[j].conn != c
    ensures SlotsClean(ls[c := l'], slots)
  {
  }

  lemma HandStays(ls: seq<Line>, c: nat, l': Line, p: Set.Phase, i: nat, cl: Pool.Client, job: Job)
    requires HandOk(ls, p, i, cl, job) && c < |ls| && Pool.Carries(cl, c) == 0
    ensures HandOk(ls[c := l'], p, i, cl, job)
  {
  }

  lemma ReaperStays(ls: seq<Line>, c: nat, l': Line, r: Pool.Reaper, ping: Ping)
    requires ReaperOk(ls, r, ping) && c < |ls|
    requires r.Busy? ==> forall j :: 0 <= j < |r.toCheck| ==> r.toCheck[j].conn != c
    requires r.Busy? ==> forall j :: 0 <= j < |r.survivors| ==> r.survivors[j].conn != c
    ensures ReaperOk(ls[c := l'], r, ping)
  {
    if r.Busy? {
      SlotsStay(ls, c, l', r.survivors);
      if r.toCheck != [] {
        SlotsStay(ls, c, l', r.toCheck[1..]);
      }
    }
  }

  /** The thread that has a connection in hand changes it, and nobody else notices. */
  lemma HeldLineOk(ls: seq<Line>, p: Pool.State, ping: Ping, threads: seq<Set.Phase>, jobs: seq<Job>, i: nat,
                   t: nat, l': Line, job': Job)
    requires |threads| == |jobs| == |p.clients| && PoolOk(ls, p, ping, threads, jobs, i) && PoolInv.Ownership(p)
    requires t < |threads| && threads[t] == Set.Held(i) && p.clients[t].Holding? && p.clients[t].conn < |ls|
    requires JobOk(l', job')
    ensures PoolOk(ls[p.clients[t].conn := l'], p, ping, threads, jobs[t := job'], i)
  {
    var c := p.clients[t].conn;
    HeldAlone(p, t, c);
    SlotsStay(ls, c, l', p.core.idle);
    ReaperStays(ls, c, l', p.reaper, ping);
    forall u | 0 <= u < |threads| ensures HandOk(ls[c := l'], threads[u], i, p.clients[u], jobs[t := job'][u]) {
      if u != t {
        HandStays(ls, c, l', threads[u], i, p.clients[u], jobs[u]);
      }
    }
  }

  /** The reaper changes the connection it is checking, and nobody else notices. */
  lemma CheckedLineOk(ls: seq<Line>, p: Pool.State, ping: Ping, threads: seq<Set.Phase>, jobs: seq<Job>, i: nat,
                      l': Line, ping': Ping)
    requires |threads| == |jobs| == |p.clients| && PoolOk(ls, p, ping, threads, jobs, i) && PoolInv.Ownership(p)
    requires p.reaper.Busy? && p.reaper.toCheck != [] && p.reaper.toCheck[0].conn < |ls|
    requires PingOk(l', ping')
    ensures PoolOk(ls[p.reaper.toCheck[0].conn := l'], p, ping', threads, jobs, i)
  {
    var c := p.reaper.toCheck[0].conn;
    CheckedAlone(p);
    SlotsStay(ls, c, l', p.core.idle);
    SlotsStay(ls, c, l', p.reaper.survivors);
    SlotsStay(ls, c, l', p.reaper.toCheck[1..]);
    forall u | 0 <= u < |threads| ensures HandOk(ls[c := l'], threads[u], i, p.clients[u], jobs[u]) {
      HandStays(ls, c, l', threads[u], i, p.clients[u], jobs[u]);
    }
  }

  /** The verdict on a ping: a survivor is clean, a dead connection is set aside. */
  lemma VerdictOk(ls: seq<Line>, p: Pool.State, ping: Ping, threads: seq<Set.Phase>, jobs: seq<Job>, i: nat, alive: bool)
    requires |threads| == |jobs| == |p.clients| && PoolOk(ls, p, ping, threads, jobs, i)
    requires Pool.Enabled(p, Pool.Ping(alive))
    requires alive ==> Clean(LineAt(ls, p.reaper.toCheck[0].conn))
    ensures PoolOk(ls, Pool.Apply(p, Pool.Ping(alive)), Unasked, threads, jobs, i)
  {
    var q := Pool.Apply(p, Pool.Ping(alive));
    if q.reaper.toCheck != [] {
      assert q.reaper.toCheck[0] == p.reaper.toCheck[1..][0];
    }
  }

  /** The backend answers: clean connections it cannot touch, a pending request it can answer once. */
  lemma AnswerKeeps(l: Line, m: Bytes)
    requires Sane(l) && |l.answers| < |Frames(l.sent)| && |m| <= MAX_LENGTH
    ensures !Clean(l) && Sane(Answer(l, m)) && Grows(l, Answer(l, m))
    ensures forall req :: Pending(l, req) ==> Pending(Answer(l, m), req)
  {
    AnswerSane(l, m);
    forall req | Pending(l, req) ensures Pending(Answer(l, m), req) {
      AnswerPending(l, m, req);
    }
  }

  lemma AnswerOk(ls: seq<Line>, p: Pool.State, ping: Ping, threads: seq<Set.Phase>, jobs: seq<Job>, i: nat, c: nat, m: Bytes)
    requires |threads| == |jobs| == |p.clients| && PoolOk(ls, p, ping, threads, jobs, i)
    requires c < |ls| && Sane(ls[c]) && |ls[c].answers| < |Frames(ls[c].sent)| && |m| <= MAX_LENGTH
    ensures PoolOk(ls[c := Answer(ls[c], m)], p, ping, threads, jobs, i)
  {
    var l' := Answer(ls[c], m);
    AnswerKeeps(ls[c], m);
    SlotsUntouched(ls, c, l', p.core.idle);
    ReaperAnswered(ls, c, l', p.reaper, ping);
    forall u | 0 <= u < |threads| ensures HandOk(ls[c := l'], threads[u], i, p.clients[u], jobs[u]) {
      HandAnswered(ls, c, l', threads[u], i, p.clients[u], jobs[u]);
    }
  }

  lemma SlotsUntouched(ls: seq<Line>, c: nat, l': Line, slots: seq<Pool.Slot>)
    requires SlotsClean(ls, slots) && c < |ls| && !Clean(ls[c])
    ensures SlotsClean(ls[c := l'], slots)
  {
    forall j | 0 <= j < |slots| ensures slots[j].conn != c {
      assert Clean(LineAt(ls, slots[j].conn));
    }
    SlotsStay(ls, c, l', slots);
  }

  lemma ReaperAnswered(ls: seq<Line>, c: nat, l': Line, r: Pool.Reaper, ping: Ping)
    requires ReaperOk(ls, r, ping) && c < |ls| && !Clean(ls[c]) && forall req :: Pending(ls[c], req) ==> Pending(l', req)
    ensures ReaperOk(ls[c := l'], r, ping)
  {
    if r.Busy? {
      SlotsUntouched(ls, c, l', r.survivors);
      if r.toCheck != [] {
        SlotsUntouched(ls, c, l', r.toCheck[1..]);
      }
    }
  }

  lemma HandAnswered(ls: seq<Line>, c: nat, l': Line, p: Set.Phase, i: nat, cl: Pool.Client, job: Job)
    requires HandOk(ls, p, i, cl, job) && c < |ls| && !Clean(ls[c]) && forall req :: Pending(ls[c], req) ==> Pending(l', req)
    ensures HandOk(ls[c := l'], p, i, cl, job)
  {
  }

  // ---------------------------------------------------------------- every step

  ghost predicate PoolsOk(s: State)
    requires Shape(s)
  {
    forall i :: 0 <= i < |s.lines| ==> PoolOk(s.lines[i], s.set_.pools[i], s.pings[i], s.set_.threads, s.jobs, i)
  }

  ghost predicate AllLinesOk(s: State)
    requires Shape(s)
  {
    forall i :: 0 <= i < |s.lines| ==> LinesOk(s.lines[i], s.set_.pools[i])
  }

  /** One thread changes phase or job, and at most its own client entry changes with it. */
  lemma ThreadMoveOk(ls: seq<Line>, p: Pool.State, p': Pool.State, ping: Ping, threads: seq<Set.Phase>, jobs: seq<Job>,
                     i: nat, t: nat, phase': Set.Phase, job': Job)
    requires |threads| == |jobs| == |p.clients| && PoolOk(ls, p, ping, threads, jobs, i) && t < |threads|
    requires p'.core.idle == p.core.idle && p'.reaper == p.reaper && |p'.clients| == |p.clients|
    requires forall u :: 0 <= u < |p.clients| && u != t ==> p'.clients[u] == p.clients[u]
    requires HandOk(ls, phase', i, p'.clients[t], job')
    ensures PoolOk(ls, p', ping, threads[t := phase'], jobs[t := job'], i)
  {
  }

  predicate IsThreadMove(e: Event) { e.Ask? || e.Connect? || e.GiveUp? || e.Hand? || e.Leave? }

  /** The step of the backend set inside a traffic step. */
  function SetEvent(e: Event): Set.Event
    requires IsThreadMove(e)
  {
    match e
    case Ask(t, _) => Set.Choose(t)
    case Connect(t) => Set.BorrowWon(t)
    case GiveUp(t) => Set.BorrowLost(t)
    case Hand(t, ok) => Set.Release(t, ok)
    case Leave(t) => Set.ReleaseDone(t)
  }

  /** A thread's move touches only its own entries. */
  lemma ThreadMoveFrame(s: State, e: Event)
    requires Shape(s) && Enabled(s, e) && IsThreadMove(e)
    ensures var r := Apply(s, e);
            && Shape(r) && r == s.(set_ := r.set_, jobs := r.jobs)
            && r.set_.threads == s.set_.threads[e.t := r.set_.threads[e.t]] && r.jobs == s.jobs[e.t := r.jobs[e.t]]
            && forall i :: 0 <= i < |s.lines| ==>
                 r.set_.pools[i] == s.set_.pools[i].(clients := s.set_.pools[i].clients[e.t := r.set_.pools[i].clients[e.t]])
  {
  }

  lemma AskHand(s: State, t: nat, req: Bytes, i: nat)
    requires Inv(s) && Enabled(s, Ask(t, req)) && i < |s.lines|
    ensures var r := Apply(s, Ask(t, req));
            Shape(r) && HandOk(s.lines[i], r.set_.threads[t], i, r.set_.pools[i].clients[t], r.jobs[t])
  {
    ThreadMoveFrame(s, Ask(t, req));
  }

  lemma ConnectHand(s: State, t: nat, i: nat)
    requires Inv(s) && Enabled(s, Connect(t)) && i < |s.lines|
    ensures var r := Apply(s, Connect(t));
            Shape(r) && HandOk(s.lines[i], r.set_.threads[t], i, r.set_.pools[i].clients[t], r.jobs[t])
  {
    ThreadMoveFrame(s, Connect(t));
    assert PoolOk(s.lines[i], s.set_.pools[i], s.pings[i], s.set_.threads, s.jobs, i);
    assert HandOk(s.lines[i], s.set_.threads[t], i, s.set_.pools[i].clients[t], s.jobs[t]);
  }

  lemma HandBackHand(s: State, t: nat, ok: bool, i: nat)
    requires Inv(s) && Enabled(s, Hand(t, ok)) && i < |s.lines|
    ensures var r := Apply(s, Hand(t, ok));
            Shape(r) && HandOk(s.lines[i], r.set_.threads[t], i, r.set_.pools[i].clients[t], r.jobs[t])
  {
    ThreadMoveFrame(s, Hand(t, ok));
    assert PoolOk(s.lines[i], s.set_.pools[i], s.pings[i], s.set_.threads, s.jobs, i);
    assert HandOk(s.lines[i], s.set_.threads[t], i, s.set_.pools[i].clients[t], s.jobs[t]);
  }

  /** What the thread's own new phase and job say about each pool. */
  lemma ThreadMoveHand(s: State, e: Event, i: nat)
    requires Inv(s) && Enabled(s, e) && IsThreadMove(e) && i < |s.lines|
    ensures var r := Apply(s, e);
            Shape(r) && HandOk(s.lines[i], r.set_.threads[e.t], i, r.set_.pools[i].clients[e.t], r.jobs[e.t])
  {
    if e.Ask? {
      AskHand(s, e.t, e.req, i);
    } else if e.Connect? {
      ConnectHand(s, e.t, i);
    } else if e.Hand? {
      HandBackHand(s, e.t, e.ok, i);
    }
  }

  lemma ThreadMoveInv(s: State, e: Event)
    requires Inv(s) && Enabled(s, e) && IsThreadMove(e)
    ensures Inv(Apply(s, e))
  {
    var r := Apply(s, e);
    Set.StepInv(s.set_, SetEvent(e));
    ThreadMoveFrame(s, e);
    forall i | 0 <= i < |r.lines|
      ensures PoolOk(r.lines[i], r.set_.pools[i], r.pings[i], r.set_.threads, r.jobs, i) && LinesOk(r.lines[i], r.set_.pools[i])
    {
      ThreadMoveHand(s, e, i);
      assert LinesOk(s.lines[i], s.set_.pools[i]);
      ThreadMoveOk(s.lines[i], s.set_.pools[i], r.set_.pools[i], s.pings[i], s.set_.threads, s.jobs, i, e.t,
                   r.set_.threads[e.t], r.jobs[e.t]);
    }
  }

  /** Thread t changes the connection it holds at pool i; in the other pools it has none. */
  lemma HeldLineAll(s: State, t: nat, l': Line, job': Job)
    requires Inv(s) && InHand(s, t) && JobOk(l', job') && Sane(l')
    ensures var r := WithLine(s, At(s, t), ConnOf(s, t), l').(jobs := s.jobs[t := job']);
            Shape(r) && PoolsOk(r) && AllLinesOk(r)
  {
    var i, c := At(s, t), ConnOf(s, t);
    var r := WithLine(s, i, c, l').(jobs := s.jobs[t := job']);
    forall k | 0 <= k < |r.lines|
      ensures PoolOk(r.lines[k], r.set_.pools[k], r.pings[k], r.set_.threads, r.jobs, k) && LinesOk(r.lines[k], r.set_.pools[k])
    {
      assert LinesOk(s.lines[k], s.set_.pools[k]);
      if k == i {
        assert PoolInv.Inv(s.set_.pools[i]);
        HeldLineOk(s.lines[i], s.set_.pools[i], s.pings[i], s.set_.threads, s.jobs, i, t, l', job');
      } else {
        ThreadMoveOk(s.lines[k], s.set_.pools[k], s.set_.pools[k], s.pings[k], s.set_.threads, s.jobs, k, t, s.set_.threads[t], job');
        assert s.set_.threads[t := s.set_.threads[t]] == s.set_.threads;
      }
    }
  }

  /** The job of a thread with a connection in hand describes that connection. */
  lemma InHandJob(s: State, t: nat)
    requires Inv(s) && InHand(s, t)
    ensures JobOk(s.lines[At(s, t)][ConnOf(s, t)], s.jobs[t]) && Sane(s.lines[At(s, t)][ConnOf(s, t)])
  {
    var i := At(s, t);
    assert LinesOk(s.lines[i], s.set_.pools[i]);
    assert PoolOk(s.lines[i], s.set_.pools[i], s.pings[i], s.set_.threads, s.jobs, i);
    assert HandOk(s.lines[i], s.set_.threads[t], i, s.set_.pools[i].clients[t], s.jobs[t]);
  }

  lemma WriteInv(s: State, t: nat, k: nat)
    requires Inv(s) && Enabled(s, Write(t, k))
    ensures Inv(Apply(s, Write(t, k)))
  {
    var i, c, req := At(s, t), ConnOf(s, t), s.jobs[t].req;
    var l, bytes := s.lines[i][c], Encode(req)[..k];
    InHandJob(s, t);
    SendSane(l, bytes);
    if k == |Encode(req)| {
      assert bytes == Encode(req);
      SendWhole(l, req);
    }
    HeldLineAll(s, t, Send(l, bytes), if k == |Encode(req)| then Asked(req) else Broken);
    LogStays(s.lines, s.log, i, c, Send(l, bytes));
  }

  /** The reply that is read is the backend's answer to the request this thread wrote. */
  lemma ReadOkInv(s: State, t: nat, k: nat)
    requires Inv(s) && Enabled(s, Read(t, k, true))
    ensures Inv(Apply(s, Read(t, k, true)))
  {
    var i, c, req := At(s, t), ConnOf(s, t), s.jobs[t].req;
    var l := s.lines[i][c];
    InHandJob(s, t);
    HearAnswer(l, req, s.maxPayload);
    HeldLineAll(s, t, Hear(l, k), Answered(|s.log|));
    LogGrows(s.lines, s.log, i, c, Hear(l, k), Exchange(i, c, l.heard, req, ParseFrame(Unread(l), s.maxPayload).payload));
  }

  lemma ReadFailInv(s: State, t: nat, k: nat)
    requires Inv(s) && Enabled(s, Read(t, k, false))
    ensures Inv(Apply(s, Read(t, k, false)))
  {
    var i, c := At(s, t), ConnOf(s, t);
    InHandJob(s, t);
    TakeSane(s.lines[i][c], k);
    HeldLineAll(s, t, Take(s.lines[i][c], k), Broken);
    LogStays(s.lines, s.log, i, c, Take(s.lines[i][c], k));
  }

  /** Changing pool i, its lines and its ping state leaves the other pools as they were. */
  lemma OnePool(s: State, r: State, i: nat)
    requires Inv(s) && Shape(r) && i < |s.lines| && Set.Inv(r.set_) && LogOk(r.lines, r.log)
    requires r.set_.threads == s.set_.threads && r.jobs == s.jobs && r.log == s.log && |r.lines| == |s.lines|
    requires forall k :: 0 <= k < |s.lines| && k != i ==>
      r.lines[k] == s.lines[k] && r.pings[k] == s.pings[k] && r.set_.pools[k] == s.set_.pools[k]
    requires PoolOk(r.lines[i], r.set_.pools[i], r.pings[i], s.set_.threads, s.jobs, i) && LinesOk(r.lines[i], r.set_.pools[i])
    ensures Inv(r)
  {
  }

  lemma InsideInv(s: State, i: nat, pe: Pool.Event)
    requires Inv(s) && Enabled(s, Inside(i, pe))
    ensures Inv(Apply(s, Inside(i, pe)))
  {
    var r := Apply(s, Inside(i, pe));
    var ls, p := s.lines[i], s.set_.pools[i];
    Set.StepInv(s.set_, Set.Inside(i, pe));
    assert LinesOk(ls, p);
    InsideOk(ls, p, s.pings[i], s.set_.threads, s.jobs, i, pe);
    if pe.DialOk? {
      DialledLines(ls, Pool.Apply(p, pe), s.pings[i], s.set_.threads, s.jobs, i);
      LogDials(s.lines, s.log, i);
    }
    OnePool(s, r, i);
  }

  lemma DialledLines(ls: seq<Line>, p: Pool.State, ping: Ping, threads: seq<Set.Phase>, jobs: seq<Job>, i: nat)
    requires |threads| == |jobs| == |p.clients| && PoolOk(ls, p, ping, threads, jobs, i)
    requires p.dialled == |ls| + 1 && forall c :: 0 <= c < |ls| ==> Sane(ls[c])
    ensures PoolOk(ls + [Fresh()], p, ping, threads, jobs, i) && LinesOk(ls + [Fresh()], p)
  {
    FreshIsClean();
    SlotsDialled(ls, p.core.idle);
    if p.reaper.Busy? {
      SlotsDialled(ls, p.reaper.survivors);
      if p.reaper.toCheck != [] {
        SlotsDialled(ls, p.reaper.toCheck[1..]);
        SameLine(ls, p.reaper.toCheck[0].conn);
      }
    }
    forall u | 0 <= u < |threads| ensures HandOk(ls + [Fresh()], threads[u], i, p.clients[u], jobs[u]) {
      HandDialled(ls, threads[u], i, p.clients[u], jobs[u]);
    }
  }

  lemma SameLine(ls: seq<Line>, c: nat)
    ensures LineAt(ls + [Fresh()], c) == LineAt(ls, c)
  {
  }

  lemma SlotsDialled(ls: seq<Line>, slots: seq<Pool.Slot>)
    requires SlotsClean(ls, slots)
    ensures SlotsClean(ls + [Fresh()], slots)
  {
    forall j | 0 <= j < |slots| ensures Clean(LineAt(ls + [Fresh()], slots[j].conn)) {
      SameLine(ls, slots[j].conn);
    }
  }

  lemma HandDialled(ls: seq<Line>, p: Set.Phase, i: nat, c: Pool.Client, job: Job)
    requires HandOk(ls, p, i, c, job)
    ensures HandOk(ls + [Fresh()], p, i, c, job)
  {
    if c.Holding? || c.Releasing? {
      SameLine(ls, c.conn);
    }
  }

  lemma CheckedPing(s: State, i: nat)
    requires Inv(s) && Checking(s, i)
    ensures var l := s.lines[i][Checked(s, i)]; PingOk(l, s.pings[i]) && Sane(l)
  {
    assert PoolOk(s.lines[i], s.set_.pools[i], s.pings[i], s.set_.threads, s.jobs, i);
    assert LinesOk(s.lines[i], s.set_.pools[i]);
  }

  /** The reaper writes to or reads from the connection it is checking. */
  lemma CheckedLineInv(s: State, i: nat, l': Line, ping': Ping)
    requires Inv(s) && Checking(s, i) && Sane(l') && Grows(s.lines[i][Checked(s, i)], l') && PingOk(l', ping')
    ensures Inv(WithLine(s, i, Checked(s, i), l').(pings := s.pings[i := ping']))
  {
    assert LinesOk(s.lines[i], s.set_.pools[i]) && PoolInv.Inv(s.set_.pools[i]);
    CheckedLineOk(s.lines[i], s.set_.pools[i], s.pings[i], s.set_.threads, s.jobs, i, l', ping');
    LogStays(s.lines, s.log, i, Checked(s, i), l');
    OnePool(s, WithLine(s, i, Checked(s, i), l').(pings := s.pings[i := ping']), i);
  }

  /** The reaper passes its verdict and moves on to the next connection. */
  lemma VerdictInv(s: State, i: nat, alive: bool)
    requires Inv(s) && Checking(s, i) && (alive ==> Clean(s.lines[i][Checked(s, i)]))
    ensures Set.Enabled(s.set_, Set.Inside(i, Pool.Ping(alive)))
    ensures Inv(s.(set_ := Set.Apply(s.set_, Set.Inside(i, Pool.Ping(alive))), pings := s.pings[i := Unasked]))
  {
    Set.StepInv(s.set_, Set.Inside(i, Pool.Ping(alive)));
    assert LinesOk(s.lines[i], s.set_.pools[i]);
    VerdictOk(s.lines[i], s.set_.pools[i], s.pings[i], s.set_.threads, s.jobs, i, alive);
    OnePool(s, s.(set_ := Set.Apply(s.set_, Set.Inside(i, Pool.Ping(alive))), pings := s.pings[i := Unasked]), i);
  }

  lemma PingWriteInv(s: State, i: nat, k: nat)
    requires Inv(s) && Enabled(s, PingWrite(i, k))
    ensures Inv(Apply(s, PingWrite(i, k)))
  {
    var l, bytes := s.lines[i][Checked(s, i)], Encode([])[..k];
    CheckedPing(s, i);
    SendSane(l, bytes);
    if k == |Encode([])| {
      assert bytes == Encode([]);
      SendWhole(l, []);
    }
    CheckedLineInv(s, i, Send(l, bytes), if k == |Encode([])| then Sent else Failed);
  }

  /** After a ping the line is clean if the reply was read, and sane anyway. */
  lemma PingedLine(l: Line, k: nat, ok: bool)
    requires Pending(l, []) && ReadOutcome(l, PING_MAX, k, ok)
    ensures var l' := if ok then Hear(l, k) else Take(l, k); Sane(l') && Grows(l, l') && (ok ==> Clean(l'))
  {
    if ok { HearAnswer(l, [], PING_MAX); } else { TakeSane(l, k); }
  }

  /** The reaper reads on the connection it is checking and passes its verdict. */
  lemma PingOutcome(s: State, i: nat, l': Line, ok: bool)
    requires Inv(s) && Checking(s, i) && Sane(l') && Grows(s.lines[i][Checked(s, i)], l') && (ok ==> Clean(l'))
    ensures Set.Enabled(s.set_, Set.Inside(i, Pool.Ping(ok)))
    ensures Inv(WithLine(s, i, Checked(s, i), l').(set_ := Set.Apply(s.set_, Set.Inside(i, Pool.Ping(ok))), pings := s.pings[i := Unasked]))
  {
    var verdict: Ping := if ok then Unasked else Failed;
    CheckedLineInv(s, i, l', verdict);
    VerdictInv(WithLine(s, i, Checked(s, i), l').(pings := s.pings[i := verdict]), i, ok);
    assert s.pings[i := verdict][i := Unasked] == s.pings[i := Unasked];
  }

  lemma PingReadInv(s: State, i: nat, k: nat, ok: bool)
    requires Inv(s) && Enabled(s, PingRead(i, k, ok))
    ensures Inv(Apply(s, PingRead(i, k, ok)))
  {
    var l := s.lines[i][Checked(s, i)];
    CheckedPing(s, i);
    PingedLine(l, k, ok);
    PingOutcome(s, i, if ok then Hear(l, k) else Take(l, k), ok);
  }

  lemma PingGiveUpInv(s: State, i: nat)
    requires Inv(s) && Enabled(s, PingGiveUp(i))
    ensures Inv(Apply(s, PingGiveUp(i)))
  {
    VerdictInv(s, i, false);
  }

  lemma ReplyInv(s: State, i: nat, c: nat, m: Bytes)
    requires Inv(s) && Enabled(s, Reply(i, c, m))
    ensures Inv(Apply(s, Reply(i, c, m)))
  {
    assert LinesOk(s.lines[i], s.set_.pools[i]);
    AnswerKeeps(s.lines[i][c], m);
    AnswerOk(s.lines[i], s.set_.pools[i], s.pings[i], s.set_.threads, s.jobs, i, c, m);
    LogStays(s.lines, s.log, i, c, Answer(s.lines[i][c], m));
    OnePool(s, Apply(s, Reply(i, c, m)), i);
  }

  lemma ShutDownSet(s: Set.State, i: nat)
    requires Set.Inv(s) && i < |s.pools|
    ensures Set.Inv(Set.Apply(s, Set.ShutDown(i)))
    ensures Set.Apply(s, Set.ShutDown(i)) == s.(pools := s.pools[i := Pool.Apply(s.pools[i], Pool.Shutdown)])
  {
    Set.StepInv(s, Set.ShutDown(i));
  }

  lemma ShutDownInv(s: State, i: nat)
    requires Inv(s) && i < |s.lines|
    ensures Inv(Apply(s, ShutDown(i)))
  {
    var r := s.(set_ := Set.Apply(s.set_, Set.ShutDown(i)));
    ShutDownSet(s.set_, i);
    assert LinesOk(s.lines[i], s.set_.pools[i]);
    ShutdownOk(s.lines[i], s.set_.pools[i], s.pings[i], s.set_.threads, s.jobs, i);
    OnePool(s, r, i);
  }

  lemma StepInv(s: State, e: Event)
    requires Inv(s) && Enabled(s, e)
    ensures Inv(Apply(s, e))
  {
    if IsThreadMove(e) {
      ThreadMoveInv(s, e);
    } else if e.Write? {
      WriteInv(s, e.t, e.k);
    } else if e.Read? {
      if e.ok { ReadOkInv(s, e.t, e.k); } else { ReadFailInv(s, e.t, e.k); }
    } else if e.Inside? {
      InsideInv(s, e.i, e.e);
    } else if e.PingWrite? {
      PingWriteInv(s, e.i, e.k);
    } else if e.PingRead? {
      PingReadInv(s, e.i, e.k, e.ok);
    } else if e.PingGiveUp? {
      PingGiveUpInv(s, e.i);
    } else if e.Reply? {
      ReplyInv(s, e.i, e.c, e.m);
    } else {
      ShutDownInv(s, e.i);
    }
  }

  lemma InitInv(weights: seq<nat>, opts: Pool.Config, threads: nat, maxPayload: nat)
    ensures Inv(Init(weights, opts, threads, maxPayload))
  {
    Set.InitInv(weights, opts, threads);
  }

  // ---------------------------------------------------------------- every run

  lemma {:induction false} RunInv(s: State, es: seq<Event>)
    requires Inv(s) && Valid(s, es)
    ensures Inv(Final(s, es))
    decreases |es|
  {
    if es != [] {
      StepInv(s, es[0]);
      RunInv(Apply(s, es[0]), es[1..]);
    }
  }

  /** Response pairing, over every run with time-outs, broken writes, partial reads, health sweeps and any
      interleaving: a connection in an idle list, or handed to a thread that has not written yet, is at a
      frame boundary with every request answered and every answer read; and each reply a thread
      has read is the backend's answer to the request that thread wrote, no answer going to two. */
  lemma ResponsePairing(weights: seq<nat>, opts: Pool.Config, threads: nat, maxPayload: nat, es: seq<Event>)
    requires Valid(Init(weights, opts, threads, maxPayload), es)
    ensures var s := Final(Init(weights, opts, threads, maxPayload), es);
            && Shape(s)
            && (forall i, j :: 0 <= i < |s.lines| && 0 <= j < |s.set_.pools[i].core.idle|
                  ==> Clean(LineAt(s.lines[i], s.set_.pools[i].core.idle[j].conn)))
            && (forall t :: 0 <= t < |s.jobs| && InHand(s, t) && s.jobs[t].Ready?
                  ==> Clean(s.lines[At(s, t)][ConnOf(s, t)]))
            && (forall n :: 0 <= n < |s.log| ==> Recorded(s.lines, s.log[n]))
            && (forall m, n :: 0 <= m < n < |s.log| ==> !SameReply(s.log[m], s.log[n]))
  {
    var s := Final(Init(weights, opts, threads, maxPayload), es);
    InitInv(weights, opts, threads, maxPayload);
    RunInv(Init(weights, opts, threads, maxPayload), es);
    forall i, j | 0 <= i < |s.lines| && 0 <= j < |s.set_.pools[i].core.idle|
      ensures Clean(LineAt(s.lines[i], s.set_.pools[i].core.idle[j].conn))
    {
      assert PoolOk(s.lines[i], s.set_.pools[i], s.pings[i], s.set_.threads, s.jobs, i);
    }
    forall t | 0 <= t < |s.jobs| && InHand(s, t) && s.jobs[t].Ready? ensures Clean(s.lines[At(s, t)][ConnOf(s, t)]) {
      InHandJob(s, t);
    }
  }
}

/** What every step of the whole router keeps: each worker's stage agrees with its place in the backend set
    and with its job, each reply delivered is accounted for, and backends are shut only when nobody uses them. */
module SystemInvariants {
  import opened Counting
  import opened Wire
  import opened Milestones
  import opened System
  import R = Router
  import RI = RouterInvariants
  import H = Handler
  import T = Traffic
  import TI = TrafficInvariants
  import Set = BackendSet
  import Pool = BackendPool
  import PoolInv = BackendPoolInvariants
  import PoolThm = BackendPoolTheorems

  // ---------------------------------------------------------------- the invariant

  /** Job `job` has been answered, for client `fd`, with the backend's reply to `req`. */
  ghost predicate Got(job: T.Job, fd: nat, req: Bytes, owner: seq<nat>, log: seq<T.Exchange>) {
    && job.Answered? && job.pos < |owner| && job.pos < |log|
    && owner[job.pos] == fd && log[job.pos].request == req
  }

  /** How a worker's stage, its phase in the backend set and its job fit together. */
  ghost predicate Fit(st: R.Stage, phase: Set.Phase, job: T.Job, req: Bytes, owner: seq<nat>, log: seq<T.Exchange>, max: nat) {
    if st.Idle? then phase.Out?
    else if st.at.Asking? then phase.Out? && |req| <= MAX_LENGTH && |req| <= max
    else if st.at.Borrowing? then phase.Borrowing? && job == T.Wanting(req)
    else if st.at.Connected? then phase.Held? && job == T.Ready(req)
    else if st.at.Asked? then phase.Held? && job == T.Asked(req)
    else if st.at.Answered? then phase.Held? && Got(job, st.fd, req, owner, log)
    else if st.at == H.Failing(true) then phase.Held? && job.Broken?
    else if st.at.HandingBack? then phase.Held? && (if st.at.ok then job.Answered? else job.Broken?)
    else if st.at.Returning? then phase.Returning?
    else phase.Out?
  }

  ghost predicate Matched(s: State)
    requires Shape(s)
  {
    && |s.owner| == |s.traffic.log|
    && forall w :: 0 <= w < |s.router.stages| ==>
         Fit(s.router.stages[w], s.traffic.set_.threads[w], s.traffic.jobs[w], s.inbox[w], s.owner, s.traffic.log, s.traffic.maxPayload)
  }

  /** The reply is out, the request not yet tallied. */
  predicate IsReplied(st: R.Stage) {
    st.Serving? && (st.at.HandingBack? || st.at.Returning? || st.at.Judged?) && st.at.completed
  }

  /** Past the reply, the client not yet closed. */
  function PastReply(st: R.Stage, c: nat): nat {
    if st.Serving? && st.fd == c && (st.at.HandingBack? || st.at.Returning? || st.at.Judged? || st.at.Tallied?) && H.ClientOpen(st.at)
    then 1 else 0
  }

  /** Past reading the request, the client not yet closed. */
  function PastRead(st: R.Stage, c: nat): nat {
    if st.Serving? && st.fd == c && !st.at.Popped? && !st.at.Counted? && !st.at.Shaken? && H.ClientOpen(st.at) then 1 else 0
  }

  function Answered(served: seq<Served>): seq<nat> {
    seq(|served|, i requires 0 <= i < |served| => served[i].fd)
  }

  function Heard(read: seq<Receipt>): seq<nat> {
    seq(|read|, i requires 0 <= i < |read| => read[i].fd)
  }

  /** The reply went to the client on whose behalf the exchange was made, and is its response. */
  ghost predicate Delivered(x: Served, owner: seq<nat>, log: seq<T.Exchange>) {
    && x.pos < |owner| && x.pos < |log|
    && owner[x.pos] == x.fd && log[x.pos].request == x.request && log[x.pos].response == x.response
  }

  ghost predicate Tracked(r: R.State, served: seq<Served>) {
    OnceEach(PastReply, r, Answered(served)) && r.completed + Count(IsReplied, r.stages) == |served|
  }

  ghost predicate AllDelivered(served: seq<Served>, owner: seq<nat>, log: seq<T.Exchange>) {
    forall n :: 0 <= n < |served| ==> Delivered(served[n], owner, log)
  }

  predicate AtEnd(m: R.Main) { m.CloseBackends? || m.Finished? }

  ghost predicate PoolShut(p: Pool.State) { p.core.down && !Pool.Pings(p.cfg) ==> p.core.idle == [] }

  /** Backends are shut one after the other, at the very end. */
  ghost predicate Closing(s: State)
    requires Shape(s)
  {
    && (forall i :: 0 <= i < |s.traffic.lines| ==> s.traffic.set_.pools[i].core.down ==> AtEnd(s.router.main))
    && (forall i :: 0 <= i < |s.traffic.lines| ==> PoolShut(s.traffic.set_.pools[i]))
    && s.shut <= |s.traffic.lines|
    && (forall i :: 0 <= i < s.shut ==> s.traffic.set_.pools[i].core.down)
    && (s.router.main.Finished? ==> s.shut == |s.traffic.lines|)
  }

  ghost predicate Base(s: State) {
    && Shape(s) && RI.Inv(s.router) && TI.Inv(s.traffic)
    && Matched(s) && Tracked(s.router, s.served) && AllDelivered(s.served, s.owner, s.traffic.log) && Closing(s)
  }

  /** The worker has a request to forward or to answer. */
  predicate HasRequest(st: R.Stage) {
    st.Serving? && (st.at.Asking? || st.at.Borrowing? || st.at.Connected? || st.at.Asked? || st.at.Answered?)
  }

  /** What a worker has in its inbox, and what a reply was given to, is what was read from that very client. */
  ghost predicate Remembered(r: R.State, inbox: seq<Bytes>, read: seq<Receipt>) {
    |inbox| == |r.stages| && forall w :: 0 <= w < |inbox| ==> HasRequest(r.stages[w]) ==> Receipt(r.stages[w].fd, inbox[w]) in read
  }

  ghost predicate Reads(s: State) {
    && OnceEach(PastRead, s.router, Heard(s.read)) && Remembered(s.router, s.inbox, s.read)
    && forall n :: 0 <= n < |s.served| ==> Receipt(s.served[n].fd, s.served[n].request) in s.read
  }

  ghost predicate Inv(s: State) { Base(s) && Reads(s) }

  // ---------------------------------------------------------------- the router half

  lemma ReplyIsMilestone()
    ensures IsMilestone(PastReply)
  {
  }

  lemma ReadIsMilestone()
    ensures IsMilestone(PastRead)
  {
  }

  /** What one act does to the replied and the completed. */
  lemma ActMoves(fd: nat, p: H.Point, a: H.Act)
    requires H.Advance(p, a).Some?
    ensures (if IsReplied(R.Serving(fd, H.Advance(p, a).value)) then 1 else 0) + H.Bit(a.TallyCompleted?)
            == (if IsReplied(R.Serving(fd, p)) then 1 else 0) + H.Bit(a == H.ReplyClient(true))
  {
  }

  lemma CompletedStep(r: R.State, e: R.Event)
    requires RI.Linked(r) && R.Enabled(r, e)
    ensures var q := R.Apply(r, e);
            q.completed + Count(IsReplied, q.stages)
            == r.completed + Count(IsReplied, r.stages) + H.Bit(e.Work? && e.act == H.ReplyClient(true))
  {
    var q := R.Apply(r, e);
    if e.Work? {
      ActMoves(r.stages[e.w].fd, r.stages[e.w].at, e.act);
      CountUpdate(IsReplied, r.stages, e.w, q.stages[e.w]);
    } else if e.Fetch? {
      RI.FetchOutcome(r, e.w, e.wake);
      CountUpdate(IsReplied, r.stages, e.w, q.stages[e.w]);
      assert r.stages[e.w := r.stages[e.w]] == r.stages;
    } else if e.Return? {
      CountUpdate(IsReplied, r.stages, e.w, R.Idle);
    } else {
      AsideStages(r, e);
    }
  }

  lemma RouterTracked(r: R.State, e: R.Event, served: seq<Served>)
    requires RI.Linked(r) && R.Enabled(r, e) && !(e.Work? && e.act == H.ReplyClient(true)) && Tracked(r, served)
    ensures Tracked(R.Apply(r, e), served)
  {
    ReplyIsMilestone();
    CompletedStep(r, e);
    OnceEachStays(PastReply, r, e, Answered(served));
  }

  lemma ReplyTracked(r: R.State, w: nat, served: seq<Served>, x: Served)
    requires RI.Linked(r) && RI.Owned(r) && R.Enabled(r, R.Work(w, H.ReplyClient(true))) && Tracked(r, served)
    requires x.fd == r.stages[w].fd
    ensures Tracked(R.Apply(r, R.Work(w, H.ReplyClient(true))), served + [x])
  {
    ReplyIsMilestone();
    CompletedStep(r, R.Work(w, H.ReplyClient(true)));
    OnceEachGrows(PastReply, r, w, H.ReplyClient(true), Answered(served));
    assert Answered(served + [x]) == Answered(served) + [x.fd];
  }

  // ---------------------------------------------------------------- requests are read once and remembered

  lemma RememberedStays(r: R.State, e: R.Event, inbox: seq<Bytes>, read: seq<Receipt>)
    requires RI.Linked(r) && R.Enabled(r, e) && Remembered(r, inbox, read) && !(e.Work? && e.act == H.ReadRequest(true))
    ensures Remembered(R.Apply(r, e), inbox, read)
  {
    if e.Fetch? {
      RI.FetchOutcome(r, e.w, e.wake);
    } else if !e.Work? && !e.Return? {
      AsideStages(r, e);
    }
  }

  /** A step of the router that reads no request. */
  lemma ReadsStay(r: R.State, e: R.Event, s: State)
    requires s.router == r && Reads(s) && RI.Linked(r) && R.Enabled(r, e) && !(e.Work? && e.act == H.ReadRequest(true))
    ensures OnceEach(PastRead, R.Apply(r, e), Heard(s.read)) && Remembered(R.Apply(r, e), s.inbox, s.read)
  {
    ReadIsMilestone();
    OnceEachStays(PastRead, r, e, Heard(s.read));
    RememberedStays(r, e, s.inbox, s.read);
  }

  lemma ReadClientReads(s: State, w: nat, req: Bytes)
    requires Shape(s) && RI.Linked(s.router) && RI.Owned(s.router) && Reads(s) && Enabled(s, ReadClient(w, req))
    ensures Reads(Apply(s, ReadClient(w, req)))
  {
    var r := Apply(s, ReadClient(w, req));
    ReadIsMilestone();
    OnceEachGrows(PastRead, s.router, w, H.ReadRequest(true), Heard(s.read));
    assert Heard(r.read) == Heard(s.read) + [s.router.stages[w].fd];
    assert Receipt(s.router.stages[w].fd, req) == r.read[|s.read|];
  }

  lemma ReplyReads(s: State, w: nat)
    requires Shape(s) && RI.Linked(s.router) && Reads(s) && Enabled(s, ReplyTo(w))
    ensures Reads(Apply(s, ReplyTo(w)))
  {
    ReadsStay(s.router, R.Work(w, H.ReplyClient(true)), s);
    assert HasRequest(s.router.stages[w]);
  }

  lemma ReadsStep(s: State, e: Event)
    requires Base(s) && Reads(s) && Enabled(s, e)
    ensures Reads(Apply(s, e))
  {
    if e.ReadClient? {
      ReadClientReads(s, e.w, e.req);
    } else if e.ReplyTo? {
      ReplyReads(s, e.w);
    } else if Joint(e) {
      ReadsStay(s.router, R.Work(e.w, Act(s, e)), s);
    } else if e.Plain? {
      ReadsStay(s.router, e.re, s);
    } else if e.ShutAll? {
      ReadsStay(s.router, R.ShutBackends, s);
    }
  }

  // ---------------------------------------------------------------- the worker's stage and its traffic

  /** A plain act keeps stage, phase and job together. */
  lemma PlainFit(fd: nat, p: H.Point, a: H.Act, phase: Set.Phase, job: T.Job, req: Bytes, owner: seq<nat>, log: seq<T.Exchange>, max: nat)
    requires H.Advance(p, a).Some? && PlainAct(a) && Fit(R.Serving(fd, p), phase, job, req, owner, log, max)
    ensures Fit(R.Serving(fd, H.Advance(p, a).value), phase, job, req, owner, log, max)
  {
  }

  /** Every stage but one is as it was. */
  lemma OneStage(s: State, r: State, w: nat)
    requires Shape(s) && Matched(s) && Shape(r) && r == s.(router := r.router, inbox := r.inbox, read := r.read) && w < |s.inbox|
    requires r.router.stages == s.router.stages[w := r.router.stages[w]] && r.inbox == s.inbox[w := r.inbox[w]]
    requires Fit(r.router.stages[w], s.traffic.set_.threads[w], s.traffic.jobs[w], r.inbox[w], s.owner, s.traffic.log, s.traffic.maxPayload)
    ensures Matched(r)
  {
  }

  lemma WorkMatched(s: State, w: nat, a: H.Act)
    requires Shape(s) && Matched(s) && R.Enabled(s.router, R.Work(w, a))
    requires PlainAct(a) || (a == H.ReplyClient(true) && s.router.stages[w].at.Answered?)
    ensures var r := s.(router := R.Apply(s.router, R.Work(w, a))); Shape(r) && Matched(r)
  {
    var r := s.(router := R.Apply(s.router, R.Work(w, a)));
    if PlainAct(a) {
      PlainFit(s.router.stages[w].fd, s.router.stages[w].at, a, s.traffic.set_.threads[w], s.traffic.jobs[w], s.inbox[w],
               s.owner, s.traffic.log, s.traffic.maxPayload);
    }
    assert s.inbox == s.inbox[w := s.inbox[w]];
    OneStage(s, r, w);
  }

  lemma ReadClientMatched(s: State, w: nat, req: Bytes)
    requires Shape(s) && Matched(s) && Enabled(s, ReadClient(w, req))
    ensures Shape(Apply(s, ReadClient(w, req))) && Matched(Apply(s, ReadClient(w, req)))
  {
    OneStage(s, Apply(s, ReadClient(w, req)), w);
  }

  lemma PoolMatched(s: State, e: R.Event)
    requires Shape(s) && Matched(s) && RI.Linked(s.router) && R.Enabled(s.router, e) && (e.Fetch? || e.Return?)
    ensures var r := s.(router := R.Apply(s.router, e)); Shape(r) && Matched(r)
  {
    var r := s.(router := R.Apply(s.router, e));
    if e.Fetch? {
      RI.FetchOutcome(s.router, e.w, e.wake);
    }
    assert s.inbox == s.inbox[e.w := s.inbox[e.w]];
    assert r.router.stages == s.router.stages[e.w := r.router.stages[e.w]];
    OneStage(s, r, e.w);
  }

  lemma PlainMatched(s: State, e: R.Event)
    requires Shape(s) && Matched(s) && RI.Inv(s.router) && IsPlain(e) && R.Enabled(s.router, e)
    ensures var r := s.(router := R.Apply(s.router, e)); Shape(r) && Matched(r)
  {
    RI.StepInv(s.router, e);
    if e.Work? {
      WorkMatched(s, e.w, e.act);
    } else if e.Fetch? || e.Return? {
      PoolMatched(s, e);
    } else {
      AsideStages(s.router, e);
    }
  }

  /** What the two halves of a joint step leave alone. */
  lemma JointFrame(s: State, e: Event)
    requires Shape(s) && Joint(e) && Enabled(s, e)
    ensures var r := Apply(s, e);
            && Shape(r) && r.inbox == s.inbox && r.traffic.maxPayload == s.traffic.maxPayload
            && r.router.stages == s.router.stages[e.w := r.router.stages[e.w]]
            && r.traffic.set_.threads == s.traffic.set_.threads[e.w := r.traffic.set_.threads[e.w]]
            && r.traffic.jobs == s.traffic.jobs[e.w := r.traffic.jobs[e.w]]
            && s.owner <= r.owner && s.traffic.log <= r.traffic.log
            && (|s.owner| == |s.traffic.log| ==> |r.owner| == |r.traffic.log|)
  {
    if !e.Write? && !e.Read? {
      TI.ThreadMoveFrame(s.traffic, Move(s, e));
    }
  }

  lemma FitGrows(st: R.Stage, phase: Set.Phase, job: T.Job, req: Bytes, owner: seq<nat>, log: seq<T.Exchange>,
                 owner': seq<nat>, log': seq<T.Exchange>, max: nat)
    requires Fit(st, phase, job, req, owner, log, max) && owner <= owner' && log <= log'
    ensures Fit(st, phase, job, req, owner', log', max)
  {
  }

  ghost predicate FitAt(s: State, w: nat)
    requires Shape(s) && w < |s.inbox|
  {
    Fit(s.router.stages[w], s.traffic.set_.threads[w], s.traffic.jobs[w], s.inbox[w], s.owner, s.traffic.log, s.traffic.maxPayload)
  }

  lemma MoveFit(s: State, e: Event)
    requires Shape(s) && Matched(s) && Joint(e) && Enabled(s, e) && !e.Write? && !e.Read?
    ensures Shape(Apply(s, e)) && FitAt(Apply(s, e), e.w)
  {
    JointFrame(s, e);
    assert FitAt(s, e.w);
  }

  lemma WriteFit(s: State, w: nat, k: nat)
    requires Shape(s) && Matched(s) && Enabled(s, Write(w, k))
    ensures Shape(Apply(s, Write(w, k))) && FitAt(Apply(s, Write(w, k)), w)
  {
    JointFrame(s, Write(w, k));
    assert FitAt(s, w);
  }

  lemma ReadFit(s: State, w: nat, k: nat, ok: bool)
    requires Shape(s) && Matched(s) && Enabled(s, Read(w, k, ok))
    ensures Shape(Apply(s, Read(w, k, ok))) && FitAt(Apply(s, Read(w, k, ok)), w)
  {
    JointFrame(s, Read(w, k, ok));
    assert FitAt(s, w);
  }

  lemma JointMatched(s: State, e: Event)
    requires Shape(s) && Matched(s) && Joint(e) && Enabled(s, e)
    ensures Shape(Apply(s, e)) && Matched(Apply(s, e))
  {
    var r := Apply(s, e);
    JointFrame(s, e);
    if e.Write? {
      WriteFit(s, e.w, e.k);
    } else if e.Read? {
      ReadFit(s, e.w, e.k, e.ok);
    } else {
      MoveFit(s, e);
    }
    forall v | 0 <= v < |r.router.stages|
      ensures Fit(r.router.stages[v], r.traffic.set_.threads[v], r.traffic.jobs[v], r.inbox[v], r.owner, r.traffic.log, r.traffic.maxPayload)
    {
      if v != e.w {
        FitGrows(s.router.stages[v], s.traffic.set_.threads[v], s.traffic.jobs[v], s.inbox[v], s.owner, s.traffic.log,
                 r.owner, r.traffic.log, s.traffic.maxPayload);
      }
    }
  }

  // ---------------------------------------------------------------- shutting the backends

  /** Once the workers are gone nobody is in any pool. */
  lemma NobodyInside(s: State, i: nat, t: nat)
    requires Shape(s) && RI.Inv(s.router) && Set.Inv(s.traffic.set_) && Matched(s) && AtEnd(s.router.main)
    requires i < |s.traffic.lines| && t < |s.inbox|
    ensures s.traffic.set_.threads[t].Out? && s.traffic.set_.pools[i].clients[t].Away?
  {
    assert RI.StageFits(s.router.pool.workers[t], s.router.stages[t]);
    assert FitAt(s, t);
    assert Set.Fits(s.traffic.set_.threads[t], i, s.traffic.set_.pools[i].clients[t]);
  }

  /** A pool that is shut with nobody in it stays shut, its idle list empty. */
  lemma InsideShut(p: Pool.State, e: Pool.Event)
    requires Pool.Enabled(p, e) && Set.IsInside(e) && PoolInv.Ages(p) && PoolShut(p)
    requires p.core.down ==> forall t :: 0 <= t < |p.clients| ==> p.clients[t].Away?
    ensures var r := Pool.Apply(p, e); PoolShut(r) && r.core.down == p.core.down
  {
    if p.core.down && !Pool.Pings(p.cfg) {
      PoolThm.SettledStep(p, e);
    }
  }

  /** The pool's own step inside a background step, if there is one. */
  ghost predicate Moves(p: Pool.State, q: Pool.State) {
    p == q || exists pe :: Pool.Enabled(p, pe) && Set.IsInside(pe) && q == Pool.Apply(p, pe)
  }

  lemma InsideFrame(t: T.State, i: nat, pe: Pool.Event)
    requires Set.Shape(t.set_) && Set.Enabled(t.set_, Set.Inside(i, pe))
    ensures var r := Set.Apply(t.set_, Set.Inside(i, pe));
            && Set.Shape(r) && r == t.set_.(pools := t.set_.pools[i := r.pools[i]]) && Moves(t.set_.pools[i], r.pools[i])
  {
    Set.InsideIsLocal(t.set_.pools[i], pe);
    assert Pool.Enabled(t.set_.pools[i], pe) && Set.IsInside(pe);
  }

  /** What the pools do on their own changes one pool, by one of its own steps, and no thread. */
  lemma BackgroundFrame(t: T.State, e: T.Event)
    requires T.Shape(t) && T.Enabled(t, e) && IsBackground(e)
    ensures var r := T.Apply(t, e);
            && T.Shape(r) && r.jobs == t.jobs && r.log == t.log && r.maxPayload == t.maxPayload
            && r.set_.threads == t.set_.threads && |r.lines| == |t.lines| && e.i < |t.lines|
            && (forall k :: 0 <= k < |t.lines| && k != e.i ==> r.set_.pools[k] == t.set_.pools[k])
            && Moves(t.set_.pools[e.i], r.set_.pools[e.i])
  {
    if e.Inside? {
      InsideFrame(t, e.i, e.e);
    } else if e.PingRead? || e.PingGiveUp? {
      InsideFrame(t, e.i, Pool.Ping(e.PingRead? && e.ok));
    }
  }

  lemma BackgroundPool(s: State, e: T.Event)
    requires Base(s) && IsBackground(e) && T.Enabled(s.traffic, e)
    ensures e.i < |s.traffic.lines| && T.Shape(T.Apply(s.traffic, e))
    ensures var p, q := s.traffic.set_.pools[e.i], T.Apply(s.traffic, e).set_.pools[e.i];
            PoolShut(q) && q.core.down == p.core.down
  {
    BackgroundFrame(s.traffic, e);
    var p, q := s.traffic.set_.pools[e.i], T.Apply(s.traffic, e).set_.pools[e.i];
    assert PoolInv.Inv(p) && PoolShut(p);
    if p != q {
      var pe :| Pool.Enabled(p, pe) && Set.IsInside(pe) && q == Pool.Apply(p, pe);
      if p.core.down {
        forall t | 0 <= t < |p.clients| ensures p.clients[t].Away? {
          NobodyInside(s, e.i, t);
        }
      }
      InsideShut(p, pe);
    }
  }

  lemma OnePoolClosing(s: State, r: State, i: nat)
    requires Shape(s) && Closing(s) && Shape(r) && r.router == s.router && i < |s.traffic.lines| == |r.traffic.lines|
    requires forall k :: 0 <= k < |s.traffic.lines| && k != i ==> r.traffic.set_.pools[k] == s.traffic.set_.pools[k]
    requires var p, q := s.traffic.set_.pools[i], r.traffic.set_.pools[i];
             PoolShut(q) && (q.core.down ==> p.core.down || AtEnd(s.router.main)) && (p.core.down ==> q.core.down)
    requires r.shut == s.shut || (i == s.shut && r.shut == s.shut + 1 && r.traffic.set_.pools[i].core.down && !s.router.main.Finished?)
    ensures Closing(r)
  {
  }

  lemma BackgroundInv(s: State, e: T.Event)
    requires Base(s) && Enabled(s, Background(e))
    ensures Base(Apply(s, Background(e)))
  {
    TI.StepInv(s.traffic, e);
    BackgroundFrame(s.traffic, e);
    BackgroundPool(s, e);
    OnePoolClosing(s, Apply(s, Background(e)), e.i);
  }

  lemma JointClosing(s: State, e: Event)
    requires Shape(s) && Closing(s) && Joint(e) && Enabled(s, e)
    ensures Shape(Apply(s, e)) && Closing(Apply(s, e))
  {
    JointFrame(s, e);
    if !e.Write? && !e.Read? {
      TI.ThreadMoveFrame(s.traffic, Move(s, e));
    }
  }

  // ---------------------------------------------------------------- every step

  lemma DeliveredGrows(served: seq<Served>, owner: seq<nat>, log: seq<T.Exchange>, owner': seq<nat>, log': seq<T.Exchange>)
    requires AllDelivered(served, owner, log) && owner <= owner' && log <= log'
    ensures AllDelivered(served, owner', log')
  {
    forall n | 0 <= n < |served| ensures Delivered(served[n], owner', log') {
      assert Delivered(served[n], owner, log);
    }
  }

  lemma PlainInv(s: State, e: R.Event)
    requires Base(s) && Enabled(s, Plain(e))
    ensures Base(Apply(s, Plain(e)))
  {
    RI.StepInv(s.router, e);
    PlainMatched(s, e);
    RouterTracked(s.router, e, s.served);
    MainAdvances(s.router, e);
  }

  /** Only shutting the backends finishes main, and main never turns back from there. */
  lemma MainAdvances(r: R.State, e: R.Event)
    requires R.Shape(r) && R.Enabled(r, e) && !e.ShutBackends?
    ensures AtEnd(r.main) ==> R.Apply(r, e).main == r.main
    ensures R.Apply(r, e).main.Finished? ==> r.main.Finished?
  {
  }

  lemma ReadClientInv(s: State, w: nat, req: Bytes)
    requires Base(s) && Enabled(s, ReadClient(w, req))
    ensures Base(Apply(s, ReadClient(w, req)))
  {
    var e := R.Work(w, H.ReadRequest(true));
    RI.StepInv(s.router, e);
    ReadClientMatched(s, w, req);
    RouterTracked(s.router, e, s.served);
  }

  lemma ReplyDelivered(s: State, w: nat)
    requires Shape(s) && Matched(s) && Enabled(s, ReplyTo(w)) && AllDelivered(s.served, s.owner, s.traffic.log)
    ensures AllDelivered(Apply(s, ReplyTo(w)).served, s.owner, s.traffic.log)
  {
    assert FitAt(s, w) && s.router.stages[w].at.Answered?;
  }

  /** A worker's step that touches neither the backends nor its inbox. */
  lemma RouterOnlyInv(s: State, w: nat, a: H.Act, served: seq<Served>)
    requires Base(s) && R.Enabled(s.router, R.Work(w, a)) && (PlainAct(a) || a == H.ReplyClient(true))
    requires Tracked(R.Apply(s.router, R.Work(w, a)), served) && AllDelivered(served, s.owner, s.traffic.log)
    ensures Base(s.(router := R.Apply(s.router, R.Work(w, a)), served := served))
  {
    RI.StepInv(s.router, R.Work(w, a));
    WorkMatched(s, w, a);
  }

  lemma ReplyToInv(s: State, w: nat)
    requires Base(s) && Enabled(s, ReplyTo(w))
    ensures Base(Apply(s, ReplyTo(w)))
  {
    var r := Apply(s, ReplyTo(w));
    ReplyTracked(s.router, w, s.served, r.served[|s.served|]);
    ReplyDelivered(s, w);
    RouterOnlyInv(s, w, H.ReplyClient(true), r.served);
  }

  lemma JointInv(s: State, e: Event)
    requires Base(s) && Joint(e) && Enabled(s, e)
    ensures Base(Apply(s, e))
  {
    var r := Apply(s, e);
    RI.StepInv(s.router, R.Work(e.w, Act(s, e)));
    TI.StepInv(s.traffic, Move(s, e));
    JointMatched(s, e);
    RouterTracked(s.router, R.Work(e.w, Act(s, e)), s.served);
    JointFrame(s, e);
    DeliveredGrows(s.served, s.owner, s.traffic.log, r.owner, r.traffic.log);
    JointClosing(s, e);
  }

  lemma ShutDownFrame(t: T.State, i: nat)
    requires T.Shape(t) && i < |t.lines|
    ensures var r, p := T.Apply(t, T.ShutDown(i)), t.set_.pools[i];
            && T.Shape(r) && r == t.(set_ := t.set_.(pools := r.set_.pools)) && |r.set_.pools| == |t.set_.pools|
            && (forall k :: 0 <= k < |t.lines| && k != i ==> r.set_.pools[k] == t.set_.pools[k])
            && r.set_.pools[i].core.down && (if p.core.down then r.set_.pools[i] == p else r.set_.pools[i].core.idle == [])
  {
  }

  lemma ShutPoolInv(s: State)
    requires Base(s) && Enabled(s, ShutPool)
    ensures Base(Apply(s, ShutPool))
  {
    TI.StepInv(s.traffic, T.ShutDown(s.shut));
    ShutDownFrame(s.traffic, s.shut);
    OnePoolClosing(s, Apply(s, ShutPool), s.shut);
  }

  lemma ShutAllFits(s: State)
    requires Shape(s) && Matched(s) && Closing(s) && Enabled(s, ShutAll)
    ensures var r := Apply(s, ShutAll); Shape(r) && Matched(r) && Closing(r) && r == s.(router := r.router)
  {
  }

  lemma ShutAllInv(s: State)
    requires Base(s) && Enabled(s, ShutAll)
    ensures Base(Apply(s, ShutAll))
  {
    RI.StepInv(s.router, R.ShutBackends);
    RouterTracked(s.router, R.ShutBackends, s.served);
    ShutAllFits(s);
  }

  lemma StepInv(s: State, e: Event)
    requires Inv(s) && Enabled(s, e)
    ensures Inv(Apply(s, e))
  {
    ReadsStep(s, e);
    if Joint(e) {
      JointInv(s, e);
    } else if e.Plain? {
      PlainInv(s, e.re);
    } else if e.ReadClient? {
      ReadClientInv(s, e.w, e.req);
    } else if e.ReplyTo? {
      ReplyToInv(s, e.w);
    } else if e.Background? {
      BackgroundInv(s, e.te);
    } else if e.ShutPool? {
      ShutPoolInv(s);
    } else {
      ShutAllInv(s);
    }
  }

  lemma InitFitted(u: Setup)
    ensures var s := Init(u); Shape(s) && Matched(s) && Tracked(s.router, []) && Closing(s)
  {
    CountBounds(IsReplied, Init(u).router.stages);
  }

  lemma InitInv(u: Setup)
    ensures Inv(Init(u))
  {
    RI.InitInv(u.tls, u.threads, u.depth);
    TI.InitInv(if u.weights == [] then [1] else u.weights, u.opts, |R.Init(u.tls, u.threads, u.depth).stages|, u.maxPayload);
    InitFitted(u);
  }

  lemma {:induction false} RunInv(s: State, es: seq<Event>)
    requires Inv(s) && Valid(s, es)
    ensures Inv(Final(s, es))
    decreases |es|
  {
    if es != [] {
      StepInv(s, es[0]);
      RunInv(Apply(s, es[0]), es[1..]);
    }
  }

  lemma ReachInv(u: Setup, s: State)
    requires Reachable(u, s)
    ensures Inv(s)
  {
    var es :| Valid(Init(u), es) && Final(Init(u), es) == s;
    InitInv(u);
    RunInv(Init(u), es);
  }
}

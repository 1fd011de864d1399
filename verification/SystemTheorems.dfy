/** What holds of every run of the whole router, from accepting a client to closing the last backend connection. */
module SystemTheorems {
  import opened Counting
  import opened Wire
  import opened System
  import opened SystemInvariants
  import RT = RouterTheorems
  import T = Traffic
  import TI = TrafficInvariants
  import Set = BackendSet
  import Pool = BackendPool
  import PoolInv = BackendPoolInvariants

  /** Reply `x` is genuine: its request was read from that very client, the exchange it was taken from was made on that
      client's behalf, and there the backend answered that request with exactly that response. */
  ghost predicate Genuine(s: State, x: Served) {
    && Receipt(x.fd, x.request) in s.read
    && x.pos < |s.owner| && s.owner[x.pos] == x.fd
    && x.pos < |s.traffic.log| && s.traffic.log[x.pos].request == x.request && s.traffic.log[x.pos].response == x.response
    && TI.Recorded(s.traffic.lines, s.traffic.log[x.pos])
  }

  /** End to end, in every run: no client is read from twice; the requests counted completed are, up to those just
      replied to, exactly the replies delivered; each reply is the backend's own answer to the request read
      from that very client; no client is answered twice and no answer goes to two clients. */
  lemma EveryClientGetsItsOwnAnswer(u: Setup, s: State)
    requires Reachable(u, s)
    ensures forall m, n :: 0 <= m < n < |s.read| ==> s.read[m].fd != s.read[n].fd
    ensures s.router.completed + Count(IsReplied, s.router.stages) == |s.served|
    ensures forall n :: 0 <= n < |s.served| ==> Genuine(s, s.served[n])
    ensures forall m, n :: 0 <= m < n < |s.served| ==>
              s.served[m].fd != s.served[n].fd && s.served[m].pos != s.served[n].pos
  {
    ReachInv(u, s);
    forall m, n | 0 <= m < n < |s.read| ensures s.read[m].fd != s.read[n].fd {
      assert Heard(s.read)[m] != Heard(s.read)[n];
    }
    forall n | 0 <= n < |s.served| ensures Genuine(s, s.served[n]) {
      assert Delivered(s.served[n], s.owner, s.traffic.log);
      assert TI.LogOk(s.traffic.lines, s.traffic.log);
    }
    forall m, n | 0 <= m < n < |s.served| ensures s.served[m].fd != s.served[n].fd && s.served[m].pos != s.served[n].pos {
      assert Answered(s.served)[m] != Answered(s.served)[n];
      assert Delivered(s.served[m], s.owner, s.traffic.log) && Delivered(s.served[n], s.owner, s.traffic.log);
    }
  }

  /** Main's order keeps shutdown away from borrowers: while a pool is shutting down or shut, no worker
      is inside it or holds a connection of it. */
  lemma NobodyMeetsShutdown(u: Setup, s: State, i: nat, t: nat)
    requires Reachable(u, s) && Shape(s) && i < |s.traffic.lines| && s.traffic.set_.pools[i].core.down && t < |s.inbox|
    ensures s.traffic.set_.threads[t].Out? && s.traffic.set_.pools[i].clients[t].Away?
  {
    ReachInv(u, s);
    NobodyInside(s, i, t);
  }

  // ---------------------------------------------------------------- the end of main

  /** When main is done, every accepted request has been tallied and every client closed exactly once, and the
      requests counted completed are exactly the replies delivered. */
  lemma ClientsAtExit(u: Setup, s: State)
    requires Reachable(u, s) && s.router.main.Finished?
    ensures s.router.completed == |s.served| && s.router.completed + s.router.errored == s.router.accepted == s.router.arrivals
    ensures forall c: nat :: Tally(IsId, s.router.closed, c) == if c < s.router.arrivals then 1 else 0
  {
    ReachInv(u, s);
    RT.Drained(s.router);
    CountBounds(IsReplied, s.router.stages);
  }

  predicate SameConfigs(s: State, r: State) {
    && |r.traffic.set_.pools| == |s.traffic.set_.pools|
    && forall i :: 0 <= i < |s.traffic.set_.pools| ==> r.traffic.set_.pools[i].cfg == s.traffic.set_.pools[i].cfg
  }

  lemma JointKeepsConfigs(s: State, e: Event)
    requires Shape(s) && Enabled(s, e) && Joint(e)
    ensures SameConfigs(s, Apply(s, e))
  {
    if !e.Write? && !e.Read? {
      TI.ThreadMoveFrame(s.traffic, Move(s, e));
    }
  }

  lemma BackgroundKeepsConfigs(s: State, e: T.Event)
    requires Shape(s) && Enabled(s, Background(e))
    ensures SameConfigs(s, Apply(s, Background(e)))
  {
    BackgroundFrame(s.traffic, e);
  }

  lemma StepKeepsConfigs(s: State, e: Event)
    requires Shape(s) && Enabled(s, e)
    ensures SameConfigs(s, Apply(s, e))
  {
    if Joint(e) {
      JointKeepsConfigs(s, e);
    } else if e.Background? {
      BackgroundKeepsConfigs(s, e.te);
    } else if e.ShutPool? {
      ShutDownFrame(s.traffic, s.shut);
    }
  }

  lemma {:induction false} RunKeepsConfigs(s: State, es: seq<Event>)
    requires Valid(s, es)
    ensures SameConfigs(s, Final(s, es))
    decreases |es|
  {
    if es != [] {
      StepKeepsConfigs(s, es[0]);
      RunKeepsConfigs(Apply(s, es[0]), es[1..]);
    }
  }

  lemma ReachConfigs(u: Setup, s: State)
    requires Reachable(u, s)
    ensures s.traffic.set_.pools != []
    ensures forall i :: 0 <= i < |s.traffic.set_.pools| ==> Pool.Pings(s.traffic.set_.pools[i].cfg) == Pool.Pings(u.opts)
  {
    var es :| Valid(Init(u), es) && Final(Init(u), es) == s;
    RunKeepsConfigs(Init(u), es);
  }

  /** Where the connections of a pool can be once main is done with it. */
  lemma PoolAtExit(s: State, i: nat)
    requires Inv(s) && s.router.main.Finished? && i < |s.traffic.lines| && s.traffic.set_.pools[i].reaper.Gone?
    ensures var p := s.traffic.set_.pools[i];
            && p.core.inUse == 0 && (!Pool.Pings(p.cfg) ==> p.core.idle == [])
            && forall c: nat :: Tally(Pool.InSlot, p.core.idle, c) + Tally(IsId, p.closed, c) == if c < p.dialled then 1 else 0
  {
    var p := s.traffic.set_.pools[i];
    assert PoolInv.Inv(p) && PoolShut(p);
    forall t | 0 <= t < |p.clients| ensures p.clients[t].Away? {
      NobodyInside(s, i, t);
    }
    CountBounds(Pool.IsCounted, p.clients);
    forall c: nat ensures Tally(Pool.InSlot, p.core.idle, c) + Tally(IsId, p.closed, c) == if c < p.dialled then 1 else 0 {
      TallyZero(Pool.Carries, p.clients, c);
      assert PoolInv.Places(p, c) == if c < p.dialled then 1 else 0;
    }
  }

  /** No leak at exit: when main is done and a pool's reaper has exited, every connection ever dialled there has
      been closed exactly once; where connections are pinged, closed exactly once or left in the idle list
      of the pool that is shut. */
  lemma BackendsAtExit(u: Setup, s: State, i: nat)
    requires Reachable(u, s) && s.router.main.Finished? && i < |s.traffic.set_.pools| && s.traffic.set_.pools[i].reaper.Gone?
    ensures var p := s.traffic.set_.pools[i];
            && p.core.down && p.core.inUse == 0
            && (forall c: nat :: Tally(Pool.InSlot, p.core.idle, c) + Tally(IsId, p.closed, c) == if c < p.dialled then 1 else 0)
            && (!Pool.Pings(u.opts) ==> p.core.idle == [] && forall c: nat :: Tally(IsId, p.closed, c) == if c < p.dialled then 1 else 0)
  {
    var p := s.traffic.set_.pools[i];
    ReachInv(u, s);
    ReachConfigs(u, s);
    PoolAtExit(s, i);
    if !Pool.Pings(u.opts) {
      forall c: nat ensures Tally(IsId, p.closed, c) == if c < p.dialled then 1 else 0 {
        assert Tally(Pool.InSlot, p.core.idle, c) + Tally(IsId, p.closed, c) == if c < p.dialled then 1 else 0;
      }
    }
  }
}

/** What every step of the connection pool keeps: who owns each connection, what in_use
    counts, how many connections exist, and who has been notified. */
module BackendPoolInvariants {
  import opened Counting
  import opened BackendPool

  /** How many places hold connection `c`: the idle list, a borrower, the reaper, or the closed list. */
  function Places(s: State, c: nat): nat {
    Tally(InSlot, s.core.idle, c) + Tally(Carries, s.clients, c) + InReaper(s.reaper, c) + Tally(IsId, s.closed, c)
  }

  /** Each connection ever dialled is in exactly one place, and in_use counts the threads
      that are dialling or hold a connection they have not yet handed back. */
  ghost predicate Ownership(s: State) {
    && (forall c: nat :: Places(s, c) == if c < s.dialled then 1 else 0)
    && s.core.inUse == Count(IsCounted, s.clients)
  }

  ghost predicate Capacity(s: State) {
    && s.cfg.maxSize >= 1
    && (!Pings(s.cfg) ==> |s.core.idle| + s.core.inUse <= s.cfg.maxSize)
    && ReaperHolds(s.reaper) <= s.cfg.maxSize * s.sweeps
    && |s.core.idle| + s.core.inUse + ReaperHolds(s.reaper) <= s.cfg.maxSize * s.sweeps + s.cfg.maxSize
  }

  ghost predicate WakeUps(s: State) {
    !s.core.down && Count(IsAsleep, s.clients) > 0
    ==> Count(IsNotified, s.clients) + s.lost >= s.cfg.maxSize - s.core.inUse
  }

  /** Where nothing is ever pinged the idle list is ordered by age and the reaper has nothing to give back. */
  ghost predicate Ages(s: State) {
    !Pings(s.cfg) ==>
      && Aged(s.core.idle, s.now)
      && (s.reaper.Busy? ==> s.reaper.toCheck == [] && s.reaper.survivors == [] && s.reaper.dead == [])
  }

  ghost predicate Aged(idle: seq<Slot>, now: int) {
    && (forall i :: 0 <= i < |idle| ==> idle[i].created == idle[i].lastUsed <= now)
    && (forall i, j :: 0 <= i < j < |idle| ==> idle[i].lastUsed <= idle[j].lastUsed)
  }

  ghost predicate Inv(s: State) {
    Ownership(s) && Capacity(s) && WakeUps(s) && Ages(s)
  }

  // ---------------------------------------------------------------- tallies over clients

  lemma ClientMoves(cs: seq<Client>, t: nat, x: Client)
    requires t < |cs|
    ensures Count(IsAsleep, cs[t := x]) == Count(IsAsleep, cs) - (if cs[t].Asleep? then 1 else 0) + (if x.Asleep? then 1 else 0)
    ensures Count(IsNotified, cs[t := x]) == Count(IsNotified, cs) - (if cs[t].Notified? then 1 else 0) + (if x.Notified? then 1 else 0)
    ensures Count(IsCounted, cs[t := x]) == Count(IsCounted, cs) - (if IsCounted(cs[t]) then 1 else 0) + (if IsCounted(x) then 1 else 0)
  {
    CountUpdate(IsAsleep, cs, t, x);
    CountUpdate(IsNotified, cs, t, x);
    CountUpdate(IsCounted, cs, t, x);
  }

  /** `notify_one`: one sleeper, if any, becomes notified; nothing else moves. */
  lemma WakeMoves(cs: seq<Client>, t: nat, x: Client, wake: nat)
    requires t < |cs| && !cs[t].Asleep? && !cs[t].Notified? && !x.Asleep? && !x.Notified? && Picks(cs, wake)
    ensures var r := Wake(cs[t := x], wake);
            && |r| == |cs|
            && (forall c :: Tally(Carries, r, c) == Tally(Carries, cs[t := x], c))
            && Count(IsCounted, r) == Count(IsCounted, cs[t := x])
            && (Count(IsAsleep, cs) == 0 ==> Count(IsAsleep, r) == 0)
            && (Count(IsAsleep, cs) > 0 ==> Count(IsAsleep, r) == Count(IsAsleep, cs) - 1
                                            && Count(IsNotified, r) == Count(IsNotified, cs) + 1)
  {
    ClientMoves(cs, t, x);
    CountBounds(IsAsleep, cs[t := x]);
    var r := Wake(cs[t := x], wake);
    if wake < |cs| && cs[t := x][wake].Asleep? {
      ClientMoves(cs[t := x], wake, Notified);
      forall c: nat ensures Tally(Carries, r, c) == Tally(Carries, cs[t := x], c) {
        TallyUpdate(Carries, cs[t := x], wake, Notified, c);
      }
    }
  }

  lemma {:induction false} SweepConserves(cfg: Config, now: int, idle: seq<Slot>, c: nat)
    ensures Tally(InSlot, idle, c) == Tally(InSlot, Kept(cfg, now, idle), c) + Tally(InSlot, Culled(cfg, now, idle), c)
    ensures |idle| == |Kept(cfg, now, idle)| + |Culled(cfg, now, idle)|
  {
    if idle != [] {
      var front, last := idle[..|idle| - 1], idle[|idle| - 1];
      SweepConserves(cfg, now, front, c);
      assert idle == front + [last];
      TallySnoc(InSlot, front, last, c);
      TallySnoc(InSlot, Kept(cfg, now, front), last, c);
      TallySnoc(InSlot, Culled(cfg, now, front), last, c);
    }
  }

  // ---------------------------------------------------------------- ownership

  /** A step that only changes what one client carries, and says where the difference went. */
  lemma CarriesMove(s: State, r: State, t: nat, x: Client, c: nat)
    requires t < |s.clients|
    requires forall d :: Tally(Carries, r.clients, d) == Tally(Carries, s.clients[t := x], d)
    ensures Tally(Carries, r.clients, c) + Carries(s.clients[t], c) == Tally(Carries, s.clients, c) + Carries(x, c)
  {
    TallyUpdate(Carries, s.clients, t, x, c);
  }

  /** Steps of one borrowing thread outside the lock, or back to sleep or out on a timeout. */
  predicate OneClient(e: Event) {
    e.Enter? || e.TimeOut? || e.LateTimeOut? || e.Stir? || e.StartRelease? || e.CloseConn? || e.DialOk?
  }

  lemma ClientOwnership(s: State, e: Event)
    requires Ownership(s) && Enabled(s, e)
    requires OneClient(e)
    ensures Ownership(Apply(s, e))
  {
    var r := Apply(s, e);
    ClientMoves(s.clients, e.t, r.clients[e.t]);
    forall c: nat ensures Places(r, c) == if c < r.dialled then 1 else 0 {
      CarriesMove(s, r, e.t, r.clients[e.t], c);
      if e.CloseConn? {
        TallySnoc(IsId, s.closed, s.clients[e.t].conn, c);
      }
      assert Places(s, c) == if c < s.dialled then 1 else 0;
    }
  }

  lemma PassOwnership(s: State, t: nat)
    requires Ownership(s) && Enabled(s, Pass(t))
    ensures Ownership(Apply(s, Pass(t)))
  {
    var r := Apply(s, Pass(t));
    ClientMoves(s.clients, t, r.clients[t]);
    forall c: nat ensures Places(r, c) == if c < r.dialled then 1 else 0 {
      CarriesMove(s, r, t, r.clients[t], c);
      assert Places(s, c) == if c < s.dialled then 1 else 0;
    }
  }

  lemma DialFailOwnership(s: State, t: nat, wake: nat)
    requires Ownership(s) && Enabled(s, DialFail(t, wake))
    ensures Ownership(Apply(s, DialFail(t, wake)))
  {
    var r := Apply(s, DialFail(t, wake));
    ClientMoves(s.clients, t, Away);
    WakeMoves(s.clients, t, Away, wake);
    forall c: nat ensures Places(r, c) == if c < r.dialled then 1 else 0 {
      CarriesMove(s, r, t, Away, c);
      assert Places(s, c) == if c < s.dialled then 1 else 0;
    }
  }

  lemma FinishReleaseOwnership(s: State, t: nat, wake: nat)
    requires Ownership(s) && Enabled(s, FinishRelease(t, wake))
    ensures Ownership(Apply(s, FinishRelease(t, wake)))
  {
    var r := Apply(s, FinishRelease(t, wake));
    var me := s.clients[t];
    var x := if me.closeIt then Closing(me.conn) else Away;
    ClientMoves(s.clients, t, x);
    WakeMoves(s.clients, t, x, wake);
    CountAt(IsCounted, s.clients, t);
    forall c: nat ensures Places(r, c) == if c < r.dialled then 1 else 0 {
      CarriesMove(s, r, t, x, c);
      TallySnoc(InSlot, s.core.idle, Slot(me.conn, s.now, s.now), c);
      assert Places(s, c) == if c < s.dialled then 1 else 0;
    }
  }

  lemma CloseAllOwnership(s: State)
    requires Ownership(s)
    ensures Ownership(Apply(s, Shutdown))
  {
    var r := Apply(s, Shutdown);
    forall c: nat ensures Places(r, c) == if c < r.dialled then 1 else 0 {
      TallyConcat(IsId, s.closed, Conns(s.core.idle), c);
      TallySame(InSlot, s.core.idle, IsId, Conns(s.core.idle), c);
      assert Places(s, c) == if c < s.dialled then 1 else 0;
    }
  }

  lemma TellOwnership(s: State)
    requires Ownership(s) && s.core.down
    ensures Ownership(Apply(s, TellAll))
  {
    var r := Apply(s, TellAll);
    CountImplies(IsCounted, r.clients, IsCounted, s.clients);
    CountImplies(IsCounted, s.clients, IsCounted, r.clients);
    forall c: nat ensures Places(r, c) == if c < r.dialled then 1 else 0 {
      TallySame(Carries, s.clients, Carries, r.clients, c);
      assert Places(s, c) == if c < s.dialled then 1 else 0;
    }
  }

  lemma ReaperOwnership(s: State, e: Event)
    requires Ownership(s) && Enabled(s, e)
    requires e.Sweep? || e.Bury? || e.Ping? || e.Discard? || e.GiveBack? || e.ReaperExit? || e.Tick?
    ensures Ownership(Apply(s, e))
  {
    var r := Apply(s, e);
    forall c: nat ensures Places(r, c) == if c < r.dialled then 1 else 0 {
      match e {
        case Sweep => SweepConserves(s.cfg, s.now, s.core.idle, c);
        case Bury => TallySnoc(IsId, s.closed, s.reaper.victims[0].conn, c);
        case Ping(alive) =>
          var slot := s.reaper.toCheck[0];
          TallySnoc(InSlot, s.reaper.survivors, slot.(lastUsed := s.now), c);
          TallySnoc(InSlot, s.reaper.dead, slot, c);
        case Discard => TallySnoc(IsId, s.closed, s.reaper.dead[0].conn, c);
        case GiveBack => TallyConcat(InSlot, s.core.idle, s.reaper.survivors, c);
        case _ =>
      }
      assert Places(s, c) == if c < s.dialled then 1 else 0;
    }
  }

  lemma StepOwnership(s: State, e: Event)
    requires Ownership(s) && Enabled(s, e)
    ensures Ownership(Apply(s, e))
  {
    if e.Pass? {
      PassOwnership(s, e.t);
    } else if e.DialFail? {
      DialFailOwnership(s, e.t, e.wake);
    } else if e.FinishRelease? {
      FinishReleaseOwnership(s, e.t, e.wake);
    } else if e.Shutdown? {
      CloseAllOwnership(s);
    } else if e.TellAll? {
      TellOwnership(s);
    } else if OneClient(e) {
      ClientOwnership(s, e);
    } else {
      ReaperOwnership(s, e);
    }
  }

  // ---------------------------------------------------------------- capacity and wake-ups

  lemma OneMore(m: int, n: int)
    ensures m * (n + 1) == m * n + m
  {
  }

  lemma SweepCapacity(s: State)
    requires Ownership(s) && Capacity(s) && Enabled(s, Sweep)
    ensures Capacity(Apply(s, Sweep))
  {
    SweepConserves(s.cfg, s.now, s.core.idle, 0);
    var r := Apply(s, Sweep);
    assert |r.core.idle| + ReaperHolds(r.reaper) == |s.core.idle|;
    assert r.cfg.maxSize * r.sweeps == s.cfg.maxSize * s.sweeps + s.cfg.maxSize by {
      OneMore(s.cfg.maxSize, s.sweeps);
    }
  }

  lemma StepCapacity(s: State, e: Event)
    requires Ownership(s) && Capacity(s) && Ages(s) && Enabled(s, e)
    ensures Capacity(Apply(s, e))
  {
    if e.Sweep? {
      SweepCapacity(s);
    } else if e.DialFail? || e.FinishRelease? {
      CountAt(IsCounted, s.clients, e.t);
    }
  }

  lemma StepWakeUps(s: State, e: Event)
    requires Ownership(s) && WakeUps(s) && Enabled(s, e)
    ensures WakeUps(Apply(s, e))
  {
    if e.DialFail? {
      WakeMoves(s.clients, e.t, Away, e.wake);
    } else if e.FinishRelease? {
      var me := s.clients[e.t];
      WakeMoves(s.clients, e.t, if me.closeIt then Closing(me.conn) else Away, e.wake);
    } else if OneClient(e) || e.Pass? {
      ClientMoves(s.clients, e.t, Apply(s, e).clients[e.t]);
    }
  }

  // ---------------------------------------------------------------- the sweep is a prefix cut

  function Min(a: int, b: int): int { if a < b then a else b }

  predicate TooOld(cfg: Config, now: int, slot: Slot) {
    now - slot.lastUsed > Min(cfg.idleTimeout, cfg.maxLifetime)
  }

  /** The sweep takes out exactly the first `cut` slots. */
  predicate CutsAt(cfg: Config, now: int, idle: seq<Slot>, cut: nat) {
    cut <= |idle| && Culled(cfg, now, idle) == idle[..cut] && Kept(cfg, now, idle) == idle[cut..]
  }

  /** The first `cut` slots are exactly those that are too old. */
  predicate OldBefore(cfg: Config, now: int, idle: seq<Slot>, cut: nat) {
    cut <= |idle| && forall i :: 0 <= i < |idle| ==> (i < cut <==> TooOld(cfg, now, idle[i]))
  }

  lemma CutSnoc(cfg: Config, now: int, front: seq<Slot>, last: Slot, cut: nat)
    requires CutsAt(cfg, now, front, cut) && (Expired(cfg, now, last) ==> cut == |front|)
    ensures CutsAt(cfg, now, front + [last], if Expired(cfg, now, last) then cut + 1 else cut)
  {
    var idle := front + [last];
    assert idle[..|idle| - 1] == front;
    if Expired(cfg, now, last) {
      assert idle[..cut + 1] == idle && front[..cut] == front;
    } else {
      assert idle[..cut] == front[..cut] && idle[cut..] == front[cut..] + [last];
    }
  }

  lemma OldSnoc(cfg: Config, now: int, front: seq<Slot>, last: Slot, cut: nat)
    requires Aged(front + [last], now) && OldBefore(cfg, now, front, cut)
    ensures Expired(cfg, now, last) ==> cut == |front|
    ensures OldBefore(cfg, now, front + [last], if Expired(cfg, now, last) then cut + 1 else cut)
  {
    var idle := front + [last];
    assert idle[|front|] == last;
    if Expired(cfg, now, last) && front != [] {
      assert idle[|front| - 1] == front[|front| - 1];
      assert TooOld(cfg, now, front[|front| - 1]);
    }
  }

  /** On an idle list ordered by age a sweep removes exactly the prefix that has been idle longer
      than the smaller of the two timeouts, and keeps the rest in order. */
  lemma {:induction false} SweepIsPrefixCut(cfg: Config, now: int, idle: seq<Slot>) returns (cut: nat)
    requires Aged(idle, now)
    ensures CutsAt(cfg, now, idle, cut) && OldBefore(cfg, now, idle, cut)
  {
    if idle == [] {
      cut := 0;
    } else {
      var front, last := idle[..|idle| - 1], idle[|idle| - 1];
      assert idle == front + [last];
      cut := SweepIsPrefixCut(cfg, now, front);
      OldSnoc(cfg, now, front, last, cut);
      CutSnoc(cfg, now, front, last, cut);
      cut := if Expired(cfg, now, last) then cut + 1 else cut;
    }
  }

  /** With the check on and a negative limit nothing survives a sweep. */
  lemma {:induction false} AllExpire(cfg: Config, now: int, idle: seq<Slot>)
    requires Aged(idle, now) && cfg.healthCheck && !Pings(cfg)
    ensures Kept(cfg, now, idle) == [] && Culled(cfg, now, idle) == idle
  {
    if idle != [] {
      AllExpire(cfg, now, idle[..|idle| - 1]);
      assert idle[..|idle| - 1] + [idle[|idle| - 1]] == idle;
    }
  }

  lemma SweepAges(s: State)
    requires Ages(s) && Enabled(s, Sweep)
    ensures Ages(Apply(s, Sweep))
  {
    if !s.cfg.healthCheck {
      var cut := SweepIsPrefixCut(s.cfg, s.now, s.core.idle);
    } else if !Pings(s.cfg) {
      AllExpire(s.cfg, s.now, s.core.idle);
    }
  }

  lemma StepAges(s: State, e: Event)
    requires Ages(s) && Enabled(s, e)
    ensures Ages(Apply(s, e))
  {
    if e.Sweep? {
      SweepAges(s);
    }
  }

  // ---------------------------------------------------------------- every run

  lemma InitInv(opts: Config, threads: nat)
    ensures Inv(Init(opts, threads))
  {
    var s := Init(opts, threads);
    CountBounds(IsCounted, s.clients);
    CountBounds(IsAsleep, s.clients);
    forall c: nat ensures Places(s, c) == 0 {
      TallyZero(Carries, s.clients, c);
    }
  }

  lemma StepInv(s: State, e: Event)
    requires Inv(s) && Enabled(s, e)
    ensures Inv(Apply(s, e))
  {
    StepOwnership(s, e);
    StepCapacity(s, e);
    StepWakeUps(s, e);
    StepAges(s, e);
  }

  lemma {:induction false} RunInv(s: State, es: seq<Event>)
    requires Inv(s) && Valid(s, es)
    ensures Inv(Final(s, es))
    decreases |es|
  {
    if es != [] {
      StepInv(s, es[0]);
      RunInv(Apply(s, es[0]), es[1..]);
    }
  }
}

/** What holds of every run of the connection pool, and exactly when. */
module BackendPoolTheorems {
  import opened Counting
  import opened BackendPool
  import opened BackendPoolInvariants

  ghost predicate Reaches(s: State, r: State) {
    exists es :: Valid(s, es) && Final(s, es) == r
  }

  lemma {:induction false} ValidSnoc(s: State, es: seq<Event>, e: Event)
    requires Valid(s, es) && Enabled(Final(s, es), e)
    ensures Valid(s, es + [e]) && Final(s, es + [e]) == Apply(Final(s, es), e)
    decreases |es|
  {
    if es == [] {
      assert [e][1..] == [];
    } else {
      assert (es + [e])[1..] == es[1..] + [e];
      ValidSnoc(Apply(s, es[0]), es[1..], e);
    }
  }

  lemma Start(s: State)
    ensures Reaches(s, s)
  {
    assert Valid(s, []) && Final(s, []) == s;
  }

  lemma Then(s: State, r: State, e: Event) returns (r': State)
    requires Reaches(s, r) && Enabled(r, e)
    ensures r' == Apply(r, e) && Reaches(s, r')
  {
    var es :| Valid(s, es) && Final(s, es) == r;
    ValidSnoc(s, es, e);
    r' := Apply(r, e);
  }

  // Three short stretches of a run, from which the example runs below are put together.

  /** A thread finds nothing idle but room to dial, and dials. */
  lemma DialIn(s: State, r: State, t: nat) returns (r': State)
    requires Reaches(s, r) && t < |r.clients| && r.clients[t].Away?
    requires !r.core.down && r.core.idle == [] && r.core.inUse < r.cfg.maxSize
    ensures Reaches(s, r')
    ensures r' == r.(core := r.core.(inUse := r.core.inUse + 1), clients := r.clients[t := Holding(r.dialled)],
                     dialled := r.dialled + 1, borrows := r.borrows + 1)
  {
    r' := Then(s, r, Enter(t));
    r' := Then(s, r', Pass(t));
    r' := Then(s, r', DialOk(t));
    assert r'.clients == r.clients[t := Holding(r.dialled)];
  }

  /** A thread finds the pool full and goes to sleep. */
  lemma LineUp(s: State, r: State, t: nat) returns (r': State)
    requires Reaches(s, r) && t < |r.clients| && r.clients[t].Away?
    requires !r.core.down && r.core.idle == [] && r.core.inUse >= r.cfg.maxSize
    ensures Reaches(s, r') && r' == r.(clients := r.clients[t := Asleep])
  {
    r' := Then(s, r, Enter(t));
    r' := Then(s, r', Pass(t));
    assert r'.clients == r.clients[t := Asleep];
  }

  /** A holder returns a healthy connection before shutdown, waking `wake` if anyone sleeps. */
  lemma PutBack(s: State, r: State, t: nat, wake: nat) returns (r': State)
    requires Reaches(s, r) && t < |r.clients| && r.clients[t].Holding? && !r.core.down && r.core.inUse > 0
    requires Picks(r.clients, wake)
    ensures Reaches(s, r')
    ensures r' == r.(core := r.core.(inUse := r.core.inUse - 1, idle := r.core.idle + [Slot(r.clients[t].conn, r.now, r.now)]),
                     clients := Wake(r.clients[t := Away], wake))
  {
    var c := r.clients[t].conn;
    ClientMoves(r.clients, t, Releasing(c, false));
    r' := Then(s, r, StartRelease(t, true));
    r' := Then(s, r', FinishRelease(t, wake));
    assert r.clients[t := Releasing(c, false)][t := Away] == r.clients[t := Away];
  }

  lemma ReachInv(opts: Config, threads: nat, s: State)
    requires Reaches(Init(opts, threads), s)
    ensures Inv(s)
  {
    var es :| Valid(Init(opts, threads), es) && Final(Init(opts, threads), es) == s;
    InitInv(opts, threads);
    RunInv(Init(opts, threads), es);
  }

  // ---------------------------------------------------------------- ownership

  /** Each connection ever dialled is in exactly one place, so it is closed at most once, and
      nobody else has it once it is closed; in_use is exact, so neither decrement can underflow. */
  lemma ExclusiveOwnership(opts: Config, threads: nat, s: State)
    requires Reaches(Init(opts, threads), s)
    ensures forall c: nat :: Places(s, c) == if c < s.dialled then 1 else 0
    ensures forall c: nat :: Tally(IsId, s.closed, c) <= 1
    ensures forall c: nat :: c in s.closed ==> Tally(InSlot, s.core.idle, c) == 0 && Tally(Carries, s.clients, c) == 0
    ensures s.core.inUse == Count(IsCounted, s.clients)
    ensures forall t :: 0 <= t < |s.clients| && (s.clients[t].Releasing? || s.clients[t].Dialing?) ==> s.core.inUse > 0
  {
    ReachInv(opts, threads, s);
    forall c: nat
      ensures Tally(IsId, s.closed, c) <= 1
      ensures c in s.closed ==> Tally(InSlot, s.core.idle, c) == 0 && Tally(Carries, s.clients, c) == 0
    {
      assert Places(s, c) <= 1;
      TallyZero(IsId, s.closed, c);
    }
    CountBounds(IsCounted, s.clients);
  }

  // ---------------------------------------------------------------- capacity

  /** Where nothing is ever pinged `max_size` bounds idle plus in use.  In any case the bound grows by
      `max_size` with every sweep begun. */
  lemma CapacityBound(opts: Config, threads: nat, s: State)
    requires Reaches(Init(opts, threads), s)
    ensures !Pings(s.cfg) ==> |s.core.idle| + s.core.inUse <= s.cfg.maxSize
    ensures |s.core.idle| + s.core.inUse + ReaperHolds(s.reaper) <= s.cfg.maxSize * (1 + s.sweeps)
  {
    ReachInv(opts, threads, s);
    OneMore(s.cfg.maxSize, s.sweeps);
  }

  lemma {:induction false} NothingExpires(cfg: Config, now: int, idle: seq<Slot>)
    requires forall i :: 0 <= i < |idle| ==> !Expired(cfg, now, idle[i])
    ensures Kept(cfg, now, idle) == idle && Culled(cfg, now, idle) == []
  {
    if idle != [] {
      NothingExpires(cfg, now, idle[..|idle| - 1]);
    }
  }

  lemma {:induction false} PingAll(s: State, r: State) returns (r': State)
    requires Reaches(s, r) && r.reaper.Busy? && r.reaper.victims == []
    ensures Reaches(s, r') && r'.reaper.Busy? && r' == r.(reaper := r'.reaper)
    ensures r'.reaper.victims == [] && r'.reaper.toCheck == [] && r'.reaper.dead == r.reaper.dead
    ensures |r'.reaper.survivors| == |r.reaper.survivors| + |r.reaper.toCheck|
    ensures r.reaper.survivors <= r'.reaper.survivors
    ensures forall i :: |r.reaper.survivors| <= i < |r'.reaper.survivors| ==>
      r'.reaper.survivors[i] == r.reaper.toCheck[i - |r.reaper.survivors|].(lastUsed := r.now)
    decreases |r.reaper.toCheck|
  {
    if r.reaper.toCheck == [] {
      r' := r;
    } else {
      var q := Then(s, r, Ping(true));
      r' := PingAll(s, q);
    }
  }

  ghost predicate Monotone(clock: nat -> int) {
    forall m: nat, n: nat :: m < n ==> clock(m) <= clock(n)
  }

  /** How far the clock moves before ping number `k`. */
  function Pause(clock: nat -> int, now: int, k: nat): nat
    requires Monotone(clock) && now <= clock(0)
  {
    if k == 0 then clock(0) - now else clock(k) - clock(k - 1)
  }

  /** The first `k` turns of the reaper's ping loop as pool events: the clock moves, the connection answers or not. */
  function PingRun(toCheck: seq<Slot>, alive: nat -> bool, clock: nat -> int, now: int, k: nat): seq<Event>
    requires k <= |toCheck| && Monotone(clock) && now <= clock(0)
  {
    if k == 0 then []
    else PingRun(toCheck, alive, clock, now, k - 1) + [Tick(Pause(clock, now, k - 1)), Ping(alive(toCheck[k - 1].conn))]
  }

  lemma {:induction false} PingRunAsks(toCheck: seq<Slot>, alive: nat -> bool, clock: nat -> int, now: int, k: nat)
    requires k <= |toCheck| && Monotone(clock) && now <= clock(0)
    ensures var es := PingRun(toCheck, alive, clock, now, k);
            |es| == 2 * k && forall i :: 0 <= i < k ==> es[2 * i].Tick? && es[2 * i + 1] == Ping(alive(toCheck[i].conn))
  {
    if k > 0 {
      PingRunAsks(toCheck, alive, clock, now, k - 1);
    }
  }

  /** The state after those turns. */
  function Pinged(r: State, alive: nat -> bool, clock: nat -> int, k: nat): State
    requires r.reaper.Busy? && k <= |r.reaper.toCheck|
  {
    r.(now := if k == 0 then r.now else clock(k - 1),
       reaper := Busy([], r.reaper.toCheck[k..], r.reaper.survivors + Alive(r.reaper.toCheck[..k], alive, clock),
                      r.reaper.dead + Dead(r.reaper.toCheck[..k], alive)))
  }

  lemma OnePingMore(r: State, alive: nat -> bool, clock: nat -> int, k: nat)
    requires r.reaper.Busy? && r.reaper.victims == [] && k < |r.reaper.toCheck| && Monotone(clock) && r.now <= clock(0)
    ensures var q, e := Pinged(r, alive, clock, k), Tick(Pause(clock, r.now, k));
            && Enabled(Apply(q, e), Ping(alive(r.reaper.toCheck[k].conn)))
            && Apply(Apply(q, e), Ping(alive(r.reaper.toCheck[k].conn))) == Pinged(r, alive, clock, k + 1)
  {
    var all := r.reaper.toCheck;
    assert all[..k + 1][..k] == all[..k] && all[k..][1..] == all[k + 1..] && all[k..][0] == all[k];
    var up, down := Alive(all[..k], alive, clock), Dead(all[..k], alive);
    if alive(all[k].conn) {
      var x := all[k].(lastUsed := clock(k));
      assert (r.reaper.survivors + up) + [x] == r.reaper.survivors + (up + [x]) && down + [] == down;
    } else {
      assert (r.reaper.dead + down) + [all[k]] == r.reaper.dead + (down + [all[k]]) && up + [] == up;
    }
  }

  /** The reaper's loop over the connections it took out is that run of pings: asked about connection k the k-th ping
      answers what that connection answers, and the run ends with the survivors and the dead the loop computes. */
  lemma {:induction false} CheckIsPings(r: State, alive: nat -> bool, clock: nat -> int, k: nat)
    requires r.reaper.Busy? && r.reaper.victims == [] && k <= |r.reaper.toCheck| && Monotone(clock) && r.now <= clock(0)
    ensures var es := PingRun(r.reaper.toCheck, alive, clock, r.now, k); Valid(r, es) && Final(r, es) == Pinged(r, alive, clock, k)
  {
    if k == 0 {
      NoPings(r, alive, clock);
    } else {
      CheckIsPings(r, alive, clock, k - 1);
      OnePingMore(r, alive, clock, k - 1);
      TwoMore(r, PingRun(r.reaper.toCheck, alive, clock, r.now, k - 1), Tick(Pause(clock, r.now, k - 1)),
              Ping(alive(r.reaper.toCheck[k - 1].conn)));
    }
  }

  lemma NoPings(r: State, alive: nat -> bool, clock: nat -> int)
    requires r.reaper.Busy? && r.reaper.victims == []
    ensures Pinged(r, alive, clock, 0) == r
  {
    assert r.reaper.toCheck[0..] == r.reaper.toCheck;
    assert r.reaper.survivors + [] == r.reaper.survivors && r.reaper.dead + [] == r.reaper.dead;
  }

  lemma TwoMore(r: State, es: seq<Event>, a: Event, b: Event)
    requires Valid(r, es) && Enabled(Final(r, es), a) && Enabled(Apply(Final(r, es), a), b)
    ensures Valid(r, es + [a, b]) && Final(r, es + [a, b]) == Apply(Apply(Final(r, es), a), b)
  {
    ValidSnoc(r, es, a);
    ValidSnoc(r, es + [a], b);
    assert es + [a, b] == es + [a] + [b];
  }

  // ---------------------------------------------------------------- all borrowers at once

  predicate Rests(cs: seq<Client>, lo: nat, hi: nat)
    requires hi <= |cs|
  {
    forall t :: lo <= t < hi ==> cs[t].Away?
  }

  predicate Holds(cs: seq<Client>, n: nat)
    requires n <= |cs|
  {
    forall t :: 0 <= t < n ==> cs[t].Holding?
  }

  /** Threads `n` and on dial in, one after the other, until `max_size` connections are in use. */
  lemma {:induction false} AllDialIn(s: State, r: State, n: nat) returns (r': State)
    requires Reaches(s, r) && !r.core.down && r.core.idle == [] && r.core.inUse == n <= r.cfg.maxSize <= |r.clients|
    requires Holds(r.clients, n) && Rests(r.clients, n, |r.clients|)
    ensures Reaches(s, r') && |r'.clients| == |r.clients| && Holds(r'.clients, r.cfg.maxSize)
    ensures Rests(r'.clients, r.cfg.maxSize, |r.clients|)
    ensures r' == r.(core := Core([], r.cfg.maxSize, false), clients := r'.clients, dialled := r'.dialled, borrows := r'.borrows)
    decreases r.cfg.maxSize - n
  {
    if n == r.cfg.maxSize {
      r' := r;
    } else {
      r' := DialIn(s, r, n);
      r' := AllDialIn(s, r', n + 1);
    }
  }

  /** All these connections were last used this instant. */
  predicate Fresh(idle: seq<Slot>, now: int) {
    forall i :: 0 <= i < |idle| ==> idle[i].created == idle[i].lastUsed == now
  }

  /** The first `n` threads put their connections back, with nobody waiting. */
  lemma {:induction false} AllPutBack(s: State, r: State, n: nat) returns (r': State)
    requires Reaches(s, r) && !r.core.down && r.core.inUse == n <= |r.clients|
    requires Holds(r.clients, n) && Rests(r.clients, n, |r.clients|) && Fresh(r.core.idle, r.now)
    ensures Reaches(s, r') && |r'.clients| == |r.clients| && Rests(r'.clients, 0, |r.clients|)
    ensures |r'.core.idle| == |r.core.idle| + n && Fresh(r'.core.idle, r.now)
    ensures r' == r.(core := Core(r'.core.idle, 0, false), clients := r'.clients)
    decreases n
  {
    if n == 0 {
      r' := r;
    } else {
      CountBounds(IsAsleep, r.clients);
      r' := PutBack(s, r, n - 1, 0);
      r' := AllPutBack(s, r', n - 1);
    }
  }

  /** Nobody inside, nothing in use, and `n` connections idle that have just been used. */
  ghost predicate Stocked(s: State, n: nat) {
    && 1 <= s.cfg.maxSize <= |s.clients| && Rests(s.clients, 0, |s.clients|) && s.reaper.Resting?
    && s.core == Core(s.core.idle, 0, false) && |s.core.idle| == n && Fresh(s.core.idle, s.now)
  }

  lemma Restock(s: State, r: State) returns (r': State)
    requires Reaches(s, r) && !r.core.down && r.core.idle == [] && r.core.inUse == 0 && r.cfg.maxSize <= |r.clients|
    requires Rests(r.clients, 0, |r.clients|)
    ensures Reaches(s, r') && |r'.clients| == |r.clients| && Rests(r'.clients, 0, |r.clients|)
    ensures |r'.core.idle| == r.cfg.maxSize && Fresh(r'.core.idle, r.now)
    ensures r' == r.(core := Core(r'.core.idle, 0, false), clients := r'.clients, dialled := r'.dialled, borrows := r'.borrows)
  {
    r' := AllDialIn(s, r, 0);
    r' := AllPutBack(s, r', r.cfg.maxSize);
  }

  /** A round of borrows and releases while the reaper holds the idle list adds `max_size` connections. */
  lemma OneSweepMore(s: State, r: State, n: nat) returns (r': State)
    requires Reaches(s, r) && Stocked(r, n) && Pings(r.cfg)
    ensures Reaches(s, r') && Stocked(r', n + r.cfg.maxSize) && r'.sweeps == r.sweeps + 1 && r'.cfg == r.cfg
  {
    NothingExpires(r.cfg, r.now, r.core.idle);
    r' := Then(s, r, Sweep);
    r' := Restock(s, r');
    r' := PingAll(s, r');
    r' := Then(s, r', GiveBack);
  }

  /** What the constructor makes of a configured size. */
  function Size(opts: Config): nat { if opts.maxSize == 0 then 1 else opts.maxSize }

  lemma FirstStock(opts: Config, threads: nat) returns (r: State)
    requires Size(opts) <= threads
    ensures Reaches(Init(opts, threads), r) && Stocked(r, Size(opts)) && |r.clients| == threads
    ensures r.cfg == opts.(maxSize := Size(opts)) && r.sweeps == 0 && r.closed == [] && r.lost == 0
  {
    Start(Init(opts, threads));
    r := Restock(Init(opts, threads), Init(opts, threads));
  }

  /** The bound is attained after any number of sweeps, for every size: where connections are pinged, the
      documented "hard upper bound" `max_size` is no bound at all. */
  lemma {:induction false} CapacityBoundAttained(opts: Config, n: nat) returns (r: State)
    requires Pings(opts)
    ensures Reaches(Init(opts, Size(opts)), r) && r.sweeps == n && Stocked(r, Size(opts) * (1 + n))
    ensures r.cfg == opts.(maxSize := Size(opts))
  {
    if n == 0 {
      r := FirstStock(opts, Size(opts));
    } else {
      r := CapacityBoundAttained(opts, n - 1);
      OneMore(Size(opts), n);
      r := OneSweepMore(Init(opts, Size(opts)), r, Size(opts) * n);
    }
  }

  lemma {:induction false} RunKeepsConfig(s: State, es: seq<Event>)
    requires Valid(s, es)
    ensures Final(s, es).cfg == s.cfg
    decreases |es|
  {
    if es != [] {
      RunKeepsConfig(Apply(s, es[0]), es[1..]);
    }
  }

  lemma ReachConfig(opts: Config, threads: nat, s: State)
    requires Reaches(Init(opts, threads), s)
    ensures s.cfg == opts.(maxSize := Size(opts))
  {
    var es :| Valid(Init(opts, threads), es) && Final(Init(opts, threads), es) == s;
    RunKeepsConfig(Init(opts, threads), es);
  }

  /** Exactly when `max_size` is the hard upper bound it is documented to be: when nothing is ever pinged. */
  lemma CapacityIff(opts: Config)
    ensures (forall threads, s :: Reaches(Init(opts, threads), s) ==> |s.core.idle| + s.core.inUse <= Size(opts)) <==> !Pings(opts)
  {
    if Pings(opts) {
      var r := CapacityBoundAttained(opts, 1);
      assert |r.core.idle| + r.core.inUse > Size(opts);
    } else {
      forall threads, s | Reaches(Init(opts, threads), s) ensures |s.core.idle| + s.core.inUse <= Size(opts) {
        CapacityBound(opts, threads, s);
        ReachConfig(opts, threads, s);
      }
    }
  }

  // ---------------------------------------------------------------- wake-ups

  /** A borrow attempted now would not have to wait. */
  predicate SlotFree(s: State) {
    !BorrowSection(s.cfg, s.core).1.Full?
  }

  /** Before shutdown a sleeping waiter implies that the notified ones, together with the notifications
      lost to late timeouts, cover every slot not in use.  Where nothing is pinged and none is
      lost, a free slot beside a sleeping borrower therefore has a notified borrower coming for it. */
  lemma NoLostWakeUp(opts: Config, threads: nat, s: State)
    requires Reaches(Init(opts, threads), s)
    requires !s.core.down && Count(IsAsleep, s.clients) > 0
    ensures Count(IsNotified, s.clients) + s.lost >= s.cfg.maxSize - s.core.inUse
    ensures !Pings(s.cfg) && s.lost == 0 && SlotFree(s)
            ==> exists t :: 0 <= t < |s.clients| && s.clients[t].Notified?
  {
    ReachInv(opts, threads, s);
    if !Pings(s.cfg) && s.lost == 0 && SlotFree(s) {
      var t := Witness(IsNotified, s.clients);
    }
  }

  /** A free slot with a borrower asleep and nobody on the way to take it. */
  ghost predicate Stranded(s: State) {
    && !s.core.down && SlotFree(s)
    && (exists t :: 0 <= t < |s.clients| && s.clients[t].Asleep?)
    && (forall t :: 0 <= t < |s.clients| ==> !s.clients[t].Notified? && !s.clients[t].Trying?)
  }

  /** Where connections are pinged a waiter can be stranded, whatever the size: survivors are given back
      without a notify. */
  lemma StrandedByHealthCheck(opts: Config) returns (r: State)
    requires Pings(opts)
    ensures Reaches(Init(opts, Size(opts) + 1), r) && r.lost == 0 && Stranded(r)
  {
    var m := Size(opts);
    var s := Init(opts, m + 1);
    r := FirstStock(opts, m + 1);
    NothingExpires(r.cfg, r.now, r.core.idle);
    r := Then(s, r, Sweep);
    r := AllDialIn(s, r, 0);
    r := LineUp(s, r, m);
    r := PingAll(s, r);
    r := Then(s, r, GiveBack);
    assert r.clients[m].Asleep?;
  }

  /** A waiter can also be stranded when a notified waiter's deadline has passed, whatever the configuration. */
  lemma StrandedByLateTimeOut(opts: Config) returns (r: State)
    ensures Reaches(Init(opts, Size(opts) + 2), r) && r.lost == 1 && Stranded(r)
  {
    var m := Size(opts);
    var s := Init(opts, m + 2);
    Start(s);
    r := AllDialIn(s, s, 0);
    r := LineUp(s, r, m);
    r := LineUp(s, r, m + 1);
    r := PutBack(s, r, 0, m);
    r := Then(s, r, LateTimeOut(m));
    assert r.clients[m + 1].Asleep?;
  }

  /** Exactly when no borrower is ever left asleep beside a free slot, notifications lost to late timeouts
      aside: when nothing is ever pinged. */
  lemma NoneStrandedIff(opts: Config)
    ensures (forall threads, s :: Reaches(Init(opts, threads), s) && s.lost == 0 ==> !Stranded(s)) <==> !Pings(opts)
  {
    if Pings(opts) {
      var r := StrandedByHealthCheck(opts);
    } else {
      forall threads, s | Reaches(Init(opts, threads), s) && s.lost == 0 ensures !Stranded(s) {
        ReachConfig(opts, threads, s);
        CountBounds(IsAsleep, s.clients);
        if !s.core.down && Count(IsAsleep, s.clients) > 0 {
          NoLostWakeUp(opts, threads, s);
        }
      }
    }
  }

  /** A step of borrowing thread `t` itself. */
  predicate ClientOf(e: Event, t: nat) {
    || ((e.Pass? || e.TimeOut? || e.LateTimeOut? || e.DialOk? || e.CloseConn?) && e.t == t)
    || ((e.DialFail? || e.FinishRelease?) && e.t == t)
  }

  /** How many steps of its own a thread inside `borrow` or `release` has left at most. */
  function StepsLeft(c: Client): nat {
    if c.Trying? || c.Notified? then 3 else if c.Asleep? || c.Dialing? || c.Releasing? then 2 else if c.Holding? || c.Closing? then 1 else 0
  }

  lemma ClientStepLowers(s: State, e: Event, t: nat)
    requires Enabled(s, e) && ClientOf(e, t)
    ensures t < |s.clients| == |Apply(s, e).clients| && StepsLeft(Apply(s, e).clients[t]) < StepsLeft(s.clients[t])
  {
  }

  /** Whatever the others do, a thread inside `borrow` or `release` can always go on: a sleeper can time out. */
  lemma ClientCanStep(s: State, t: nat) returns (e: Event)
    requires t < |s.clients| && !s.clients[t].Away? && !s.clients[t].Holding?
    ensures Enabled(s, e) && ClientOf(e, t)
  {
    var wake: nat := 0;
    if Count(IsAsleep, s.clients) > 0 {
      wake := Witness(IsAsleep, s.clients);
    }
    var c := s.clients[t];
    if c.Trying? || c.Notified? {
      e := Pass(t);
    } else if c.Asleep? {
      e := TimeOut(t);
    } else if c.Dialing? {
      e := DialFail(t, wake);
    } else if c.Releasing? {
      e := FinishRelease(t, wake);
    } else {
      e := CloseConn(t);
    }
  }

  // ---------------------------------------------------------------- what a pass through borrow does

  /** A shut pool lends nothing; one with idle connections lends the first of them; one without dials while fewer than
      `max_size` are in use; else the caller has to wait. */
  lemma BorrowDecides(cfg: Config, c: Core)
    ensures var (c', r) := BorrowSection(cfg, c);
            && (r.Abort? <==> c.down)
            && (r.Reuse? <==> !c.down && c.idle != [])
            && (r.Dial? <==> !c.down && c.idle == [] && c.inUse < cfg.maxSize)
            && (r.Full? <==> !c.down && c.idle == [] && c.inUse >= cfg.maxSize)
            && (r.Reuse? ==> r.conn == c.idle[0].conn && [c.idle[0]] + c'.idle == c.idle)
            && (!r.Reuse? ==> c'.idle == c.idle)
            && c'.inUse == c.inUse + (if r.Reuse? || r.Dial? then 1 else 0) && c'.down == c.down
  {
  }

  predicate IsDialing(c: Client) { c.Dialing? }

  lemma StepAfterShutdown(s: State, e: Event)
    requires s.core.down && Enabled(s, e)
    ensures var r := Apply(s, e); r.core.down && r.borrows + Count(IsDialing, r.clients) <= s.borrows + Count(IsDialing, s.clients)
  {
    var r := Apply(s, e);
    if e.DialFail? || e.FinishRelease? {
      var x := if e.FinishRelease? && s.clients[e.t].closeIt then Closing(s.clients[e.t].conn) else Away;
      CountUpdate(IsDialing, s.clients, e.t, x);
      if e.wake < |s.clients| && s.clients[e.t := x][e.wake].Asleep? {
        CountUpdate(IsDialing, s.clients[e.t := x], e.wake, Notified);
      }
    } else if OneClient(e) || e.Pass? {
      CountUpdate(IsDialing, s.clients, e.t, r.clients[e.t]);
    } else if e.TellAll? {
      CountImplies(IsDialing, r.clients, IsDialing, s.clients);
    }
  }

  /** A pool that is shut lends nothing more, but for the dials already under way. */
  lemma {:induction false} NothingLentAfterShutdown(s: State, es: seq<Event>)
    requires s.core.down && Valid(s, es)
    ensures var r := Final(s, es); r.core.down && r.borrows + Count(IsDialing, r.clients) <= s.borrows + Count(IsDialing, s.clients)
    decreases |es|
  {
    if es != [] {
      StepAfterShutdown(s, es[0]);
      NothingLentAfterShutdown(Apply(s, es[0]), es[1..]);
    }
  }

  /** The notify_all of `shutdown` wakes every sleeper, and after it nobody ever waits in the pool again. */
  lemma ShutdownWakesAll(s: State)
    requires s.core.down
    ensures Count(IsAsleep, Apply(s, TellAll).clients) == 0 && Apply(s, TellAll).core.down
  {
    CountBounds(IsAsleep, Apply(s, TellAll).clients);
  }

  lemma {:induction false} NobodyWaitsAfterShutdown(s: State, es: seq<Event>)
    requires s.core.down && Count(IsAsleep, s.clients) == 0 && Valid(s, es)
    ensures Count(IsAsleep, Final(s, es).clients) == 0 && Final(s, es).core.down
    decreases |es|
  {
    if es != [] {
      CountBounds(IsAsleep, s.clients);
      CountBounds(IsAsleep, Apply(s, es[0]).clients);
      NobodyWaitsAfterShutdown(Apply(s, es[0]), es[1..]);
    }
  }

  /** A released connection goes to the tail of the idle list, stamped with the time, exactly if it is healthy and the pool
      was not seen shut; otherwise its holder goes on to close it. */
  lemma ReleaseDecides(s: State, t: nat, ok: bool, wake: nat)
    requires Enabled(s, StartRelease(t, ok)) && Enabled(Apply(s, StartRelease(t, ok)), FinishRelease(t, wake))
    ensures var c, r := s.clients[t].conn, Apply(Apply(s, StartRelease(t, ok)), FinishRelease(t, wake));
            if ok && !s.core.down then r.core.idle == s.core.idle + [Slot(c, s.now, s.now)] && r.clients[t] == Away
            else r.core.idle == s.core.idle && r.clients[t] == Closing(c) && Apply(r, CloseConn(t)).closed == s.closed + [c]
  {
  }

  // ---------------------------------------------------------------- the idle list is a queue

  ghost predicate InOrder(sub: seq<Slot>, all: seq<Slot>) {
    exists ps: seq<nat> :: Increasing(ps) && StandsAt(sub, all, ps)
  }

  lemma SliceInOrder(all: seq<Slot>, k: nat)
    requires k <= |all|
    ensures InOrder(all[k..], all) && InOrder([], all)
  {
    var ps: seq<nat> := seq(|all| - k, i => i + k);
    assert Increasing(ps) && StandsAt(all[k..], all, ps);
    assert Increasing([]) && StandsAt<Slot>([], all, []);
  }

  lemma KeptInOrder(cfg: Config, now: int, idle: seq<Slot>)
    ensures InOrder(Kept(cfg, now, idle), idle)
  {
    SweepSplits(cfg, now, idle);
  }

  /** The new idle list is what is left of the old one, in order, and then what joined. */
  ghost predicate Queues(before: seq<Slot>, kept: seq<Slot>, joined: seq<Slot>, after: seq<Slot>) {
    InOrder(kept, before) && after == kept + joined
  }

  lemma PassIdle(s: State, t: nat)
    requires Enabled(s, Pass(t))
    ensures var r := Apply(s, Pass(t));
            && (r.core.idle == s.core.idle || (s.core.idle != [] && r.core.idle == s.core.idle[1..]))
            && (r.clients[t].Holding? ==> s.core.idle != [] && r.clients[t] == Holding(s.core.idle[0].conn) && r.core.idle == s.core.idle[1..])
  {
  }

  lemma TailQueues(idle: seq<Slot>)
    requires idle != []
    ensures Queues(idle, idle[1..], [], idle[1..])
  {
    SliceInOrder(idle, 1);
    assert idle[1..] + [] == idle[1..];
  }

  lemma StaysQueue(idle: seq<Slot>)
    ensures Queues(idle, idle, [], idle) && Queues(idle, [], [], [])
  {
    SliceInOrder(idle, 0);
    assert idle[0..] == idle && idle + [] == idle;
  }

  lemma JoinQueues(idle: seq<Slot>, joined: seq<Slot>)
    ensures Queues(idle, idle, joined, idle + joined)
  {
    StaysQueue(idle);
  }

  lemma SweepQueues(s: State)
    requires Enabled(s, Sweep)
    ensures Queues(s.core.idle, Apply(s, Sweep).core.idle, [], Apply(s, Sweep).core.idle)
  {
    StaysQueue(s.core.idle);
    KeptInOrder(s.cfg, s.now, s.core.idle);
    assert Apply(s, Sweep).core.idle + [] == Apply(s, Sweep).core.idle;
  }

  /** Connections join the idle list at its tail only, by a release or from the reaper, and those in it keep their order,
      whether or not connections are pinged; a borrow takes the one at the head. */
  lemma IdleIsQueue(s: State, e: Event) returns (kept: seq<Slot>, joined: seq<Slot>)
    requires Enabled(s, e)
    ensures Queues(s.core.idle, kept, joined, Apply(s, e).core.idle)
    ensures joined != [] ==> (e.FinishRelease? && |joined| == 1 && joined[0].conn == s.clients[e.t].conn)
                             || (e.GiveBack? && joined == s.reaper.survivors)
    ensures var r := Apply(s, e);
            e.Pass? && r.clients[e.t].Holding? ==>
              s.core.idle != [] && r.clients[e.t] == Holding(s.core.idle[0].conn) && r.core.idle == s.core.idle[1..]
  {
    kept, joined := Apply(s, e).core.idle, [];
    StaysQueue(s.core.idle);
    if e.Pass? {
      PassIdle(s, e.t);
      if s.core.idle != [] { TailQueues(s.core.idle); }
    } else if e.Sweep? {
      SweepQueues(s);
    } else if e.GiveBack? {
      kept, joined := s.core.idle, s.reaper.survivors;
      JoinQueues(kept, joined);
    } else if e.FinishRelease? && !s.clients[e.t].closeIt {
      kept, joined := s.core.idle, [Slot(s.clients[e.t].conn, s.now, s.now)];
      JoinQueues(kept, joined);
    }
  }

  // ---------------------------------------------------------------- the sweep

  /** In every state, pinging or not, a sweep leaves in the idle list or takes out for pinging exactly the connections
      within both limits, measured from the last use and from the creation stamp, and takes out
      for closing exactly the others, each in order. */
  lemma SweepSparesTheYoung(s: State)
    requires Enabled(s, Sweep)
    ensures var r := Apply(s, Sweep);
            && Sifts(if s.cfg.healthCheck then r.reaper.toCheck else r.core.idle, s.core.idle,
                     (x: Slot) => s.now - x.lastUsed <= s.cfg.idleTimeout && s.now - x.created <= s.cfg.maxLifetime)
            && Sifts(r.reaper.victims, s.core.idle,
                     (x: Slot) => s.now - x.lastUsed > s.cfg.idleTimeout || s.now - x.created > s.cfg.maxLifetime)
            && (if s.cfg.healthCheck then r.core.idle == [] else r.reaper.toCheck == []) && r.now == s.now
  {
    SweepSplits(s.cfg, s.now, s.core.idle);
  }

  /** In every reachable state where nothing is pinged, a sweep takes exactly the prefix of the
      idle list that is too old and leaves the rest in order. */
  lemma SweepCutsPrefix(opts: Config, threads: nat, s: State) returns (cut: nat)
    requires Reaches(Init(opts, threads), s) && !Pings(s.cfg) && Enabled(s, Sweep)
    ensures cut <= |s.core.idle|
    ensures Apply(s, Sweep).reaper.victims == s.core.idle[..cut] && Apply(s, Sweep).core.idle == s.core.idle[cut..]
    ensures forall i :: 0 <= i < |s.core.idle| ==> (i < cut <==> TooOld(s.cfg, s.now, s.core.idle[i]))
  {
    ReachInv(opts, threads, s);
    cut := SweepIsPrefixCut(s.cfg, s.now, s.core.idle);
    if s.cfg.healthCheck {
      AllExpire(s.cfg, s.now, s.core.idle);
      assert Kept(s.cfg, s.now, s.core.idle) == s.core.idle[cut..];
    }
  }

  /** And a borrow reuses the connection that has been idle longest. */
  lemma ReusesOldest(opts: Config, threads: nat, s: State, t: nat)
    requires Reaches(Init(opts, threads), s) && !Pings(s.cfg) && !s.core.down && s.core.idle != [] && Enabled(s, Pass(t))
    ensures exists k :: 0 <= k < |s.core.idle| && Apply(s, Pass(t)).clients[t] == Holding(s.core.idle[k].conn)
                        && Apply(s, Pass(t)).core.idle == s.core.idle[..k] + s.core.idle[k + 1..]
                        && forall j :: 0 <= j < |s.core.idle| ==> s.core.idle[k].lastUsed <= s.core.idle[j].lastUsed
  {
    ReachInv(opts, threads, s);
    assert s.core.idle[..0] + s.core.idle[0 + 1..] == s.core.idle[1..];
  }

  // ---------------------------------------------------------------- shutdown

  /** Nothing can reach the idle list any more. */
  ghost predicate Settled(s: State) {
    s.core.down && s.core.idle == [] && Quiet(s)
  }

  /** No release has read the flag and is about to push, and the reaper has nothing to give back. */
  ghost predicate Quiet(s: State) {
    && (forall t :: 0 <= t < |s.clients| ==> !(s.clients[t].Releasing? && !s.clients[t].closeIt))
    && (s.reaper.Busy? ==> s.reaper.toCheck == [] && s.reaper.survivors == [])
  }

  lemma SettledStep(s: State, e: Event)
    requires Settled(s) && Enabled(s, e)
    ensures Settled(Apply(s, e))
  {
  }

  lemma {:induction false} SettledRun(s: State, es: seq<Event>)
    requires Settled(s) && Valid(s, es)
    ensures Settled(Final(s, es))
    decreases |es|
  {
    if es != [] {
      SettledStep(s, es[0]);
      SettledRun(Apply(s, es[0]), es[1..]);
    }
  }

  /** A busy reaper with anything alive can put it back, whatever the shutdown flag says. */
  lemma {:induction false} ReaperCanGiveBack(s: State, r: State) returns (r': State)
    requires Reaches(s, r) && r.reaper.Busy? && (r.reaper.toCheck != [] || r.reaper.survivors != [])
    ensures Reaches(s, r') && r'.core.idle != []
    decreases |r.reaper.victims| + |r.reaper.dead|
  {
    if r.reaper.victims != [] {
      var q := Then(s, r, Bury);
      r' := ReaperCanGiveBack(s, q);
    } else {
      var q := PingAll(s, r);
      if q.reaper.dead != [] {
        q := Then(s, q, Discard);
        r' := ReaperCanGiveBack(s, q);
      } else {
        r' := Then(s, q, GiveBack);
      }
    }
  }

  /** Exactly when `shutdown` leaves no idle connection behind for good: when, at the moment the flag is
      set, no release is past its check and the reaper has no connection out for pinging. */
  lemma ShutdownIsFinalIff(s: State)
    requires !s.core.down
    ensures Quiet(s) <==> forall r :: Reaches(Apply(s, Shutdown), r) ==> r.core.idle == []
  {
    var s' := Apply(s, Shutdown);
    if Quiet(s) {
      forall r | Reaches(s', r) ensures r.core.idle == [] {
        var es :| Valid(s', es) && Final(s', es) == r;
        SettledRun(s', es);
      }
    } else {
      Start(s');
      var r := Unsettled(s');
      assert Reaches(s', r) && r.core.idle != [];
    }
  }

  lemma Unsettled(s: State) returns (r: State)
    requires !Quiet(s)
    ensures Reaches(s, r) && r.core.idle != []
  {
    Start(s);
    if s.reaper.Busy? && (s.reaper.toCheck != [] || s.reaper.survivors != []) {
      r := ReaperCanGiveBack(s, s);
    } else {
      var t :| 0 <= t < |s.clients| && s.clients[t].Releasing? && !s.clients[t].closeIt;
      var wake: nat := 0;
      if Count(IsAsleep, s.clients) > 0 {
        wake := Witness(IsAsleep, s.clients);
      }
      r := Then(s, s, FinishRelease(t, wake));
    }
  }

  /** No leak: once shutdown is settled, every borrower has left and the reaper is gone,
      every connection ever dialled has been closed exactly once. */
  lemma NoLeak(opts: Config, threads: nat, s: State)
    requires Reaches(Init(opts, threads), s) && Settled(s) && s.reaper.Gone?
    requires forall t :: 0 <= t < |s.clients| ==> s.clients[t].Away?
    ensures forall c: nat :: Tally(IsId, s.closed, c) == if c < s.dialled then 1 else 0
  {
    ReachInv(opts, threads, s);
    forall c: nat ensures Tally(IsId, s.closed, c) == if c < s.dialled then 1 else 0 {
      TallyZero(Carries, s.clients, c);
      assert Places(s, c) == if c < s.dialled then 1 else 0;
    }
  }

  /** Where connections are pinged, shutting down after the last borrower has left is not enough, whatever the
      size: survivors are given back after the idle list was cleared, and nobody will ever close them. */
  lemma LeakWithHealthCheck(opts: Config) returns (s: State, r: State)
    requires Pings(opts)
    ensures Reaches(Init(opts, Size(opts)), s) && !s.core.down && Rests(s.clients, 0, |s.clients|)
    ensures Reaches(Apply(s, Shutdown), r) && r.reaper.Gone? && r.clients == s.clients
    ensures |r.core.idle| == Size(opts) && r.closed == []
  {
    var s0 := Init(opts, Size(opts));
    s := FirstStock(opts, Size(opts));
    NothingExpires(s.cfg, s.now, s.core.idle);
    s := Then(s0, s, Sweep);
    var s' := Apply(s, Shutdown);
    Start(s');
    r := PingAll(s', s');
    r := Then(s', r, GiveBack);
    r := Then(s', r, ReaperExit);
  }

  /** Exactly when shutting a pool with no borrower in it is final: when nothing is ever pinged. */
  lemma NoLeakIff(opts: Config)
    ensures (forall threads, s, r ::
               (Reaches(Init(opts, threads), s) && !s.core.down && Rests(s.clients, 0, |s.clients|) && Reaches(Apply(s, Shutdown), r))
               ==> r.core.idle == [])
            <==> !Pings(opts)
  {
    if Pings(opts) {
      var s, r := LeakWithHealthCheck(opts);
      assert Reaches(Init(opts, Size(opts)), s) && Reaches(Apply(s, Shutdown), r) && r.core.idle != [];
    } else {
      forall threads, s, r | Reaches(Init(opts, threads), s) && !s.core.down && Rests(s.clients, 0, |s.clients|)
                             && Reaches(Apply(s, Shutdown), r)
        ensures r.core.idle == []
      {
        ReachInv(opts, threads, s);
        ReachConfig(opts, threads, s);
        ShutdownIsFinalIff(s);
      }
    }
  }
}

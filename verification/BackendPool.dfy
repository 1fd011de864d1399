/** The connection allocator of src/backend_pool.cpp: `borrow`, `release`, `shutdown`
    and the reaper thread.

    `Core` is what the pool's mutex protects and every critical section is one function
    on it; the class `Pool` runs the same sections imperatively.  The state machine
    interleaves the sections over any number of borrowing threads and one reaper. */
module BackendPool {
  import opened Counting

  /** `maxSize` is at least one: the constructor raises zero to one.  Times are milliseconds. */
  datatype Config = Config(maxSize: nat, idleTimeout: int, maxLifetime: int, healthCheck: bool)

  datatype Slot = Slot(conn: nat, created: int, lastUsed: int)
  datatype Core = Core(idle: seq<Slot>, inUse: int, down: bool)

  datatype Attempt = Abort | Reuse(conn: nat) | Dial | Full

  /** One pass of the loop in `borrow`, with the lock held. */
  function BorrowSection(cfg: Config, c: Core): (Core, Attempt) {
    if c.down then (c, Abort)
    else if c.idle != [] then (c.(idle := c.idle[1..], inUse := c.inUse + 1), Reuse(c.idle[0].conn))
    else if c.inUse + |c.idle| < cfg.maxSize then (c.(inUse := c.inUse + 1), Dial)
    else (c, Full)
  }

  /** The locked part of `release`; `created` is reset along with `lastUsed`. */
  function ReleaseSection(c: Core, conn: nat, closeIt: bool, now: int): Core {
    var c' := if c.inUse > 0 then c.(inUse := c.inUse - 1) else c;
    if closeIt then c' else c'.(idle := c'.idle + [Slot(conn, now, now)])
  }

  /** The locked part of `shutdown`. */
  function ShutdownSection(c: Core): Core {
    if c.down then c else c.(down := true, idle := [])
  }

  /** The reaper's second locked part: the connections that answered go to the tail of whatever the idle
      list has become. */
  function GiveBackSection(c: Core, survivors: seq<Slot>): Core {
    c.(idle := c.idle + survivors)
  }

  predicate Expired(cfg: Config, now: int, slot: Slot) {
    now - slot.lastUsed > cfg.idleTimeout || now - slot.created > cfg.maxLifetime
  }

  /** Whether a sweep can set a connection aside for pinging: the check is on, and a connection used this
      very instant has not expired. */
  predicate Pings(cfg: Config) { cfg.healthCheck && cfg.idleTimeout >= 0 && cfg.maxLifetime >= 0 }

  /** What a sweep leaves in the idle list, and what it takes out to close. */
  function Kept(cfg: Config, now: int, idle: seq<Slot>): seq<Slot> {
    if idle == [] then []
    else
      var last := idle[|idle| - 1];
      var front := Kept(cfg, now, idle[..|idle| - 1]);
      if Expired(cfg, now, last) then front else front + [last]
  }

  function Culled(cfg: Config, now: int, idle: seq<Slot>): seq<Slot> {
    if idle == [] then []
    else
      var last := idle[|idle| - 1];
      var front := Culled(cfg, now, idle[..|idle| - 1]);
      if Expired(cfg, now, last) then front + [last] else front
  }

  function Conns(slots: seq<Slot>): seq<nat> {
    seq(|slots|, i requires 0 <= i < |slots| => slots[i].conn)
  }

  datatype Wait = Wait(timedOut: bool, core: Core)

  /** The pool as a borrower finds it on pass `k` through its loop. */
  function Seen(c: Core, waits: seq<Wait>, k: nat): Core
    requires k <= |waits|
  {
    if k == 0 then c else waits[k - 1].core
  }

  predicate IsFull(cfg: Config, c: Core) { BorrowSection(cfg, c).1.Full? }

  /** The first `n` passes find the pool full and are woken. */
  predicate Blocked(cfg: Config, c: Core, waits: seq<Wait>, n: nat)
    requires n <= |waits|
  {
    forall k :: 0 <= k < n ==> IsFull(cfg, Seen(c, waits, k)) && !waits[k].timedOut
  }

  lemma BlockedAgain(cfg: Config, c: Core, waits: seq<Wait>, n: nat)
    requires n < |waits| && Blocked(cfg, c, waits, n) && IsFull(cfg, Seen(c, waits, n)) && !waits[n].timedOut
    ensures Blocked(cfg, c, waits, n + 1)
  {
  }

  /** The connections that answered their ping, each stamped with the clock as read after its own ping, and
      those that did not answer.  `clock(k)` is the reading after ping number k. */
  function Alive(slots: seq<Slot>, alive: nat -> bool, clock: nat -> int): seq<Slot> {
    if slots == [] then []
    else
      var n: nat := |slots| - 1;
      Alive(slots[..n], alive, clock) + (if alive(slots[n].conn) then [slots[n].(lastUsed := clock(n))] else [])
  }

  function Dead(slots: seq<Slot>, alive: nat -> bool): seq<Slot> {
    if slots == [] then []
    else
      var n: nat := |slots| - 1;
      Dead(slots[..n], alive) + (if alive(slots[n].conn) then [] else [slots[n]])
  }

  /** `sub` is what stands at positions `ps`, each stamped with the reading of the clock for its position. */
  ghost predicate Restamped(sub: seq<Slot>, all: seq<Slot>, ps: seq<nat>, clock: nat -> int) {
    |sub| == |ps| && forall i :: 0 <= i < |ps| ==> ps[i] < |all| && sub[i] == all[ps[i]].(lastUsed := clock(ps[i]))
  }

  lemma RestampedSnoc(sub: seq<Slot>, all: seq<Slot>, x: Slot, ps: seq<nat>, clock: nat -> int)
    requires Restamped(sub, all, ps, clock)
    ensures Restamped(sub, all + [x], ps, clock)
    ensures Restamped(sub + [x.(lastUsed := clock(|all|))], all + [x], ps + [|all|], clock)
  {
  }

  /** The survivors are exactly the connections that answered, in order and restamped; the dead exactly the others. */
  lemma {:induction false} PingsSplit(slots: seq<Slot>, alive: nat -> bool, clock: nat -> int) returns (ps: seq<nat>)
    ensures Selects(ps, slots, (x: Slot) => alive(x.conn)) && Restamped(Alive(slots, alive, clock), slots, ps, clock)
    ensures Sifts(Dead(slots, alive), slots, (x: Slot) => !alive(x.conn))
  {
    if slots == [] {
      ps := [];
      SiftsNone((x: Slot) => !alive(x.conn));
    } else {
      var n: nat := |slots| - 1;
      var front, last := slots[..n], slots[n];
      ps := PingsSplit(front, alive, clock);
      assert slots == front + [last];
      SelectsSnoc(ps, front, last, (x: Slot) => alive(x.conn));
      RestampedSnoc(Alive(front, alive, clock), front, last, ps, clock);
      SiftsSnoc(Dead(front, alive), front, last, (x: Slot) => !alive(x.conn));
      if alive(last.conn) {
        ps := ps + [n];
        assert Dead(slots, alive) == Dead(front, alive);
      } else {
        assert Alive(slots, alive, clock) == Alive(front, alive, clock);
      }
    }
  }

  /** A sweep keeps exactly the connections within both limits and takes out exactly the others, each in order. */
  lemma {:induction false} SweepSplits(cfg: Config, now: int, idle: seq<Slot>)
    ensures Sifts(Kept(cfg, now, idle), idle, (x: Slot) => now - x.lastUsed <= cfg.idleTimeout && now - x.created <= cfg.maxLifetime)
    ensures Sifts(Culled(cfg, now, idle), idle, (x: Slot) => now - x.lastUsed > cfg.idleTimeout || now - x.created > cfg.maxLifetime)
  {
    var within := (x: Slot) => now - x.lastUsed <= cfg.idleTimeout && now - x.created <= cfg.maxLifetime;
    var beyond := (x: Slot) => now - x.lastUsed > cfg.idleTimeout || now - x.created > cfg.maxLifetime;
    if idle == [] {
      SiftsNone(within);
      SiftsNone(beyond);
    } else {
      var front, last := idle[..|idle| - 1], idle[|idle| - 1];
      SweepSplits(cfg, now, front);
      assert idle == front + [last];
      SiftsSnoc(Kept(cfg, now, front), front, last, within);
      SiftsSnoc(Culled(cfg, now, front), front, last, beyond);
    }
  }

  /** The pool object, one critical section per method.  Closing a connection is recorded
      in the returned sequence, in order. */
  class Pool {
    const cfg: Config
    var idle: seq<Slot>
    var inUse: int
    var down: bool

    ghost function View(): Core
      reads this
    {
      Core(idle, inUse, down)
    }

    constructor (opts: Config)
      ensures View() == Core([], 0, false)
      ensures cfg == opts.(maxSize := if opts.maxSize == 0 then 1 else opts.maxSize)
    {
      cfg := opts.(maxSize := if opts.maxSize == 0 then 1 else opts.maxSize);
      idle, inUse, down := [], 0, false;
    }

    method TryBorrow() returns (r: Attempt)
      modifies this
      ensures (View(), r) == BorrowSection(cfg, old(View())) && (r.Full? <==> IsFull(cfg, old(View())))
    {
      if down { return Abort; }
      if idle != [] {
        var s := idle[0];
        idle := idle[1..];
        inUse := inUse + 1;
        return Reuse(s.conn);
      }
      if inUse + |idle| < cfg.maxSize {
        inUse := inUse + 1;
        return Dial;
      }
      return Full;
    }

    /** The loop of `borrow`.  `waits` is what each wait on the full pool returns: a timeout, or a
        wake-up that finds the pool as the other threads have left it.  Running out of waits
        counts as a timeout. */
    method Borrow(waits: seq<Wait>) returns (r: Attempt, passes: nat)
      modifies this
      ensures passes <= |waits| && Blocked(cfg, old(View()), waits, passes)
      ensures (View(), r) == BorrowSection(cfg, Seen(old(View()), waits, passes))
      ensures r.Full? ==> passes == |waits| || waits[passes].timedOut
    {
      ghost var first := View();
      passes := 0;
      while true
        invariant passes <= |waits| && Blocked(cfg, first, waits, passes) && View() == Seen(first, waits, passes)
        decreases |waits| - passes
      {
        r := TryBorrow();
        if !r.Full? || passes == |waits| || waits[passes].timedOut { return; }
        BlockedAgain(cfg, first, waits, passes);
        Reacquire(waits[passes].core);
        passes := passes + 1;
      }
    }

    /** Back in the lock, with the pool as the other threads have left it. */
    method Reacquire(c: Core)
      modifies this
      ensures View() == c
    {
      idle, inUse, down := c.idle, c.inUse, c.down;
    }

    method Release(conn: nat, closeIt: bool, now: int)
      modifies this
      ensures View() == ReleaseSection(old(View()), conn, closeIt, now)
    {
      if inUse > 0 { inUse := inUse - 1; }
      if !closeIt { idle := idle + [Slot(conn, now, now)]; }
    }

    method Shutdown() returns (closed: seq<nat>)
      modifies this
      ensures View() == ShutdownSection(old(View()))
      ensures closed == if old(down) then [] else Conns(old(idle))
      ensures !old(down) ==> |closed| == |old(idle)| && forall i :: 0 <= i < |closed| ==> closed[i] == old(idle)[i].conn
    {
      closed := [];
      if down { return; }
      down := true;
      while idle != []
        invariant closed + Conns(idle) == Conns(old(idle))
        invariant inUse == old(inUse) && down
        decreases |idle|
      {
        closed := closed + [idle[0].conn];
        assert Conns(idle) == [idle[0].conn] + Conns(idle[1..]);
        idle := idle[1..];
      }
    }

    /** The locked part of one reaper pass: expired slots are erased in place, and with the
        health check on the rest of the list is swapped out as well. */
    method Sweep(now: int) returns (victims: seq<Slot>, toCheck: seq<Slot>)
      modifies this
      ensures victims == Culled(cfg, now, old(idle))
      ensures toCheck == if cfg.healthCheck then Kept(cfg, now, old(idle)) else []
      ensures idle == if cfg.healthCheck then [] else Kept(cfg, now, old(idle))
      ensures inUse == old(inUse) && down == old(down)
      ensures Sifts(victims, old(idle), (x: Slot) => now - x.lastUsed > cfg.idleTimeout || now - x.created > cfg.maxLifetime)
      ensures Sifts(if cfg.healthCheck then toCheck else idle, old(idle),
                    (x: Slot) => now - x.lastUsed <= cfg.idleTimeout && now - x.created <= cfg.maxLifetime)
    {
      victims, toCheck := [], [];
      var it := 0;
      ghost var seen := 0;
      while it < |idle|
        invariant 0 <= it <= |idle| && 0 <= seen <= |old(idle)|
        invariant idle[it..] == old(idle)[seen..]
        invariant idle[..it] == Kept(cfg, now, old(idle)[..seen])
        invariant victims == Culled(cfg, now, old(idle)[..seen])
        invariant inUse == old(inUse) && down == old(down)
        decreases |idle| - it
      {
        assert idle[it] == idle[it..][0] == old(idle)[seen..][0];
        assert old(idle)[..seen + 1][..seen] == old(idle)[..seen];
        var slot := idle[it];
        var kill := false;
        if now - slot.lastUsed > cfg.idleTimeout { kill := true; }
        if now - slot.created > cfg.maxLifetime { kill := true; }
        if kill {
          victims := victims + [slot];
          idle := idle[..it] + idle[it + 1..];
        } else {
          it := it + 1;
        }
        seen := seen + 1;
      }
      assert seen == |old(idle)| by { assert |idle[it..]| == |old(idle)[seen..]|; }
      assert old(idle)[..seen] == old(idle) && idle[..it] == idle;
      if cfg.healthCheck {
        toCheck, idle := idle, [];
      }
      SweepSplits(cfg, now, old(idle));
    }

    /** The pings of one reaper pass, outside the lock: the survivors are exactly the connections that answered, in order,
        each stamped anew after its own ping and otherwise as it was; the dead are exactly the others, as they were. */
    static method Check(toCheck: seq<Slot>, alive: nat -> bool, clock: nat -> int) returns (survivors: seq<Slot>, dead: seq<Slot>)
      ensures survivors == Alive(toCheck, alive, clock) && dead == Dead(toCheck, alive)
      ensures exists ps :: Selects(ps, toCheck, (x: Slot) => alive(x.conn)) && Restamped(survivors, toCheck, ps, clock)
      ensures Sifts(dead, toCheck, (x: Slot) => !alive(x.conn))
    {
      survivors, dead := [], [];
      var i := 0;
      while i < |toCheck|
        invariant 0 <= i <= |toCheck|
        invariant survivors == Alive(toCheck[..i], alive, clock) && dead == Dead(toCheck[..i], alive)
      {
        assert toCheck[..i + 1][..i] == toCheck[..i];
        if alive(toCheck[i].conn) {
          survivors := survivors + [toCheck[i].(lastUsed := clock(i))];
        } else {
          dead := dead + [toCheck[i]];
        }
        i := i + 1;
      }
      assert toCheck[..i] == toCheck;
      ghost var ps := PingsSplit(toCheck, alive, clock);
    }

    method GiveBack(survivors: seq<Slot>)
      modifies this
      ensures View() == GiveBackSection(old(View()), survivors)
    {
      var i := 0;
      while i < |survivors|
        invariant 0 <= i <= |survivors|
        invariant View() == GiveBackSection(old(View()), survivors[..i])
      {
        idle := idle + [survivors[i]];
        i := i + 1;
      }
      assert survivors[..i] == survivors;
    }
  }

  // ---------------------------------------------------------------- the state machine

  /** Where a borrowing thread is.  `Trying` is about to take the lock; `Dialing` has bumped
      in_use and dropped the lock; `Releasing` has read the shutdown flag but not yet locked;
      `Closing` has left the lock and still has the descriptor to close. */
  datatype Client =
    | Away | Trying | Asleep | Notified | Dialing
    | Holding(conn: nat) | Releasing(conn: nat, closeIt: bool) | Closing(conn: nat)

  /** A busy reaper buries victims, then pings, then discards the dead, then gives back. */
  datatype Reaper =
    | Resting
    | Busy(victims: seq<Slot>, toCheck: seq<Slot>, survivors: seq<Slot>, dead: seq<Slot>)
    | Gone

  /** `dialled` connections have been opened so far, numbered 0, 1, ...; `closed` lists
      the closes.  `borrows` counts successful borrows, `sweeps` sweeps begun, and `lost` waiters that
      were notified but reported a timeout because the deadline had passed. */
  datatype State = State(
    cfg: Config, core: Core, clients: seq<Client>, reaper: Reaper, now: int,
    dialled: nat, closed: seq<nat>, borrows: nat, sweeps: nat, lost: nat)

  datatype Event =
    | Enter(t: nat)
    | Pass(t: nat)
    | TimeOut(t: nat)
    | LateTimeOut(t: nat)
    | Stir(t: nat)                       // spurious wake-up
    | DialOk(t: nat)
    | DialFail(t: nat, wake: nat)
    | StartRelease(t: nat, ok: bool)
    | FinishRelease(t: nat, wake: nat)
    | CloseConn(t: nat)
    | Shutdown
    | TellAll
    | Tick(d: nat)
    | Sweep
    | Bury
    | Ping(alive: bool)
    | Discard
    | GiveBack
    | ReaperExit

  predicate IsAsleep(c: Client) { c.Asleep? }
  predicate IsNotified(c: Client) { c.Notified? }
  predicate IsCounted(c: Client) { c.Dialing? || c.Holding? || c.Releasing? }

  function Carries(cl: Client, c: nat): nat {
    if (cl.Holding? || cl.Releasing? || cl.Closing?) && cl.conn == c then 1 else 0
  }

  function InSlot(s: Slot, c: nat): nat { if s.conn == c then 1 else 0 }

  function InReaper(r: Reaper, c: nat): nat {
    if r.Busy? then Tally(InSlot, r.victims, c) + Tally(InSlot, r.toCheck, c)
                    + Tally(InSlot, r.survivors, c) + Tally(InSlot, r.dead, c)
    else 0
  }

  function ReaperHolds(r: Reaper): nat {
    if r.Busy? then |r.victims| + |r.toCheck| + |r.survivors| + |r.dead| else 0
  }

  /** `notify_one` must pick a waiter when there is one. */
  predicate Picks(cs: seq<Client>, wake: nat) {
    Count(IsAsleep, cs) > 0 ==> wake < |cs| && cs[wake].Asleep?
  }

  function Wake(cs: seq<Client>, wake: nat): seq<Client> {
    if wake < |cs| && cs[wake].Asleep? then cs[wake := Notified] else cs
  }

  function Rise(c: Client): Client {
    if c.Asleep? then Notified else c
  }

  predicate Enabled(s: State, e: Event) {
    match e
    case Enter(t) => t < |s.clients| && s.clients[t].Away?
    case Pass(t) => t < |s.clients| && (s.clients[t].Trying? || s.clients[t].Notified?)
    case TimeOut(t) => t < |s.clients| && s.clients[t].Asleep?
    case LateTimeOut(t) => t < |s.clients| && s.clients[t].Notified?
    case Stir(t) => t < |s.clients| && s.clients[t].Asleep?
    case DialOk(t) => t < |s.clients| && s.clients[t].Dialing?
    case DialFail(t, wake) => t < |s.clients| && s.clients[t].Dialing? && Picks(s.clients, wake)
    case StartRelease(t, _) => t < |s.clients| && s.clients[t].Holding?
    case FinishRelease(t, wake) => t < |s.clients| && s.clients[t].Releasing? && Picks(s.clients, wake)
    case CloseConn(t) => t < |s.clients| && s.clients[t].Closing?
    case Shutdown => true
    case TellAll => s.core.down
    case Tick(_) => true
    case Sweep => s.reaper.Resting? && !s.core.down
    case Bury => s.reaper.Busy? && s.reaper.victims != []
    case Ping(_) => s.reaper.Busy? && s.reaper.victims == [] && s.reaper.toCheck != []
    case Discard => s.reaper.Busy? && s.reaper.victims == [] && s.reaper.toCheck == [] && s.reaper.dead != []
    case GiveBack => s.reaper.Busy? && s.reaper.victims == [] && s.reaper.toCheck == [] && s.reaper.dead == []
    case ReaperExit => s.reaper.Resting? && s.core.down
  }

  function Attempted(s: State, t: nat): State
    requires t < |s.clients|
  {
    var (core, attempt) := BorrowSection(s.cfg, s.core);
    match attempt
    case Abort => s.(clients := s.clients[t := Away])
    case Reuse(c) => s.(core := core, clients := s.clients[t := Holding(c)], borrows := s.borrows + 1)
    case Dial => s.(core := core, clients := s.clients[t := Dialing])
    case Full => s.(clients := s.clients[t := Asleep])
  }

  function Swept(s: State): State {
    var kept := Kept(s.cfg, s.now, s.core.idle);
    var victims := Culled(s.cfg, s.now, s.core.idle);
    if s.cfg.healthCheck
    then s.(core := s.core.(idle := []), reaper := Busy(victims, kept, [], []), sweeps := s.sweeps + 1)
    else s.(core := s.core.(idle := kept), reaper := Busy(victims, [], [], []), sweeps := s.sweeps + 1)
  }

  function Pinged(s: State, alive: bool): State
    requires s.reaper.Busy? && s.reaper.toCheck != []
  {
    var r := s.reaper;
    var slot := r.toCheck[0];
    if alive
    then s.(reaper := r.(toCheck := r.toCheck[1..], survivors := r.survivors + [slot.(lastUsed := s.now)]))
    else s.(reaper := r.(toCheck := r.toCheck[1..], dead := r.dead + [slot]))
  }

  function Apply(s: State, e: Event): State
    requires Enabled(s, e)
  {
    match e
    case Enter(t) => s.(clients := s.clients[t := Trying])
    case Pass(t) => Attempted(s, t)
    case TimeOut(t) => s.(clients := s.clients[t := Away])
    case LateTimeOut(t) => s.(clients := s.clients[t := Away], lost := s.lost + 1)
    case Stir(t) => s.(clients := s.clients[t := Notified])
    case DialOk(t) => s.(clients := s.clients[t := Holding(s.dialled)], dialled := s.dialled + 1, borrows := s.borrows + 1)
    case DialFail(t, wake) => s.(core := s.core.(inUse := s.core.inUse - 1), clients := Wake(s.clients[t := Away], wake))
    case StartRelease(t, ok) => s.(clients := s.clients[t := Releasing(s.clients[t].conn, !ok || s.core.down)])
    case FinishRelease(t, wake) =>
      var me := s.clients[t];
      s.(core := ReleaseSection(s.core, me.conn, me.closeIt, s.now),
         clients := Wake(s.clients[t := if me.closeIt then Closing(me.conn) else Away], wake))
    case CloseConn(t) => s.(clients := s.clients[t := Away], closed := s.closed + [s.clients[t].conn])
    case Shutdown => s.(core := ShutdownSection(s.core),
                        closed := if s.core.down then s.closed else s.closed + Conns(s.core.idle))
    case TellAll => s.(clients := seq(|s.clients|, i requires 0 <= i < |s.clients| => Rise(s.clients[i])))
    case Tick(d) => s.(now := s.now + d)
    case Sweep => Swept(s)
    case Bury => s.(reaper := s.reaper.(victims := s.reaper.victims[1..]),
                    closed := s.closed + [s.reaper.victims[0].conn])
    case Ping(alive) => Pinged(s, alive)
    case Discard => s.(reaper := s.reaper.(dead := s.reaper.dead[1..]),
                       closed := s.closed + [s.reaper.dead[0].conn])
    case GiveBack => s.(core := GiveBackSection(s.core, s.reaper.survivors), reaper := Resting)
    case ReaperExit => s.(reaper := Gone)
  }

  function Init(opts: Config, threads: nat): State {
    State(opts.(maxSize := if opts.maxSize == 0 then 1 else opts.maxSize), Core([], 0, false),
          seq(threads, _ => Away), Resting, 0, 0, [], 0, 0, 0)
  }

  predicate Valid(s: State, es: seq<Event>)
    decreases |es|
  {
    es != [] ==> Enabled(s, es[0]) && Valid(Apply(s, es[0]), es[1..])
  }

  function Final(s: State, es: seq<Event>): State
    requires Valid(s, es)
    decreases |es|
  {
    if es == [] then s else Final(Apply(s, es[0]), es[1..])
  }
}

/** The bounded multi-producer multi-consumer queue of src/thread_pool.cpp.

    `Core` is what the pool's mutex protects.  Every critical section is one
    function on `Core`; the class `Monitor` runs the same sections imperatively.
    The state machine below interleaves those sections over any number of workers
    and submitters, with each condition variable modelled as two sets of waiters
    (asleep, and notified but not yet running), as in section 32.6 of ISO C++20. */
module ThreadPool {
  import opened Counting

  /** `maxQueueDepth` and the worker count are at least one: the constructor raises zero to one. */
  datatype Core<T> = Core(depth: nat, reject: bool, queue: seq<T>, stop: bool, drain: bool)

  datatype Submission = Accepted | Refused | MustWait

  /** `submit` with the lock held: on entry, and again after each wake-up. */
  function SubmitSection<T>(c: Core<T>, task: T): (Core<T>, Submission) {
    if c.stop then (c, Refused)
    else if |c.queue| >= c.depth then (c, if c.reject then Refused else MustWait)
    else (c.(queue := c.queue + [task]), Accepted)
  }

  datatype Fetch<T> = Run(task: T) | Quit | Sleep

  /** The locked part of `worker_main`. */
  function FetchSection<T>(c: Core<T>): (Core<T>, Fetch<T>) {
    if c.queue == [] then (c, if c.stop then Quit else Sleep)
    else (c.(queue := c.queue[1..]), Run(c.queue[0]))
  }

  /** The locked part of `stop` (drain) and of `stop_no_drain`. */
  function StopSection<T>(c: Core<T>, drain: bool): Core<T> {
    if c.stop then c
    else if drain then c.(stop := true, drain := true)
    else c.(stop := true, drain := false, queue := [])
  }

  /** The pool object: its fields are updated in place, one critical section per method. */
  class Monitor<T> {
    const depth: nat
    const reject: bool
    var queue: seq<T>
    var stop: bool
    var drain: bool

    ghost function View(): Core<T>
      reads this
    {
      Core(depth, reject, queue, stop, drain)
    }

    constructor (maxQueueDepth: nat, rejectOnFull: bool)
      ensures View() == Core(if maxQueueDepth == 0 then 1 else maxQueueDepth, rejectOnFull, [], false, true)
    {
      depth := if maxQueueDepth == 0 then 1 else maxQueueDepth;
      reject := rejectOnFull;
      queue, stop, drain := [], false, true;
    }

    method Submit(task: T) returns (r: Submission)
      modifies this
      ensures (View(), r) == SubmitSection(old(View()), task)
    {
      if stop { return Refused; }
      if reject {
        if |queue| >= depth { return Refused; }
      } else {
        if !(|queue| < depth || stop) { return MustWait; }
        if stop { return Refused; }
      }
      queue := queue + [task];
      return Accepted;
    }

    method Next() returns (r: Fetch<T>)
      modifies this
      ensures (View(), r) == FetchSection(old(View()))
    {
      if !(queue != [] || stop) { return Sleep; }
      if queue == [] { return Quit; }
      r := Run(queue[0]);
      queue := queue[1..];
    }

    method Stop(draining: bool)
      modifies this
      ensures View() == StopSection(old(View()), draining)
    {
      if stop { return; }
      stop, drain := true, draining;
      if !draining { queue := []; }
    }

    /** One worker left alone with a stopped pool: `worker_main` runs until it returns,
        and what it ran is the whole backlog, in order. */
    method WorkerMain() returns (ran: seq<T>)
      requires stop
      modifies this
      ensures ran == old(queue) && View() == old(View()).(queue := [])
    {
      ran := [];
      while true
        invariant stop == old(stop) && drain == old(drain)
        invariant ran + queue == old(queue)
        decreases |queue|
      {
        var next := Next();
        match next
        case Run(task) => ran := ran + [task];
        case Quit => return;
        case Sleep => assert false;
      }
    }
  }

  // ---------------------------------------------------------------- the state machine

  datatype Worker<T> = Ready | Asleep | Notified | Running(task: T) | Exited
  datatype Submitter<T> = Away | Blocked(task: T) | Roused(task: T)

  /** `toldWorkers` and `toldSubmitters` record the two `notify_all` calls after the stop flag.
      The four sequences at the end are histories: tasks whose submit returned true, tasks popped,
      tasks thrown away by `stop_no_drain`, tasks that returned. */
  datatype State<T> = State(
    core: Core<T>, workers: seq<Worker<T>>, submitters: seq<Submitter<T>>,
    toldWorkers: bool, toldSubmitters: bool,
    accepted: seq<T>, popped: seq<T>, discarded: seq<T>, finished: seq<T>)

  /** `wake` names the waiter a `notify_one` picks; it is ignored when nobody is asleep. */
  datatype Event<T> =
    | Submit(p: nat, task: T, wake: nat)
    | Resubmit(p: nat, wake: nat)
    | StirSubmitter(p: nat)            // spurious wake-up
    | Take(w: nat, wake: nat)
    | StirWorker(w: nat)               // spurious wake-up
    | Finish(w: nat)
    | SetStop(drain: bool)
    | TellWorkers
    | TellSubmitters

  predicate IsAsleep<T>(w: Worker<T>) { w.Asleep? }
  predicate IsNotified<T>(w: Worker<T>) { w.Notified? }
  predicate IsExited<T>(w: Worker<T>) { w.Exited? }
  predicate IsBlocked<T>(p: Submitter<T>) { p.Blocked? }
  predicate IsRoused<T>(p: Submitter<T>) { p.Roused? }

  ghost function TaskOf<T>(w: Worker<T>): multiset<T> {
    if w.Running? then multiset{w.task} else multiset{}
  }

  function WakeWorker<T>(ws: seq<Worker<T>>, wake: nat): (r: seq<Worker<T>>) {
    if wake < |ws| && ws[wake].Asleep? then ws[wake := Notified] else ws
  }

  function WakeSubmitter<T>(ps: seq<Submitter<T>>, wake: nat): (r: seq<Submitter<T>>) {
    if wake < |ps| && ps[wake].Blocked? then ps[wake := Roused(ps[wake].task)] else ps
  }

  /** `notify_one` must pick a waiter when there is one. */
  predicate PicksWorker<T>(ws: seq<Worker<T>>, wake: nat) {
    Count(IsAsleep<T>, ws) > 0 ==> wake < |ws| && ws[wake].Asleep?
  }

  predicate PicksSubmitter<T>(ps: seq<Submitter<T>>, wake: nat) {
    Count(IsBlocked<T>, ps) > 0 ==> wake < |ps| && ps[wake].Blocked?
  }

  function Rouse<T>(p: Submitter<T>): Submitter<T> {
    if p.Blocked? then Roused(p.task) else p
  }

  function Rise<T>(w: Worker<T>): Worker<T> {
    if w.Asleep? then Notified else w
  }

  predicate Enabled<T>(s: State<T>, e: Event<T>) {
    match e
    case Submit(p, _, wake) => p < |s.submitters| && s.submitters[p].Away? && PicksWorker(s.workers, wake)
    case Resubmit(p, wake) => p < |s.submitters| && s.submitters[p].Roused? && PicksWorker(s.workers, wake)
    case StirSubmitter(p) => p < |s.submitters| && s.submitters[p].Blocked?
    case Take(w, wake) => w < |s.workers| && (s.workers[w].Ready? || s.workers[w].Notified?)
                          && PicksSubmitter(s.submitters, wake)
    case StirWorker(w) => w < |s.workers| && s.workers[w].Asleep?
    case Finish(w) => w < |s.workers| && s.workers[w].Running?
    case SetStop(_) => true
    case TellWorkers => s.core.stop
    case TellSubmitters => s.core.stop
  }

  function Offer<T>(s: State<T>, p: nat, task: T, wake: nat): State<T>
    requires p < |s.submitters|
  {
    var (core, verdict) := SubmitSection(s.core, task);
    match verdict
    case Accepted => s.(core := core, submitters := s.submitters[p := Away],
                        workers := WakeWorker(s.workers, wake), accepted := s.accepted + [task])
    case Refused => s.(submitters := s.submitters[p := Away])
    case MustWait => s.(submitters := s.submitters[p := Blocked(task)])
  }

  function Obtain<T>(s: State<T>, w: nat, wake: nat): State<T>
    requires w < |s.workers|
  {
    var (core, fetch) := FetchSection(s.core);
    match fetch
    case Run(task) => s.(core := core, workers := s.workers[w := Running(task)],
                         submitters := WakeSubmitter(s.submitters, wake), popped := s.popped + [task])
    case Quit => s.(workers := s.workers[w := Exited])
    case Sleep => s.(workers := s.workers[w := Asleep])
  }

  function Apply<T>(s: State<T>, e: Event<T>): State<T>
    requires Enabled(s, e)
  {
    match e
    case Submit(p, task, wake) => Offer(s, p, task, wake)
    case Resubmit(p, wake) => Offer(s, p, s.submitters[p].task, wake)
    case StirSubmitter(p) => s.(submitters := s.submitters[p := Roused(s.submitters[p].task)])
    case Take(w, wake) => Obtain(s, w, wake)
    case StirWorker(w) => s.(workers := s.workers[w := Notified])
    case Finish(w) => s.(workers := s.workers[w := Ready], finished := s.finished + [s.workers[w].task])
    case SetStop(drain) => s.(core := StopSection(s.core, drain),
                              discarded := if s.core.stop || drain then s.discarded else s.core.queue)
    case TellWorkers => s.(workers := seq(|s.workers|, i requires 0 <= i < |s.workers| => Rise(s.workers[i])),
                           toldWorkers := true)
    case TellSubmitters => s.(submitters := seq(|s.submitters|, i requires 0 <= i < |s.submitters| => Rouse(s.submitters[i])),
                              toldSubmitters := true)
  }

  function Init<T>(workerCount: nat, submitterCount: nat, maxQueueDepth: nat, rejectOnFull: bool): State<T> {
    State(Core(if maxQueueDepth == 0 then 1 else maxQueueDepth, rejectOnFull, [], false, true),
          seq(if workerCount == 0 then 1 else workerCount, _ => Ready), seq(submitterCount, _ => Away),
          false, false, [], [], [], [])
  }

  predicate Valid<T>(s: State<T>, es: seq<Event<T>>)
    decreases |es|
  {
    es != [] ==> Enabled(s, es[0]) && Valid(Apply(s, es[0]), es[1..])
  }

  function Final<T>(s: State<T>, es: seq<Event<T>>): State<T>
    requires Valid(s, es)
    decreases |es|
  {
    if es == [] then s else Final(Apply(s, es[0]), es[1..])
  }

  // ---------------------------------------------------------------- invariant

  ghost predicate Accounts<T>(s: State<T>) {
    && s.accepted == s.popped + s.discarded + s.core.queue
    && multiset(s.popped) == multiset(s.finished) + Bag(TaskOf<T>, s.workers)
    && (s.discarded != [] ==> s.core.stop && !s.core.drain && s.core.queue == [])
  }

  /** No worker sleeps beside work unless enough notified workers are on their way to it;
      likewise submitters and room. */
  ghost predicate WakeUps<T>(s: State<T>) {
    && (Count(IsAsleep<T>, s.workers) > 0 ==> Count(IsNotified<T>, s.workers) >= |s.core.queue|)
    && (!s.core.stop && Count(IsBlocked<T>, s.submitters) > 0
        ==> Count(IsRoused<T>, s.submitters) >= s.core.depth - |s.core.queue|)
  }

  ghost predicate Phases<T>(s: State<T>) {
    && |s.workers| >= 1 && s.core.depth >= 1 && |s.core.queue| <= s.core.depth
    && (Count(IsExited<T>, s.workers) > 0 ==> s.core.stop && s.core.queue == [])
    && (s.toldWorkers ==> s.core.stop && Count(IsAsleep<T>, s.workers) == 0)
    && (s.toldSubmitters ==> s.core.stop && Count(IsBlocked<T>, s.submitters) == 0)
    && (s.core.reject ==> forall p :: 0 <= p < |s.submitters| ==> s.submitters[p].Away?)
  }

  ghost predicate Inv<T>(s: State<T>) {
    Accounts(s) && WakeUps(s) && Phases(s)
  }

  // ---------------------------------------------------------------- every step keeps it

  lemma InitInv<T>(workerCount: nat, submitterCount: nat, maxQueueDepth: nat, rejectOnFull: bool)
    ensures Inv(Init<T>(workerCount, submitterCount, maxQueueDepth, rejectOnFull))
  {
    var s := Init<T>(workerCount, submitterCount, maxQueueDepth, rejectOnFull);
    CountBounds(IsAsleep<T>, s.workers);
    CountBounds(IsExited<T>, s.workers);
    CountBounds(IsBlocked<T>, s.submitters);
    BagOfNone(s.workers);
  }

  lemma {:induction false} BagOfNone<T>(ws: seq<Worker<T>>)
    requires forall i :: 0 <= i < |ws| ==> !ws[i].Running?
    ensures Bag(TaskOf<T>, ws) == multiset{}
  {
    if ws != [] {
      BagOfNone(ws[1..]);
    }
  }

  /** How one worker's change moves every tally over the workers. */
  lemma WorkerMoves<T>(ws: seq<Worker<T>>, i: nat, x: Worker<T>)
    requires i < |ws|
    ensures Count(IsAsleep<T>, ws[i := x]) == Count(IsAsleep<T>, ws) - (if ws[i].Asleep? then 1 else 0) + (if x.Asleep? then 1 else 0)
    ensures Count(IsNotified<T>, ws[i := x]) == Count(IsNotified<T>, ws) - (if ws[i].Notified? then 1 else 0) + (if x.Notified? then 1 else 0)
    ensures Count(IsExited<T>, ws[i := x]) == Count(IsExited<T>, ws) - (if ws[i].Exited? then 1 else 0) + (if x.Exited? then 1 else 0)
  {
    CountUpdate(IsAsleep<T>, ws, i, x);
    CountUpdate(IsNotified<T>, ws, i, x);
    CountUpdate(IsExited<T>, ws, i, x);
  }

  lemma SubmitterMoves<T>(ps: seq<Submitter<T>>, i: nat, x: Submitter<T>)
    requires i < |ps|
    ensures Count(IsBlocked<T>, ps[i := x]) == Count(IsBlocked<T>, ps) - (if ps[i].Blocked? then 1 else 0) + (if x.Blocked? then 1 else 0)
    ensures Count(IsRoused<T>, ps[i := x]) == Count(IsRoused<T>, ps) - (if ps[i].Roused? then 1 else 0) + (if x.Roused? then 1 else 0)
  {
    CountUpdate(IsBlocked<T>, ps, i, x);
    CountUpdate(IsRoused<T>, ps, i, x);
  }

  /** `notify_one` on not_empty_: one sleeper, if any, becomes notified; nothing else moves. */
  lemma WakeWorkerMoves<T>(ws: seq<Worker<T>>, wake: nat)
    requires PicksWorker(ws, wake)
    ensures var r := WakeWorker(ws, wake);
            && |r| == |ws| && Count(IsExited<T>, r) == Count(IsExited<T>, ws)
            && Bag(TaskOf<T>, r) == Bag(TaskOf<T>, ws)
            && (if Count(IsAsleep<T>, ws) == 0 then r == ws
                else Count(IsAsleep<T>, r) == Count(IsAsleep<T>, ws) - 1
                     && Count(IsNotified<T>, r) == Count(IsNotified<T>, ws) + 1)
  {
    CountBounds(IsAsleep<T>, ws);
    if wake < |ws| && ws[wake].Asleep? {
      WorkerMoves(ws, wake, Notified);
      BagKeeps(TaskOf<T>, ws, wake, Notified);
    }
  }

  lemma WakeSubmitterMoves<T>(ps: seq<Submitter<T>>, wake: nat)
    requires PicksSubmitter(ps, wake)
    ensures var r := WakeSubmitter(ps, wake);
            && |r| == |ps|
            && (if Count(IsBlocked<T>, ps) == 0 then r == ps
                else Count(IsBlocked<T>, r) == Count(IsBlocked<T>, ps) - 1
                     && Count(IsRoused<T>, r) == Count(IsRoused<T>, ps) + 1)
            && ((forall p :: 0 <= p < |ps| ==> ps[p].Away?) ==> r == ps)
  {
    CountBounds(IsBlocked<T>, ps);
    if wake < |ps| && ps[wake].Blocked? {
      SubmitterMoves(ps, wake, Roused(ps[wake].task));
    }
  }

  lemma OfferInv<T>(s: State<T>, p: nat, task: T, wake: nat)
    requires Inv(s) && p < |s.submitters| && PicksWorker(s.workers, wake)
    requires s.submitters[p].Away? || s.submitters[p].Roused?
    ensures Inv(Offer(s, p, task, wake))
  {
    var r := Offer(s, p, task, wake);
    SubmitterMoves(s.submitters, p, r.submitters[p]);
    if SubmitSection(s.core, task).1.Accepted? {
      WakeWorkerMoves(s.workers, wake);
      assert r.accepted == s.popped + s.discarded + (s.core.queue + [task]);
    }
  }

  lemma PopFront<T>(popped: seq<T>, queue: seq<T>)
    requires queue != []
    ensures popped + [] + queue == (popped + [queue[0]]) + [] + queue[1..]
    ensures multiset(popped + [queue[0]]) == multiset(popped) + multiset{queue[0]}
  {
  }

  lemma ObtainsTask<T>(s: State<T>, w: nat, wake: nat)
    requires Accounts(s) && w < |s.workers| && !s.workers[w].Running? && s.core.queue != []
    ensures Accounts(Obtain(s, w, wake))
  {
    var task, r := s.core.queue[0], Obtain(s, w, wake);
    BagGains(TaskOf<T>, s.workers, w, Running(task));
    PopFront(s.popped, s.core.queue);
    assert multiset(r.popped) == multiset(s.finished) + (Bag(TaskOf<T>, s.workers) + multiset{task});
  }

  lemma ObtainsNothing<T>(s: State<T>, w: nat, wake: nat)
    requires Accounts(s) && w < |s.workers| && !s.workers[w].Running? && s.core.queue == []
    ensures Accounts(Obtain(s, w, wake))
  {
    BagKeeps(TaskOf<T>, s.workers, w, Obtain(s, w, wake).workers[w]);
  }

  lemma ObtainAccounts<T>(s: State<T>, w: nat, wake: nat)
    requires Accounts(s) && w < |s.workers| && !s.workers[w].Running?
    ensures Accounts(Obtain(s, w, wake))
  {
    if s.core.queue != [] {
      ObtainsTask(s, w, wake);
    } else {
      ObtainsNothing(s, w, wake);
    }
  }

  lemma ObtainWakeUps<T>(s: State<T>, w: nat, wake: nat)
    requires Phases(s) && WakeUps(s) && Enabled(s, Take(w, wake))
    ensures Phases(Obtain(s, w, wake)) && WakeUps(Obtain(s, w, wake))
  {
    WorkerMoves(s.workers, w, Obtain(s, w, wake).workers[w]);
    WakeSubmitterMoves(s.submitters, wake);
  }

  lemma TellWorkersInv<T>(s: State<T>)
    requires Inv(s) && s.core.stop
    ensures Inv(Apply(s, TellWorkers))
  {
    var r := Apply(s, TellWorkers);
    CountBounds(IsAsleep<T>, r.workers);
    CountImplies(IsExited<T>, r.workers, IsExited<T>, s.workers);
    BagSame(TaskOf<T>, s.workers, r.workers);
  }

  lemma TellSubmittersInv<T>(s: State<T>)
    requires Inv(s) && s.core.stop
    ensures Inv(Apply(s, TellSubmitters))
  {
    CountBounds(IsBlocked<T>, Apply(s, TellSubmitters).submitters);
  }

  lemma FinishInv<T>(s: State<T>, w: nat)
    requires Inv(s) && Enabled(s, Finish(w))
    ensures Inv(Apply(s, Finish(w)))
  {
    WorkerMoves(s.workers, w, Ready);
    BagLoses(TaskOf<T>, s.workers, w, Ready);
    var task := s.workers[w].task;
    assert multiset(s.finished + [task]) == multiset(s.finished) + multiset{task};
  }

  lemma StirInv<T>(s: State<T>, e: Event<T>)
    requires Inv(s) && Enabled(s, e) && (e.StirSubmitter? || e.StirWorker? || e.SetStop?)
    ensures Inv(Apply(s, e))
  {
    match e
    case StirSubmitter(p) => SubmitterMoves(s.submitters, p, Roused(s.submitters[p].task));
    case StirWorker(w) => WorkerMoves(s.workers, w, Notified); BagKeeps(TaskOf<T>, s.workers, w, Notified);
    case SetStop(_) =>
  }

  lemma StepInv<T>(s: State<T>, e: Event<T>)
    requires Inv(s) && Enabled(s, e)
    ensures Inv(Apply(s, e))
  {
    match e
    case Submit(p, task, wake) => OfferInv(s, p, task, wake);
    case Resubmit(p, wake) => OfferInv(s, p, s.submitters[p].task, wake);
    case Take(w, wake) => ObtainAccounts(s, w, wake); ObtainWakeUps(s, w, wake);
    case Finish(w) => FinishInv(s, w);
    case TellWorkers => TellWorkersInv(s);
    case TellSubmitters => TellSubmittersInv(s);
    case _ => StirInv(s, e);
  }

  lemma {:induction false} RunInv<T>(s: State<T>, es: seq<Event<T>>)
    requires Inv(s) && Valid(s, es)
    ensures Inv(Final(s, es))
    decreases |es|
  {
    if es != [] {
      StepInv(s, es[0]);
      RunInv(Apply(s, es[0]), es[1..]);
    }
  }

  // ---------------------------------------------------------------- what holds of every run

  predicate SameShape<T>(s: State<T>, r: State<T>) {
    |r.workers| == |s.workers| && |r.submitters| == |s.submitters| && r.core.depth == s.core.depth && r.core.reject == s.core.reject
  }

  lemma StepKeepsShape<T>(s: State<T>, e: Event<T>)
    requires Enabled(s, e)
    ensures SameShape(s, Apply(s, e))
  {
  }

  /** The pool keeps the shape it was configured with. */
  lemma {:induction false} RunKeepsShape<T>(s: State<T>, es: seq<Event<T>>)
    requires Valid(s, es)
    ensures SameShape(s, Final(s, es))
    decreases |es|
  {
    if es != [] {
      StepKeepsShape(s, es[0]);
      RunKeepsShape(Apply(s, es[0]), es[1..]);
    }
  }

  /** A configured zero counts as one. */
  function AtLeastOne(n: nat): nat { if n == 0 then 1 else n }

  /** The queue is bounded; tasks leave it in submission order; every task whose submit
      returned true is at each moment in exactly one of: the queue, a worker, the finished
      set, or the backlog a `stop_no_drain` threw away. */
  lemma FifoExactlyOnce<T>(n: nat, k: nat, depth: nat, reject: bool, es: seq<Event<T>>)
    requires Valid(Init<T>(n, k, depth, reject), es)
    ensures var s := Final(Init<T>(n, k, depth, reject), es);
            && |s.workers| == AtLeastOne(n) && s.core.depth == AtLeastOne(depth) && s.core.reject == reject
            && |s.core.queue| <= AtLeastOne(depth)
            && s.popped <= s.accepted
            && multiset(s.accepted) == multiset(s.finished) + Bag(TaskOf<T>, s.workers)
                                       + multiset(s.discarded) + multiset(s.core.queue)
            && (s.core.drain ==> s.discarded == [])
  {
    InitInv<T>(n, k, depth, reject);
    RunInv(Init<T>(n, k, depth, reject), es);
    RunKeepsShape(Init<T>(n, k, depth, reject), es);
    var s := Final(Init<T>(n, k, depth, reject), es);
    assert s.popped + (s.discarded + s.core.queue) == s.accepted;
    assert multiset(s.accepted) == multiset(s.popped) + multiset(s.discarded) + multiset(s.core.queue);
  }

  /** What submit answers: it takes the task exactly when the pool is running and there is room, and makes the caller wait
      exactly when it is running, full, and not told to reject. */
  lemma SubmitDecides<T>(c: Core<T>, task: T)
    ensures var (c', r) := SubmitSection(c, task);
            && (r.Accepted? <==> !c.stop && |c.queue| < c.depth)
            && (r.MustWait? <==> !c.stop && |c.queue| >= c.depth && !c.reject)
            && c'.queue == (if r.Accepted? then c.queue + [task] else c.queue) && c' == c.(queue := c'.queue)
  {
  }

  /** What a worker finds: the oldest task if there is one, else sleep, or the end once the pool is stopped. */
  lemma FetchDecides<T>(c: Core<T>)
    ensures var (c', r) := FetchSection(c);
            && (r.Run? <==> c.queue != []) && (r.Quit? <==> c.queue == [] && c.stop)
            && (r.Run? ==> [r.task] + c'.queue == c.queue) && (!r.Run? ==> c' == c) && c' == c.(queue := c'.queue)
  {
  }

  /** `stop` keeps the backlog to be run and `stop_no_drain` throws it away; only the first of either has any effect, and
      after it nothing more is taken on. */
  lemma StopDecides<T>(c: Core<T>, drain: bool, task: T)
    ensures var c' := StopSection(c, drain);
            && c'.stop && (c.stop ==> c' == c) && SubmitSection(c', task).1.Refused?
            && (!c.stop ==> c'.drain == drain && c'.queue == if drain then c.queue else [])
  {
  }

  /** After `stop_no_drain` no further task is started: what runs had been popped before. */
  lemma {:induction false} NoDrainStartsNothing<T>(s: State<T>, es: seq<Event<T>>)
    requires Inv(s) && s.core.stop && !s.core.drain && s.core.queue == [] && Valid(s, es)
    ensures var r := Final(s, es); r.popped == s.popped && r.core.queue == [] && r.accepted == s.accepted
    decreases |es|
  {
    if es != [] {
      StepInv(s, es[0]);
      NoDrainStartsNothing(Apply(s, es[0]), es[1..]);
    }
  }

  predicate IsWorkerEvent<T>(e: Event<T>) {
    e.Take? || e.StirWorker? || e.Finish?
  }

  /** A worker event that is not a spurious wake-up. */
  ghost predicate CanProgress<T>(s: State<T>) {
    || (exists w: nat, wake: nat :: Enabled(s, Take(w, wake)))
    || (exists w: nat :: Enabled(s, Finish(w)))
  }

  /** A worker that is neither asleep nor gone always has a move of its own. */
  lemma WorkerCanMove<T>(s: State<T>, w: nat)
    requires w < |s.workers| && !s.workers[w].Asleep? && !s.workers[w].Exited?
    ensures CanProgress(s)
  {
    if s.workers[w].Running? {
      assert Enabled(s, Finish(w));
    } else {
      var wake: nat := 0;
      if Count(IsBlocked<T>, s.submitters) > 0 {
        wake := Witness(IsBlocked<T>, s.submitters);
      }
      assert Enabled(s, Take(w, wake));
    }
  }

  /** No lost wake-up: a sleeping worker implies as many notified workers as there are queued tasks, and
      before the stop flag a sleeping submitter implies as many notified submitters as there is room.  So in every
      reachable state, stopped or not, queued work means that some worker can move, and before the
      stop flag room means that no submitter is left asleep without a notified one to take it. */
  lemma NoLostWakeUp<T>(n: nat, k: nat, depth: nat, reject: bool, es: seq<Event<T>>)
    requires Valid(Init<T>(n, k, depth, reject), es)
    ensures var s := Final(Init<T>(n, k, depth, reject), es);
            && (Count(IsAsleep<T>, s.workers) > 0 ==> Count(IsNotified<T>, s.workers) >= |s.core.queue|)
            && (!s.core.stop && Count(IsBlocked<T>, s.submitters) > 0
                ==> Count(IsRoused<T>, s.submitters) >= s.core.depth - |s.core.queue|)
            && (s.core.queue != [] ==> CanProgress(s))
            && (!s.core.stop && |s.core.queue| < s.core.depth && Count(IsBlocked<T>, s.submitters) > 0
                ==> exists p :: 0 <= p < |s.submitters| && s.submitters[p].Roused?)
  {
    InitInv<T>(n, k, depth, reject);
    RunInv(Init<T>(n, k, depth, reject), es);
    var s := Final(Init<T>(n, k, depth, reject), es);
    if s.core.queue != [] {
      WorkAwakens(s);
    }
    if !s.core.stop && |s.core.queue| < s.core.depth && Count(IsBlocked<T>, s.submitters) > 0 {
      var p := Witness(IsRoused<T>, s.submitters);
    }
  }

  lemma WorkAwakens<T>(s: State<T>)
    requires Inv(s) && s.core.queue != []
    ensures exists w :: 0 <= w < |s.workers| && !s.workers[w].Asleep? && !s.workers[w].Exited?
    ensures CanProgress(s)
  {
    CountBounds(IsExited<T>, s.workers);
    var w: nat := 0;
    if s.workers[0].Asleep? {
      CountAt(IsAsleep<T>, s.workers, 0);
      w := Witness(IsNotified<T>, s.workers);
    }
    WorkerCanMove(s, w);
  }

  // ---------------------------------------------------------------- the drain terminates

  function Rank<T>(w: Worker<T>): nat {
    match w
    case Exited => 0
    case Ready => 1
    case Notified => 1
    case Asleep => 2
    case Running(_) => 2
  }

  /** Work left in a stopped pool. */
  function Remaining<T>(s: State<T>): nat {
    2 * |s.core.queue| + Total(Rank<T>, s.workers)
  }

  lemma DrainStep<T>(s: State<T>, e: Event<T>)
    requires s.core.stop && Enabled(s, e)
    ensures var r := Apply(s, e);
            && r.core.stop && r.core.drain == s.core.drain
            && Remaining(r) + (if IsWorkerEvent(e) then 1 else 0) <= Remaining(s)
  {
    var r := Apply(s, e);
    match e
    case Take(w, _) => TotalUpdate(Rank<T>, s.workers, w, r.workers[w]);
    case StirWorker(w) => TotalUpdate(Rank<T>, s.workers, w, r.workers[w]);
    case Finish(w) => TotalUpdate(Rank<T>, s.workers, w, r.workers[w]);
    case TellWorkers => TotalMonotone(Rank<T>, r.workers, s.workers);
    case _ =>
  }

  /** From the stop flag on, a run can hold at most `Remaining` worker steps, whatever
      submitters and spurious wake-ups do in between. */
  lemma {:induction false} DrainTerminates<T>(s: State<T>, es: seq<Event<T>>)
    requires s.core.stop && Valid(s, es)
    ensures Count(IsWorkerEvent<T>, es) + Remaining(Final(s, es)) <= Remaining(s)
    ensures Final(s, es).core.stop && Final(s, es).core.drain == s.core.drain
    decreases |es|
  {
    if es != [] {
      DrainStep(s, es[0]);
      DrainTerminates(Apply(s, es[0]), es[1..]);
    }
  }

  lemma {:induction false} RankZero<T>(ws: seq<Worker<T>>)
    ensures Total(Rank<T>, ws) == 0 <==> forall i :: 0 <= i < |ws| ==> ws[i].Exited?
  {
    if ws != [] {
      RankZero(ws[1..]);
      assert forall i :: 0 < i < |ws| ==> ws[i] == ws[1..][i - 1];
      assert forall i :: 0 <= i < |ws| - 1 ==> ws[1..][i] == ws[i + 1];
    }
  }

  /** After `stop` and its notify_all, a pool whose workers have no move left has run every
      accepted task exactly once, in order of submission, and all its workers are gone. */
  lemma StopRunsEverything<T>(n: nat, k: nat, depth: nat, reject: bool, es: seq<Event<T>>)
    requires Valid(Init<T>(n, k, depth, reject), es)
    ensures var s := Final(Init<T>(n, k, depth, reject), es);
            s.toldWorkers && !CanProgress(s) ==>
              && Remaining(s) == 0
              && (forall w :: 0 <= w < |s.workers| ==> s.workers[w].Exited?)
              && (s.core.drain ==> s.popped == s.accepted && multiset(s.finished) == multiset(s.accepted))
  {
    InitInv<T>(n, k, depth, reject);
    RunInv(Init<T>(n, k, depth, reject), es);
    var s := Final(Init<T>(n, k, depth, reject), es);
    if s.toldWorkers && !CanProgress(s) {
      CountBounds(IsAsleep<T>, s.workers);
      forall w: nat | w < |s.workers| ensures s.workers[w].Exited? {
        if !s.workers[w].Exited? {
          WorkerCanMove(s, w);
        }
      }
      RankZero(s.workers);
      AllGone(s);
    }
  }

  /** Once every worker has exited nothing is left behind. */
  lemma AllGone<T>(s: State<T>)
    requires Inv(s) && forall w :: 0 <= w < |s.workers| ==> s.workers[w].Exited?
    ensures s.core.stop && s.core.queue == []
    ensures s.core.drain ==> s.popped == s.accepted && multiset(s.finished) == multiset(s.accepted)
  {
    CountAt(IsExited<T>, s.workers, 0);
    BagOfNone(s.workers);
  }
}

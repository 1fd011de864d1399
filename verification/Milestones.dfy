/** Points every client passes at most once.  A milestone is given by the stages that are past it; a client is past
    it for good once one of its stages is, or once it is closed. */
module Milestones {
  import opened Counting
  import R = Router
  import RI = RouterInvariants
  import H = Handler

  /** `h` marks, for client c, the open stages that are past some point: not an idle worker, not a request just taken
      off the queue, and no act but closing the client leads back. */
  ghost predicate IsMilestone(h: (R.Stage, nat) -> nat) {
    && (forall c :: h(R.Idle, c) == 0)
    && (forall fd, c :: h(R.Serving(fd, H.Popped), c) == 0 && h(R.Serving(fd, H.Done), c) == 0)
    && (forall st, c :: h(st, c) <= R.OpenFd(st, c))
    && (forall fd, p, a, c :: H.Advance(p, a).Some? ==>
          h(R.Serving(fd, p), c) <= h(R.Serving(fd, H.Advance(p, a).value), c) + (if H.Closes(a) && c == fd then 1 else 0))
  }

  function Past(h: (R.Stage, nat) -> nat, r: R.State, c: nat): nat {
    Tally(h, r.stages, c) + Tally(IsId, r.closed, c)
  }

  lemma WorkPast(h: (R.Stage, nat) -> nat, r: R.State, w: nat, a: H.Act, c: nat)
    requires IsMilestone(h) && R.Shape(r) && R.Enabled(r, R.Work(w, a))
    ensures Past(h, R.Apply(r, R.Work(w, a)), c) >= Past(h, r, c)
  {
    var fd, p := r.stages[w].fd, r.stages[w].at;
    assert h(R.Serving(fd, p), c) <= h(R.Serving(fd, H.Advance(p, a).value), c) + (if H.Closes(a) && c == fd then 1 else 0);
    TallyUpdate(h, r.stages, w, R.Serving(fd, H.Advance(p, a).value), c);
    TallySnoc(IsId, r.closed, fd, c);
  }

  lemma FetchPast(h: (R.Stage, nat) -> nat, r: R.State, w: nat, wake: nat, c: nat)
    requires IsMilestone(h) && RI.Linked(r) && R.Enabled(r, R.Fetch(w, wake))
    ensures Past(h, R.Apply(r, R.Fetch(w, wake)), c) == Past(h, r, c)
  {
    RI.FetchOutcome(r, w, wake);
    if r.pool.core.queue != [] {
      TallyUpdate(h, r.stages, w, R.Serving(r.pool.core.queue[0], H.Popped), c);
    }
  }

  lemma ReturnPast(h: (R.Stage, nat) -> nat, r: R.State, w: nat, c: nat)
    requires IsMilestone(h) && R.Shape(r) && R.Enabled(r, R.Return(w))
    ensures Past(h, R.Apply(r, R.Return(w)), c) == Past(h, r, c)
  {
    assert r.stages[w] == R.Serving(r.stages[w].fd, H.Done);
    TallyUpdate(h, r.stages, w, R.Idle, c);
  }

  /** The other steps of the router leave its stages alone and close no client but a refused one. */
  lemma AsideStages(r: R.State, e: R.Event)
    requires R.Shape(r) && R.Enabled(r, e) && !e.Work? && !e.Fetch? && !e.Return?
    ensures var q := R.Apply(r, e);
            && q.stages == r.stages && q.completed == r.completed
            && q.closed == if e.CloseRefused? then r.closed + [r.acceptor.fd] else r.closed
  {
  }

  lemma StepPast(h: (R.Stage, nat) -> nat, r: R.State, e: R.Event, c: nat)
    requires IsMilestone(h) && RI.Linked(r) && R.Enabled(r, e)
    ensures Past(h, R.Apply(r, e), c) >= Past(h, r, c)
  {
    if e.Work? {
      WorkPast(h, r, e.w, e.act, c);
    } else if e.Fetch? {
      FetchPast(h, r, e.w, e.wake, c);
    } else if e.Return? {
      ReturnPast(h, r, e.w, c);
    } else {
      AsideStages(r, e);
      if e.CloseRefused? {
        TallySnoc(IsId, r.closed, r.acceptor.fd, c);
      }
    }
  }

  lemma {:induction false} WithinOpen(h: (R.Stage, nat) -> nat, stages: seq<R.Stage>, c: nat)
    requires IsMilestone(h)
    ensures Tally(h, stages, c) <= Tally(R.OpenFd, stages, c)
  {
    if stages != [] {
      WithinOpen(h, stages[1..], c);
    }
  }

  lemma {:induction false} BelowOpen(h: (R.Stage, nat) -> nat, stages: seq<R.Stage>, w: nat, c: nat)
    requires IsMilestone(h) && w < |stages| && R.OpenFd(stages[w], c) == 1 && h(stages[w], c) == 0
    ensures Tally(h, stages, c) + 1 <= Tally(R.OpenFd, stages, c)
  {
    if w == 0 {
      WithinOpen(h, stages[1..], c);
    } else {
      BelowOpen(h, stages[1..], w - 1, c);
    }
  }

  /** A client in the hands of a worker that is short of the milestone has not passed it before: there is no
      other worker on it and it is not closed. */
  lemma NotYetPast(h: (R.Stage, nat) -> nat, r: R.State, w: nat)
    requires IsMilestone(h) && RI.Owned(r) && w < |r.stages| && r.stages[w].Serving?
    requires H.ClientOpen(r.stages[w].at) && h(r.stages[w], r.stages[w].fd) == 0
    ensures Past(h, r, r.stages[w].fd) == 0
  {
    var c := r.stages[w].fd;
    assert RI.Places(r, c) == if c < r.arrivals then 1 else 0;
    BelowOpen(h, r.stages, w, c);
  }

  /** All these clients are past the milestone, and they are different clients. */
  ghost predicate OnceEach(h: (R.Stage, nat) -> nat, r: R.State, fds: seq<nat>) {
    && (forall n :: 0 <= n < |fds| ==> Past(h, r, fds[n]) > 0)
    && (forall m, n :: 0 <= m < n < |fds| ==> fds[m] != fds[n])
  }

  lemma OnceEachStays(h: (R.Stage, nat) -> nat, r: R.State, e: R.Event, fds: seq<nat>)
    requires IsMilestone(h) && RI.Linked(r) && R.Enabled(r, e) && OnceEach(h, r, fds)
    ensures OnceEach(h, R.Apply(r, e), fds)
  {
    forall n | 0 <= n < |fds| ensures Past(h, R.Apply(r, e), fds[n]) > 0 {
      StepPast(h, r, e, fds[n]);
    }
  }

  /** A worker takes its client past the milestone: one more client, and a new one. */
  lemma OnceEachGrows(h: (R.Stage, nat) -> nat, r: R.State, w: nat, a: H.Act, fds: seq<nat>)
    requires IsMilestone(h) && RI.Linked(r) && RI.Owned(r) && R.Enabled(r, R.Work(w, a)) && OnceEach(h, r, fds)
    requires H.ClientOpen(r.stages[w].at) && h(r.stages[w], r.stages[w].fd) == 0
    requires h(R.Serving(r.stages[w].fd, H.Advance(r.stages[w].at, a).value), r.stages[w].fd) == 1
    ensures OnceEach(h, R.Apply(r, R.Work(w, a)), fds + [r.stages[w].fd])
  {
    var fd, q := r.stages[w].fd, R.Apply(r, R.Work(w, a));
    OnceEachStays(h, r, R.Work(w, a), fds);
    NotYetPast(h, r, w);
    TallyMember(h, q.stages, w, fd);
  }
}

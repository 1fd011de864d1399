/** One backend connection as a byte stream in each direction: what the router has sent, what the
    backend has answered, and how far the router has read. */
module Conversation {
  import opened Wire

  /** `sent` is every byte handed to the backend.  The backend answers complete request frames in order,
      one frame each: `answers` are its answers so far.  `taken` bytes of them have been read, and
      `heard` whole answers have been read successfully. */
  datatype Line = Line(sent: Bytes, answers: seq<Bytes>, taken: nat, heard: nat)

  function Fresh(): Line { Line([], [], 0, 0) }

  /** What can always be said: the backend has not answered more than it was asked, the router has not
      read more than was answered. */
  ghost predicate Sane(l: Line) {
    && Sendable(l.answers) && |l.answers| <= |Frames(l.sent)|
    && l.taken <= |EncodeAll(l.answers)| && l.heard <= |l.answers|
  }

  /** At a frame boundary in both directions, with every request answered and every answer read. */
  ghost predicate Clean(l: Line) {
    && Sane(l) && l.sent == EncodeAll(Frames(l.sent))
    && |l.answers| == |Frames(l.sent)| && l.taken == |EncodeAll(l.answers)| && l.heard == |l.answers|
  }

  /** Exactly one request, `req`, is outstanding, and none of its answer has been read. */
  ghost predicate Pending(l: Line, req: Bytes) {
    var fs := Frames(l.sent);
    && Sane(l) && l.sent == EncodeAll(fs)
    && fs != [] && fs[|fs| - 1] == req && l.heard == |fs| - 1
    && |l.answers| >= |fs| - 1 && l.taken == |EncodeAll(l.answers[..|fs| - 1])|
  }

  function Unread(l: Line): Bytes
    requires Sendable(l.answers) && l.taken <= |EncodeAll(l.answers)|
  {
    EncodeAll(l.answers)[l.taken..]
  }

  /** The n-th request frame was `req` and the n-th answer, read to the end, was `resp`. */
  ghost predicate Paired(l: Line, n: nat, req: Bytes, resp: Bytes) {
    && n < l.heard <= |l.answers| && n < |Frames(l.sent)|
    && Frames(l.sent)[n] == req && l.answers[n] == resp
  }

  function Send(l: Line, bytes: Bytes): Line { l.(sent := l.sent + bytes) }
  function Answer(l: Line, m: Bytes): Line { l.(answers := l.answers + [m]) }
  function Take(l: Line, n: nat): Line { l.(taken := l.taken + n) }
  function Hear(l: Line, n: nat): Line { l.(taken := l.taken + n, heard := l.heard + 1) }

  lemma FreshIsClean()
    ensures Clean(Fresh())
  {
  }

  lemma SendSane(l: Line, bytes: Bytes)
    requires Sane(l)
    ensures Sane(Send(l, bytes)) && Frames(l.sent) <= Frames(l.sent + bytes)
  {
    FramesGrow(l.sent, bytes);
  }

  /** A whole frame written on a clean line leaves exactly that request pending. */
  lemma SendWhole(l: Line, req: Bytes)
    requires Clean(l) && |req| <= MAX_LENGTH
    ensures Pending(Send(l, Encode(req)), req)
  {
    var fs := Frames(l.sent);
    FramesSnoc(fs, req);
    assert l.answers[..|fs|] == l.answers;
  }

  lemma {:induction false} PrefixShorter(ms: seq<Bytes>, n: nat)
    requires Sendable(ms) && n <= |ms|
    ensures Sendable(ms[..n]) && Sendable(ms[n..]) && EncodeAll(ms) == EncodeAll(ms[..n]) + EncodeAll(ms[n..])
  {
    assert ms[..n] + ms[n..] == ms;
    EncodeAllConcat(ms[..n], ms[n..]);
  }

  lemma AnswerSane(l: Line, m: Bytes)
    requires Sane(l) && |l.answers| < |Frames(l.sent)| && |m| <= MAX_LENGTH
    ensures Sane(Answer(l, m))
  {
    EncodeAllSnoc(l.answers, m);
  }

  /** The backend can answer a pending request, once; a clean line it cannot touch. */
  lemma AnswerPending(l: Line, m: Bytes, req: Bytes)
    requires Pending(l, req) && |l.answers| < |Frames(l.sent)| && |m| <= MAX_LENGTH
    ensures Pending(Answer(l, m), req)
  {
    AnswerSane(l, m);
    assert Answer(l, m).answers[..|Frames(l.sent)| - 1] == l.answers[..|Frames(l.sent)| - 1];
  }

  /** What is unread on a pending line: nothing yet, or exactly the one answer. */
  lemma UnreadPending(l: Line, req: Bytes)
    requires Pending(l, req)
    ensures |l.answers| == l.heard ==> Unread(l) == []
    ensures |l.answers| > l.heard ==> |l.answers| == l.heard + 1 && Unread(l) == Encode(l.answers[l.heard])
  {
    var n := l.heard;
    PrefixShorter(l.answers, n);
    if |l.answers| > n {
      assert l.answers[n..] == [l.answers[n]];
      assert EncodeAll([l.answers[n]]) == Encode(l.answers[n]) + EncodeAll([]);
    }
  }

  /** A successful read on a pending line returns the answer to that very request, and the line is
      clean again. */
  lemma HearAnswer(l: Line, req: Bytes, maxPayload: nat)
    requires Pending(l, req) && ParseFrame(Unread(l), maxPayload).status.Ok?
    ensures var p := ParseFrame(Unread(l), maxPayload);
            && Clean(Hear(l, p.consumed)) && Paired(Hear(l, p.consumed), l.heard, req, p.payload)
  {
    UnreadPending(l, req);
    var n := l.heard;
    var m := l.answers[n];
    assert Encode(m) + [] == Encode(m);
    EncodeParsed(Unread(l), maxPayload);
    AnnouncedHeader(|m|);
    assert Encode(m)[..4] == Header(|m|);
    ParseEncoded(m, [], maxPayload);
    PrefixShorter(l.answers, n);
    assert l.answers[n..] == [m];
    assert EncodeAll([m]) == Encode(m) + EncodeAll([]);
  }

  lemma TakeSane(l: Line, n: nat)
    requires Sane(l) && n <= |Unread(l)|
    ensures Sane(Take(l, n))
  {
  }

  /** Exchanges that have happened stay what they were. */
  lemma PairedStays(l: Line, l': Line, n: nat, req: Bytes, resp: Bytes)
    requires Paired(l, n, req, resp)
    requires Frames(l.sent) <= Frames(l'.sent) && l.answers <= l'.answers && l.heard <= l'.heard <= |l'.answers|
    ensures Paired(l', n, req, resp)
  {
    assert Frames(l.sent) == Frames(l'.sent)[..|Frames(l.sent)|];
    assert l.answers == l'.answers[..|l.answers|];
  }
}

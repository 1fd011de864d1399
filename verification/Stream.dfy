/** The blocking read and write loops of src/connection.cpp and src/tls.cpp, over a stream whose
    kernel or TLS library answers each call as a script says. */
module Streams {
  import opened Wire

  /** What one turn of a read or write loop meets.
      Move(n): the call transfers up to n bytes (at least one on a read, if any are left).
      Again: EINTR or EAGAIN on a plain socket; WANT_READ or WANT_WRITE and a poll that
             returns ready or is interrupted on a TLS one.
      Expire: poll runs into the deadline.
      Reset: the peer is gone: EPIPE or ECONNRESET on a plain socket, a close alert during a TLS write.
      Fail: any other error, from poll or from the call. */
  datatype Turn = Move(n: nat) | Again | Expire | Reset | Fail

  predicate Steady(turns: seq<Turn>) {
    forall i :: 0 <= i < |turns| ==> turns[i].Move? || turns[i].Again?
  }

  /** Turns that can transfer a byte. */
  function Moves(turns: seq<Turn>): nat {
    if turns == [] then 0 else (if turns[0].Move? && turns[0].n > 0 then 1 else 0) + Moves(turns[1..])
  }

  /** Turn `t` ends a loop with status `st`. */
  predicate Stops(t: Turn, st: IoStatus, writing: bool) {
    match t
    case Expire => st.Timeout?
    case Fail => st.IoError?
    case Reset => if writing then st.PeerClosed? else st.IoError?
    case Move(_) => !writing && st.PeerClosed?
    case Again => false
  }

  /** Why a loop ended as it did, after `used` turns: on success, and when the script ran out, none of them was in the way;
      otherwise the last of them was, the first that was, and it decides the status. */
  ghost predicate Explains(before: seq<Turn>, used: nat, after: seq<Turn>, st: IoStatus, writing: bool) {
    && used <= |before| && after == before[used..]
    && (if st.Ok? || (st.Timeout? && used == |before| && Steady(before)) then Steady(before[..used])
        else used > 0 && Steady(before[..used - 1]) && Stops(before[used - 1], st, writing))
  }

  /** A loop still under way has met nothing that would end it. */
  ghost predicate UnderWay(before: seq<Turn>, used: nat, now: seq<Turn>) {
    used <= |before| && now == before[used..] && Steady(before[..used])
  }

  lemma NextTurn(before: seq<Turn>, used: nat, now: seq<Turn>)
    requires UnderWay(before, used, now) && now != []
    ensures now[0] == before[used] && now[1..] == before[used + 1..] && before[..used + 1][..used] == before[..used]
    ensures now[0].Move? || now[0].Again? ==> UnderWay(before, used + 1, now[1..])
    ensures forall st, writing :: Stops(now[0], st, writing) && !st.Ok? ==> Explains(before, used + 1, now[1..], st, writing)
  {
  }

  lemma RanOut(before: seq<Turn>, used: nat, now: seq<Turn>)
    requires UnderWay(before, used, now) && now == []
    ensures forall writing :: Explains(before, used, now, Timeout, writing)
  {
    assert before[..used] == before;
  }

  /** One loop after another that succeeded. */
  lemma ThenExplains(before: seq<Turn>, u: nat, mid: seq<Turn>, v: nat, after: seq<Turn>, st: IoStatus, writing: bool)
    requires Explains(before, u, mid, Ok, writing) && Explains(mid, v, after, st, writing)
    ensures Explains(before, u + v, after, st, writing)
  {
    assert mid[v..] == before[u + v..];
    if st.Ok? {
      assert before[..u + v] == before[..u] + mid[..v];
    } else if v > 0 {
      assert before[..u + v - 1] == before[..u] + mid[..v - 1];
    }
    if v == |mid| {
      assert before == before[..u] + mid;
    }
  }

  function Min(a: nat, b: nat): nat { if a < b then a else b }
  function Max(a: nat, b: nat): nat { if a > b then a else b }

  /** `s` loses a prefix and becomes `t`; how long the prefix was. */
  ghost predicate Drops(s: Bytes, t: Bytes, n: nat) {
    n <= |s| && t == s[n..]
  }

  /** The first `n` bytes of two pieces sent one after the other. */
  lemma Concatenated(sent: Bytes, a: Bytes, b: Bytes, n: nat)
    requires n <= |a| + |b|
    ensures sent + (a + b)[..n] == if n <= |a| then sent + a[..n] else (sent + a[..]) + b[..n - |a|]
    ensures a[..] == a[..|a|]
  {
  }

  /** What the call put into the buffer from position `at` on. */
  method Deliver(buf: array<bv8>, at: nat, bytes: Bytes)
    requires at + |bytes| <= buf.Length
    modifies buf
    ensures buf[..at + |bytes|] == old(buf[..at]) + bytes
  {
    forall j | 0 <= j < |bytes| { buf[at + j] := bytes[j]; }
  }

  /** One end of a connection: `ssl` says whether it is wrapped in TLS.  `inbox` is what the peer
      will still deliver, after which it closes the connection if `closes`; `outbox` is what has been
      handed over for sending.  A script that runs out stands for a poll that meets its deadline. */
  class Stream {
    const ssl: bool
    const host: Host
    const closes: bool
    var inbox: Bytes
    var outbox: Bytes
    var turns: seq<Turn>

    constructor (ssl: bool, host: Host, closes: bool, inbox: Bytes, turns: seq<Turn>)
      ensures this.ssl == ssl && this.host == host && this.closes == closes
      ensures this.inbox == inbox && this.outbox == [] && this.turns == turns
    {
      this.ssl, this.host, this.closes := ssl, host, closes;
      this.inbox, this.outbox, this.turns := inbox, [], turns;
    }

    // -------------------------------------------------------------- plain sockets

    /** `read_exact`: how much was read, what ended up in the buffer, and why it stopped. */
    method ReadExact(buf: array<bv8>, need: nat) returns (st: IoStatus, ghost n: nat, ghost used: nat)
      requires need <= buf.Length
      modifies this`inbox, this`turns, buf
      ensures Drops(old(inbox), inbox, n) && n <= need && buf[..n] == old(inbox)[..n]
      ensures st.Ok? <==> n == need
      ensures st.PeerClosed? ==> closes && inbox == []
      ensures !st.ProtocolError?
      ensures Steady(old(turns)) ==> Steady(turns) && !st.IoError?
      ensures Steady(old(turns)) && |old(inbox)| >= need ==> Moves(turns) + n >= Moves(old(turns))
      ensures Steady(old(turns)) && Moves(old(turns)) > Min(need, |old(inbox)|) && (closes || |old(inbox)| >= need) ==> !st.Timeout?
      ensures Explains(old(turns), used, turns, st, false)
    {
      var got := 0;
      n, used := 0, 0;
      while got < need
        invariant n == got <= need && Drops(old(inbox), inbox, n) && buf[..n] == old(inbox)[..n]
        invariant Steady(old(turns)) ==> Steady(turns)
        invariant closes || |old(inbox)| >= need ==> Moves(turns) + n >= Moves(old(turns))
        invariant UnderWay(old(turns), used, turns)
        decreases |turns|
      {
        if turns == [] {
          RanOut(old(turns), used, turns);
          return Timeout, n, used;
        }
        NextTurn(old(turns), used, turns);
        var turn := turns[0];
        turns := turns[1..];
        used := used + 1;
        match turn
        case Expire => return Timeout, n, used;
        case Fail => return IoError, n, used;
        case Reset => return IoError, n, used;
        case Again =>
        case Move(k) =>
          if inbox == [] {
            if closes { return PeerClosed, n, used; }
          } else {
            var m := Min(Max(k, 1), Min(need - got, |inbox|));
            Deliver(buf, got, inbox[..m]);
            assert old(inbox)[..got + m] == old(inbox)[..got] + inbox[..m];
            inbox := inbox[m..];
            got := got + m;
            n := got;
          }
      }
      return Ok, n, used;
    }

    /** `write_exact`: a prefix of the data is sent, all of it exactly on success. */
    method WriteExact(data: Bytes) returns (st: IoStatus, ghost n: nat, ghost used: nat)
      modifies this`outbox, this`turns
      ensures n <= |data| && outbox == old(outbox) + data[..n]
      ensures st.Ok? <==> n == |data|
      ensures !st.ProtocolError?
      ensures Steady(old(turns)) ==> Steady(turns) && (st.Ok? || st.Timeout?) && Moves(turns) + n >= Moves(old(turns))
      ensures Steady(old(turns)) && Moves(old(turns)) >= |data| ==> st.Ok?
      ensures Explains(old(turns), used, turns, st, true)
    {
      var sent := 0;
      n, used := 0, 0;
      while sent < |data|
        invariant n == sent <= |data| && outbox == old(outbox) + data[..n]
        invariant Steady(old(turns)) ==> Steady(turns) && Moves(turns) + n >= Moves(old(turns))
        invariant UnderWay(old(turns), used, turns)
        decreases |turns|
      {
        if turns == [] {
          RanOut(old(turns), used, turns);
          return Timeout, n, used;
        }
        NextTurn(old(turns), used, turns);
        var turn := turns[0];
        turns := turns[1..];
        used := used + 1;
        match turn
        case Expire => return Timeout, n, used;
        case Fail => return IoError, n, used;
        case Reset => return PeerClosed, n, used;
        case Again =>
        case Move(k) =>
          var m := Min(k, |data| - sent);
          assert data[..sent + m] == data[..sent] + data[sent..sent + m];
          outbox := outbox + data[sent..sent + m];
          sent := sent + m;
          n := sent;
      }
      return Ok, n, used;
    }

    // -------------------------------------------------------------- TLS

    /** `pump_ssl` around SSL_read: retries until bytes arrive or it has to give up. */
    method PumpRead(want: nat) returns (st: IoStatus, chunk: Bytes, ghost used: nat)
      requires want > 0
      modifies this`inbox, this`turns
      ensures old(inbox) == chunk + inbox && |chunk| <= want
      ensures st.Ok? <==> chunk != []
      ensures st.PeerClosed? ==> closes && inbox == []
      ensures !st.ProtocolError?
      ensures |turns| <= |old(turns)|
      ensures Steady(old(turns)) ==> Steady(turns) && !st.IoError?
      ensures Steady(old(turns)) && old(inbox) != [] ==> Moves(turns) + |chunk| >= Moves(old(turns))
      ensures Steady(old(turns)) && Moves(old(turns)) > 0 && (closes || old(inbox) != []) ==> !st.Timeout?
      ensures Explains(old(turns), used, turns, st, false)
    {
      used := 0;
      while true
        invariant inbox == old(inbox)
        invariant |turns| <= |old(turns)|
        invariant Steady(old(turns)) ==> Steady(turns)
        invariant closes || old(inbox) != [] ==> Moves(turns) == Moves(old(turns))
        invariant UnderWay(old(turns), used, turns)
        decreases |turns|
      {
        if turns == [] {
          RanOut(old(turns), used, turns);
          return Timeout, [], used;
        }
        NextTurn(old(turns), used, turns);
        var turn := turns[0];
        turns := turns[1..];
        used := used + 1;
        match turn
        case Expire => return Timeout, [], used;
        case Fail => return IoError, [], used;
        case Reset => return IoError, [], used;
        case Again =>
        case Move(k) =>
          if inbox == [] {
            if closes { return PeerClosed, [], used; }
          } else {
            var m := Min(Max(k, 1), Min(want, |inbox|));
            chunk := inbox[..m];
            inbox := inbox[m..];
            return Ok, chunk, used;
          }
      }
    }

    /** `tls_read_exact`: the same contract as the plain loop. */
    method TlsReadExact(buf: array<bv8>, need: nat) returns (st: IoStatus, ghost n: nat, ghost used: nat)
      requires need <= buf.Length
      modifies this`inbox, this`turns, buf
      ensures Drops(old(inbox), inbox, n) && n <= need && buf[..n] == old(inbox)[..n]
      ensures st.Ok? <==> n == need
      ensures st.PeerClosed? ==> closes && inbox == []
      ensures !st.ProtocolError?
      ensures Steady(old(turns)) ==> Steady(turns) && !st.IoError?
      ensures Steady(old(turns)) && |old(inbox)| >= need ==> Moves(turns) + n >= Moves(old(turns))
      ensures Steady(old(turns)) && Moves(old(turns)) > Min(need, |old(inbox)|) && (closes || |old(inbox)| >= need) ==> !st.Timeout?
      ensures Explains(old(turns), used, turns, st, false)
    {
      var got := 0;
      n, used := 0, 0;
      while got < need
        invariant n == got <= need && Drops(old(inbox), inbox, n) && buf[..n] == old(inbox)[..n]
        invariant Steady(old(turns)) ==> Steady(turns)
        invariant Steady(old(turns)) && (closes || |old(inbox)| >= need) ==> Moves(turns) + n >= Moves(old(turns))
        invariant UnderWay(old(turns), used, turns)
        decreases need - got
      {
        ghost var mid := turns;
        var rc, chunk, more := PumpRead(need - got);
        ThenExplains(old(turns), used, mid, more, turns, rc, false);
        used := used + more;
        if rc != Ok { return rc, n, used; }
        Deliver(buf, got, chunk);
        assert old(inbox)[..got + |chunk|] == old(inbox)[..got] + chunk;
        got := got + |chunk|;
        n := got;
      }
      return Ok, n, used;
    }

    /** `pump_ssl` around SSL_write, with partial writes enabled. */
    method PumpWrite(data: Bytes) returns (st: IoStatus, n: nat, ghost used: nat)
      requires data != []
      modifies this`outbox, this`turns
      ensures n <= |data| && outbox == old(outbox) + data[..n]
      ensures st.Ok? <==> n > 0
      ensures !st.ProtocolError?
      ensures Steady(old(turns)) ==> Steady(turns) && (st.Ok? || st.Timeout?) && Moves(turns) + n >= Moves(old(turns))
      ensures Steady(old(turns)) && Moves(old(turns)) > 0 ==> st.Ok?
      ensures Explains(old(turns), used, turns, st, true)
    {
      used := 0;
      while true
        invariant outbox == old(outbox)
        invariant Steady(old(turns)) ==> Steady(turns)
        invariant Moves(turns) == Moves(old(turns))
        invariant UnderWay(old(turns), used, turns)
        decreases |turns|
      {
        if turns == [] {
          RanOut(old(turns), used, turns);
          return Timeout, 0, used;
        }
        NextTurn(old(turns), used, turns);
        var turn := turns[0];
        turns := turns[1..];
        used := used + 1;
        match turn
        case Expire => return Timeout, 0, used;
        case Fail => return IoError, 0, used;
        case Reset => return PeerClosed, 0, used;
        case Again =>
        case Move(k) =>
          n := Min(Max(k, 1), |data|);
          outbox := outbox + data[..n];
          return Ok, n, used;
      }
    }

    /** `tls_write_exact`: the same contract as the plain loop. */
    method TlsWriteExact(data: Bytes) returns (st: IoStatus, ghost n: nat, ghost used: nat)
      modifies this`outbox, this`turns
      ensures n <= |data| && outbox == old(outbox) + data[..n]
      ensures st.Ok? <==> n == |data|
      ensures !st.ProtocolError?
      ensures Steady(old(turns)) ==> Steady(turns) && (st.Ok? || st.Timeout?) && Moves(turns) + n >= Moves(old(turns))
      ensures Steady(old(turns)) && Moves(old(turns)) >= |data| ==> st.Ok?
      ensures Explains(old(turns), used, turns, st, true)
    {
      var sent := 0;
      n, used := 0, 0;
      while sent < |data|
        invariant n == sent <= |data| && outbox == old(outbox) + data[..n]
        invariant Steady(old(turns)) ==> Steady(turns) && Moves(turns) + n >= Moves(old(turns))
        invariant UnderWay(old(turns), used, turns)
        decreases |data| - sent
      {
        ghost var mid := turns;
        var rc, m, more := PumpWrite(data[sent..]);
        ThenExplains(old(turns), used, mid, more, turns, rc, true);
        used := used + more;
        assert data[..sent + m] == data[..sent] + data[sent..][..m];
        n := sent + m;
        if rc != Ok { return rc, n, used; }
        sent := sent + m;
      }
      return Ok, n, used;
    }

    // -------------------------------------------------------------- messages

    /** The hand-written swap of the TLS path assumes a little-endian host. */
    predicate HeaderSound() {
      !ssl || host.LittleEndian?
    }

    /** Either exact reader, by the kind of stream. */
    method Fill(buf: array<bv8>, need: nat) returns (st: IoStatus, ghost n: nat, ghost used: nat)
      requires need <= buf.Length
      modifies this`inbox, this`turns, buf
      ensures Drops(old(inbox), inbox, n) && n <= need && buf[..n] == old(inbox)[..n]
      ensures st.Ok? <==> n == need
      ensures st.PeerClosed? ==> closes && inbox == []
      ensures !st.ProtocolError?
      ensures Steady(old(turns)) ==> Steady(turns) && !st.IoError?
      ensures Steady(old(turns)) && |old(inbox)| >= need ==> Moves(turns) + n >= Moves(old(turns))
      ensures Steady(old(turns)) && Moves(old(turns)) > Min(need, |old(inbox)|) && (closes || |old(inbox)| >= need) ==> !st.Timeout?
      ensures Explains(old(turns), used, turns, st, false)
    {
      if ssl { st, n, used := TlsReadExact(buf, need); } else { st, n, used := ReadExact(buf, need); }
    }

    /** The four header bytes, as the number the code makes of them. */
    method ReadHeader() returns (st: IoStatus, len: nat, ghost n: nat, ghost used: nat)
      modifies this`inbox, this`turns
      ensures Drops(old(inbox), inbox, n) && n <= 4 && (st.Ok? <==> n == 4)
      ensures HeaderSound() && st.Ok? ==> len == Announced(old(inbox)[..4])
      ensures st.PeerClosed? ==> closes && inbox == []
      ensures !st.ProtocolError?
      ensures Steady(old(turns)) ==> Steady(turns) && !st.IoError?
      ensures Steady(old(turns)) && st.Ok? ==> Moves(turns) + n >= Moves(old(turns))
      ensures Steady(old(turns)) && Moves(old(turns)) > |old(inbox)| && (closes || |old(inbox)| >= 4) ==> !st.Timeout?
      ensures Explains(old(turns), used, turns, st, false)
    {
      var hdr := new bv8[4];
      st, n, used := Fill(hdr, 4);
      len := 0;
      if st != Ok { return; }
      var netLen := Load(host, hdr[..]);
      len := (if ssl then ManualSwap(netLen) else NetworkOrder(host, netLen)) as int;
      assert hdr[..] == hdr[..4] == old(inbox)[..4];
      PlainLength(host, hdr[..]);
    }

    method ReadBody(len: nat) returns (st: IoStatus, out: Bytes, ghost n: nat, ghost used: nat)
      modifies this`inbox, this`turns
      ensures Drops(old(inbox), inbox, n) && n <= len && (st.Ok? <==> n == len)
      ensures st.Ok? ==> out == old(inbox)[..len]
      ensures st.PeerClosed? ==> closes && inbox == []
      ensures !st.ProtocolError?
      ensures Steady(old(turns)) ==> Steady(turns) && !st.IoError?
      ensures Steady(old(turns)) && st.Ok? ==> Moves(turns) + n >= Moves(old(turns))
      ensures Steady(old(turns)) && Moves(old(turns)) > |old(inbox)| && (closes || |old(inbox)| >= len) ==> !st.Timeout?
      ensures Explains(old(turns), used, turns, st, false)
    {
      var body := new bv8[len];
      st, n, used := Fill(body, len);
      out := body[..];
      assert body[..] == body[..len];
    }

    /** `read_message`, on a plain socket or through TLS.  Success means that exactly one frame was taken
        and that the in-memory decoder makes the same of it.  With no timeout or error in the way
        the two agree on every stream that ends. */
    method ReadMessage(maxPayload: nat) returns (st: IoStatus, out: Bytes, ghost n: nat, ghost used: nat)
      modifies this`inbox, this`turns
      ensures Drops(old(inbox), inbox, n)
      ensures HeaderSound() && st.Ok? ==> ParseFrame(old(inbox), maxPayload) == Parse(Ok, out, n)
      ensures HeaderSound() && st.ProtocolError? ==> n == 4 && ParseFrame(old(inbox), maxPayload).status.ProtocolError?
      ensures HeaderSound() && Steady(old(turns)) && Moves(old(turns)) > |old(inbox)|
              && (closes || ParseFrame(old(inbox), maxPayload).status.Ok?)
              ==> st == ParseFrame(old(inbox), maxPayload).status
      ensures Steady(old(turns)) ==> Steady(turns)
      ensures Steady(old(turns)) && st.Ok? ==> Moves(turns) + n >= Moves(old(turns))
      ensures if st.ProtocolError? then Explains(old(turns), used, turns, Ok, false) else Explains(old(turns), used, turns, st, false)
      ensures HeaderSound() && n >= 4 ==> (st.ProtocolError? <==> ParseFrame(old(inbox), maxPayload).status.ProtocolError?)
    {
      var len;
      st, len, n, used := ReadHeader();
      out := [];
      if st != Ok { return; }
      if len > maxPayload { return ProtocolError, [], n, used; }
      if len == 0 { return Ok, [], n, used; }
      ghost var m, more;
      ghost var mid := turns;
      st, out, m, more := ReadBody(len);
      ThenExplains(old(turns), used, mid, more, turns, st, false);
      n, used := n + m, used + more;
    }

    /** Either exact writer, by the kind of stream. */
    method Send(data: Bytes) returns (st: IoStatus, ghost n: nat, ghost used: nat)
      modifies this`outbox, this`turns
      ensures n <= |data| && outbox == old(outbox) + data[..n]
      ensures st.Ok? <==> n == |data|
      ensures !st.ProtocolError?
      ensures Steady(old(turns)) ==> Steady(turns) && (st.Ok? || st.Timeout?) && Moves(turns) + n >= Moves(old(turns))
      ensures Steady(old(turns)) && Moves(old(turns)) >= |data| ==> st.Ok?
      ensures Explains(old(turns), used, turns, st, true)
    {
      if ssl { st, n, used := TlsWriteExact(data); } else { st, n, used := WriteExact(data); }
    }

    /** `write_message`, on a plain socket or through TLS: a prefix of the frame goes out,
        the whole frame exactly on success. */
    method WriteMessage(data: Bytes) returns (st: IoStatus, ghost n: nat, ghost used: nat)
      modifies this`outbox, this`turns
      ensures |data| > MAX_LENGTH ==> st.ProtocolError? && outbox == old(outbox) && turns == old(turns)
      ensures |data| <= MAX_LENGTH && HeaderSound() ==>
        n <= |Encode(data)| && outbox == old(outbox) + Encode(data)[..n] && (st.Ok? <==> n == |Encode(data)|)
      ensures |data| <= MAX_LENGTH && Steady(old(turns)) ==> Steady(turns) && Moves(turns) + n >= Moves(old(turns))
      ensures |data| <= MAX_LENGTH && Steady(old(turns)) && Moves(old(turns)) >= 4 + |data| ==> st.Ok?
      ensures |data| <= MAX_LENGTH ==> Explains(old(turns), used, turns, st, true)
    {
      n, used := 0, 0;
      if |data| > MAX_LENGTH { return ProtocolError, 0, 0; }
      var hdr := LengthWord(|data|);
      ghost var frame := hdr + data;
      assert HeaderSound() ==> frame == Encode(data);
      st, n, used := Send(hdr);
      Concatenated(old(outbox), hdr, data, n);
      if st != Ok { return; }
      if |data| == 0 { return; }
      ghost var m, more;
      ghost var mid := turns;
      st, m, more := Send(data);
      ThenExplains(old(turns), used, mid, more, turns, st, true);
      used := used + more;
      n := 4 + m;
      Concatenated(old(outbox), hdr, data, n);
    }

    /** `htonl` or the hand-written swap, then `memcpy`. */
    method LengthWord(size: nat) returns (hdr: Bytes)
      requires size <= MAX_LENGTH
      ensures |hdr| == 4 && (HeaderSound() ==> hdr == Header(size))
    {
      var len := size as bv32;
      hdr := Store(host, if ssl then ManualSwap(len) else NetworkOrder(host, len));
      PlainHeader(host, size);
    }

    /** `health_ping_`: alive means that one empty frame went out and one empty frame came back,
        and nothing else moved. */
    method HealthPing() returns (alive: bool)
      requires !ssl
      modifies this`inbox, this`outbox, this`turns
      ensures alive ==> outbox == old(outbox) + Encode([]) && old(inbox) == Encode([]) + inbox
      ensures Steady(old(turns)) && Moves(old(turns)) > |old(inbox)| + 4 && closes
              ==> (alive <==> Encode([]) <= old(inbox))
    {
      var rc, n, used := WriteMessage([]);
      if rc != Ok { return false; }
      if Encode([]) <= inbox {
        ParseEncoded([], inbox[4..], 16 * 1024 * 1024);
        assert inbox == Encode([]) + inbox[4..];
      }
      var reply;
      ghost var n2, used2;
      rc, reply, n2, used2 := ReadMessage(16 * 1024 * 1024);
      if rc != Ok { return false; }
      EncodeParsed(old(inbox), 16 * 1024 * 1024);
      return reply == [];
    }
  }

  // ---------------------------------------------------------------- whole conversations

  method SendAll(s: Stream, msgs: seq<Bytes>) returns (ok: bool)
    requires s.HeaderSound()
    modifies s`outbox, s`turns
    ensures ok ==> Sendable(msgs) && s.outbox == old(s.outbox) + EncodeAll(msgs)
    ensures Sendable(msgs) && Steady(old(s.turns)) && Moves(old(s.turns)) >= |EncodeAll(msgs)| ==> ok
  {
    var i := 0;
    while i < |msgs|
      invariant 0 <= i <= |msgs|
      invariant Sendable(msgs[..i]) && s.outbox == old(s.outbox) + EncodeAll(msgs[..i])
      invariant Steady(old(s.turns)) ==> Steady(s.turns) && Moves(s.turns) + |EncodeAll(msgs[..i])| >= Moves(old(s.turns))
    {
      var rc, n, used := s.WriteMessage(msgs[i]);
      if |msgs[i]| <= MAX_LENGTH {
        Extend(msgs, i);
      }
      if rc != Ok { return false; }
      assert Encode(msgs[i])[..n] == Encode(msgs[i]);
      i := i + 1;
    }
    assert msgs[..i] == msgs;
    return true;
  }

  /** How the encoding of a longer prefix of the messages grows. */
  lemma Extend(msgs: seq<Bytes>, i: nat)
    requires i < |msgs| && Sendable(msgs[..i]) && |msgs[i]| <= MAX_LENGTH
    ensures Sendable(msgs[..i + 1]) && EncodeAll(msgs[..i + 1]) == EncodeAll(msgs[..i]) + Encode(msgs[i])
    ensures Sendable(msgs) ==> |EncodeAll(msgs[..i])| + |Encode(msgs[i])| <= |EncodeAll(msgs)|
  {
    EncodeAllSnoc(msgs[..i], msgs[i]);
    assert msgs[..i] + [msgs[i]] == msgs[..i + 1];
    if Sendable(msgs) {
      EncodeAllConcat(msgs[..i + 1], msgs[i + 1..]);
      assert msgs[..i + 1] + msgs[i + 1..] == msgs;
    }
  }

  lemma ShiftOne<T>(got: seq<T>, rest: seq<T>)
    requires rest != []
    ensures (got + [rest[0]]) + rest[1..] == got + rest
    ensures (got + rest)[|got|] == rest[0]
  {
  }

  predicate Fits(msgs: seq<Bytes>, maxPayload: nat) {
    forall i :: 0 <= i < |msgs| ==> |msgs[i]| <= maxPayload
  }

  /** The next message of a well-formed stream, as the decoder sees it. */
  lemma NextFrame(rest: seq<Bytes>, following: Bytes, maxPayload: nat)
    requires Sendable(rest) && rest != []
    ensures var buf := EncodeAll(rest) + following;
            var p := ParseFrame(buf, maxPayload);
            && (p.status.Ok? <==> |rest[0]| <= maxPayload)
            && (p.status.Ok? ==> p.payload == rest[0] && p.consumed <= |buf|
                                 && buf[p.consumed..] == EncodeAll(rest[1..]) + following)
  {
    var m, tail := rest[0], EncodeAll(rest[1..]) + following;
    Reassociate(Encode(m), EncodeAll(rest[1..]), following);
    AnnouncedHeader(|m|);
    assert (Encode(m) + tail)[..4] == Header(|m|);
    if |m| <= maxPayload {
      ParseEncoded(m, tail, maxPayload);
      assert (Encode(m) + tail)[4 + |m|..] == tail;
    }
  }

  method ReceiveAll(s: Stream, count: nat, maxPayload: nat, ghost expected: seq<Bytes>, ghost following: Bytes)
    returns (ok: bool, got: seq<Bytes>)
    requires s.HeaderSound()
    requires Sendable(expected) && |expected| == count && s.inbox == EncodeAll(expected) + following
    modifies s`inbox, s`turns
    ensures ok ==> got == expected && s.inbox == following
    ensures (Steady(old(s.turns)) && Moves(old(s.turns)) > |old(s.inbox)|
             && Fits(expected, maxPayload)) ==> ok
  {
    got := [];
    ghost var rest := expected;
    while |got| < count
      invariant got + rest == expected && Sendable(rest) && s.inbox == EncodeAll(rest) + following
      invariant Steady(old(s.turns)) && Moves(old(s.turns)) > |old(s.inbox)| ==> Steady(s.turns) && Moves(s.turns) > |s.inbox|
      decreases count - |got|
    {
      NextFrame(rest, following, maxPayload);
      ShiftOne(got, rest);
      assert Fits(expected, maxPayload) ==> |expected[|got|]| <= maxPayload;
      var rc, out, n, used := s.ReadMessage(maxPayload);
      if rc != Ok { return false, got; }
      got := got + [out];
      rest := rest[1..];
    }
    return true, got;
  }

  /** Messages written by one end, plain or TLS, in any fragments, and read by the other end, plain
      or TLS, in any other fragments: what is read is what was written, in order, and the
      bytes that follow are left alone.  With room in both scripts the exchange succeeds. */
  method Relay(msgs: seq<Bytes>, following: Bytes, maxPayload: nat,
               writerSsl: bool, writerHost: Host, writeTurns: seq<Turn>,
               readerSsl: bool, readerHost: Host, readTurns: seq<Turn>)
    returns (ok: bool, got: seq<Bytes>, left: Bytes)
    requires writerSsl ==> writerHost.LittleEndian?
    requires readerSsl ==> readerHost.LittleEndian?
    ensures ok ==> got == msgs && left == following
    ensures (&& Sendable(msgs) && Fits(msgs, maxPayload)
             && Steady(writeTurns) && Moves(writeTurns) >= |EncodeAll(msgs)|
             && Steady(readTurns) && Moves(readTurns) > |EncodeAll(msgs)| + |following|) ==> ok
  {
    var w := new Stream(writerSsl, writerHost, false, [], writeTurns);
    ok := SendAll(w, msgs);
    if !ok { return false, [], []; }
    var r := new Stream(readerSsl, readerHost, false, w.outbox + following, readTurns);
    ok, got := ReceiveAll(r, |msgs|, maxPayload, msgs, following);
    left := r.inbox;
  }
}

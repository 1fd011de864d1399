/** The wire format: a 4-byte big-endian length, then that many payload bytes.
    Codec of src/connection.cpp and src/tls.cpp, and the in-memory decoder. */
module Wire {

  type Bytes = seq<bv8>

  const MAX_LENGTH: nat := 0xFFFF_FFFF

  datatype IoStatus = Ok | PeerClosed | Timeout | ProtocolError | IoError

  // ---------------------------------------------------------------- the length word

  datatype Host = LittleEndian | BigEndian

  /** The byte swap written out with masks and shifts in src/tls.cpp. */
  function ManualSwap(x: bv32): bv32 {
    ((x & 0xFF00_0000) >> 24) | ((x & 0x00FF_0000) >> 8) | ((x & 0x0000_FF00) << 8) | ((x & 0x0000_00FF) << 24)
  }

  /** `htonl`, and equally `ntohl`: a swap on a little-endian host, nothing on a big-endian one. */
  function NetworkOrder(host: Host, x: bv32): bv32 {
    if host.LittleEndian? then ManualSwap(x) else x
  }

  /** `memcpy` of a word into four bytes, and back. */
  function Store(host: Host, x: bv32): (b: Bytes)
    ensures |b| == 4
  {
    var b0, b1, b2, b3 := (x & 0xFF) as bv8, ((x >> 8) & 0xFF) as bv8, ((x >> 16) & 0xFF) as bv8, ((x >> 24) & 0xFF) as bv8;
    if host.LittleEndian? then [b0, b1, b2, b3] else [b3, b2, b1, b0]
  }

  function Load(host: Host, b: Bytes): bv32
    requires |b| == 4
  {
    if host.LittleEndian?
    then (b[0] as bv32) | ((b[1] as bv32) << 8) | ((b[2] as bv32) << 16) | ((b[3] as bv32) << 24)
    else (b[3] as bv32) | ((b[2] as bv32) << 8) | ((b[1] as bv32) << 16) | ((b[0] as bv32) << 24)
  }

  /** The length a header announces: its four bytes read as a big-endian number. */
  function Announced(b: Bytes): (n: nat)
    requires |b| == 4
  {
    (b[0] as int) * 0x100_0000 + (b[1] as int) * 0x1_0000 + (b[2] as int) * 0x100 + (b[3] as int)
  }

  /** Four big-endian bytes of a length. */
  function Header(n: nat): (b: Bytes)
    requires n <= MAX_LENGTH
    ensures |b| == 4
  {
    [(n / 0x100_0000) as bv8, (n / 0x1_0000 % 0x100) as bv8, (n / 0x100 % 0x100) as bv8, (n % 0x100) as bv8]
  }

  lemma ByteRoundTrip(n: int)
    requires 0 <= n < 0x100
    ensures (n as bv8) as int == n
  {
    NibbleRoundTrip(n / 16);
    NibbleRoundTrip(n % 16);
    var hi, lo := (n / 16) as bv4, (n % 16) as bv4;
    JoinNibbles(hi, lo);
    ByteNumber((hi as bv8 << 4) | (lo as bv8));
  }

  lemma NibbleRoundTrip(n: int)
    requires 0 <= n < 16
    ensures (n as bv4) as int == n
  {
  }

  lemma JoinNibbles(hi: bv4, lo: bv4)
    ensures ((hi as bv8 << 4) | (lo as bv8)) as int == (hi as int) * 16 + (lo as int)
  {
  }

  lemma ByteNumber(b: bv8)
    ensures (b as int) as bv8 == b
  {
  }

  lemma Digits(n: nat)
    requires n <= MAX_LENGTH
    ensures n == (n / 0x100_0000) * 0x100_0000 + (n / 0x1_0000 % 0x100) * 0x1_0000 + (n / 0x100 % 0x100) * 0x100 + n % 0x100
  {
    assert n / 0x100 / 0x100 == n / 0x1_0000;
    assert n / 0x1_0000 / 0x100 == n / 0x100_0000;
  }

  lemma AnnouncedHeader(n: nat)
    requires n <= MAX_LENGTH
    ensures Announced(Header(n)) == n
  {
    ByteRoundTrip(n / 0x100_0000);
    ByteRoundTrip(n / 0x1_0000 % 0x100);
    ByteRoundTrip(n / 0x100 % 0x100);
    ByteRoundTrip(n % 0x100);
    Digits(n);
  }

  lemma BigEndianSum(b0: bv8, b1: bv8, b2: bv8, b3: bv8)
    ensures ((b3 as bv32) | ((b2 as bv32) << 8) | ((b1 as bv32) << 16) | ((b0 as bv32) << 24)) as int
         == (b0 as int) * 0x100_0000 + (b1 as int) * 0x1_0000 + (b2 as int) * 0x100 + (b3 as int)
  {
  }

  lemma AnnouncedIsWord(b: Bytes)
    requires |b| == 4
    ensures Announced(b) == Load(BigEndian, b) as int <= MAX_LENGTH
  {
    BigEndianSum(b[0], b[1], b[2], b[3]);
  }

  lemma StoreLoad(host: Host, b: Bytes)
    requires |b| == 4
    ensures Store(host, Load(host, b)) == b
  {
    if host.LittleEndian? {
      UnpackPacked(b[0], b[1], b[2], b[3]);
    } else {
      UnpackPacked(b[3], b[2], b[1], b[0]);
    }
    assert b == [b[0], b[1], b[2], b[3]];
  }

  lemma UnpackPacked(b0: bv8, b1: bv8, b2: bv8, b3: bv8)
    ensures var x := (b0 as bv32) | ((b1 as bv32) << 8) | ((b2 as bv32) << 16) | ((b3 as bv32) << 24);
            && (x & 0xFF) as bv8 == b0 && ((x >> 8) & 0xFF) as bv8 == b1
            && ((x >> 16) & 0xFF) as bv8 == b2 && ((x >> 24) & 0xFF) as bv8 == b3
  {
  }

  lemma SwapIsReorder(x: bv32)
    ensures ManualSwap(ManualSwap(x)) == x
    ensures Store(LittleEndian, ManualSwap(x)) == Store(BigEndian, x)
  {
  }

  lemma LoadSwapped(b: Bytes)
    requires |b| == 4
    ensures ManualSwap(Load(LittleEndian, b)) == Load(BigEndian, b)
  {
  }

  /** A 32-bit word and its number determine each other. */
  lemma WordRoundTrip(n: nat)
    requires n <= MAX_LENGTH
    ensures (n as bv32) == Load(BigEndian, Header(n))
    ensures (n as bv32) as int == n
  {
    AnnouncedHeader(n);
    AnnouncedIsWord(Header(n));
    NumberRoundTrip(Load(BigEndian, Header(n)));
  }

  lemma NumberRoundTrip(w: bv32)
    ensures (w as int) as bv32 == w
  {
  }

  /** `htonl` then `memcpy` writes big-endian bytes on either kind of host. */
  lemma PlainHeader(host: Host, n: nat)
    requires n <= MAX_LENGTH
    ensures Store(host, NetworkOrder(host, n as bv32)) == Header(n)
  {
    WordRoundTrip(n);
    StoreLoad(BigEndian, Header(n));
    SwapIsReorder(n as bv32);
  }

  /** `memcpy` then `ntohl` reads big-endian bytes on either kind of host. */
  lemma PlainLength(host: Host, b: Bytes)
    requires |b| == 4
    ensures NetworkOrder(host, Load(host, b)) as int == Announced(b)
  {
    AnnouncedIsWord(b);
    LoadSwapped(b);
  }

  /** The hand-written swap always swaps, so what the TLS path writes is big-endian exactly when the
      host is little-endian or the length reads the same both ways. */
  lemma TlsHeaderIff(host: Host, n: nat)
    requires n <= MAX_LENGTH
    ensures Store(host, ManualSwap(n as bv32)) == Header(n)
            <==> host.LittleEndian? || ManualSwap(n as bv32) == n as bv32
  {
    WordRoundTrip(n);
    StoreLoad(BigEndian, Header(n));
    SwapIsReorder(n as bv32);
    if host.BigEndian? && Store(host, ManualSwap(n as bv32)) == Header(n) {
      StoreInjective(ManualSwap(n as bv32), n as bv32);
    }
  }

  /** Likewise for what the TLS path reads. */
  lemma TlsLengthIff(host: Host, b: Bytes)
    requires |b| == 4
    ensures ManualSwap(Load(host, b)) as int == Announced(b)
            <==> host.LittleEndian? || ManualSwap(Load(host, b)) == Load(host, b)
  {
    AnnouncedIsWord(b);
    LoadSwapped(b);
    NumberRoundTrip(ManualSwap(Load(host, b)));
    NumberRoundTrip(Load(BigEndian, b));
  }

  lemma StoreInjective(x: bv32, y: bv32)
    requires Store(BigEndian, x) == Store(BigEndian, y)
    ensures x == y
  {
    LoadStore(x);
    LoadStore(y);
  }

  lemma LoadStore(x: bv32)
    ensures Load(BigEndian, Store(BigEndian, x)) == x
  {
  }

  // ---------------------------------------------------------------- frames

  function Encode(m: Bytes): Bytes
    requires |m| <= MAX_LENGTH
  {
    Header(|m|) + m
  }

  datatype Parse = Parse(status: IoStatus, payload: Bytes, consumed: nat)

  /** `parse_frame` on a non-null buffer. */
  function ParseFrame(buf: Bytes, maxPayload: nat): Parse {
    if |buf| < 4 then Parse(PeerClosed, [], 0)
    else
      var len := Announced(buf[..4]);
      if len > maxPayload then Parse(ProtocolError, [], 0)
      else if |buf| < 4 + len then Parse(PeerClosed, [], 0)
      else Parse(Ok, buf[4..4 + len], 4 + len)
  }

  /** What the decoder says, of every buffer: too big if the announced length is over the limit; cut short if there is no
      whole header, or not the whole of a payload within the limit; else the payload, and where it ends. */
  lemma ParseDecides(buf: Bytes, maxPayload: nat)
    ensures var p := ParseFrame(buf, maxPayload);
            && (p.status.ProtocolError? <==> |buf| >= 4 && Announced(buf[..4]) > maxPayload)
            && (p.status.PeerClosed? <==> |buf| < 4 || (Announced(buf[..4]) <= maxPayload && |buf| < 4 + Announced(buf[..4])))
            && (p.status.Ok? <==> |buf| >= 4 && Announced(buf[..4]) <= maxPayload && |buf| >= 4 + Announced(buf[..4]))
            && (p.status.Ok? ==> p.consumed == 4 + Announced(buf[..4]) && p.payload == buf[4..p.consumed])
            && !p.status.Timeout? && !p.status.IoError?
  {
  }

  lemma AnnouncedInjective(a: Bytes, b: Bytes)
    requires |a| == |b| == 4 && Announced(a) == Announced(b)
    ensures a == b
  {
    AnnouncedIsWord(a);
    AnnouncedIsWord(b);
    NumberRoundTrip(Load(BigEndian, a));
    NumberRoundTrip(Load(BigEndian, b));
    StoreLoad(BigEndian, a);
    StoreLoad(BigEndian, b);
  }

  /** Decoding inverts encoding, whatever follows on the stream. */
  lemma ParseEncoded(m: Bytes, rest: Bytes, maxPayload: nat)
    requires |m| <= MAX_LENGTH && |m| <= maxPayload
    ensures ParseFrame(Encode(m) + rest, maxPayload) == Parse(Ok, m, 4 + |m|)
  {
    AnnouncedHeader(|m|);
    var buf := Encode(m) + rest;
    assert buf[..4] == Header(|m|);
    assert buf[4..4 + |m|] == m;
  }

  /** Encoding inverts decoding: a frame that parses is the encoding of its payload. */
  lemma EncodeParsed(buf: Bytes, maxPayload: nat)
    requires ParseFrame(buf, maxPayload).status.Ok?
    ensures var p := ParseFrame(buf, maxPayload);
            && |p.payload| <= MAX_LENGTH && |p.payload| <= maxPayload && p.consumed == 4 + |p.payload| <= |buf|
            && buf[..p.consumed] == Encode(p.payload)
  {
    var p := ParseFrame(buf, maxPayload);
    HeaderAnnounced(buf[..4]);
    Pieces(buf, 4, p.consumed);
  }

  lemma HeaderAnnounced(b: Bytes)
    requires |b| == 4
    ensures Announced(b) <= MAX_LENGTH && Header(Announced(b)) == b
  {
    AnnouncedIsWord(b);
    AnnouncedHeader(Announced(b));
    AnnouncedInjective(b, Header(Announced(b)));
  }

  lemma Pieces<T>(s: seq<T>, i: nat, j: nat)
    requires i <= j <= |s|
    ensures s[..j] == s[..i] + s[i..j]
  {
  }

  // ---------------------------------------------------------------- streams of frames

  predicate Sendable(ms: seq<Bytes>) {
    forall i :: 0 <= i < |ms| ==> |ms[i]| <= MAX_LENGTH
  }

  function EncodeAll(ms: seq<Bytes>): Bytes
    requires Sendable(ms)
  {
    if ms == [] then [] else Encode(ms[0]) + EncodeAll(ms[1..])
  }

  /** The complete frames at the front of a stream, as a peer without a size limit sees them. */
  function Frames(buf: Bytes): (ms: seq<Bytes>)
    ensures Sendable(ms)
    decreases |buf|
  {
    var p := ParseFrame(buf, MAX_LENGTH);
    if p.status.Ok? then
      EncodeParsed(buf, MAX_LENGTH);
      [p.payload] + Frames(buf[p.consumed..])
    else []
  }

  lemma {:induction false} EncodeAllConcat(a: seq<Bytes>, b: seq<Bytes>)
    requires Sendable(a) && Sendable(b)
    ensures Sendable(a + b) && EncodeAll(a + b) == EncodeAll(a) + EncodeAll(b)
  {
    if a == [] {
      assert a + b == b;
    } else {
      assert (a + b)[0] == a[0] && (a + b)[1..] == a[1..] + b;
      EncodeAllConcat(a[1..], b);
      Reassociate(Encode(a[0]), EncodeAll(a[1..]), EncodeAll(b));
    }
  }

  lemma EncodeAllSnoc(a: seq<Bytes>, m: Bytes)
    requires Sendable(a) && |m| <= MAX_LENGTH
    ensures Sendable(a + [m]) && EncodeAll(a + [m]) == EncodeAll(a) + Encode(m)
  {
    EncodeAllConcat(a, [m]);
    assert EncodeAll([m]) == Encode(m) + EncodeAll([]);
  }

  lemma Uncons<T>(s: seq<T>, t: seq<T>)
    requires s != []
    ensures [s[0]] + (s[1..] + t) == s + t
  {
  }

  lemma Reassociate<T>(a: seq<T>, b: seq<T>, c: seq<T>)
    ensures (a + b) + c == a + (b + c)
  {
  }

  lemma FramesCons(m: Bytes, tail: Bytes)
    requires |m| <= MAX_LENGTH
    ensures Frames(Encode(m) + tail) == [m] + Frames(tail)
  {
    ParseEncoded(m, tail, MAX_LENGTH);
    assert (Encode(m) + tail)[4 + |m|..] == tail;
  }

  /** A stream of frames followed by anything decodes to those frames, then whatever follows. */
  lemma {:induction false} FramesOfEncoded(ms: seq<Bytes>, rest: Bytes)
    requires Sendable(ms)
    ensures Frames(EncodeAll(ms) + rest) == ms + Frames(rest)
  {
    if ms == [] {
      assert EncodeAll(ms) + rest == rest;
    } else {
      var first, tail := Encode(ms[0]), EncodeAll(ms[1..]);
      calc {
        Frames(EncodeAll(ms) + rest);
        { Reassociate(first, tail, rest); }
        Frames(first + (tail + rest));
        { FramesCons(ms[0], tail + rest); }
        [ms[0]] + Frames(tail + rest);
        { FramesOfEncoded(ms[1..], rest); }
        [ms[0]] + (ms[1..] + Frames(rest));
        { Uncons(ms, Frames(rest)); }
        ms + Frames(rest);
      }
    }
  }

  /** Frames already complete stay what they are as the stream grows. */
  lemma {:induction false} FramesGrow(buf: Bytes, more: Bytes)
    ensures Frames(buf) <= Frames(buf + more)
    decreases |buf|
  {
    var p := ParseFrame(buf, MAX_LENGTH);
    if p.status.Ok? {
      EncodeParsed(buf, MAX_LENGTH);
      assert buf + more == Encode(p.payload) + (buf[p.consumed..] + more);
      ParseEncoded(p.payload, buf[p.consumed..] + more, MAX_LENGTH);
      assert (buf + more)[p.consumed..] == buf[p.consumed..] + more;
      FramesGrow(buf[p.consumed..], more);
    }
  }

  /** A frame cut short is no frame. */
  lemma FramesOfPartial(m: Bytes, k: nat)
    requires |m| <= MAX_LENGTH && k < |Encode(m)|
    ensures Frames(Encode(m)[..k]) == []
  {
    if k >= 4 {
      AnnouncedHeader(|m|);
      assert Encode(m)[..k][..4] == Header(|m|);
    }
  }

  /** The stream round trip on bytes: frames are recovered exactly, and nothing else is read. */
  lemma StreamRoundTrip(ms: seq<Bytes>)
    requires Sendable(ms)
    ensures Frames(EncodeAll(ms)) == ms
  {
    FramesOfEncoded(ms, []);
    assert EncodeAll(ms) + [] == EncodeAll(ms);
  }

  lemma FramesSnoc(ms: seq<Bytes>, m: Bytes)
    requires Sendable(ms) && |m| <= MAX_LENGTH
    ensures Sendable(ms + [m]) && EncodeAll(ms + [m]) == EncodeAll(ms) + Encode(m)
    ensures Frames(EncodeAll(ms) + Encode(m)) == ms + [m]
  {
    EncodeAllSnoc(ms, m);
    StreamRoundTrip(ms + [m]);
  }

  /** Two streams of equally many frames with the same bytes carry the same messages. */
  lemma EncodeAllInjective(a: seq<Bytes>, x: Bytes, b: seq<Bytes>, y: Bytes)
    requires Sendable(a) && Sendable(b) && |a| == |b| && EncodeAll(a) + x == EncodeAll(b) + y
    ensures a == b && x == y
  {
    FramesOfEncoded(a, x);
    FramesOfEncoded(b, y);
    assert a == (a + Frames(x))[..|a|] == (b + Frames(y))[..|b|] == b;
    var n := |EncodeAll(a)|;
    assert x == (EncodeAll(a) + x)[n..] == (EncodeAll(b) + y)[n..] == y;
  }
}

/**
 The wire format `[length u32 BE][opcode u16 BE][body]`: big-endian codecs, packets,
 and a reference parser that reads a whole byte stream at once. The framer and the
 session are measured against this parser.
 */
module Wire {
  import opened Wrappers

  newtype byte = x: int | 0 <= x < 256

  type u16 = x: int | 0 <= x < 0x1_0000
  type u32 = x: int | 0 <= x < 0x1_0000_0000

  const LENGTH_FIELD_BYTES: nat := 4
  const OPCODE_FIELD_BYTES: nat := 2
  const MAX_PAYLOAD_LEN: nat := 0xFFFF_FFFF

  const OPCODE_PING: u16 := 0xFFFE
  const OPCODE_PONG: u16 := 0xFFFF

  // ------------------------------------------------------------- big endian

  function StoreU16Be(v: u16): seq<byte> {
    [(v / 0x100) as byte, (v % 0x100) as byte]
  }

  function StoreU32Be(v: u32): seq<byte> {
    [(v / 0x100_0000) as byte, (v / 0x1_0000 % 0x100) as byte, (v / 0x100 % 0x100) as byte, (v % 0x100) as byte]
  }

  function LoadU16Be(p: seq<byte>): u16
    requires |p| >= 2
  {
    p[0] as int * 0x100 + p[1] as int
  }

  function LoadU32Be(p: seq<byte>): u32
    requires |p| >= 4
  {
    p[0] as int * 0x100_0000 + p[1] as int * 0x1_0000 + p[2] as int * 0x100 + p[3] as int
  }

  /** Store and load are inverse in both directions, so each four bytes mean exactly one length. */
  lemma U32RoundTrip(v: u32, p: seq<byte>)
    requires |p| == 4
    ensures LoadU32Be(StoreU32Be(v)) == v
    ensures StoreU32Be(LoadU32Be(p)) == p
  {
    U32Stored(v);
    U32Digits(p[0] as int, p[1] as int, p[2] as int, p[3] as int);
  }

  lemma U32Stored(v: u32)
    ensures LoadU32Be(StoreU32Be(v)) == v
  {
    var x := v / 0x100;
    var y := x / 0x100;
    NestedDiv(v);
    assert v == x * 0x100 + v % 0x100;
    assert x == y * 0x100 + x % 0x100;
    assert y == y / 0x100 * 0x100 + y % 0x100;
  }

  lemma NestedDiv(v: u32)
    ensures v / 0x100 / 0x100 == v / 0x1_0000
    ensures v / 0x100 / 0x100 / 0x100 == v / 0x100_0000
  {
  }

  lemma U32Digits(a: int, b: int, c: int, d: int)
    requires 0 <= a < 256 && 0 <= b < 256 && 0 <= c < 256 && 0 <= d < 256
    ensures var v := a * 0x100_0000 + b * 0x1_0000 + c * 0x100 + d;
            && v / 0x100_0000 == a && v / 0x1_0000 % 0x100 == b
            && v / 0x100 % 0x100 == c && v % 0x100 == d
  {
    var v := a * 0x100_0000 + b * 0x1_0000 + c * 0x100 + d;
    assert v / 0x1_0000 == a * 0x100 + b;
    assert v / 0x100 == (a * 0x100 + b) * 0x100 + c;
  }

  lemma U16RoundTrip(v: u16, p: seq<byte>)
    requires |p| == 2
    ensures LoadU16Be(StoreU16Be(v)) == v
    ensures StoreU16Be(LoadU16Be(p)) == p
  {
  }

  /** Of two byte strings of one length, `p` comes first in dictionary order. */
  predicate Before(p: seq<byte>, q: seq<byte>)
    requires |p| == |q|
  {
    p != [] && (p[0] < q[0] || (p[0] == q[0] && Before(p[1..], q[1..])))
  }

  /** Stored numbers are ordered like the numbers: the most significant byte goes first. */
  lemma U16Ordered(u: u16, v: u16)
    ensures u < v <==> Before(StoreU16Be(u), StoreU16Be(v))
  {
    var p, q := StoreU16Be(u), StoreU16Be(v);
    assert Before(p[1..], q[1..]) <==> p[1] < q[1];
  }

  lemma U32Ordered(u: u32, v: u32)
    ensures u < v <==> Before(StoreU32Be(u), StoreU32Be(v))
  {
    hide LoadU32Be;
    U32Stored(u);
    U32Stored(v);
    BeforeIsLess(StoreU32Be(u), StoreU32Be(v));
  }

  lemma BeforeIsLess(p: seq<byte>, q: seq<byte>)
    requires |p| == |q| == 4
    ensures LoadU32Be(p) < LoadU32Be(q) <==> Before(p, q)
  {
    assert Before(p[1..], q[1..]) <==> p[1] < q[1] || (p[1] == q[1] && Before(p[1..][1..], q[1..][1..]));
    assert p[1..][1..] == p[2..] && q[1..][1..] == q[2..] && p[2..][1..] == p[3..] && q[2..][1..] == q[3..];
    assert Before(p[2..], q[2..]) <==> p[2] < q[2] || (p[2] == q[2] && Before(p[3..], q[3..]));
    assert Before(p[3..], q[3..]) <==> p[3] < q[3];
  }

  // ------------------------------------------------------------- packets

  datatype Packet = Packet(opcode: u16, body: seq<byte>)

  /** A packet whose payload (opcode and body) fits the length field. */
  predicate Encodable(p: Packet) {
    OPCODE_FIELD_BYTES + |p.body| <= MAX_PAYLOAD_LEN
  }

  function Payload(p: Packet): seq<byte> {
    StoreU16Be(p.opcode) + p.body
  }

  function Encode(p: Packet): seq<byte>
    requires Encodable(p)
  {
    StoreU32Be(OPCODE_FIELD_BYTES + |p.body|) + StoreU16Be(p.opcode) + p.body
  }

  function SplitOpcode(payload: seq<byte>): Option<Packet> {
    if |payload| < 2 then None
    else Some(Packet(LoadU16Be(payload[..2]), payload[2..]))
  }

  /** On the wire a packet is the number of bytes that follow, its opcode in the first two of them, and its body. */
  lemma PacketLayout(p: Packet)
    requires Encodable(p)
    ensures var w := Encode(p);
            && |w| >= 6 && LoadU32Be(w[..4]) == |w| - 4 && LoadU16Be(w[4..6]) == p.opcode && w[6..] == p.body
  {
    var w := Encode(p);
    U32Stored(OPCODE_FIELD_BYTES + |p.body|);
    assert w[..4] == StoreU32Be(OPCODE_FIELD_BYTES + |p.body|);
    assert w[4..6] == StoreU16Be(p.opcode);
  }

  /** Splitting undoes prefixing, and succeeds exactly on payloads of at least two bytes. */
  lemma SplitPayload(p: Packet, payload: seq<byte>)
    ensures SplitOpcode(Payload(p)) == Some(p)
    ensures SplitOpcode(payload).Some? <==> |payload| >= 2
    ensures SplitOpcode(payload).Some? ==> Payload(SplitOpcode(payload).value) == payload
  {
    U16RoundTrip(p.opcode, StoreU16Be(p.opcode));
    assert Payload(p)[..2] == StoreU16Be(p.opcode);
    if |payload| >= 2 {
      U16RoundTrip(0, payload[..2]);
      assert payload == payload[..2] + payload[2..];
    }
  }

  predicate AllEncodable(ps: seq<Packet>) {
    forall p :: p in ps ==> Encodable(p)
  }

  function EncodeAll(ps: seq<Packet>): seq<byte>
    requires AllEncodable(ps)
  {
    if ps == [] then [] else Encode(ps[0]) + EncodeAll(ps[1..])
  }

  function Payloads(ps: seq<Packet>): (r: seq<seq<byte>>)
    ensures |r| == |ps|
    ensures forall i :: 0 <= i < |ps| ==> r[i] == Payload(ps[i])
  {
    seq(|ps|, i requires 0 <= i < |ps| => Payload(ps[i]))
  }

  lemma {:induction false} EncodeAllAppend(ps: seq<Packet>, p: Packet)
    requires AllEncodable(ps) && Encodable(p)
    ensures AllEncodable(ps + [p])
    ensures EncodeAll(ps + [p]) == EncodeAll(ps) + Encode(p)
  {
    if ps == [] {
      assert ps + [p] == [p];
      assert EncodeAll([p]) == Encode(p) + EncodeAll([p][1..]);
    } else {
      assert (ps + [p])[1..] == ps[1..] + [p];
      EncodeAllAppend(ps[1..], p);
    }
  }

  // ------------------------------------------------------------- reference parser

  datatype Parse = NeedMore | Invalid(reason: string) | Framed(payload: seq<byte>)

  /** What the head of stream `s` means to a receiver with this payload limit and ring capacity. */
  function ParseFrame(s: seq<byte>, maxPayload: nat, cap: nat): (r: Parse)
    ensures r.Framed? ==> LENGTH_FIELD_BYTES + |r.payload| <= |s|
    ensures r.Framed? ==> |r.payload| <= maxPayload && LENGTH_FIELD_BYTES + |r.payload| <= cap
  {
    if |s| < LENGTH_FIELD_BYTES then NeedMore
    else
      var len := LoadU32Be(s[..4]);
      if len > maxPayload then Invalid("payload_len_exceeds_max")
      else if LENGTH_FIELD_BYTES + len > cap then Invalid("frame_exceeds_ring_capacity")
      else if |s| < LENGTH_FIELD_BYTES + len then NeedMore
      else Framed(s[4..4 + len])
  }

  /** All complete frames of a stream, the unparsed remainder, and whether the remainder is malformed. */
  datatype Parsed = Parsed(frames: seq<seq<byte>>, rest: seq<byte>, bad: bool)

  function Cons(f: seq<byte>, p: Parsed): Parsed {
    Parsed([f] + p.frames, p.rest, p.bad)
  }

  function ParseAll(s: seq<byte>, maxPayload: nat, cap: nat): Parsed
    decreases |s|
  {
    match ParseFrame(s, maxPayload, cap)
    case NeedMore => Parsed([], s, false)
    case Invalid(_) => Parsed([], s, true)
    case Framed(p) =>
      Cons(p, ParseAll(s[4 + |p|..], maxPayload, cap))
  }

  /**
   A frame is judged by its header alone: as soon as the length of a payload has arrived, the stream is refused if the
   payload is over the limit, or else if the frame is larger than the ring, and otherwise is waited for in full.
   */
  lemma JudgedByHeader(payload: seq<byte>, t: seq<byte>, s: seq<byte>, maxPayload: nat, cap: nat)
    requires |payload| <= MAX_PAYLOAD_LEN && s <= StoreU32Be(|payload|) + payload + t
    ensures ParseFrame(s, maxPayload, cap) ==
            if |s| < 4 then NeedMore
            else if |payload| > maxPayload then Invalid("payload_len_exceeds_max")
            else if 4 + |payload| > cap then Invalid("frame_exceeds_ring_capacity")
            else if |s| < 4 + |payload| then NeedMore
            else Framed(payload)
  {
    hide LoadU32Be;
    U32Stored(|payload|);
    var whole := StoreU32Be(|payload|) + payload + t;
    if |s| >= 4 {
      assert s[..4] == whole[..4] == StoreU32Be(|payload|);
      if |s| >= 4 + |payload| {
        assert s[4..4 + |payload|] == whole[4..4 + |payload|] == payload;
      }
    }
  }

  /** No frame of a stream exceeds the payload limit or the ring. */
  lemma {:induction false} FramesWithinLimits(s: seq<byte>, maxPayload: nat, cap: nat, i: nat)
    requires i < |ParseAll(s, maxPayload, cap).frames|
    ensures |ParseAll(s, maxPayload, cap).frames[i]| <= maxPayload
    ensures LENGTH_FIELD_BYTES + |ParseAll(s, maxPayload, cap).frames[i]| <= cap
    decreases i
  {
    var h := ParseFrame(s, maxPayload, cap);
    if i > 0 {
      FramesWithinLimits(s[4 + |h.payload|..], maxPayload, cap, i - 1);
    }
  }

  lemma ParseFrameExtends(s: seq<byte>, t: seq<byte>, maxPayload: nat, cap: nat)
    requires !ParseFrame(s, maxPayload, cap).NeedMore?
    ensures ParseFrame(s + t, maxPayload, cap) == ParseFrame(s, maxPayload, cap)
  {
    assert (s + t)[..4] == s[..4];
    var r := ParseFrame(s, maxPayload, cap);
    if r.Framed? {
      assert (s + t)[4..4 + |r.payload|] == s[4..4 + |r.payload|];
    }
  }

  lemma ParseAllFramed(s: seq<byte>, p: seq<byte>, maxPayload: nat, cap: nat)
    requires ParseFrame(s, maxPayload, cap) == Framed(p)
    ensures ParseAll(s, maxPayload, cap) == Cons(p, ParseAll(s[4 + |p|..], maxPayload, cap))
  {
  }

  function Then(p: Parsed, t: seq<byte>, maxPayload: nat, cap: nat): Parsed {
    var q := ParseAll(p.rest + t, maxPayload, cap);
    Parsed(p.frames + q.frames, q.rest, q.bad)
  }

  lemma ThenCons(f: seq<byte>, p: Parsed, t: seq<byte>, maxPayload: nat, cap: nat)
    ensures Then(Cons(f, p), t, maxPayload, cap) == Cons(f, Then(p, t, maxPayload, cap))
  {
    var q := ParseAll(p.rest + t, maxPayload, cap);
    assert [f] + p.frames + q.frames == [f] + (p.frames + q.frames);
  }

  lemma StuckResumes(s: seq<byte>, t: seq<byte>, maxPayload: nat, cap: nat)
    requires !ParseFrame(s, maxPayload, cap).Framed?
    ensures ParseAll(s + t, maxPayload, cap) == Then(ParseAll(s, maxPayload, cap), t, maxPayload, cap)
  {
    var q := ParseAll(s + t, maxPayload, cap);
    assert [] + q.frames == q.frames;
  }

  /** Parsing may stop and resume at any byte: the remainder is all the state there is. */
  lemma {:induction false} ParseResumes(s: seq<byte>, t: seq<byte>, maxPayload: nat, cap: nat)
    ensures ParseAll(s + t, maxPayload, cap) == Then(ParseAll(s, maxPayload, cap), t, maxPayload, cap)
    decreases |s|
  {
    var h := ParseFrame(s, maxPayload, cap);
    if h.Framed? {
      var f := h.payload;
      var s' := s[4 + |f|..];
      calc {
        ParseAll(s + t, maxPayload, cap);
        { ParseFrameExtends(s, t, maxPayload, cap); ParseAllFramed(s + t, f, maxPayload, cap); }
        Cons(f, ParseAll((s + t)[4 + |f|..], maxPayload, cap));
        { assert (s + t)[4 + |f|..] == s' + t; }
        Cons(f, ParseAll(s' + t, maxPayload, cap));
        { ParseResumes(s', t, maxPayload, cap); }
        Cons(f, Then(ParseAll(s', maxPayload, cap), t, maxPayload, cap));
        { ThenCons(f, ParseAll(s', maxPayload, cap), t, maxPayload, cap); }
        Then(Cons(f, ParseAll(s', maxPayload, cap)), t, maxPayload, cap);
        { ParseAllFramed(s, f, maxPayload, cap); }
        Then(ParseAll(s, maxPayload, cap), t, maxPayload, cap);
      }
    } else {
      StuckResumes(s, t, maxPayload, cap);
    }
  }

  /** A malformed head stays malformed whatever follows, and yields nothing more. */
  lemma BadStaysBad(s: seq<byte>, t: seq<byte>, maxPayload: nat, cap: nat)
    requires ParseAll(s, maxPayload, cap).bad
    ensures ParseAll(s + t, maxPayload, cap).bad
    ensures ParseAll(s + t, maxPayload, cap).frames == ParseAll(s, maxPayload, cap).frames
  {
    ParseResumes(s, t, maxPayload, cap);
    RestIsStuck(s, maxPayload, cap);
    ParseFrameExtends(ParseAll(s, maxPayload, cap).rest, t, maxPayload, cap);
  }

  lemma {:induction false} RestIsStuck(s: seq<byte>, maxPayload: nat, cap: nat)
    ensures var p := ParseAll(s, maxPayload, cap);
            && (p.bad ==> ParseFrame(p.rest, maxPayload, cap).Invalid?)
            && (!p.bad ==> ParseFrame(p.rest, maxPayload, cap).NeedMore?)
    decreases |s|
  {
    var h := ParseFrame(s, maxPayload, cap);
    if h.Framed? {
      RestIsStuck(s[4 + |h.payload|..], maxPayload, cap);
    }
  }

  function Concat(chunks: seq<seq<byte>>): seq<byte> {
    if chunks == [] then [] else chunks[0] + Concat(chunks[1..])
  }

  /** Parse chunk by chunk, keeping only the remainder between chunks. */
  function ParseChunks(rest: seq<byte>, chunks: seq<seq<byte>>, maxPayload: nat, cap: nat): Parsed
    decreases |chunks|
  {
    var p := ParseAll(rest, maxPayload, cap);
    if chunks == [] then p
    else
      var q := ParseChunks(p.rest + chunks[0], chunks[1..], maxPayload, cap);
      Parsed(p.frames + q.frames, q.rest, q.bad)
  }

  /** Framing does not depend on how the stream was cut into reads. */
  lemma {:induction false} ChunkIndependence(rest: seq<byte>, chunks: seq<seq<byte>>, maxPayload: nat, cap: nat)
    ensures ParseChunks(rest, chunks, maxPayload, cap) == ParseAll(rest + Concat(chunks), maxPayload, cap)
    decreases |chunks|
  {
    hide ParseAll;
    if chunks == [] {
      assert rest + Concat(chunks) == rest;
    } else {
      var p := ParseAll(rest, maxPayload, cap);
      ChunkIndependence(p.rest + chunks[0], chunks[1..], maxPayload, cap);
      ParseResumes(rest, Concat(chunks), maxPayload, cap);
      assert p.rest + Concat(chunks) == p.rest + chunks[0] + Concat(chunks[1..]);
    }
  }

  // ------------------------------------------------------------- round trip

  /** A packet the receiver accepts: within its payload limit and its ring. */
  predicate Receivable(p: Packet, maxPayload: nat, cap: nat) {
    && Encodable(p)
    && OPCODE_FIELD_BYTES + |p.body| <= maxPayload
    && LENGTH_FIELD_BYTES + OPCODE_FIELD_BYTES + |p.body| <= cap
  }

  predicate AllReceivable(ps: seq<Packet>, maxPayload: nat, cap: nat) {
    forall p :: p in ps ==> Receivable(p, maxPayload, cap)
  }

  lemma ParseEncoded(p: Packet, t: seq<byte>, maxPayload: nat, cap: nat)
    requires Receivable(p, maxPayload, cap)
    ensures ParseFrame(Encode(p) + t, maxPayload, cap) == Framed(Payload(p))
  {
    var s := Encode(p) + t;
    var len := OPCODE_FIELD_BYTES + |p.body|;
    U32RoundTrip(len, StoreU32Be(len));
    assert s[..4] == StoreU32Be(len);
    assert s[4..4 + len] == Payload(p);
  }

  lemma {:induction false} ParseEncodeAll(ps: seq<Packet>, maxPayload: nat, cap: nat)
    requires AllReceivable(ps, maxPayload, cap)
    ensures AllEncodable(ps)
    ensures ParseAll(EncodeAll(ps), maxPayload, cap) == Parsed(Payloads(ps), [], false)
  {
    hide ParseFrame; hide Encode; hide ParseAll;
    if ps == [] {
      ParseEmpty(maxPayload, cap);
    } else {
      ParseEncodeAll(ps[1..], maxPayload, cap);
      var p, t := ps[0], EncodeAll(ps[1..]);
      ParseEncoded(p, t, maxPayload, cap);
      ParseAllFramed(Encode(p) + t, Payload(p), maxPayload, cap);
      EncodedLength(p, t);
      assert Payloads(ps) == [Payload(p)] + Payloads(ps[1..]);
    }
  }

  lemma ParseEmpty(maxPayload: nat, cap: nat)
    ensures ParseAll([], maxPayload, cap) == Parsed([], [], false)
  {
  }

  lemma EncodedLength(p: Packet, t: seq<byte>)
    requires Encodable(p)
    ensures |Encode(p)| == 4 + |Payload(p)|
    ensures (Encode(p) + t)[4 + |Payload(p)|..] == t
  {
  }

  /** The packets a receiver recovers from the payloads it framed; it stops at a payload without an opcode. */
  function Messages(frames: seq<seq<byte>>): seq<Packet> {
    if frames == [] || SplitOpcode(frames[0]).None? then []
    else [SplitOpcode(frames[0]).value] + Messages(frames[1..])
  }

  lemma {:induction false} MessagesOfPayloads(ps: seq<Packet>)
    ensures Messages(Payloads(ps)) == ps
  {
    if ps != [] {
      SplitPayload(ps[0], Payload(ps[0]));
      assert Payloads(ps)[1..] == Payloads(ps[1..]);
      MessagesOfPayloads(ps[1..]);
    }
  }

  lemma {:induction false} MessagesPrefix(fs: seq<seq<byte>>, gs: seq<seq<byte>>)
    requires fs <= gs
    ensures Messages(fs) <= Messages(gs)
  {
    if fs != [] && SplitOpcode(fs[0]).Some? {
      assert fs[1..] <= gs[1..];
      MessagesPrefix(fs[1..], gs[1..]);
    }
  }

  /**
   Round trip for every cut of the stream: whatever prefix of the encoded packets has
   arrived, the receiver sees a prefix of the packets and nothing malformed; once all
   bytes have arrived it sees all of them with nothing left over.
   */
  lemma RoundTrip(ps: seq<Packet>, arrived: seq<byte>, maxPayload: nat, cap: nat)
    requires AllReceivable(ps, maxPayload, cap)
    requires AllEncodable(ps) && arrived <= EncodeAll(ps)
    ensures var p := ParseAll(arrived, maxPayload, cap);
            && !p.bad
            && Messages(p.frames) <= ps
            && (arrived == EncodeAll(ps) ==> Messages(p.frames) == ps && p.rest == [])
  {
    ParseEncodeAll(ps, maxPayload, cap);
    MessagesOfPayloads(ps);
    var t := EncodeAll(ps)[|arrived|..];
    assert arrived + t == EncodeAll(ps);
    var p := ParseAll(arrived, maxPayload, cap);
    if p.bad {
      BadStaysBad(arrived, t, maxPayload, cap);
    }
    ParseResumes(arrived, t, maxPayload, cap);
    MessagesPrefix(p.frames, Payloads(ps));
  }
}

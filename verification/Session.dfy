/**
 One connection: the coalesced send path, the edge-triggered read loop, and message dispatch.
 Ghost fields record what the outside world saw, so the contracts can speak about whole runs.
 */
module Sessions {
  import opened Wire
  import opened RingBuffers
  import opened Framing
  import opened Sockets
  import opened Wrappers

  datatype SessionState = Connected | Closing | Closed

  datatype CloseReason =
    | SendOverflow | SendZeroClose | SendFailedClose | EpollModFailed
    | RecvOverflow | PeerClose | RecvError | FramerInvalid
    | InvalidOpcodePrefix | UnknownOpcode | PolicyClose
    | EpollErr | EpollHup | LocalClose

  /** Reasons the send path closes a connected session for. */
  predicate SendReason(was: Option<CloseReason>, now: Option<CloseReason>) {
    now == was || (was.None? && now in {Some(SendOverflow), Some(SendZeroClose), Some(SendFailedClose),
        Some(EpollModFailed)})
  }

  /** What is left of a plan of answers. */
  predicate LeftOf<T(==)>(plan: seq<T>, left: seq<T>) {
    |left| <= |plan| && left == plan[|plan| - |left|..]
  }

  /** The last mask change that the kernel was asked for was refused. */
  predicate LastRefused(plan: seq<bool>, left: seq<bool>) {
    |left| < |plan| && !plan[|plan| - |left| - 1]
  }

  /** The last handler that ran asked for a close. */
  predicate LastAsked(plan: seq<Reaction>, left: seq<Reaction>) {
    |left| < |plan| && plan[|plan| - |left| - 1].close
  }

  lemma AnswerTaken<T>(plan: seq<T>, left: seq<T>)
    requires LeftOf(plan, left) && left != []
    ensures LeftOf(plan, left[1..]) && plan[|plan| - |left|] == left[0]
  {
  }

  lemma ReactionTaken(plan: seq<Reaction>, was: seq<Reaction>, now: seq<Reaction>)
    requires LeftOf(plan, was) && (now == was || (was != [] && now == was[1..]))
    ensures LeftOf(plan, now)
    ensures |now| == |was| ==> LastAsked(plan, now) == LastAsked(plan, was)
    ensures |now| < |was| ==> LastAsked(plan, now) == was[0].close
  {
  }

  /** An opcode that is neither a heartbeat nor registered. */
  predicate Unknown(opcode: u16, handlers: set<u16>) {
    opcode != OPCODE_PING && opcode != OPCODE_PONG && opcode !in handlers
  }

  /** An opcode the application registered a handler for, which heartbeats never reach. */
  predicate Handled(opcode: u16, handlers: set<u16>) {
    opcode != OPCODE_PING && opcode != OPCODE_PONG && opcode in handlers
  }

  predicate LastUnknown(dispatched: seq<Packet>, handlers: set<u16>) {
    dispatched != [] && Unknown(dispatched[|dispatched| - 1].opcode, handlers)
  }

  /** Reasons for closing while one message is dispatched. */
  predicate DispatchReason(was: Option<CloseReason>, now: Option<CloseReason>, m: Option<Packet>, handlers: set<u16>) {
    if m.None? then now == Some(InvalidOpcodePrefix)
    else if Unknown(m.value.opcode, handlers) then now == Some(UnknownOpcode)
    else SendReason(was, now) || now == Some(PolicyClose)
  }

  /** Reasons that only an error or hangup event or a call from outside gives. */
  predicate FromOutside(reason: Option<CloseReason>) {
    reason in {Some(EpollErr), Some(EpollHup), Some(LocalClose)}
  }

  /** Reading and writing have not closed the session: it is connected, or the event's own close signal ended it. */
  predicate Survived(state: SessionState, reason: Option<CloseReason>) {
    state == Connected || reason in {Some(EpollErr), Some(EpollHup)}
  }

  /** What the application does while it handles one message: packets it sends on this session, then maybe a close. */
  datatype Reaction = Reaction(sends: seq<Packet>, close: bool)

  /** The packets of a list that fit the length field. */
  function Accepted(ps: seq<Packet>): seq<Packet> {
    if ps == [] then []
    else Accepted(ps[..|ps| - 1]) + if Encodable(ps[|ps| - 1]) then [ps[|ps| - 1]] else []
  }

  lemma AcceptedSnoc(ps: seq<Packet>, i: nat)
    requires i < |ps|
    ensures Accepted(ps[..i + 1]) == Accepted(ps[..i]) + if Encodable(ps[i]) then [ps[i]] else []
  {
    assert ps[..i + 1][..i] == ps[..i];
  }

  /** The packets that fit are kept in order, list by list. */
  lemma {:induction false} AcceptedConcat(ps: seq<Packet>, qs: seq<Packet>)
    ensures Accepted(ps + qs) == Accepted(ps) + Accepted(qs)
    decreases |qs|
  {
    hide Encodable;
    if qs == [] {
      assert ps + qs == ps;
    } else {
      assert (ps + qs)[..|ps + qs| - 1] == ps + qs[..|qs| - 1];
      AcceptedConcat(ps, qs[..|qs| - 1]);
    }
  }

  /** If all of them fit, all are kept. */
  lemma {:induction false} AcceptedAll(ps: seq<Packet>)
    requires AllEncodable(ps)
    ensures Accepted(ps) == ps
  {
    hide Encodable;
    if ps != [] {
      var front, last := ps[..|ps| - 1], ps[|ps| - 1];
      assert AllEncodable(front) by { assert forall p :: p in front ==> p in ps; }
      assert last in ps;
      AcceptedAll(front);
      assert ps == front + [last];
    }
  }

  lemma AcceptedNone(ps: seq<Packet>)
    requires ps == []
    ensures Accepted(ps) == []
  {
  }

  /** What the application has heard and said on a session, and how it will react to further messages. */
  datatype Talk = Talk(heard: seq<Packet>, said: seq<Packet>, reactions: seq<Reaction>)

  /** What one message is answered with: a ping with a pong, a handled one with what its handler sends. */
  function Reply(m: Packet, reactions: seq<Reaction>, handlers: set<u16>): seq<Packet> {
    if m.opcode == OPCODE_PING then [Packet(OPCODE_PONG, [])]
    else if Handled(m.opcode, handlers) && reactions != [] then Accepted(reactions[0].sends)
    else []
  }

  function AfterReply(m: Packet, reactions: seq<Reaction>, handlers: set<u16>): seq<Reaction> {
    if Handled(m.opcode, handlers) && reactions != [] then reactions[1..] else reactions
  }

  function Replies(ms: seq<Packet>, reactions: seq<Reaction>, handlers: set<u16>): seq<Packet> {
    if ms == [] then []
    else Reply(ms[0], reactions, handlers) + Replies(ms[1..], AfterReply(ms[0], reactions, handlers), handlers)
  }

  function AfterReplies(ms: seq<Packet>, reactions: seq<Reaction>, handlers: set<u16>): seq<Reaction> {
    if ms == [] then reactions else AfterReplies(ms[1..], AfterReply(ms[0], reactions, handlers), handlers)
  }

  lemma {:induction false} RepliesConcat(a: seq<Packet>, b: seq<Packet>, reactions: seq<Reaction>, handlers: set<u16>)
    ensures var left := AfterReplies(a, reactions, handlers);
            && Replies(a + b, reactions, handlers) == Replies(a, reactions, handlers) + Replies(b, left, handlers)
            && AfterReplies(a + b, reactions, handlers) == AfterReplies(b, left, handlers)
    decreases |a|
  {
    hide Reply; hide AfterReply;
    if a == [] {
      assert a + b == b;
    } else {
      assert (a + b)[1..] == a[1..] + b;
      RepliesConcat(a[1..], b, AfterReply(a[0], reactions, handlers), handlers);
    }
  }

  /**
   Nothing heard or said is taken back. A session that `lasts` has said what the new messages are answered with, in
   their order, and nothing else.
   */
  ghost predicate Answers(lasts: bool, handlers: set<u16>, was: Talk, now: Talk) {
    && was.heard <= now.heard && was.said <= now.said
    && (lasts ==>
          var more := now.heard[|was.heard|..];
          && now.said == was.said + Replies(more, was.reactions, handlers)
          && now.reactions == AfterReplies(more, was.reactions, handlers))
  }

  lemma AnswersNothing(lasts: bool, handlers: set<u16>, was: Talk, now: Talk)
    requires now == was
    ensures Answers(lasts, handlers, was, now)
  {
    assert was.heard[|was.heard|..] == [];
  }

  lemma AnswersClosed(handlers: set<u16>, was: Talk, now: Talk)
    requires now == was
    ensures Answers(false, handlers, was, now)
  {
  }

  lemma AnswersOne(lasts: bool, handlers: set<u16>, was: Talk, now: Talk, m: Packet)
    requires now.heard == was.heard + [m] && was.said <= now.said
    requires lasts ==> now.said == was.said + Reply(m, was.reactions, handlers)
    requires lasts ==> now.reactions == AfterReply(m, was.reactions, handlers)
    ensures Answers(lasts, handlers, was, now)
  {
    hide Reply; hide AfterReply;
    assert now.heard[|was.heard|..] == [m];
    assert [m][1..] == [];
    var left := AfterReply(m, was.reactions, handlers);
    assert Replies([m][1..], left, handlers) == [] && AfterReplies([m][1..], left, handlers) == left;
    assert Replies([m], was.reactions, handlers) == Reply(m, was.reactions, handlers) + [];
    assert AfterReplies([m], was.reactions, handlers) == left;
  }

  lemma AnswersLess(lasts: bool, lasts': bool, handlers: set<u16>, was: Talk, now: Talk)
    requires Answers(lasts, handlers, was, now) && (lasts' ==> lasts)
    ensures Answers(lasts', handlers, was, now)
  {
  }

  lemma AnswersTrans(lasts: bool, handlers: set<u16>, a: Talk, b: Talk, c: Talk)
    requires Answers(true, handlers, a, b) && Answers(lasts, handlers, b, c)
    ensures Answers(lasts, handlers, a, c)
  {
    hide Replies; hide AfterReplies;
    var x, y := b.heard[|a.heard|..], c.heard[|b.heard|..];
    RepliesConcat(x, y, a.reactions, handlers);
    assert c.heard[|a.heard|..] == x + y;
  }

  lemma {:induction false} ConcatSnoc(segs: seq<seq<byte>>, s: seq<byte>)
    ensures Concat(segs + [s]) == Concat(segs) + s
  {
    if segs == [] {
      assert [] + [s] == [s];
      assert Concat([s]) == s + Concat([s][1..]);
    } else {
      assert (segs + [s])[1..] == segs[1..] + [s];
      ConcatSnoc(segs[1..], s);
    }
  }

  function Prepend(fs: seq<seq<byte>>, p: Parsed): Parsed {
    Parsed(fs + p.frames, p.rest, p.bad)
  }

  /** `framed` followed by the frames still in `ring` are the frames of `received`, with the same remainder. */
  ghost predicate Resumes(received: seq<byte>, framed: seq<seq<byte>>, ring: seq<byte>, maxPayload: nat, cap: nat) {
    ParseAll(received, maxPayload, cap) == Prepend(framed, ParseAll(ring, maxPayload, cap))
  }

  lemma FrameResumes(received: seq<byte>, framed: seq<seq<byte>>, ring: seq<byte>, payload: seq<byte>,
                     maxPayload: nat, cap: nat)
    requires Resumes(received, framed, ring, maxPayload, cap)
    requires ParseFrame(ring, maxPayload, cap) == Framed(payload)
    ensures Resumes(received, framed + [payload], ring[4 + |payload|..], maxPayload, cap)
  {
    ParseAllFramed(ring, payload, maxPayload, cap);
    var q := ParseAll(ring[4 + |payload|..], maxPayload, cap);
    assert framed + ([payload] + q.frames) == framed + [payload] + q.frames;
  }

  /** A ring whose head is invalid holds the rest of a malformed stream. */
  lemma StuckVerdict(received: seq<byte>, framed: seq<seq<byte>>, ring: seq<byte>, maxPayload: nat, cap: nat)
    requires Resumes(received, framed, ring, maxPayload, cap)
    ensures ParseFrame(ring, maxPayload, cap).Invalid? ==> ParseAll(received, maxPayload, cap).bad
  {
  }

  lemma ThenPrepend(fs: seq<seq<byte>>, p: Parsed, d: seq<byte>, maxPayload: nat, cap: nat)
    ensures Then(Prepend(fs, p), d, maxPayload, cap) == Prepend(fs, Then(p, d, maxPayload, cap))
  {
    var t := ParseAll(p.rest + d, maxPayload, cap);
    assert fs + p.frames + t.frames == fs + (p.frames + t.frames);
  }

  lemma ReceiveResumes(received: seq<byte>, framed: seq<seq<byte>>, ring: seq<byte>, d: seq<byte>, maxPayload: nat,
                      cap: nat)
    requires Resumes(received, framed, ring, maxPayload, cap)
    ensures Resumes(received + d, framed, ring + d, maxPayload, cap)
  {
    calc {
      ParseAll(received + d, maxPayload, cap);
      { ParseResumes(received, d, maxPayload, cap); }
      Then(ParseAll(received, maxPayload, cap), d, maxPayload, cap);
      Then(Prepend(framed, ParseAll(ring, maxPayload, cap)), d, maxPayload, cap);
      { ThenPrepend(framed, ParseAll(ring, maxPayload, cap), d, maxPayload, cap); }
      Prepend(framed, Then(ParseAll(ring, maxPayload, cap), d, maxPayload, cap));
      { ParseResumes(ring, d, maxPayload, cap); }
      Prepend(framed, ParseAll(ring + d, maxPayload, cap));
    }
  }

  lemma {:induction false} MessagesSnoc(fs: seq<seq<byte>>, f: seq<byte>)
    requires |Messages(fs)| == |fs|
    ensures Messages(fs + [f]) == Messages(fs) + if SplitOpcode(f).Some? then [SplitOpcode(f).value] else []
  {
    if fs == [] {
      assert fs + [f] == [f];
      assert Messages([f][1..]) == [];
    } else {
      assert (fs + [f])[1..] == fs[1..] + [f];
      MessagesSnoc(fs[1..], f);
    }
  }

  /** A full ring that still waits for more bytes is one too small for a length field. */
  lemma FullRingWaits(c: seq<byte>, maxPayload: nat)
    ensures ParseFrame(c, maxPayload, |c|).NeedMore? <==> |c| < LENGTH_FIELD_BYTES
  {
  }

  class Session {
    const tx: TxSocket
    const rx: RxSocket
    const sendRing: RingBuffer
    const recvRing: RingBuffer
    const framer: LengthPrefixFramer
    /** Opcodes with a registered handler. */
    const handlers: set<u16>
    /** What the kernel will answer to mask changes, and the application to messages. */
    const modPlan: seq<bool>
    const plan: seq<Reaction>

    var state: SessionState
    var closeReason: Option<CloseReason>
    /** Whether the registered event mask includes writability. */
    var writeInterest: bool
    /** Outcomes of changing the registered event mask; exhausted means success. */
    var modScript: seq<bool>
    /** Application behaviour per handled message; exhausted means it does nothing. */
    var reactions: seq<Reaction>

    /** Every packet the application asked to send while connected, and their bytes. */
    ghost var packets: seq<Packet>
    ghost var submitted: seq<byte>
    /** Every byte read from the socket. */
    ghost var received: seq<byte>
    /** Payloads framed so far. */
    ghost var framed: seq<seq<byte>>
    /** Messages handed to dispatch so far, opcode and body. */
    ghost var dispatched: seq<Packet>

    constructor (tx: TxSocket, rx: RxSocket, recvCap: nat, sendCap: nat, maxPayload: u32,
                 handlers: set<u16>, modScript: seq<bool>, reactions: seq<Reaction>)
      requires recvCap > 0 && sendCap > 0
      requires tx.wire == [] && !tx.failed && !rx.failed
      ensures this.tx == tx && this.rx == rx && this.handlers == handlers
      ensures fresh(sendRing) && fresh(sendRing.buffer) && fresh(recvRing) && fresh(recvRing.buffer) && fresh(framer)
      ensures recvRing.capacity == recvCap && sendRing.capacity == sendCap && framer.maxPayloadLen == maxPayload
      ensures state == Connected && packets == [] && received == [] && dispatched == []
      ensures Valid()
    {
      this.tx := tx;
      this.rx := rx;
      this.handlers := handlers;
      this.modScript, modPlan := modScript, modScript;
      this.reactions, plan := reactions, reactions;
      var sr := new RingBuffer(sendCap);
      var rr := new RingBuffer(recvCap);
      var fr := new LengthPrefixFramer(maxPayload);
      sendRing := sr;
      recvRing := rr;
      framer := fr;
      state := Connected;
      closeReason := None;
      writeInterest := false;
      packets, submitted, received, framed, dispatched := [], [], [], [], [];
    }

    ghost function Talked(): Talk
      reads this
    {
      Talk(dispatched, packets, reactions)
    }

    /** A session has a close reason exactly once it is closed. */
    ghost predicate Reasoned()
      reads this`state, this`closeReason
    {
      state != Closing && (state == Connected <==> closeReason.None?)
    }

    /** A mask change was refused exactly if that closed the session. */
    ghost predicate ModValid()
      reads this`state, this`closeReason, this`modScript
    {
      && LeftOf(modPlan, modScript)
      && (closeReason == Some(EpollModFailed) ==> LastRefused(modPlan, modScript))
      && (state == Connected ==> !LastRefused(modPlan, modScript))
    }

    /**
     The send side is consistent: while connected, no byte is lost, duplicated or reordered and no send
     or mask change has failed; a close on the send side has its cause, and an overflow close means more
     unsent bytes than the ring can hold.
     */
    ghost predicate SendValid()
      reads this`state, this`closeReason, this`modScript, this`submitted, tx, sendRing, sendRing.buffer
    {
      && sendRing.Valid()
      && tx.wire <= submitted
      && (state == Connected ==> tx.wire + sendRing.Contents() == submitted)
      && Reasoned() && ModValid()
      && (state == Connected ==> !tx.failed)
      && (closeReason == Some(SendOverflow) ==> |submitted| > |tx.wire| + sendRing.capacity)
      && (closeReason == Some(SendZeroClose) || closeReason == Some(SendFailedClose) ==> tx.failed)
    }

    /** A connected session waits for writability exactly when it has a backlog, and then the kernel owes it an edge. */
    ghost predicate NoStall()
      reads this`state, this`writeInterest, tx, sendRing
    {
      state == Connected ==>
        && (writeInterest <==> sendRing.size > 0)
        && (sendRing.size > 0 ==> tx.blocked)
    }

    ghost predicate Separate()
      reads this, framer
    {
      && sendRing != recvRing
      && sendRing.buffer != recvRing.buffer
      && framer.scratch != sendRing.buffer
      && framer.scratch != recvRing.buffer
    }

    /** Every submitted byte belongs to a packet given to `SendPacketU16`. */
    ghost predicate TxValid()
      reads this`state, this`closeReason, this`writeInterest, this`modScript, this`submitted, this`packets
      reads tx, sendRing, sendRing.buffer
    {
      && SendValid() && NoStall()
      && AllEncodable(packets) && submitted == EncodeAll(packets)
    }

    /** The receive ring holds exactly what the reference parser has not yet turned into frames. */
    ghost predicate StreamValid()
      reads this, framer, recvRing, recvRing.buffer
    {
      && recvRing.Valid()
      && Resumes(received, framed, recvRing.Contents(), framer.maxPayloadLen, recvRing.capacity)
      && dispatched == Messages(framed)
      && (state == Connected ==> |dispatched| == |framed|)
    }

    /** The session was ended by its peer, its socket or a close between events, not while it dispatched or sent. */
    ghost predicate EndedOutside()
      reads this
    {
      closeReason in {Some(PeerClose), Some(RecvError), Some(EpollErr), Some(EpollHup), Some(LocalClose)}
    }

    /**
     Between events, a session that is connected or was ended from outside has left no complete frame undispatched.
     */
    ghost predicate Drained()
      reads this, framer, recvRing, recvRing.buffer
    {
      recvRing.Valid() &&
      (state == Connected || EndedOutside() ==>
         && |dispatched| == |framed|
         && ParseFrame(recvRing.Contents(), framer.maxPayloadLen, recvRing.capacity).NeedMore?)
    }

    /**
     Why the receive side closed a session: the peer or the kernel ended it, the ring is too small for a
     length field, the stream is malformed, a frame had no opcode or one that nobody handles, or a handler
     asked for it. While the session is connected nothing it dispatched asked for a close.
     */
    ghost predicate Caused()
      reads this, framer, rx
    {
      && Reasoned() && LeftOf(plan, reactions)
      && (closeReason == Some(PeerClose) || closeReason == Some(RecvError) ==> rx.failed)
      && (closeReason == Some(RecvOverflow) ==> recvRing.capacity < LENGTH_FIELD_BYTES)
      && (closeReason == Some(FramerInvalid) ==> ParseAll(received, framer.maxPayloadLen, recvRing.capacity).bad)
      && (closeReason == Some(InvalidOpcodePrefix) ==> |dispatched| < |framed|)
      && (closeReason == Some(UnknownOpcode) ==> LastUnknown(dispatched, handlers))
      && (closeReason == Some(PolicyClose) ==> LastAsked(plan, reactions))
      && (state == Connected ==> !LastUnknown(dispatched, handlers) && !LastAsked(plan, reactions))
    }

    /** And no receive has failed either. */
    ghost predicate Justified()
      reads this, framer, rx
    {
      Caused() && (state == Connected ==> !rx.failed)
    }

    ghost predicate Valid()
      reads this, tx, rx, framer, sendRing, sendRing.buffer, recvRing, recvRing.buffer
    {
      Separate() && TxValid() && StreamValid() && Drained() && Justified()
    }

    /** Closes a connected session for the given reason; any other is left as it is. */
    method BeginClose(reason: CloseReason)
      requires Reasoned()
      modifies this`state, this`closeReason
      ensures Reasoned() && state == Closed
      ensures closeReason == if old(state) == Connected then Some(reason) else old(closeReason)
    {
      if state == Closed || state == Closing {
        return;
      }
      state := Closing;
      closeReason := Some(reason);
      state := Closed;
    }

    /** Queues `data` behind the backlog, or closes the session when it does not fit. */
    method EnqueueSendNoFlush(data: seq<byte>) returns (ok: bool)
      requires sendRing.Valid() && Reasoned()
      modifies this`state, this`closeReason, sendRing`tail, sendRing`size, sendRing.buffer
      ensures sendRing.Valid() && Reasoned()
      ensures ok == (state == Connected)
      ensures old(state) == Connected ==> (ok <==> |data| <= old(sendRing.FreeSpace()))
      ensures old(state) != Connected ==> state == old(state)
      ensures ok ==> sendRing.Contents() == old(sendRing.Contents()) + data
      ensures !ok ==> sendRing.Contents() == old(sendRing.Contents())
      ensures closeReason == if old(state) == Connected && !ok then Some(SendOverflow) else old(closeReason)
    {
      if state != Connected {
        return false;
      }
      if |data| == 0 {
        return true;
      }
      var free := sendRing.FreeSpace();
      if free < |data| {
        BeginClose(SendOverflow);
        return false;
      }
      var written := sendRing.Write(data);
      assert written == |data| && data[..written] == data;
      return state == Connected;
    }

    /** Queues what is left of `segs` after their first `skip` bytes. */
    method EnqueueRemainder(skip: nat, segs: seq<seq<byte>>) returns (ok: bool)
      requires sendRing.Valid() && state == Connected && Reasoned()
      requires skip <= |Concat(segs)|
      modifies this`state, this`closeReason, sendRing`tail, sendRing`size, sendRing.buffer
      ensures sendRing.Valid() && Reasoned()
      ensures ok == (state == Connected)
      ensures ok ==> sendRing.Contents() == old(sendRing.Contents()) + Concat(segs)[skip..]
      ensures ok <==> |Concat(segs)| - skip <= old(sendRing.FreeSpace())
      ensures !ok ==> closeReason == Some(SendOverflow)
    {
      hide Span;
      var toSkip: nat := skip;
      ghost var c := sendRing.Contents();
      ghost var done: seq<byte> := [];
      for i := 0 to |segs|
        invariant sendRing.Valid() && state == Connected && closeReason == old(closeReason) && Reasoned()
        invariant done == Concat(segs[..i]) && |done| <= |Concat(segs)|
        invariant toSkip > 0 ==> skip == |done| + toSkip && sendRing.Contents() == c
        invariant toSkip == 0 ==> skip <= |done| && sendRing.Contents() == c + done[skip..]
      {
        ghost var was := done;
        assert segs[..i + 1] == segs[..i] + [segs[i]];
        ConcatSnoc(segs[..i], segs[i]);
        ConcatPrefix(segs, i + 1);
        done := done + segs[i];
        if |segs[i]| == 0 {
          assert done == was;
          continue;
        }
        if toSkip >= |segs[i]| {
          toSkip := toSkip - |segs[i]|;
          assert toSkip == 0 ==> done[skip..] == [];
          continue;
        }
        var rest := segs[i][toSkip..];
        assert c + done[skip..] == (if toSkip > 0 then c else c + was[skip..]) + rest;
        toSkip := 0;
        var queued := EnqueueSendNoFlush(rest);
        if !queued {
          return false;
        }
      }
      assert segs[..|segs|] == segs;
      return true;
    }

    /** Drops the first `n` backlog bytes, one contiguous view at a time. */
    method ConsumeRing(n: nat)
      requires sendRing.Valid() && n <= sendRing.size
      modifies sendRing`head, sendRing`size
      ensures sendRing.Valid()
      ensures sendRing.Contents() == old(sendRing.Contents())[n..]
    {
      var left: nat := n;
      ghost var c := sendRing.Contents();
      while left > 0
        invariant sendRing.Valid() && left <= n
        invariant left <= sendRing.size
        invariant sendRing.Contents() == c[n - left..]
      {
        var v := sendRing.ReadView(left);
        assert v.len > 0;
        left := left - v.len;
      }
    }

    /** One gathered write of the backlog; `more` says whether to try again. */
    method FlushOnce() returns (more: bool)
      requires SendValid() && state == Connected && sendRing.size > 0
      modifies this`state, this`closeReason, tx, sendRing`head, sendRing`size
      ensures SendValid()
      ensures more ==> state == Connected && |tx.script| < |old(tx.script)|
      ensures !more ==> state != Connected || tx.blocked
      ensures tx.calls > old(tx.calls)
      ensures |tx.script| <= |old(tx.script)| && old(tx.wire) <= tx.wire && old(tx.calls) <= tx.calls
      ensures state == Connected ==> closeReason == old(closeReason)
      ensures SendReason(old(closeReason), closeReason)
    {
      ghost var w, c := tx.wire, sendRing.Contents();
      var backlog := GatherBacklog();
      var r := tx.Send(backlog);
      match r
      case Sent(n) =>
        ConsumeRing(n);
        assert w + c[..n] + c[n..] == w + c;
        return true;
      case SentZero =>
        BeginClose(SendZeroClose);
        return false;
      case SendInterrupted =>
        return true;
      case SendBlocked =>
        return false;
      case SendFailed(_) =>
        BeginClose(SendFailedClose);
        return false;
    }

    /** Writes the backlog until it is gone or the kernel blocks. */
    method FlushSend() returns (ok: bool)
      requires SendValid()
      modifies this`state, this`closeReason, tx, sendRing`head, sendRing`size
      ensures SendValid()
      ensures ok == (state == Connected)
      ensures old(state) != Connected ==> state == old(state)
      ensures ok ==> sendRing.size == 0 || tx.blocked
      ensures old(state) == Connected && old(sendRing.size) > 0 ==> tx.calls > old(tx.calls)
      ensures sendRing.size > 0 ==> old(sendRing.size) > 0
      ensures |tx.script| <= |old(tx.script)|
      ensures old(tx.wire) <= tx.wire && old(tx.calls) <= tx.calls
      ensures SendReason(old(closeReason), closeReason)
    {
      if state != Connected {
        return false;
      }
      var more := true;
      while more && sendRing.size > 0
        invariant SendValid()
        invariant more ==> state == Connected
        invariant !more ==> state != Connected || tx.blocked
        invariant sendRing.size != old(sendRing.size) || !more ==> tx.calls > old(tx.calls)
        invariant sendRing.size > 0 ==> old(sendRing.size) > 0
        invariant |tx.script| <= |old(tx.script)| && old(tx.wire) <= tx.wire && old(tx.calls) <= tx.calls
        invariant SendReason(old(closeReason), closeReason)
        decreases more, |tx.script|
      {
        more := FlushOnce();
      }
      return state == Connected;
    }

    /** Registers or drops interest in writability; a refused change closes the session. */
    method SetWriteInterest(enable: bool)
      requires Reasoned() && ModValid()
      modifies this`state, this`closeReason, this`writeInterest, this`modScript
      ensures Reasoned() && ModValid()
      ensures state == Connected ==> writeInterest == enable
      ensures state == Connected <==>
              old(state) == Connected && !(old(writeInterest) != enable && old(modScript) != [] && !old(modScript)[0])
      ensures closeReason == if old(state) == Connected && state != Connected then Some(EpollModFailed)
                else old(closeReason)
    {
      if state != Connected {
        return;
      }
      if writeInterest == enable {
        return;
      }
      var ok := true;
      if |modScript| > 0 {
        AnswerTaken(modPlan, modScript);
        ok := modScript[0];
        modScript := modScript[1..];
      }
      if !ok {
        BeginClose(EpollModFailed);
        return;
      }
      writeInterest := enable;
    }

    /** Books `n` bytes the kernel took from the backlog followed by `segs`, queues the rest and flushes once. */
    method SettleSent(n: nat, segs: seq<seq<byte>>) returns (ok: bool)
      requires sendRing.Valid() && state == Connected && Reasoned() && ModValid() && !tx.failed
      requires 1 <= n <= sendRing.size + |Concat(segs)|
      requires tx.wire + (sendRing.Contents() + Concat(segs))[n..] == submitted
      modifies this`state, this`closeReason, this`writeInterest, this`modScript
      modifies tx, sendRing`head, sendRing`tail, sendRing`size, sendRing.buffer
      ensures SendValid() && NoStall()
      ensures ok == (state == Connected)
      ensures |tx.script| <= |old(tx.script)|
      ensures old(tx.wire) <= tx.wire && old(tx.calls) <= tx.calls
      ensures SendReason(old(closeReason), closeReason)
    {
      hide LeftOf; hide LastRefused; hide LastAsked; hide LastUnknown;
      ghost var c, m := sendRing.Contents(), Concat(segs);
      var sentFromRing := Min(n, sendRing.size);
      var sent := n;
      if sentFromRing > 0 {
        ConsumeRing(sentFromRing);
        sent := sent - sentFromRing;
      }
      assert (c + m)[n..] == c[sentFromRing..] + m[sent..];
      if sent < |Concat(segs)| {
        var queued := EnqueueRemainder(sent, segs);
        if !queued {
          return false;
        }
        var flushed := FlushSend();
        if !flushed {
          return false;
        }
      } else {
        assert m[sent..] == [];
        var _ := FlushSend();
      }
      SetWriteInterest(sendRing.size > 0);
      return state == Connected;
    }

    /** The kernel took nothing: queues all of `segs` and waits for writability. */
    method SettleBlocked(segs: seq<seq<byte>>) returns (ok: bool)
      requires sendRing.Valid() && state == Connected && tx.blocked && Reasoned() && ModValid() && !tx.failed
      requires Concat(segs) != []
      requires tx.wire + sendRing.Contents() + Concat(segs) == submitted
      modifies this`state, this`closeReason, this`writeInterest, this`modScript
      modifies sendRing`tail, sendRing`size, sendRing.buffer
      ensures SendValid() && NoStall()
      ensures ok == (state == Connected)
      ensures SendReason(old(closeReason), closeReason)
    {
      ghost var w, c, m := tx.wire, sendRing.Contents(), Concat(segs);
      assert w + c + m == w + (c + m) && m[0..] == m;
      var queued := EnqueueRemainder(0, segs);
      if !queued {
        return false;
      }
      SetWriteInterest(true);
      return state == Connected;
    }

    /** The backlog as the gathered write presents it: at most two segments of the ring. */
    method GatherBacklog() returns (backlog: seq<byte>)
      requires sendRing.Valid()
      ensures backlog == sendRing.Contents()
    {
      backlog := [];
      ghost var c := sendRing.Contents();
      if sendRing.size > 0 {
        var ringIov := sendRing.PeekIov(sendRing.size);
        backlog := Gather(sendRing.buffer[..], ringIov);
        assert c[..sendRing.size] == c;
      }
    }

    /**
     Sends one packet behind the backlog in a single gathered write. Whatever the kernel takes,
     the packet's bytes follow everything submitted before, and true means still connected.
     */
    method EnqueuePacketU16Coalesced(lenHdr: seq<byte>, opHdr: seq<byte>, body: seq<byte>) returns (ok: bool)
      requires |lenHdr| == 4 && |opHdr| == 2
      requires SendValid() && NoStall()
      modifies this`state, this`closeReason, this`writeInterest, this`modScript, this`submitted
      modifies tx, sendRing`head, sendRing`tail, sendRing`size, sendRing.buffer
      ensures SendValid() && NoStall()
      ensures ok == (state == Connected)
      ensures submitted == if old(state) == Connected then old(submitted) + (lenHdr + opHdr + body) else old(submitted)
      ensures old(state) != Connected ==> state == old(state) && tx.wire == old(tx.wire)
      ensures old(tx.wire) <= tx.wire && old(tx.calls) <= tx.calls
      ensures SendReason(old(closeReason), closeReason)
    {
      hide LeftOf; hide LastRefused; hide LastAsked; hide LastUnknown;
      hide Concat; hide Gather; hide Span;
      if state != Connected {
        return false;
      }
      var segs := [lenHdr, opHdr, body];
      ghost var m := lenHdr + opHdr + body;
      ConcatThree(lenHdr, opHdr, body);
      submitted := submitted + m;
      while true
        invariant sendRing.Valid() && state == Connected && Reasoned() && ModValid() && !tx.failed
        invariant tx.wire + sendRing.Contents() + m == submitted == old(submitted) + m
        invariant tx.wire == old(tx.wire) && closeReason == old(closeReason) && old(tx.calls) <= tx.calls
        decreases |tx.script|
      {
        ghost var w, c := tx.wire, sendRing.Contents();
        var backlog := GatherBacklog();
        var data := backlog + Concat(segs);
        assert w + c + m == w + data;
        var r := tx.Send(data);
        match r
        case Sent(n) =>
          assert w + data[..n] + data[n..] == w + data;
          ok := SettleSent(n, segs);
          return;
        case SentZero =>
          BeginClose(SendZeroClose);
          return false;
        case SendInterrupted =>
        case SendBlocked =>
          ok := SettleBlocked(segs);
          return;
        case SendFailed(_) =>
          BeginClose(SendFailedClose);
          return false;
      }
    }

    /** Encodes the headers and sends; a payload too long for the length field is refused. */
    method SendPacketU16(p: Packet) returns (ok: bool)
      requires TxValid()
      modifies this`state, this`closeReason, this`writeInterest, this`modScript, this`submitted, this`packets
      modifies tx, sendRing`head, sendRing`tail, sendRing`size, sendRing.buffer
      ensures TxValid()
      ensures old(tx.wire) <= tx.wire && old(tx.calls) <= tx.calls
      ensures SendReason(old(closeReason), closeReason)
      ensures ok <==> Encodable(p) && state == Connected
      ensures packets == if old(state) == Connected && Encodable(p) then old(packets) + [p] else old(packets)
      ensures old(state) != Connected || !Encodable(p) ==> state == old(state) && tx.wire == old(tx.wire)
    {
      hide LeftOf; hide LastRefused; hide LastAsked; hide LastUnknown;
      var payloadLen := OPCODE_FIELD_BYTES + |p.body|;
      if payloadLen > MAX_PAYLOAD_LEN {
        return false;
      }
      var lenHdr := StoreU32Be(payloadLen);
      var opHdr := StoreU16Be(p.opcode);
      ghost var connected := state == Connected;
      ok := EnqueuePacketU16Coalesced(lenHdr, opHdr, p.body);
      if connected {
        assert submitted == EncodeAll(packets) + Encode(p);
        EncodeAllAppend(packets, p);
        packets := packets + [p];
      }
    }

    /** Writability: flushes until the backlog is gone or the kernel blocks again. */
    method OnWritable()
      requires Valid()
      modifies this`state, this`closeReason, this`writeInterest, this`modScript
      modifies tx, sendRing`head, sendRing`size
      ensures Valid()
      ensures old(tx.wire) <= tx.wire && old(tx.calls) <= tx.calls
      ensures SendReason(old(closeReason), closeReason)
      ensures old(state) == Connected ==> !FromOutside(closeReason)
      ensures state == Connected && sendRing.size > 0 ==> tx.blocked && tx.calls > old(tx.calls)
      ensures old(state) == Connected && old(sendRing.size) > 0 ==> tx.calls > old(tx.calls)
      ensures old(state) != Connected ==> state == old(state) && tx.wire == old(tx.wire)
    {
      hide LeftOf; hide LastRefused; hide LastAsked; hide LastUnknown;
      hide ParseAll; hide ParseFrame; hide Messages; hide EncodeAll; hide Resumes;
      if state != Connected {
        return;
      }
      var ok := FlushSend();
      if !ok {
        return;
      }
      SetWriteInterest(sendRing.size > 0);
    }

    method CloseTx(reason: CloseReason)
      requires TxValid() && reason !in {SendOverflow, SendZeroClose, SendFailedClose, EpollModFailed}
      modifies this`state, this`closeReason
      ensures TxValid() && state != Connected
      ensures closeReason == if old(state) == Connected then Some(reason) else old(closeReason)
    {
      BeginClose(reason);
    }

    /** Runs the application's handler: its sends in order, then its close. */
    method RunHandler(reaction: Reaction)
      requires TxValid() && closeReason.None?
      modifies this`state, this`closeReason, this`writeInterest, this`modScript, this`submitted, this`packets
      modifies tx, sendRing`head, sendRing`tail, sendRing`size, sendRing.buffer
      ensures TxValid()
      ensures old(tx.wire) <= tx.wire && old(tx.calls) <= tx.calls
      ensures SendReason(None, closeReason) || (reaction.close && closeReason == Some(PolicyClose))
      ensures old(packets) <= packets <= old(packets) + Accepted(reaction.sends)
      ensures state == Connected ==> !reaction.close && packets == old(packets) + Accepted(reaction.sends)
    {
      hide TxValid; hide Accepted;
      assert Accepted(reaction.sends[..0]) == [] by { AcceptedNone(reaction.sends[..0]); }
      for i := 0 to |reaction.sends|
        invariant TxValid() && old(tx.wire) <= tx.wire && old(tx.calls) <= tx.calls
        invariant old(packets) <= packets <= old(packets) + Accepted(reaction.sends[..i])
        invariant state == Connected ==> packets == old(packets) + Accepted(reaction.sends[..i])
        invariant SendReason(None, closeReason)
      {
        AcceptedSnoc(reaction.sends, i);
        var _ := SendPacketU16(reaction.sends[i]);
      }
      assert reaction.sends[..|reaction.sends|] == reaction.sends;
      if reaction.close {
        CloseTx(PolicyClose);
      }
    }

    /** Splits off the opcode, answers pings, ignores pongs, and hands everything else to its handler. */
    method DispatchOnMessage(payload: seq<byte>)
      requires TxValid() && state == Connected
      modifies this`state, this`closeReason, this`writeInterest, this`modScript, this`submitted, this`packets
      modifies tx, sendRing`head, sendRing`tail, sendRing`size, sendRing.buffer
      modifies this`dispatched, this`reactions
      ensures TxValid() && Reasoned()
      ensures old(tx.wire) <= tx.wire && old(tx.calls) <= tx.calls
      ensures Answers(state == Connected, handlers, old(Talked()), Talked())
      ensures var m := SplitOpcode(payload);
              && dispatched == old(dispatched) + (if m.Some? then [m.value] else [])
              && DispatchReason(None, closeReason, m, handlers)
              && (m.None? || Unknown(m.value.opcode, handlers) ==> state != Connected)
              && (reactions == old(reactions) || (old(reactions) != [] && reactions == old(reactions)[1..]))
              && (closeReason == Some(PolicyClose) ==> |reactions| < |old(reactions)| && old(reactions)[0].close)
              && (state == Connected && |reactions| < |old(reactions)| ==> !old(reactions)[0].close)
              && (m.Some? && m.value.opcode == OPCODE_PING ==> packets == old(packets) + [Packet(OPCODE_PONG, [])])
              && (m.Some? && m.value.opcode == OPCODE_PONG ==> state == Connected && packets == old(packets))
              && (m.Some? && Handled(m.value.opcode, handlers) && old(reactions) != [] ==>
                    && reactions == old(reactions)[1..]
                    && (state == Connected ==>
                          packets == old(packets) + Accepted(old(reactions)[0].sends) && !old(reactions)[0].close))
    {
      hide Accepted; hide EncodeAll; hide Answers;
      var m := SplitOpcode(payload);
      ghost var was := Talked();
      if m.None? {
        CloseTx(InvalidOpcodePrefix);
        AnswersClosed(handlers, was, Talked());
        return;
      }
      DispatchMessage(m.value);
      AnswersOne(state == Connected, handlers, was, Talked(), m.value);
    }

    /** A message with an opcode: answers a ping, ignores a pong, and hands everything else to its handler. */
    method DispatchMessage(m: Packet)
      requires TxValid() && state == Connected
      modifies this`state, this`closeReason, this`writeInterest, this`modScript, this`submitted, this`packets
      modifies tx, sendRing`head, sendRing`tail, sendRing`size, sendRing.buffer
      modifies this`dispatched, this`reactions
      ensures TxValid() && Reasoned()
      ensures old(tx.wire) <= tx.wire && old(tx.calls) <= tx.calls
      ensures dispatched == old(dispatched) + [m] && old(packets) <= packets
      ensures DispatchReason(None, closeReason, Some(m), handlers)
      ensures Unknown(m.opcode, handlers) ==> state != Connected
      ensures reactions == AfterReply(m, old(reactions), handlers)
      ensures state == Connected || m.opcode == OPCODE_PING ==>
                packets == old(packets) + Reply(m, old(reactions), handlers)
      ensures closeReason == Some(PolicyClose) ==> |reactions| < |old(reactions)| && old(reactions)[0].close
      ensures state == Connected && |reactions| < |old(reactions)| ==> !old(reactions)[0].close
      ensures m.opcode == OPCODE_PONG ==> state == Connected
    {
      hide Accepted; hide EncodeAll;
      dispatched := dispatched + [m];
      if m.opcode == OPCODE_PING {
        var _ := SendPacketU16(Packet(OPCODE_PONG, []));
        return;
      }
      if m.opcode == OPCODE_PONG {
        return;
      }
      if m.opcode !in handlers {
        CloseTx(UnknownOpcode);
        return;
      }
      if |reactions| > 0 {
        var reaction := reactions[0];
        reactions := reactions[1..];
        RunHandler(reaction);
      }
    }

    /** Moves the next complete frame, if any, from the receive ring to `framed`. */
    method TakeFrame() returns (r: FrameResult, payload: seq<byte>)
      requires Separate() && TxValid() && StreamValid() && state == Connected
      modifies this`framed, framer`scratch, framer`lastErrorReason, recvRing`head, recvRing`size
      ensures Separate() && TxValid() && recvRing.Valid()
      ensures Resumes(received, framed, recvRing.Contents(), framer.maxPayloadLen, recvRing.capacity)
      ensures framed == if r == FrameReady then old(framed) + [payload] else old(framed)
      ensures r == FrameReady ==> recvRing.size < old(recvRing.size)
      ensures r != FrameReady ==> StreamValid()
      ensures r == InvalidFrame ==> ParseAll(received, framer.maxPayloadLen, recvRing.capacity).bad
      ensures r == NeedMoreBytes ==> ParseFrame(recvRing.Contents(), framer.maxPayloadLen, recvRing.capacity).NeedMore?
      ensures framer.scratch == old(framer.scratch) || fresh(framer.scratch)
    {
      hide LeftOf; hide LastRefused; hide LastAsked; hide LastUnknown;
      hide ParseAll; hide ParseFrame; hide Messages; hide EncodeAll; hide Resumes; hide Span;
      ghost var c := recvRing.Contents();
      var view;
      r, view := framer.TryFrame(recvRing);
      payload := [];
      if r == FrameReady {
        payload := framer.Bytes(view, recvRing);
        FrameResumes(received, framed, c, payload, framer.maxPayloadLen, recvRing.capacity);
        framed := framed + [payload];
      } else {
        StuckVerdict(received, framed, c, framer.maxPayloadLen, recvRing.capacity);
      }
    }

    /** Dispatches the frame just taken, which brings `dispatched` level with `framed` again. */
    method DispatchFrame(payload: seq<byte>, ghost before: seq<seq<byte>>) returns (more: bool)
      requires Separate() && TxValid() && Justified() && state == Connected && recvRing.Valid()
      requires framed == before + [payload]
      requires dispatched == Messages(before) && |dispatched| == |before|
      requires Resumes(received, framed, recvRing.Contents(), framer.maxPayloadLen, recvRing.capacity)
      modifies this`state, this`closeReason, this`writeInterest, this`modScript, this`submitted, this`packets
      modifies tx, sendRing`head, sendRing`tail, sendRing`size, sendRing.buffer
      modifies this`dispatched, this`reactions
      ensures Separate() && TxValid() && StreamValid() && Justified()
      ensures more == (state == Connected)
      ensures !more ==> !EndedOutside()
      ensures old(tx.wire) <= tx.wire && old(tx.calls) <= tx.calls
      ensures Answers(state == Connected, handlers, old(Talked()), Talked())
    {
      hide ParseAll; hide ParseFrame; hide Messages; hide Resumes; hide TxValid; hide LeftOf;
      hide LastAsked; hide SplitOpcode; hide Answers;
      MessagesSnoc(before, payload);
      ghost var was := reactions;
      DispatchOnMessage(payload);
      ReactionTaken(plan, was, reactions);
      return state == Connected;
    }

    /** Closing keeps every invariant. */
    method CloseNow(reason: CloseReason)
      requires Separate() && TxValid() && StreamValid() && Caused()
      requires reason in {PeerClose, RecvError, EpollErr, EpollHup, LocalClose} || state != Connected ==> Drained()
      requires reason !in {SendOverflow, SendZeroClose, SendFailedClose, EpollModFailed}
      requires reason !in {InvalidOpcodePrefix, UnknownOpcode, PolicyClose}
      requires reason in {PeerClose, RecvError} ==> rx.failed
      requires reason == RecvOverflow ==> recvRing.capacity < LENGTH_FIELD_BYTES
      requires reason == FramerInvalid ==> ParseAll(received, framer.maxPayloadLen, recvRing.capacity).bad
      modifies this`state, this`closeReason
      ensures Valid() && state != Connected
      ensures closeReason == if old(state) == Connected then Some(reason) else old(closeReason)
    {
      hide LeftOf; hide LastRefused; hide LastAsked; hide LastUnknown;
      BeginClose(reason);
    }

    /** Frames and dispatches one message; `more` says whether to try again. */
    method ProcessOneFrame() returns (more: bool)
      requires Separate() && TxValid() && StreamValid() && Justified() && state == Connected
      modifies this`state, this`closeReason, this`writeInterest, this`modScript, this`submitted, this`packets
      modifies tx, sendRing`head, sendRing`tail, sendRing`size, sendRing.buffer
      modifies this`dispatched, this`framed, this`reactions
      modifies framer`scratch, framer`lastErrorReason, recvRing`head, recvRing`size
      ensures Separate() && TxValid() && StreamValid() && Justified()
      ensures more ==> state == Connected && recvRing.size < old(recvRing.size)
      ensures !FromOutside(closeReason)
      ensures !more ==> Drained()
      ensures old(tx.wire) <= tx.wire && old(tx.calls) <= tx.calls
      ensures Answers(state == Connected, handlers, old(Talked()), Talked())
      ensures framer.scratch == old(framer.scratch) || fresh(framer.scratch)
    {
      hide TxValid; hide LeftOf; hide LastAsked; hide LastUnknown; hide Answers;
      hide ParseAll; hide ParseFrame; hide Messages; hide EncodeAll; hide Resumes;
      var r, payload := TakeFrame();
      AnswersNothing(true, handlers, old(Talked()), Talked());
      if r == NeedMoreBytes {
        return false;
      }
      if r == InvalidFrame {
        CloseNow(FramerInvalid);
        AnswersClosed(handlers, old(Talked()), Talked());
        return false;
      }
      more := DispatchFrame(payload, old(framed));
    }

    /** Frames and dispatches everything complete in the receive ring. */
    method ProcessRecvFrames() returns (ok: bool)
      requires Separate() && TxValid() && StreamValid() && Justified() && state == Connected
      modifies this`state, this`closeReason, this`writeInterest, this`modScript, this`submitted, this`packets
      modifies tx, sendRing`head, sendRing`tail, sendRing`size, sendRing.buffer
      modifies this`dispatched, this`framed, this`reactions
      modifies framer`scratch, framer`lastErrorReason, recvRing`head, recvRing`size
      ensures Valid()
      ensures !FromOutside(closeReason)
      ensures ok == (state == Connected)
      ensures old(tx.wire) <= tx.wire && old(tx.calls) <= tx.calls
      ensures Answers(state == Connected, handlers, old(Talked()), Talked())
      ensures framer.scratch == old(framer.scratch) || fresh(framer.scratch)
    {
      hide TxValid; hide LeftOf; hide LastAsked; hide LastUnknown; hide Resumes; hide ParseFrame;
      hide ParseAll; hide Messages; hide Answers;
      var more := true;
      AnswersNothing(true, handlers, Talked(), Talked());
      while more
        invariant Separate() && TxValid() && StreamValid() && Justified()
        invariant more ==> state == Connected
        invariant !FromOutside(closeReason)
        invariant !more ==> Drained()
        invariant Answers(state == Connected, handlers, old(Talked()), Talked())
        invariant old(tx.wire) <= tx.wire && old(tx.calls) <= tx.calls
        invariant framer.scratch == old(framer.scratch) || fresh(framer.scratch)
        decreases more, recvRing.size
      {
        ghost var was := Talked();
        more := ProcessOneFrame();
        AnswersTrans(state == Connected, handlers, old(Talked()), was, Talked());
      }
      return state == Connected;
    }

    /** Receives straight into the free space of the ring and counts what arrived as stored. */
    method ReceiveIntoRing() returns (r: RecvOutcome)
      requires recvRing.Valid() && recvRing.size < recvRing.capacity
      modifies rx, recvRing`tail, recvRing`size, recvRing.buffer
      ensures recvRing.Valid()
      ensures r.Received? ==>
                && 1 <= r.n <= |old(rx.incoming)|
                && recvRing.Contents() == old(recvRing.Contents()) + old(rx.incoming)[..r.n]
                && rx.incoming == old(rx.incoming)[r.n..]
      ensures !r.Received? ==> recvRing.Contents() == old(recvRing.Contents()) && rx.incoming == old(rx.incoming)
      ensures rx.blocked == r.RecvBlocked?
      ensures rx.failed == (old(rx.failed) || r.PeerClosed? || r.RecvFailed?)
      ensures rx.calls == old(rx.calls) + 1 && rx.held == (r.RecvBlocked? && rx.incoming != [])
      ensures !r.RecvBlocked? ==> |rx.script| < |old(rx.script)|
      ensures |rx.script| <= |old(rx.script)|
    {
      hide Span; hide Scatter;
      var iov := recvRing.WriteIov(recvRing.FreeSpace());
      ghost var b, c, inc := recvRing.buffer[..], recvRing.Contents(), rx.incoming;
      r := rx.Recv(recvRing.buffer, iov);
      if r.Received? {
        ScatterFillsFree(b, recvRing.head, recvRing.size, recvRing.FreeSpace(), inc[..r.n]);
        assert recvRing.Contents() == c;
        assert recvRing.Free()[..r.n] == inc[..r.n];
        recvRing.CommitWrite(r.n);
      }
    }

    /** One receive, recorded in `received`. */
    method ReceiveOnce() returns (r: RecvOutcome)
      requires Separate() && StreamValid() && state == Connected && recvRing.size < recvRing.capacity
      modifies this`received, rx, recvRing`tail, recvRing`size, recvRing.buffer
      ensures Separate() && StreamValid()
      ensures received + rx.incoming == old(received + rx.incoming)
      ensures !r.Received? ==> recvRing.Contents() == old(recvRing.Contents())
      ensures rx.blocked == r.RecvBlocked?
      ensures rx.failed == (old(rx.failed) || r.PeerClosed? || r.RecvFailed?)
      ensures rx.calls == old(rx.calls) + 1 && rx.held == (r.RecvBlocked? && rx.incoming != [])
      ensures !r.RecvBlocked? ==> |rx.script| < |old(rx.script)|
      ensures |rx.script| <= |old(rx.script)|
    {
      ghost var c, inc := recvRing.Contents(), rx.incoming;
      r := ReceiveIntoRing();
      if r.Received? {
        ghost var d := inc[..r.n];
        ReceiveResumes(received, framed, c, d, framer.maxPayloadLen, recvRing.capacity);
        received := received + d;
        assert old(received) + inc == old(received) + d + inc[r.n..];
      }
    }

    /** One round of the read loop: receive, then dispatch what became complete. */
    method ReadOnce() returns (more: bool)
      requires Valid() && state == Connected
      modifies this`state, this`closeReason, this`writeInterest, this`modScript, this`submitted, this`packets
      modifies tx, sendRing`head, sendRing`tail, sendRing`size, sendRing.buffer
      modifies this`dispatched, this`framed, this`reactions, this`received
      modifies framer`scratch, framer`lastErrorReason, rx, recvRing`head, recvRing`tail, recvRing`size, recvRing.buffer
      ensures Valid()
      ensures more ==> state == Connected && |rx.script| < |old(rx.script)|
      ensures !FromOutside(closeReason)
      ensures rx.calls >= old(rx.calls) && (state == Connected ==> rx.calls > old(rx.calls))
      ensures !more && state == Connected ==> (rx.held <==> rx.incoming != [])
      ensures !more ==> state != Connected || rx.blocked
      ensures received + rx.incoming == old(received + rx.incoming)
      ensures old(tx.wire) <= tx.wire && old(tx.calls) <= tx.calls
      ensures Answers(state == Connected, handlers, old(Talked()), Talked())
      ensures framer.scratch == old(framer.scratch) || fresh(framer.scratch)
    {
      hide LeftOf; hide LastAsked; hide LastUnknown; hide Answers; hide TxValid;
      hide ParseAll; hide ParseFrame; hide Messages; hide EncodeAll; hide Resumes;
      AnswersNothing(true, handlers, Talked(), Talked());
      AnswersNothing(false, handlers, Talked(), Talked());
      if recvRing.size == recvRing.capacity {
        FullRingWaits(recvRing.Contents(), framer.maxPayloadLen);
        CloseNow(RecvOverflow);
        return false;
      }
      var r := ReceiveOnce();
      match r
      case Received(_) =>
        more := ProcessRecvFrames();
      case PeerClosed =>
        CloseNow(PeerClose);
        return false;
      case RecvInterrupted =>
        return true;
      case RecvBlocked =>
        return false;
      case RecvFailed(_) =>
        CloseNow(RecvError);
        return false;
    }

    /** Reads until the kernel blocks, the peer closes, or the session closes itself. */
    method OnReadable()
      requires Valid()
      modifies this`state, this`closeReason, this`writeInterest, this`modScript, this`submitted, this`packets
      modifies tx, sendRing`head, sendRing`tail, sendRing`size, sendRing.buffer
      modifies this`dispatched, this`framed, this`reactions, this`received
      modifies framer`scratch, framer`lastErrorReason, rx, recvRing`head, recvRing`tail, recvRing`size, recvRing.buffer
      ensures Valid()
      ensures FromOutside(closeReason) ==> closeReason == old(closeReason)
      ensures old(state) == Connected ==> !FromOutside(closeReason)
      ensures rx.calls >= old(rx.calls)
      ensures state == Connected ==> rx.blocked && rx.calls > old(rx.calls) && (rx.held <==> rx.incoming != [])
      ensures received + rx.incoming == old(received + rx.incoming)
      ensures old(tx.wire) <= tx.wire && old(tx.calls) <= tx.calls
      ensures state == Connected ==> old(state) == Connected
      ensures Answers(state == Connected || old(state) != Connected, handlers, old(Talked()), Talked())
      ensures framer.scratch == old(framer.scratch) || fresh(framer.scratch)
    {
      hide Answers;
      AnswersNothing(true, handlers, Talked(), Talked());
      if state != Connected {
        return;
      }
      var more := true;
      while more
        invariant Valid()
        invariant more ==> state == Connected
        invariant !FromOutside(closeReason)
        invariant rx.calls >= old(rx.calls)
        invariant !more && state == Connected ==> rx.calls > old(rx.calls) && (rx.held <==> rx.incoming != [])
        invariant !more ==> state != Connected || rx.blocked
        invariant Answers(state == Connected, handlers, old(Talked()), Talked())
        invariant received + rx.incoming == old(received + rx.incoming)
        invariant old(tx.wire) <= tx.wire && old(tx.calls) <= tx.calls
        invariant framer.scratch == old(framer.scratch) || fresh(framer.scratch)
        decreases more, |rx.script|
      {
        ghost var was := Talked();
        more := ReadOnce();
        AnswersTrans(state == Connected, handlers, old(Talked()), was, Talked());
      }
    }

    /** A close between reading and the next event: nothing received is left undispatched. */
    method CloseFromOutside(reason: CloseReason)
      requires Valid() && FromOutside(Some(reason))
      modifies this`state, this`closeReason
      ensures Valid() && state != Connected
      ensures closeReason == if old(state) == Connected then Some(reason) else old(closeReason)
    {
      hide ParseAll; hide ParseFrame; hide Messages; hide EncodeAll; hide Resumes;
      CloseNow(reason);
    }

    /** A close between events: the idle timeout, or a call of the session service. */
    method CloseLocal()
      requires Valid()
      modifies this`state, this`closeReason
      ensures Valid() && state != Connected
      ensures closeReason == if old(state) == Connected then Some(LocalClose) else old(closeReason)
    {
      hide Valid;
      CloseFromOutside(LocalClose);
    }

    /** One readiness event: read first, then write, then the close signals, stopping once closed. */
    method HandleEvent(readable: bool, writable: bool, error: bool, hangup: bool)
      requires Valid()
      modifies this`state, this`closeReason, this`writeInterest, this`modScript, this`submitted, this`packets
      modifies tx, sendRing`head, sendRing`tail, sendRing`size, sendRing.buffer
      modifies this`dispatched, this`framed, this`reactions, this`received
      modifies framer`scratch, framer`lastErrorReason, rx, recvRing`head, recvRing`tail, recvRing`size, recvRing.buffer
      ensures Valid()
      ensures received + rx.incoming == old(received + rx.incoming)
      ensures old(tx.wire) <= tx.wire && old(tx.calls) <= tx.calls
      ensures framer.scratch == old(framer.scratch) || fresh(framer.scratch)
      ensures closeReason == Some(EpollErr) ==> error || old(closeReason) == Some(EpollErr)
      ensures closeReason == Some(EpollHup) ==> (hangup && !error) || old(closeReason) == Some(EpollHup)
      ensures closeReason == Some(LocalClose) ==> old(closeReason) == Some(LocalClose)
      ensures readable && old(state) == Connected && Survived(state, closeReason) ==>
                rx.blocked && rx.calls > old(rx.calls) && (rx.held <==> rx.incoming != [])
      ensures writable && old(state) == Connected && Survived(state, closeReason) && sendRing.size > 0 ==>
                tx.blocked && tx.calls > old(tx.calls)
      ensures error || hangup ==> state != Connected
      ensures state == Connected ==> old(state) == Connected
      ensures Answers(Survived(state, closeReason), handlers, old(Talked()), Talked())
      ensures !readable ==> rx.calls == old(rx.calls) && received == old(received) && Talked() == old(Talked())
      ensures !readable && !writable ==> tx.calls == old(tx.calls) && tx.wire == old(tx.wire)
    {
      hide Valid; hide Answers;
      AnswersNothing(true, handlers, Talked(), Talked());
      AnswersNothing(false, handlers, Talked(), Talked());
      if state == Closed {
        return;
      }
      if readable {
        OnReadable();
        AnswersLess(state == Connected || old(state) != Connected, Survived(state, closeReason), handlers,
            old(Talked()), Talked());
        if state != Connected {
          return;
        }
      }
      if writable {
        OnWritable();
        AnswersLess(true, Survived(state, closeReason), handlers, old(Talked()), Talked());
        if state != Connected {
          return;
        }
      }
      if error || hangup {
        if state != Connected {
          return;
        }
        ghost var talk := Talked();
        CloseFromOutside(if error then EpollErr else EpollHup);
        assert Talked() == talk;
      }
    }
  }

  lemma {:induction false} MessagesAt(fs: seq<seq<byte>>, i: nat)
    requires i < |Messages(fs)|
    ensures i < |fs| && SplitOpcode(fs[i]) == Some(Messages(fs)[i])
  {
    if i > 0 {
      MessagesAt(fs[1..], i - 1);
    }
  }

  /** No message over the payload limit or the ring's size is ever dispatched. */
  lemma DispatchedWithinLimits(s: Session, i: nat)
    requires s.Valid() && i < |s.dispatched|
    ensures OPCODE_FIELD_BYTES + |s.dispatched[i].body| <= s.framer.maxPayloadLen
    ensures LENGTH_FIELD_BYTES + OPCODE_FIELD_BYTES + |s.dispatched[i].body| <= s.recvRing.capacity
  {
    hide ParseAll; hide Messages; hide EncodeAll;
    MessagesAt(s.framed, i);
    var p := ParseAll(s.received, s.framer.maxPayloadLen, s.recvRing.capacity);
    assert s.framed <= p.frames;
    FramesWithinLimits(s.received, s.framer.maxPayloadLen, s.recvRing.capacity, i);
  }

  /** A session that has received a malformed stream, or one with a frame over its limits, does not stay connected. */
  lemma MalformedCloses(s: Session)
    requires s.Valid() && ParseAll(s.received, s.framer.maxPayloadLen, s.recvRing.capacity).bad
    ensures s.state != Connected && !s.EndedOutside()
  {
    hide ParseFrame; hide Messages; hide EncodeAll;
  }

  lemma ConcatThree(a: seq<byte>, b: seq<byte>, c: seq<byte>)
    ensures Concat([a, b, c]) == a + b + c
  {
    assert [a, b, c][1..] == [b, c] && [b, c][1..] == [c] && [c][1..] == [];
    assert Concat([c]) == c;
    assert Concat([b, c]) == b + c;
  }

  lemma {:induction false} ConcatPrefix(segs: seq<seq<byte>>, k: nat)
    requires k <= |segs|
    ensures |Concat(segs[..k])| <= |Concat(segs)|
  {
    if k > 0 {
      assert segs[..k][1..] == segs[1..][..k - 1];
      ConcatPrefix(segs[1..], k - 1);
    }
  }
}

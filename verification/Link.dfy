/**
 Two sessions joined by a network that moves bytes in order and at its own pace. Both ends
 send, react to messages and close at will; the kernels at both ends are adversaries.
 */
module Links {
  import opened Wire
  import opened RingBuffers
  import opened Framing
  import opened Sockets
  import opened Sessions

  datatype Step =
    | Submit(atA: bool, packet: Packet)
    | Ready(atA: bool, readable: bool, writable: bool, error: bool, hangup: bool)
    | Close(atA: bool)
    | Deliver(toA: bool, n: nat)

  ghost function Footprint(s: Session): set<object>
    reads s, s.framer
  {
    {s, s.tx, s.rx, s.sendRing, s.recvRing, s.framer, s.sendRing.buffer, s.recvRing.buffer, s.framer.scratch}
  }

  /** What the receiver read and what is in flight to it are a prefix of what the sender's kernel took. */
  ghost predicate Flow(from: Session, to: Session)
    reads from.tx, to, to.rx
  {
    to.received + to.rx.incoming <= from.tx.wire
  }

  ghost predicate Linked(a: Session, b: Session)
    reads Footprint(a), Footprint(b), a, b, a.framer, b.framer
  {
    && Footprint(a) !! Footprint(b)
    && a.Valid() && b.Valid()
    && Flow(a, b) && Flow(b, a)
  }

  /**
   The receiver has dispatched a prefix of the sender's packets, and all of them once it has read all
   their bytes, unless it closed itself while dispatching or sending. Either end may be gone by then.
   */
  ghost predicate Delivered(from: Session, to: Session)
    reads from, to, to.framer, to.recvRing
  {
    AllReceivable(from.packets, to.framer.maxPayloadLen, to.recvRing.capacity) ==>
      && to.dispatched <= from.packets
      && ((to.state == Connected || to.EndedOutside()) && to.received == EncodeAll(from.packets) ==>
            to.dispatched == from.packets)
  }

  lemma DispatchedIsPrefix(ps: seq<Packet>, received: seq<byte>, framed: seq<seq<byte>>, ring: seq<byte>,
                      maxPayload: nat, cap: nat)
    requires AllReceivable(ps, maxPayload, cap) && AllEncodable(ps)
    requires received <= EncodeAll(ps)
    requires Resumes(received, framed, ring, maxPayload, cap)
    ensures Messages(framed) <= ps
    ensures received == EncodeAll(ps) && ParseFrame(ring, maxPayload, cap).NeedMore? ==> Messages(framed) == ps
  {
    RoundTrip(ps, received, maxPayload, cap);
    var p := ParseAll(received, maxPayload, cap);
    assert framed <= p.frames;
    MessagesPrefix(framed, p.frames);
    if ParseFrame(ring, maxPayload, cap).NeedMore? {
      assert framed + [] == framed;
    }
  }

  /** End to end, in every state two linked sessions can reach. */
  lemma LinkedDelivers(a: Session, b: Session)
    requires Linked(a, b)
    ensures Delivered(a, b) && Delivered(b, a)
  {
    hide Delivered;
    FlowDelivers(a, b);
    FlowDelivers(b, a);
  }

  lemma FlowDelivers(a: Session, b: Session)
    requires a.Valid() && b.Valid() && Flow(a, b)
    ensures Delivered(a, b)
  {
    if AllReceivable(a.packets, b.framer.maxPayloadLen, b.recvRing.capacity) {
      assert b.received <= b.received + b.rx.incoming;
      assert b.received <= EncodeAll(a.packets);
      DispatchedIsPrefix(a.packets, b.received, b.framed, b.recvRing.Contents(), b.framer.maxPayloadLen,
          b.recvRing.capacity);
    }
  }

  /** The network hands `to` the next `n` bytes after the first `carried`, or as many as there are. */
  method Carry(from: Session, to: Session, carried: nat, n: nat) returns (upto: nat)
    requires Linked(from, to) && carried == |to.received + to.rx.incoming|
    modifies to.rx`incoming
    ensures Linked(from, to)
    ensures upto == Min(|from.tx.wire|, carried + n)
    ensures to.received + to.rx.incoming == from.tx.wire[..upto]
  {
    hide ParseAll; hide ParseFrame; hide Messages; hide EncodeAll; hide Resumes;
    upto := Min(|from.tx.wire|, carried + n);
    var more := from.tx.wire[carried..upto];
    assert to.received + (to.rx.incoming + more) == to.received + to.rx.incoming + more;
    assert from.tx.wire[..upto] == from.tx.wire[..carried] + more;
    to.rx.incoming := to.rx.incoming + more;
  }

  /** A session whose footprint did not change is as it was. */
  twostate lemma Untouched(s: Session)
    requires old(s.Valid())
    requires unchanged(old(Footprint(s)))
    ensures s.Valid()
    ensures Footprint(s) == old(Footprint(s))
    ensures s.received == old(s.received) && s.rx.incoming == old(s.rx.incoming) && s.tx.wire == old(s.tx.wire)
  {
  }

  /** Every packet of `from` is one the receiver can take, and all their bytes have arrived. */
  ghost predicate AllArrived(from: Session, to: Session)
    reads from, to, to.rx, to.framer, to.recvRing
  {
    && AllReceivable(from.packets, to.framer.maxPayloadLen, to.recvRing.capacity)
    && to.received + to.rx.incoming == EncodeAll(from.packets)
  }

  /** With nothing left to read, everything that arrived is dispatched. */
  lemma ArrivedIsDispatched(from: Session, to: Session)
    requires from.Valid() && to.Valid() && Flow(from, to) && AllArrived(from, to) && to.rx.incoming == []
    requires to.state == Connected || to.EndedOutside()
    ensures to.dispatched == from.packets
  {
    hide Session.Valid; hide EncodeAll;
    FlowDelivers(from, to);
    assert to.received + [] == to.received;
  }

  /** A packet counts as sent when the session is connected and the packet fits the length field. */
  function Submitted(packets: seq<Packet>, state: SessionState, p: Packet): seq<Packet> {
    if state == Connected && Encodable(p) then packets + [p] else packets
  }

  /** The packets one end was given to send that fit the length field, in order. */
  function SubmittedBy(steps: seq<Step>, atA: bool): seq<Packet> {
    if steps == [] then []
    else
      var last := steps[|steps| - 1];
      SubmittedBy(steps[..|steps| - 1], atA) +
      if last.Submit? && last.atA == atA && Encodable(last.packet) then [last.packet] else []
  }

  lemma SubmittedSnoc(steps: seq<Step>, i: nat, atA: bool)
    requires i < |steps|
    ensures SubmittedBy(steps[..i + 1], atA) ==
            SubmittedBy(steps[..i], atA) +
            if steps[i].Submit? && steps[i].atA == atA && Encodable(steps[i].packet) then [steps[i].packet] else []
  {
    assert steps[..i + 1][..i] == steps[..i];
  }

  /** `xs` is `ys` with some packets left out. */
  predicate Within(xs: seq<Packet>, ys: seq<Packet>) {
    if xs == [] then true
    else if ys == [] then false
    else
      var xs', ys' := xs[..|xs| - 1], ys[..|ys| - 1];
      if xs[|xs| - 1] == ys[|ys| - 1] then Within(xs', ys') else Within(xs, ys')
  }

  lemma {:induction false} WithinLess(xs: seq<Packet>, ys: seq<Packet>)
    requires Within(xs, ys) && xs != []
    ensures Within(xs[..|xs| - 1], ys)
    decreases |ys|
  {
    var xs', ys' := xs[..|xs| - 1], ys[..|ys| - 1];
    if xs[|xs| - 1] == ys[|ys| - 1] {
      if xs' != [] && xs'[|xs'| - 1] == ys[|ys| - 1] {
        WithinLess(xs', ys');
      }
    } else {
      WithinLess(xs, ys');
      if xs' != [] && xs'[|xs'| - 1] == ys[|ys| - 1] {
        WithinLess(xs', ys');
      }
    }
  }

  lemma {:induction false} WithinMore(xs: seq<Packet>, ys: seq<Packet>, zs: seq<Packet>)
    requires Within(xs, ys)
    ensures Within(xs, ys + zs)
    decreases |zs|
  {
    if zs == [] {
      assert ys + zs == ys;
    } else {
      var zs' := zs[..|zs| - 1];
      WithinMore(xs, ys, zs');
      assert (ys + zs)[..|ys + zs| - 1] == ys + zs';
      if xs != [] && xs[|xs| - 1] == zs[|zs| - 1] {
        WithinLess(xs, ys + zs');
      }
    }
  }

  lemma WithinSnoc(xs: seq<Packet>, ys: seq<Packet>, p: Packet)
    requires Within(xs, ys)
    ensures Within(xs + [p], ys + [p])
  {
    assert (xs + [p])[..|xs|] == xs && (ys + [p])[..|ys|] == ys;
  }

  /** Nothing submitted at an end that is still connected is missing among its packets. */
  ghost predicate AllTaken(steps: seq<Step>, atA: bool, connected: bool, was: seq<Packet>, now: seq<Packet>) {
    was <= now && (connected ==> Within(SubmittedBy(steps, atA), now[|was|..]))
  }

  lemma TakenMore(steps: seq<Step>, i: nat, atA: bool, was: seq<Packet>, mid: seq<Packet>, now: seq<Packet>,
                  before: bool, lasts: bool)
    requires i < |steps| && AllTaken(steps[..i], atA, before, was, mid) && mid <= now && (lasts ==> before)
    requires lasts && steps[i].Submit? && steps[i].atA == atA && Encodable(steps[i].packet) ==>
               now == mid + [steps[i].packet]
    ensures AllTaken(steps[..i + 1], atA, lasts, was, now)
  {
    hide Within; hide SubmittedBy;
    SubmittedSnoc(steps, i, atA);
    var xs, ys := SubmittedBy(steps[..i], atA), mid[|was|..];
    if lasts {
      if steps[i].Submit? && steps[i].atA == atA && Encodable(steps[i].packet) {
        WithinSnoc(xs, ys, steps[i].packet);
        assert now[|was|..] == ys + [steps[i].packet];
      } else {
        assert xs + [] == xs;
        WithinMore(xs, ys, now[|mid|..]);
        assert now[|was|..] == ys + now[|mid|..];
      }
    }
  }

  lemma NothingSubmitted(packets: seq<Packet>, connected: bool, atA: bool)
    ensures AllTaken([], atA, connected, packets, packets)
  {
  }

  /** A readable event that a connected session got through, with no would-block while bytes were left. */
  ghost predicate ReadsUp(s: Session, step: Step, was: SessionState)
    reads s, s.rx
  {
    step.Ready? && step.readable && was == Connected && Survived(s.state, s.closeReason) && !s.rx.held
  }

  /** What no step of a link takes back, and that a submit adds its packet. */
  twostate predicate Grown(s: Session, step: Step, atA: bool)
    reads s
  {
    && (s.state == Connected ==> old(s.state) == Connected)
    && old(s.packets) <= s.packets
    && (step.Submit? && step.atA == atA ==> s.packets == Submitted(old(s.packets), old(s.state), step.packet))
  }

  /** What a step of one end does there: a close closes, and an event answers the messages it dispatches. */
  twostate predicate Acted(s: Session, step: Step)
    reads s
  {
    && (step.Close? ==> s.state != Connected)
    && (step.Ready? ==> Answers(Survived(s.state, s.closeReason), s.handlers, old(s.Talked()), s.Talked()))
  }

  /** What one end may do on its own: submit a packet, handle a readiness event, or close. */
  method ActAlone(s: Session, step: Step)
    requires s.Valid() && !step.Deliver?
    modifies Footprint(s)
    ensures s.Valid()
    ensures s.received + s.rx.incoming == old(s.received + s.rx.incoming)
    ensures old(s.tx.wire) <= s.tx.wire
    ensures fresh(Footprint(s) - old(Footprint(s)))
    ensures ReadsUp(s, step, old(s.state)) ==> s.rx.incoming == []
    ensures step.Ready? && (step.error || step.hangup) ==> s.state != Connected
    ensures forall atA :: Grown(s, step, atA)
    ensures Acted(s, step)
  {
    hide ParseAll; hide ParseFrame; hide Messages; hide EncodeAll; hide Resumes;
    match step
    case Submit(_, p) =>
      var _ := s.SendPacketU16(p);
    case Ready(_, readable, writable, error, hangup) =>
      s.HandleEvent(readable, writable, error, hangup);
    case Close(_) =>
      s.CloseLocal();
  }

  method Act(s: Session, ghost peer: Session, step: Step)
    requires Linked(s, peer) && !step.Deliver?
    modifies Footprint(s)
    ensures Linked(s, peer)
    ensures s.received + s.rx.incoming == old(s.received + s.rx.incoming)
    ensures unchanged(old(Footprint(peer)))
    ensures fresh(Footprint(s) - old(Footprint(s)))
    ensures forall atA :: Grown(s, step, atA)
    ensures Acted(s, step)
    ensures ReadsUp(s, step, old(s.state)) && AllArrived(peer, s) ==> s.dispatched == peer.packets
  {
    hide AllArrived; hide Acted; hide Grown;
    ActAlone(s, step);
    Untouched(peer);
    if AllArrived(peer, s) && s.rx.incoming == [] && Survived(s.state, s.closeReason) {
      ArrivedIsDispatched(peer, s);
    }
  }

  /** One step of either end or of the network, with how much the network has carried each way. */
  method Advance(a: Session, b: Session, toA: nat, toB: nat, step: Step) returns (toA': nat, toB': nat)
    requires Linked(a, b)
    requires toA == |a.received + a.rx.incoming| && toB == |b.received + b.rx.incoming|
    modifies Footprint(a), Footprint(b)
    ensures Linked(a, b)
    ensures toA' == |a.received + a.rx.incoming| && toB' == |b.received + b.rx.incoming|
    ensures fresh(Footprint(a) - old(Footprint(a))) && fresh(Footprint(b) - old(Footprint(b)))
    ensures Grown(a, step, true) && Grown(b, step, false)
    ensures !step.Deliver? && step.atA ==> Acted(a, step) && unchanged(old(Footprint(b)))
    ensures !step.Deliver? && !step.atA ==> Acted(b, step) && unchanged(old(Footprint(a)))
    ensures ReadsUp(a, step, old(a.state)) && step.atA && AllArrived(b, a) ==> a.dispatched == b.packets
    ensures ReadsUp(b, step, old(b.state)) && !step.atA && AllArrived(a, b) ==> b.dispatched == a.packets
    ensures step.Deliver? && step.toA ==> a.received + a.rx.incoming == b.tx.wire[..Min(|b.tx.wire|, toA + step.n)]
    ensures step.Deliver? && !step.toA ==> b.received + b.rx.incoming == a.tx.wire[..Min(|a.tx.wire|, toB + step.n)]
  {
    hide Session.Valid; hide AllArrived; hide Acted;
    toA', toB' := toA, toB;
    match step
    case Submit(atA, _) =>
      if atA { Act(a, b, step); } else { Act(b, a, step); }
    case Ready(atA, _, _, _, _) =>
      if atA { Act(a, b, step); } else { Act(b, a, step); }
    case Close(atA) =>
      if atA { Act(a, b, step); } else { Act(b, a, step); }
    case Deliver(towardA, n) =>
      if towardA { toA' := Carry(b, a, toA, n); } else { toB' := Carry(a, b, toB, n); }
  }

  /**
   Any run of any length: both directions deliver a prefix of the packets in order, with equal
   opcodes and bodies, and everything once every byte was read. The packets of an end that is still
   connected include everything it was given to send, in that order.
   */
  method Run(a: Session, b: Session, steps: seq<Step>)
    requires Linked(a, b)
    requires a.received + a.rx.incoming == [] && b.received + b.rx.incoming == []
    modifies Footprint(a), Footprint(b)
    ensures Linked(a, b)
    ensures Delivered(a, b) && Delivered(b, a)
    ensures AllTaken(steps, true, a.state == Connected, old(a.packets), a.packets)
    ensures AllTaken(steps, false, b.state == Connected, old(b.packets), b.packets)
  {
    hide Linked; hide Delivered; hide AllTaken; hide Acted; hide AllArrived; hide ReadsUp;
    var toA, toB := 0, 0;
    NothingSubmitted(a.packets, a.state == Connected, true);
    NothingSubmitted(b.packets, b.state == Connected, false);
    for i := 0 to |steps|
      invariant Linked(a, b)
      invariant toA == |a.received + a.rx.incoming| && toB == |b.received + b.rx.incoming|
      invariant fresh(Footprint(a) - old(Footprint(a))) && fresh(Footprint(b) - old(Footprint(b)))
      invariant AllTaken(steps[..i], true, a.state == Connected, old(a.packets), a.packets)
      invariant AllTaken(steps[..i], false, b.state == Connected, old(b.packets), b.packets)
    {
      ghost var ps, qs, up, on := a.packets, b.packets, a.state == Connected, b.state == Connected;
      toA, toB := Advance(a, b, toA, toB, steps[i]);
      TakenMore(steps, i, true, old(a.packets), ps, a.packets, up, a.state == Connected);
      TakenMore(steps, i, false, old(b.packets), qs, b.packets, on, b.state == Connected);
    }
    assert steps[..|steps|] == steps;
    LinkedDelivers(a, b);
  }
}

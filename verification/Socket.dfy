/**
 The kernel side of a connected socket, as an adversary. Each call consumes one scripted
 outcome, so a statement about every script is a statement about every kernel; a script that
 has run out reports "would block". `wire` records the bytes the kernel accepted.
 */
module Sockets {
  import opened Wire
  import opened RingBuffers

  datatype SendOutcome = Sent(n: nat) | SentZero | SendInterrupted | SendBlocked | SendFailed(errno: int)

  datatype RecvOutcome = Received(n: nat) | PeerClosed | RecvInterrupted | RecvBlocked | RecvFailed(errno: int)

  /** The kernel moves at least one byte, and no more than it was asked for. */
  function Clamped(n: nat, limit: nat): (r: nat)
    requires limit > 0
    ensures 1 <= r <= limit && (1 <= n <= limit ==> r == n)
  {
    if n == 0 then 1 else Min(n, limit)
  }

  function Room(iov: seq<Iov>): nat
    requires 1 <= |iov| <= 2
  {
    iov[0].len + if |iov| == 2 then iov[1].len else 0
  }

  class TxSocket {
    var script: seq<SendOutcome>
    var wire: seq<byte>
    /** Whether the last send reported "would block", so a writability edge is still owed. */
    ghost var blocked: bool
    /** Whether a send ever reported zero bytes or an error. */
    ghost var failed: bool
    /** How many sends there were. */
    ghost var calls: nat

    constructor (script: seq<SendOutcome>)
      ensures this.script == script && wire == [] && !blocked && !failed
    {
      this.script := script;
      wire := [];
      blocked, failed, calls := false, false, 0;
    }

    method Send(data: seq<byte>) returns (r: SendOutcome)
      requires |data| > 0
      modifies this
      ensures r.Sent? ==> 1 <= r.n <= |data| && wire == old(wire) + data[..r.n]
      ensures !r.Sent? ==> wire == old(wire)
      ensures blocked == r.SendBlocked?
      ensures failed == (old(failed) || r.SentZero? || r.SendFailed?)
      ensures calls == old(calls) + 1
      ensures if old(script) == [] then r == SendBlocked && script == []
              else
                && script == old(script)[1..]
                && if old(script)[0].Sent? then r == Sent(Clamped(old(script)[0].n, |data|)) else r == old(script)[0]
    {
      r := SendBlocked;
      if |script| > 0 {
        r := script[0];
        script := script[1..];
        if r.Sent? {
          var n := Clamped(r.n, |data|);
          wire := wire + data[..n];
          r := Sent(n);
        }
      }
      blocked := r.SendBlocked?;
      failed := failed || r.SentZero? || r.SendFailed?;
      calls := calls + 1;
    }
  }

  class RxSocket {
    var script: seq<RecvOutcome>
    /** Bytes that have arrived and were not read yet. */
    var incoming: seq<byte>
    /** Whether the last receive reported "would block", so nothing is left that an edge announced. */
    ghost var blocked: bool
    /** Whether a receive ever reported the peer's close or an error. */
    ghost var failed: bool
    /** How many receives there were, and whether the last one reported "would block" with bytes left. */
    ghost var calls: nat
    ghost var held: bool

    constructor (script: seq<RecvOutcome>)
      ensures this.script == script && incoming == [] && !blocked && !failed && !held
    {
      blocked, failed, calls := false, false, 0;
      held := false;
      this.script := script;
      incoming := [];
    }

    method CopyTo(buf: array<byte>, off: nat, data: seq<byte>)
      requires off + |data| <= buf.Length
      modifies buf
      ensures buf[..] == Stored(old(buf[..]), off, data)
    {
      for i := 0 to |data|
        invariant buf[..] == Stored(old(buf[..]), off, data[..i])
      {
        StoredNext(old(buf[..]), off, data, i);
        buf[off + i] := data[i];
      }
      assert data[..|data|] == data;
    }

    method Recv(buf: array<byte>, iov: seq<Iov>) returns (r: RecvOutcome)
      requires 1 <= |iov| <= 2
      requires forall v :: v in iov ==> v.len > 0 && v.base + v.len <= buf.Length
      modifies this, buf
      ensures r.Received? ==>
                && 1 <= r.n <= |old(incoming)|
                && r.n <= iov[0].len + (if |iov| == 2 then iov[1].len else 0)
                && buf[..] == Scatter(old(buf[..]), iov, old(incoming)[..r.n])
                && incoming == old(incoming)[r.n..]
      ensures !r.Received? ==> buf[..] == old(buf[..]) && incoming == old(incoming)
      ensures blocked == r.RecvBlocked?
      ensures failed == (old(failed) || r.PeerClosed? || r.RecvFailed?)
      ensures calls == old(calls) + 1
      ensures held == (r.RecvBlocked? && incoming != [])
      ensures if old(script) == [] then r == RecvBlocked && script == []
              else
                && script == old(script)[1..]
                && if !old(script)[0].Received? then r == old(script)[0]
                   else if old(incoming) == [] then r == RecvBlocked
                   else r == Received(Clamped(old(script)[0].n, Min(Room(iov), |old(incoming)|)))
    {
      r := RecvBlocked;
      if |script| > 0 {
        r := script[0];
        script := script[1..];
        if r.Received? {
          if incoming == [] {
            r := RecvBlocked;
          } else {
            var n := Clamped(r.n, Min(Room(iov), |incoming|));
            var data := incoming[..n];
            var first := Min(n, iov[0].len);
            CopyTo(buf, iov[0].base, data[..first]);
            if n > first {
              CopyTo(buf, iov[1].base, data[first..]);
            }
            incoming := incoming[n..];
            r := Received(n);
          }
        }
      }
      blocked := r.RecvBlocked?;
      failed := failed || r.PeerClosed? || r.RecvFailed?;
      calls := calls + 1;
      held := r.RecvBlocked? && incoming != [];
    }
  }
}

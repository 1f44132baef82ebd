/** Cuts a received byte stream into length-prefixed frames, in place in the receive ring. */
module Framing {
  import opened Wire
  import opened RingBuffers
  import opened Wrappers

  datatype FrameResult = NeedMoreBytes | InvalidFrame | FrameReady

  /** Where a payload lies: in the ring (no copy) or in the framer's scratch buffer (wrapped payload). */
  datatype MessageView = MessageView(inScratch: bool, base: nat, len: nat)

  class LengthPrefixFramer {
    const maxPayloadLen: u32
    var scratch: array<byte>
    var lastErrorReason: Option<string>

    constructor (maxPayload: u32)
      ensures maxPayloadLen == maxPayload && fresh(scratch)
    {
      maxPayloadLen := maxPayload;
      scratch := new byte[0];
      lastErrorReason := None;
    }

    ghost predicate ViewValid(v: MessageView, ring: RingBuffer)
      reads this
    {
      v.base + v.len <= if v.inScratch then scratch.Length else ring.buffer.Length
    }

    /** The bytes a view shows. */
    function Bytes(v: MessageView, ring: RingBuffer): seq<byte>
      requires ViewValid(v, ring)
      reads this, scratch, ring.buffer
    {
      if v.inScratch then scratch[v.base..v.base + v.len] else ring.buffer[v.base..v.base + v.len]
    }

    /** Reads the payload length at the head of the ring without consuming it. */
    method PeekLength(input: RingBuffer) returns (len: u32)
      requires input.Valid() && input.size >= LENGTH_FIELD_BYTES
      ensures len == LoadU32Be(input.Contents()[..4])
    {
      var hdr := new byte[4](_ => 0);
      var copied := input.Peek(hdr, LENGTH_FIELD_BYTES);
      assert copied == LENGTH_FIELD_BYTES;
      assert hdr[..] == input.Contents()[..4];
      len := LoadU32Be(hdr[..]);
    }

    /** Consumes the four length bytes. */
    method DropLength(input: RingBuffer)
      requires input.Valid() && input.size >= LENGTH_FIELD_BYTES
      modifies input`head, input`size
      ensures input.Valid()
      ensures input.Contents() == old(input.Contents())[4..]
    {
      var tmp := new byte[4](_ => 0);
      var headerRead := input.Read(tmp, LENGTH_FIELD_BYTES);
      assert headerRead == LENGTH_FIELD_BYTES;
    }

    /** Consumes `len` payload bytes: as a view of the ring when they lie in one piece, else by copying. */
    method TakePayload(input: RingBuffer, len: nat) returns (out: MessageView)
      requires input.Valid() && 0 < len <= input.size
      modifies this`scratch, input`head, input`size
      ensures input.Valid()
      ensures scratch == old(scratch) || fresh(scratch)
      ensures out.inScratch <==> old(input.head) + len > input.capacity
      ensures ViewValid(out, input)
      ensures Bytes(out, input) == old(input.Contents())[..len]
      ensures input.Contents() == old(input.Contents())[len..]
    {
      var contiguous := input.PeekView(len);
      if contiguous.len == len {
        var payloadView := input.ReadView(len);
        return MessageView(false, payloadView.base, payloadView.len);
      }
      scratch := new byte[len](_ => 0);
      var payloadRead := input.Read(scratch, len);
      assert payloadRead == len;
      return MessageView(true, 0, len);
    }

    /**
     One framing attempt. The outcome is exactly what the reference parser says of the ring's
     contents; a frame is consumed whole, and every other outcome leaves the ring as it was.
     */
    method TryFrame(input: RingBuffer) returns (r: FrameResult, out: MessageView)
      requires input.Valid()
      modifies this`scratch, this`lastErrorReason, input`head, input`size
      ensures input.Valid()
      ensures scratch == old(scratch) || fresh(scratch)
      ensures var p := ParseFrame(old(input.Contents()), maxPayloadLen, input.capacity);
              && (r == NeedMoreBytes <==> p == NeedMore)
              && (r == InvalidFrame <==> p.Invalid?)
              && (r == InvalidFrame ==> lastErrorReason == Some(p.reason))
              && (r != InvalidFrame ==> lastErrorReason == None)
              && (r == FrameReady ==>
                    && p.Framed?
                    && ViewValid(out, input)
                    && out.len <= maxPayloadLen
                    && Bytes(out, input) == p.payload
                    && input.Contents() == old(input.Contents())[4 + |p.payload|..])
      ensures r != FrameReady ==> input.Contents() == old(input.Contents())
    {
      hide Span; hide LoadU32Be;
      lastErrorReason := None;
      out := MessageView(false, 0, 0);
      if input.size < LENGTH_FIELD_BYTES {
        return NeedMoreBytes, out;
      }
      var payloadLen := PeekLength(input);
      if payloadLen > maxPayloadLen {
        lastErrorReason := Some("payload_len_exceeds_max");
        return InvalidFrame, out;
      }
      var totalFrameBytes := LENGTH_FIELD_BYTES + payloadLen;
      if totalFrameBytes > input.capacity {
        lastErrorReason := Some("frame_exceeds_ring_capacity");
        return InvalidFrame, out;
      }
      if input.size < totalFrameBytes {
        return NeedMoreBytes, out;
      }
      ghost var c := input.Contents();
      DropLength(input);
      if payloadLen == 0 {
        return FrameReady, out;
      }
      out := TakePayload(input, payloadLen);
      assert c[4..][..payloadLen] == c[4..4 + payloadLen];
      assert c[4..][payloadLen..] == c[4 + payloadLen..];
      return FrameReady, out;
    }
  }
}

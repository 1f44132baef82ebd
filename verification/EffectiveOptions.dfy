/** How configured sizes become the sizes a worker uses, and what that means for framing. */
module EffectiveOptions {
  import opened Wire

  const DEFAULT_RECV_RING_CAPACITY: nat := 64 * 1024
  const DEFAULT_SEND_RING_CAPACITY: nat := 64 * 1024
  const DEFAULT_MAX_PAYLOAD_LEN: u32 := 1024 * 1024
  const DEFAULT_TICK_RESOLUTION_MS: nat := 10
  const DEFAULT_TIMER_SLOTS: nat := 1024
  const U32_MAX: u32 := 0xFFFF_FFFF

  /** The configured sizes; zero means unset. */
  datatype EngineConfig = EngineConfig(recvRingCapacity: nat, sendRingCapacity: nat, maxPayloadLen: u32,
                      tickResolutionMs: nat, timerSlots: nat)

  datatype WorkerOptions = WorkerOptions(recvCapacity: nat, sendCapacity: nat, maxPayloadLen: u32,
                      tickResolutionMs: nat, slotCount: nat)

  /** A configured size, or its default when unset. */
  function OrDefault(configured: nat, default: nat): nat {
    if configured != 0 then configured else default
  }

  /**
   The effective sizes: unset ones take their defaults, and the payload limit is the largest one not
   above the request that leaves room for the length field, when any does. The framer then refuses a
   frame for the ring's size exactly when a ring no larger than the length field was configured.
   */
  method MakeEffectiveOptions(cfg: EngineConfig) returns (opt: WorkerOptions)
    ensures opt.recvCapacity == OrDefault(cfg.recvRingCapacity, DEFAULT_RECV_RING_CAPACITY)
    ensures opt.sendCapacity == OrDefault(cfg.sendRingCapacity, DEFAULT_SEND_RING_CAPACITY)
    ensures opt.tickResolutionMs == OrDefault(cfg.tickResolutionMs, DEFAULT_TICK_RESOLUTION_MS)
    ensures opt.slotCount == OrDefault(cfg.timerSlots, DEFAULT_TIMER_SLOTS)
    ensures 0 < opt.maxPayloadLen <= OrDefault(cfg.maxPayloadLen, DEFAULT_MAX_PAYLOAD_LEN)
    ensures opt.maxPayloadLen < OrDefault(cfg.maxPayloadLen, DEFAULT_MAX_PAYLOAD_LEN) ==>
              LENGTH_FIELD_BYTES + opt.maxPayloadLen == opt.recvCapacity
    ensures CanExceedRing(opt.maxPayloadLen, opt.recvCapacity) <==> 0 < cfg.recvRingCapacity <= LENGTH_FIELD_BYTES
  {
    opt := WorkerOptions(DEFAULT_RECV_RING_CAPACITY, DEFAULT_SEND_RING_CAPACITY, DEFAULT_MAX_PAYLOAD_LEN,
        DEFAULT_TICK_RESOLUTION_MS, DEFAULT_TIMER_SLOTS);
    if cfg.tickResolutionMs != 0 {
      opt := opt.(tickResolutionMs := cfg.tickResolutionMs);
    }
    if cfg.timerSlots != 0 {
      opt := opt.(slotCount := cfg.timerSlots);
    }
    if cfg.recvRingCapacity != 0 {
      opt := opt.(recvCapacity := cfg.recvRingCapacity);
    }
    if cfg.sendRingCapacity != 0 {
      opt := opt.(sendCapacity := cfg.sendRingCapacity);
    }
    if cfg.maxPayloadLen != 0 {
      opt := opt.(maxPayloadLen := cfg.maxPayloadLen);
    }
    var recvCap := opt.recvCapacity;
    if recvCap > 4 {
      var maxByRing := recvCap - 4;
      var cap32 := if maxByRing > U32_MAX then U32_MAX else maxByRing;
      opt := opt.(maxPayloadLen := if opt.maxPayloadLen < cap32 then opt.maxPayloadLen else cap32);
    }
    ExceedsRingIff(opt.maxPayloadLen, opt.recvCapacity);
  }

  /** Some byte stream makes the framer refuse a frame for the ring's size. */
  ghost predicate CanExceedRing(maxPayload: nat, cap: nat) {
    exists s: seq<byte> :: ParseFrame(s, maxPayload, cap) == Invalid("frame_exceeds_ring_capacity")
  }

  /**
   A frame that passes the payload limit can still be too large for the receive ring exactly when the
   limit and the length field together exceed the ring.
   */
  lemma ExceedsRingIff(maxPayload: u32, cap: nat)
    ensures CanExceedRing(maxPayload, cap) <==> LENGTH_FIELD_BYTES + maxPayload > cap
  {
    if LENGTH_FIELD_BYTES + maxPayload > cap {
      var s := StoreU32Be(maxPayload);
      U32Stored(maxPayload);
      assert s[..4] == s;
      assert ParseFrame(s, maxPayload, cap) == Invalid("frame_exceeds_ring_capacity");
    }
  }
}

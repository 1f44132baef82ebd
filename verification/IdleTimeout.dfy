/**
 The idle timeout of a session: one timer, re-armed only when it fires, on a wheel it shares with any
 other timers. The wheel processes tick `k` while the clock is in that tick's own window
 `[k * step, (k + 1) * step)`. Instants are nanoseconds since the wheel started.
 */
module IdleTimeouts {
  import opened TimerWheels
  import opened Wrappers

  datatype Step = Wait(ns: nat) | WheelTick | AddOther(delay: int) | Receive | CloseOther

  /** The expiry of a timer armed for the rest of the timeout lies less than one step past the timeout. */
  lemma ArmBound(tick: nat, now: int, lastRx: int, timeoutMs: nat, res: int, rem: int)
    requires res > 0 && tick * (res * NS_PER_MS) <= now && lastRx <= now
    requires rem == timeoutMs - (now - lastRx) / NS_PER_MS && rem > 0
    ensures ExpirationTick(tick, rem, res) * (res * NS_PER_MS) < lastRx + timeoutMs * NS_PER_MS + res * NS_PER_MS
    ensures ExpirationTick(tick, rem, res) > tick
  {
    CeilBounds(rem, res);
    var ticks := DurationToTicks(rem, res);
    assert ticks * res <= rem + res - 1;
    assert ticks * (res * NS_PER_MS) == ticks * res * NS_PER_MS;
    Distribute(tick, ticks, res * NS_PER_MS);
  }

  /** The timer is among the firings from index `from` on. */
  predicate FiredSince(fired: seq<Firing>, from: nat, t: Timer) {
    exists i :: from <= i < |fired| && fired[i].timer == t
  }

  lemma {:induction false} TimersHold(fs: seq<Firing>, t: Timer)
    ensures t in Timers(fs) <==> exists i :: 0 <= i < |fs| && fs[i].timer == t
  {
    if fs != [] {
      var front := fs[..|fs| - 1];
      TimersHold(front, t);
      if i :| 0 <= i < |fs| && fs[i].timer == t {
        assert i == |fs| - 1 || front[i].timer == t;
      }
      if i :| 0 <= i < |front| && front[i].timer == t {
        assert fs[i].timer == t;
      }
    }
  }

  /** A timer that was not due one tick ago has fired since then exactly if this tick is its own. */
  lemma FiresAtItsTick(w: TimerWheel, from: nat, t: Timer)
    requires w.Valid() && from <= |w.fired| && t in w.added && t.expirationTick >= w.currentTick
    requires forall i :: 0 <= i < from ==> w.fired[i].timer.expirationTick < w.currentTick
    ensures FiredSince(w.fired, from, t) <==> t.expirationTick == w.currentTick
  {
    FiresExactlyOnce(w, t);
    TimersHold(w.fired, t);
    if t.expirationTick == w.currentTick {
      assert t in Timers(w.fired);
      var i :| 0 <= i < |w.fired| && w.fired[i].timer == t;
    }
  }

  /** The idle timeout as if the session had an alarm of its own: the tick it is set to, if any. */
  datatype Idle = Idle(now: int, tick: nat, connected: bool, lastRx: int, alarm: Option<nat>, closedAt: Option<int>)

  /** The alarm rings: the session is closed if it was silent for the timeout, or waits for the rest of it. */
  function Rung(s: Idle, timeoutMs: nat, res: int): Idle
    requires res > 0
  {
    var elapsed := (s.now - s.lastRx) / NS_PER_MS;
    if timeoutMs == 0 || !s.connected then s.(alarm := None)
    else if elapsed >= timeoutMs then s.(alarm := None, connected := false, closedAt := Some(s.now))
    else s.(alarm := Some(ExpirationTick(s.tick, timeoutMs - elapsed, res)))
  }

  function After(s: Idle, step: Step, timeoutMs: nat, res: int): Idle
    requires res > 0
  {
    match step
    case Wait(ns) => if s.now + ns < (s.tick + 2) * (res * NS_PER_MS) then s.(now := s.now + ns) else s
    case WheelTick =>
      if (s.tick + 1) * (res * NS_PER_MS) > s.now then s
      else if s.alarm == Some(s.tick + 1) then Rung(s.(tick := s.tick + 1, alarm := None), timeoutMs, res)
      else s.(tick := s.tick + 1)
    case AddOther(_) => s
    case Receive => if s.connected then s.(lastRx := s.now) else s
    case CloseOther => s.(connected := false)
  }

  function AfterAll(s: Idle, steps: seq<Step>, timeoutMs: nat, res: int): Idle
    requires res > 0
    decreases |steps|
  {
    if steps == [] then s else AfterAll(After(s, steps[0], timeoutMs, res), steps[1..], timeoutMs, res)
  }

  class IdleWatch {
    const wheel: TimerWheel
    const timeoutMs: nat
    var now: int
    // the session
    var connected: bool
    var idleTimerArmed: bool
    var lastRxAt: int
    /** The idle timer on the wheel, until it fires. */
    var pending: Option<Timer>
    /** When the idle timeout closed the session. */
    var idleClosedAt: Option<int>
    /** Every idle timer this session has put on the wheel. */
    ghost var mine: seq<Timer>

    function TickStep(): int {
      wheel.tickResolution * NS_PER_MS
    }

    ghost function View(): Idle
      reads this, wheel
    {
      Idle(now, wheel.currentTick, connected, lastRxAt,
           if pending.Some? then Some(pending.value.expirationTick) else None, idleClosedAt)
    }

    /** The clock is in the window of the tick processed last, or of the next one. */
    ghost predicate Timely()
      reads this, wheel
    {
      wheel.Valid() && wheel.currentTick * TickStep() <= now < (wheel.currentTick + 2) * TickStep() && lastRxAt <= now
    }

    /** All idle timers but the last have expired; the last one is the pending one. */
    ghost predicate Tracked()
      reads this, wheel
    {
      && (forall i :: 0 <= i < |mine| ==> mine[i] in wheel.added)
      && (forall i :: 0 <= i < |mine| - 1 ==> mine[i].expirationTick <= wheel.currentTick)
      && (pending.Some? ==>
            mine != [] && mine[|mine| - 1] == pending.value && pending.value.expirationTick > wheel.currentTick)
      && (pending.None? && mine != [] ==> mine[|mine| - 1].expirationTick <= wheel.currentTick)
    }

    ghost predicate Armed()
      reads this, wheel
    {
      idleTimerArmed && pending.Some?
          && pending.value.expirationTick * TickStep() < lastRxAt + timeoutMs * NS_PER_MS + TickStep()
    }

    ghost predicate Valid()
      reads this, wheel
    {
      && Timely() && Tracked() && Closed()
      && (connected && timeoutMs > 0 ==> Armed())
      && (connected && timeoutMs == 0 ==> !idleTimerArmed && pending.None?)
    }

    ghost predicate Closed()
      reads this
    {
      && (connected ==> idleClosedAt == None)
      && (idleClosedAt.Some? ==> timeoutMs > 0 && InBound(idleClosedAt.value))
    }

    /** No earlier than the timeout after the last byte, and less than two ticks later. */
    ghost predicate InBound(at: int)
      reads this
    {
      lastRxAt + timeoutMs * NS_PER_MS <= at < lastRxAt + timeoutMs * NS_PER_MS + 2 * TickStep()
    }

    /** Starts the timeouts of a session on a wheel that may hold other timers. */
    constructor (wheel: TimerWheel, timeoutMs: nat, now: int)
      requires wheel.Valid()
      requires var step := wheel.tickResolution * NS_PER_MS;
               wheel.currentTick * step <= now < (wheel.currentTick + 2) * step
      modifies wheel
      ensures Valid() && connected && this.wheel == wheel && this.timeoutMs == timeoutMs && lastRxAt == now
    {
      this.wheel, this.timeoutMs, this.now := wheel, timeoutMs, now;
      pending, connected, idleTimerArmed, lastRxAt, idleClosedAt, mine := None, true, false, now, None, [];
      new;
      if timeoutMs > 0 {
        ArmIdleTimerAfter(timeoutMs);
      }
    }

    /** Puts an idle timer on the wheel, unless there is no timeout, the session is closed, or one is armed. */
    method ArmIdleTimerAfter(delay: int)
      requires Timely() && Tracked() && Closed()
      requires timeoutMs == 0 || !connected || idleTimerArmed ==> Valid()
      requires timeoutMs > 0 && connected && !idleTimerArmed ==>
                 pending.None? && delay > 0 && delay == timeoutMs - (now - lastRxAt) / NS_PER_MS
      modifies this`pending, this`idleTimerArmed, this`mine, wheel
      ensures Valid() && wheel.currentTick == old(wheel.currentTick) && wheel.fired == old(wheel.fired)
      ensures timeoutMs == 0 || !old(connected) || old(idleTimerArmed) ==> pending == old(pending) && mine == old(mine)
      ensures timeoutMs > 0 && old(connected) && !old(idleTimerArmed) ==>
                && |mine| == |old(mine)| + 1 && pending == Some(mine[|old(mine)|])
                && mine[|old(mine)|].expirationTick == ExpirationTick(wheel.currentTick, delay, wheel.tickResolution)
    {
      hide TimerWheel.Accounted; hide ExpirationTick;
      if timeoutMs == 0 || !connected || idleTimerArmed {
        return;
      }
      idleTimerArmed := true;
      var expiry := ExpirationTick(wheel.currentTick, delay, wheel.tickResolution);
      var id := wheel.AddTimer(delay, []);
      pending := Some(Timer(id, expiry));
      mine := mine + [Timer(id, expiry)];
      ArmBound(wheel.currentTick, now, lastRxAt, timeoutMs, wheel.tickResolution, delay);
    }

    /** The timer fired: close if the session was silent long enough, else wait for the rest. */
    method OnIdleTimer()
      requires Timely() && Tracked() && Closed() && pending.None?
      requires now < (wheel.currentTick + 1) * TickStep()
      requires connected ==>
                 timeoutMs > 0 && wheel.currentTick * TickStep() < lastRxAt + timeoutMs * NS_PER_MS + TickStep()
      modifies this`pending, this`idleTimerArmed, this`connected, this`idleClosedAt, this`mine, wheel
      ensures Valid() && wheel.currentTick == old(wheel.currentTick)
      ensures old(connected) ==> (connected <==> now < lastRxAt + timeoutMs * NS_PER_MS)
      ensures connected ==> old(connected)
      ensures old(connected) && !connected ==> idleClosedAt == Some(now)
      ensures View() == Rung(old(View()), timeoutMs, wheel.tickResolution)
    {
      hide TimerWheel.Accounted; hide ExpirationTick;
      idleTimerArmed := false;
      if timeoutMs == 0 || !connected {
        return;
      }
      var elapsed := (now - lastRxAt) / NS_PER_MS;
      if elapsed >= timeoutMs {
        connected := false;
        idleClosedAt := Some(now);
        Distribute(wheel.currentTick, 1, TickStep());
        return;
      }
      var remaining := timeoutMs - elapsed;
      if remaining <= 0 {
        remaining := 1;
      }
      ArmIdleTimerAfter(remaining);
    }

    /** The wheel processes its next tick, which runs this session's timer if it fires. */
    method ProcessTick()
      requires Valid() && (wheel.currentTick + 1) * TickStep() <= now
      modifies this`pending, this`idleTimerArmed, this`connected, this`idleClosedAt, this`mine, wheel
      ensures Valid() && wheel.currentTick == old(wheel.currentTick) + 1
      ensures connected ==> old(connected)
      ensures old(connected) && !connected ==> idleClosedAt == Some(now)
      ensures View() == After(old(View()), WheelTick, timeoutMs, wheel.tickResolution)
    {
      hide TimerWheel.Accounted; hide FiredSince; hide Rung;
      var before := |wheel.fired|;
      Windows(wheel.currentTick, TickStep());
      FiredBefore(wheel);
      wheel.Tick();
      if pending.Some? {
        FiresAtItsTick(wheel, before, pending.value);
        if FiredSince(wheel.fired, before, pending.value) {
          pending := None;
          OnIdleTimer();
        }
      }
    }

    /** One step of the clock, the wheel, other timers, the peer, or anything else that may close the session. */
    method Advance(s: Step)
      requires Valid()
      modifies this, wheel
      ensures Valid()
      ensures s.Wait? && old(now) + s.ns < (wheel.currentTick + 2) * TickStep() ==> now == old(now) + s.ns
      ensures !s.Wait? ==> now == old(now)
      ensures wheel.currentTick == old(wheel.currentTick) + if s.WheelTick?
                && (old(wheel.currentTick) + 1) * TickStep() <= now then 1 else 0
      ensures lastRxAt == if s.Receive? && old(connected) then now else old(lastRxAt)
      ensures s.CloseOther? ==> !connected
      ensures connected ==> old(connected)
      ensures old(connected) && !connected && !s.CloseOther? ==> idleClosedAt == Some(now)
      ensures View() == After(old(View()), s, timeoutMs, wheel.tickResolution)
      ensures s.AddOther? ==>
                exists id :: wheel.added == old(wheel.added) +
                  multiset{Timer(id, ExpirationTick(wheel.currentTick, s.delay, wheel.tickResolution))}
    {
      hide TimerWheel.Accounted;
      match s
      case Wait(ns) =>
        if now + ns < (wheel.currentTick + 2) * TickStep() {
          now := now + ns;
        }
      case WheelTick =>
        if (wheel.currentTick + 1) * TickStep() <= now {
          ProcessTick();
        }
      case AddOther(delay) =>
        var _ := wheel.AddTimer(delay, []);
      case Receive =>
        if connected {
          lastRxAt := now;
        }
      case CloseOther =>
        connected := false;
    }

    /**
     Whatever the traffic, the interleaving and the other timers on the wheel, the session fares as with an
     alarm of its own. One that is still connected has exactly one idle timer that has not fired and was not
     silent for two ticks more than the timeout, and one the timeout closed was silent for at least the timeout.
     */
    method Run(steps: seq<Step>)
      requires Valid()
      modifies this, wheel
      ensures Valid()
      ensures connected && timeoutMs > 0 ==>
                && |mine| > 0 && Timers(wheel.fired)[mine[|mine| - 1]] == 0 && mine[|mine| - 1] in wheel.added
                && forall i :: 0 <= i < |mine| - 1 ==> Timers(wheel.fired)[mine[i]] == wheel.added[mine[i]]
      ensures connected && timeoutMs > 0 ==> now < lastRxAt + timeoutMs * NS_PER_MS + 2 * TickStep()
      ensures idleClosedAt.Some? ==> InBound(idleClosedAt.value)
      ensures timeoutMs == 0 ==> idleClosedAt == None
      ensures View() == AfterAll(old(View()), steps, timeoutMs, wheel.tickResolution)
    {
      hide TimerWheel.Accounted; hide After;
      for i := 0 to |steps|
        invariant Valid()
        invariant AfterAll(View(), steps[i..], timeoutMs, wheel.tickResolution) ==
                  AfterAll(old(View()), steps, timeoutMs, wheel.tickResolution)
      {
        assert steps[i..][1..] == steps[i + 1..];
        Advance(steps[i]);
      }
      if connected && timeoutMs > 0 {
        MulGap(wheel.currentTick, pending.value.expirationTick, TickStep());
        Distribute(wheel.currentTick, 2, TickStep());
        forall i | 0 <= i < |mine|
          ensures Timers(wheel.fired)[mine[i]] == if i < |mine| - 1 then wheel.added[mine[i]] else 0
        {
          FiresExactlyOnce(wheel, mine[i]);
        }
      }
    }
  }

  lemma Windows(tick: nat, step: int)
    ensures (tick + 1) * step == tick * step + step
    ensures (tick + 2) * step == tick * step + 2 * step
    ensures (tick + 3) * step == tick * step + 3 * step
  {
    Distribute(tick, 1, step);
    Distribute(tick, 2, step);
    Distribute(tick, 3, step);
  }

  lemma FiredBefore(w: TimerWheel)
    requires w.Valid()
    ensures forall i :: 0 <= i < |w.fired| ==> w.fired[i].timer.expirationTick <= w.currentTick
  {
  }
}

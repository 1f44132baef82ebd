/**
 A hashed timer wheel. Callbacks run while a bucket is being processed and may add timers,
 also into that bucket; what each callback adds is scripted, so every behaviour is covered.
 */
module TimerWheels {

  const NS_PER_MS := 1_000_000
  const MAX_TIMER_ID := 0xFFFF_FFFF_FFFF_FFFF

  datatype Timer = Timer(id: nat, expirationTick: nat)

  /** A timer that fired, and the tick being processed when it did. */
  datatype Firing = Firing(timer: Timer, tick: nat)

  /** `delay` in ticks, rounded up. */
  function DurationToTicks(delay: int, res: int): nat
    requires res > 0
  {
    if delay <= 0 then 0 else (delay + res - 1) / res
  }

  /** The tick a timer added at tick `now` fires at. */
  function ExpirationTick(now: nat, delay: int, res: int): nat
    requires res > 0
  {
    var ticks := DurationToTicks(delay, res);
    now + if ticks == 0 then 1 else ticks
  }

  lemma CeilBounds(d: int, res: int)
    requires res > 0 && d > 0
    ensures DurationToTicks(d, res) > 0
    ensures (DurationToTicks(d, res) - 1) * res < d <= DurationToTicks(d, res) * res
  {
    var n := d + res - 1;
    assert n == (n / res) * res + n % res;
  }

  /** The delay in ticks is the least positive number of ticks that covers the delay. */
  lemma ExpirationIsLeast(now: nat, delay: int, res: int, k: nat)
    requires res > 0 && k > 0
    ensures ExpirationTick(now, delay, res) <= now + k <==> delay <= k * res
  {
    if delay <= 0 {
      assert k * res >= 0;
    } else {
      CeilBounds(delay, res);
      var t := DurationToTicks(delay, res);
      if t <= k {
        MulMonotone(t, k, res);
      } else {
        MulMonotone(k, t - 1, res);
      }
    }
  }

  /**
   Expiry counts from the start of the tick a timer is added in. For one added `offset` nanoseconds
   into that tick, the start of its expiry tick is no earlier than its delay exactly when the offset
   is within what rounding the delay up has added.
   */
  lemma NotEarlyIff(now: nat, offset: nat, delay: int, res: int)
    requires res > 0
    ensures var step := res * NS_PER_MS; var e := ExpirationTick(now, delay, res);
            e * step >= now * step + offset + delay * NS_PER_MS <==> offset <= ((e - now) * res - delay) * NS_PER_MS
  {
    var e := ExpirationTick(now, delay, res);
    Distribute(now, e - now, res * NS_PER_MS);
    MulAssociates(e - now, res, NS_PER_MS);
  }

  /** A timer of one whole tick, added in the last nanosecond of a tick, fires one nanosecond later. */
  lemma FiresEarly()
    ensures ExpirationTick(0, 10, 10) * (10 * NS_PER_MS) == 9_999_999 + 1
    ensures ExpirationTick(0, 10, 10) * (10 * NS_PER_MS) < 9_999_999 + 10 * NS_PER_MS
  {
  }

  /** The start of the expiry tick is at most one tick past the delay. */
  lemma NotLate(now: nat, offset: nat, delay: nat, res: int)
    requires res > 0
    ensures var step := res * NS_PER_MS;
            ExpirationTick(now, delay, res) * step <= now * step + offset + delay * NS_PER_MS + step
  {
    var e := ExpirationTick(now, delay, res);
    Distribute(now, e - now, res * NS_PER_MS);
    MulAssociates(e - now, res, NS_PER_MS);
    if delay > 0 {
      CeilBounds(delay, res);
      Distribute(e - now - 1, 1, res);
    }
  }

  /** A script after `n` of its entries were used. */
  function Drop<T>(script: seq<T>, n: nat): seq<T> {
    if n <= |script| then script[n..] else []
  }

  lemma DropNone<T>(script: seq<T>)
    ensures Drop(script, 0) == script
  {
  }

  lemma DropMore<T>(script: seq<T>, n: nat, m: nat)
    ensures Drop(Drop(script, n), m) == Drop(script, n + m)
  {
  }

  // ------------------------------------------------------------- slots

  function All(slots: seq<seq<Timer>>): multiset<Timer> {
    if slots == [] then multiset{} else multiset(slots[0]) + All(slots[1..])
  }

  lemma {:induction false} AllUpdate(slots: seq<seq<Timer>>, i: nat, b: seq<Timer>)
    requires i < |slots|
    ensures All(slots[i := b]) + multiset(slots[i]) == All(slots) + multiset(b)
  {
    var s' := slots[i := b];
    assert All(s') == multiset(s'[0]) + All(s'[1..]);
    if i == 0 {
      assert s'[1..] == slots[1..];
    } else {
      assert s'[1..] == slots[1..][i - 1 := b];
      AllUpdate(slots[1..], i - 1, b);
      var x, y, m := All(slots[1..][i - 1 := b]), All(slots[1..]), multiset(slots[0]);
      assert m + x + multiset(slots[i]) == m + (x + multiset(slots[i]));
      assert m + y + multiset(b) == m + (y + multiset(b));
    }
  }

  /** The slot of a tick on a wheel of `n` slots, lap by lap. */
  function SlotOf(tick: nat, n: nat): (i: nat)
    requires n > 0
    ensures i < n
  {
    if tick < n then tick else SlotOf(tick - n, n)
  }

  lemma {:induction false} SlotOfIsModulo(tick: nat, n: nat)
    requires n > 0
    ensures SlotOf(tick, n) == tick % n
  {
    if tick >= n {
      SlotOfIsModulo(tick - n, n);
      ModuloLap(tick - n, n);
    }
  }

  lemma ModuloLap(x: nat, n: nat)
    requires n > 0
    ensures (x + n) % n == x % n
  {
    var q, r := x / n, x % n;
    assert x + n == (q + 1) * n + r;
    RemainderUnique(x + n, n, q + 1, r);
  }

  lemma RemainderUnique(x: nat, n: nat, q: nat, r: nat)
    requires n > 0 && x == q * n + r && r < n
    ensures x % n == r && x / n == q
  {
    var p := x / n;
    assert x == p * n + x % n;
    MulGap(p, q, n);
    MulGap(q, p, n);
  }

  lemma MulGap(a: int, b: int, n: int)
    requires n > 0
    ensures a < b ==> a * n + n <= b * n
  {
    if a < b {
      assert b * n == (a + 1) * n + (b - a - 1) * n;
    }
  }

  /** Every timer sits in the slot its expiry selects, and expires after `tick`. */
  ghost predicate Ahead(slots: seq<seq<Timer>>, tick: nat) {
    forall i, j :: 0 <= i < |slots| && 0 <= j < |slots[i]| ==>
      SlotOf(slots[i][j].expirationTick, |slots|) == i && slots[i][j].expirationTick > tick
  }

  function Push(slots: seq<seq<Timer>>, t: Timer): seq<seq<Timer>>
    requires |slots| > 0
  {
    var i := SlotOf(t.expirationTick, |slots|);
    slots[i := slots[i] + [t]]
  }

  lemma PushAccounts(slots: seq<seq<Timer>>, t: Timer, tick: nat)
    requires |slots| > 0 && Ahead(slots, tick) && t.expirationTick > tick
    ensures All(Push(slots, t)) == All(slots) + multiset{t}
    ensures Count(Push(slots, t)) == Count(slots) + 1
    ensures Ahead(Push(slots, t), tick)
  {
    hide All; hide Count; hide SlotOf;
    var i := SlotOf(t.expirationTick, |slots|);
    AllUpdate(slots, i, slots[i] + [t]);
    CountUpdate(slots, i, slots[i] + [t]);
    AddCancels(All(Push(slots, t)), All(slots), slots[i], t);
  }

  lemma AddCancels(x: multiset<Timer>, y: multiset<Timer>, b: seq<Timer>, t: Timer)
    requires x + multiset(b) == y + multiset(b + [t])
    ensures x == y + multiset{t}
  {
    var m := multiset(b);
    assert multiset(b + [t]) == m + multiset{t};
    assert x == x + m - m;
    assert y + multiset{t} == y + (m + multiset{t}) - m;
  }

  /** How many timers the slots hold. */
  function Count(slots: seq<seq<Timer>>): nat {
    if slots == [] then 0 else |slots[0]| + Count(slots[1..])
  }

  lemma {:induction false} CountUpdate(slots: seq<seq<Timer>>, i: nat, b: seq<Timer>)
    requires i < |slots|
    ensures Count(slots[i := b]) + |slots[i]| == Count(slots) + |b|
  {
    var s' := slots[i := b];
    if i == 0 {
      assert s'[1..] == slots[1..];
    } else {
      assert s'[1..] == slots[1..][i - 1 := b];
      CountUpdate(slots[1..], i - 1, b);
    }
  }

  lemma {:induction false} AllMember(slots: seq<seq<Timer>>, t: Timer)
    ensures t in All(slots) <==> exists i :: 0 <= i < |slots| && t in slots[i]
  {
    if slots != [] {
      AllMember(slots[1..], t);
      if i :| 0 <= i < |slots| && t in slots[i] {
        assert i == 0 || t in slots[1..][i - 1];
      }
      if j :| 0 <= j < |slots[1..]| && t in slots[1..][j] {
        assert t in slots[j + 1];
      }
    }
  }

  function Timers(fs: seq<Firing>): multiset<Timer> {
    if fs == [] then multiset{} else Timers(fs[..|fs| - 1]) + multiset{fs[|fs| - 1].timer}
  }

  lemma TimersSnoc(fs: seq<Firing>, f: Firing)
    ensures Timers(fs + [f]) == Timers(fs) + multiset{f.timer}
  {
    assert (fs + [f])[..|fs|] == fs;
  }

  /** Conservation: every timer added is stored, waiting in `rest`, or fired; `active` counts the unfired ones. */
  ghost predicate Balanced(added: multiset<Timer>, slots: seq<seq<Timer>>, rest: seq<Timer>, fired: seq<Firing>,
                      active: nat) {
    && added == All(slots) + multiset(rest) + Timers(fired)
    && active == Count(slots) + |rest|
  }

  lemma BalancedAdd(added: multiset<Timer>, slots: seq<seq<Timer>>, rest: seq<Timer>, fired: seq<Firing>, active: nat,
                    t: Timer, tick: nat)
    requires Balanced(added, slots, rest, fired, active)
    requires |slots| > 0 && Ahead(slots, tick) && t.expirationTick > tick
    ensures Balanced(added + multiset{t}, Push(slots, t), rest, fired, active + 1)
    ensures Ahead(Push(slots, t), tick)
  {
    PushAccounts(slots, t, tick);
  }

  lemma BalancedReturn(added: multiset<Timer>, slots: seq<seq<Timer>>, rest: seq<Timer>, fired: seq<Firing>,
                      active: nat, t: Timer, tick: nat)
    requires Balanced(added, slots, [t] + rest, fired, active)
    requires |slots| > 0 && Ahead(slots, tick) && t.expirationTick > tick
    ensures Balanced(added, Push(slots, t), rest, fired, active)
    ensures Ahead(Push(slots, t), tick)
  {
    PushAccounts(slots, t, tick);
    assert multiset([t] + rest) == multiset{t} + multiset(rest);
  }

  lemma BalancedFire(added: multiset<Timer>, slots: seq<seq<Timer>>, rest: seq<Timer>, fired: seq<Firing>,
                     active: nat, t: Timer, tick: nat)
    requires Balanced(added, slots, [t] + rest, fired, active)
    ensures active > 0 && Balanced(added, slots, rest, fired + [Firing(t, tick)], active - 1)
  {
    TimersSnoc(fired, Firing(t, tick));
    assert multiset([t] + rest) == multiset{t} + multiset(rest);
  }

  lemma BalancedTake(added: multiset<Timer>, slots: seq<seq<Timer>>, fired: seq<Firing>, active: nat, i: nat)
    requires Balanced(added, slots, [], fired, active) && i < |slots|
    ensures Balanced(added, slots[i := []], slots[i], fired, active)
  {
    AllUpdate(slots, i, []);
    assert All(slots[i := []]) + multiset(slots[i]) == All(slots);
    CountUpdate(slots, i, []);
  }

  class TimerWheel {
    const tickResolution: int
    const slotCount: nat
    const start: int
    var slots: seq<seq<Timer>>
    var lastTickTime: int
    var currentTick: nat
    var nextId: nat
    var activeTimers: nat
    /** For each callback still to run, the delays of the timers it adds; exhausted means none. */
    var script: seq<seq<int>>

    /** Every timer ever added. */
    ghost var added: multiset<Timer>
    var fired: seq<Firing>
    /** The latest instant a clocked tick has seen. */
    ghost var latest: int

    /** The next id is never zero, which stands for no timer. */
    ghost predicate Numbered()
      reads this
    {
      0 < nextId <= MAX_TIMER_ID
    }

    /** Conservation while `rest` timers wait in the scratch bucket: added = stored + waiting + fired. */
    ghost predicate Accounted(rest: seq<Timer>)
      reads this
    {
      && tickResolution > 0 && |slots| == slotCount > 0 && Numbered()
      && Ahead(slots, currentTick)
      && Balanced(added, slots, rest, fired, activeTimers)
      && (forall k :: 0 <= k < |fired| ==> fired[k].tick == fired[k].timer.expirationTick <= currentTick)
    }

    ghost predicate Valid()
      reads this
    {
      Accounted([])
    }

    /** The tick counter has moved on, and the new tick's bucket is not processed yet. */
    ghost predicate Entered()
      reads this
    {
      && tickResolution > 0 && |slots| == slotCount > 0 && Numbered()
      && currentTick > 0 && Ahead(slots, currentTick - 1)
      && Balanced(added, slots, [], fired, activeTimers)
      && (forall k :: 0 <= k < |fired| ==> fired[k].tick == fired[k].timer.expirationTick < currentTick)
    }

    constructor (resolution: int, slotCount: nat, now: int, script: seq<seq<int>>)
      requires resolution > 0 && slotCount > 0
      ensures Valid() && currentTick == 0 && added == multiset{} && fired == []
      ensures tickResolution == resolution && this.slotCount == slotCount && start == now
      ensures Clocked() && latest == now
    {
      tickResolution := resolution;
      this.slotCount := slotCount;
      start := now;
      slots := seq(slotCount, _ => []);
      lastTickTime, latest := now, now;
      currentTick, nextId, activeTimers := 0, 1, 0;
      this.script := script;
      added, fired := multiset{}, [];
      new;
      AllEmpty(slots);
    }

    method NextTimerId() returns (id: nat)
      modifies this`nextId
      ensures id == old(nextId)
      ensures nextId == if old(nextId) >= MAX_TIMER_ID then 1 else old(nextId) + 1
    {
      id := nextId;
      nextId := nextId + 1;
      if nextId > MAX_TIMER_ID {
        nextId := 1;
      }
    }

    /** Appends `t` to the slot of its expiry. */
    method PushBack(t: Timer)
      requires |slots| == slotCount > 0
      modifies this`slots
      ensures slots == Push(old(slots), t)
    {
      var slotIndex := t.expirationTick % slotCount;
      SlotOfIsModulo(t.expirationTick, slotCount);
      slots := slots[slotIndex := slots[slotIndex] + [t]];
    }

    /** Schedules a one-shot timer, at least one tick ahead. */
    method AddTimer(delay: int, ghost rest: seq<Timer>) returns (id: nat)
      requires Accounted(rest)
      modifies this`slots, this`activeTimers, this`added, this`nextId
      ensures Accounted(rest)
      ensures id == old(nextId) && 0 < id <= MAX_TIMER_ID
      ensures nextId == if id == MAX_TIMER_ID then 1 else id + 1
      ensures added == old(added) + multiset{Timer(id, ExpirationTick(currentTick, delay, tickResolution))}
    {
      hide All; hide Count; hide Timers; hide SlotOf; hide Balanced; hide Ahead;
      var ticks := DurationToTicks(delay, tickResolution);
      var delayTicks := if ticks == 0 then 1 else ticks;
      var expirationTick := currentTick + delayTicks;
      id := NextTimerId();
      var t := Timer(id, expirationTick);
      BalancedAdd(added, slots, rest, fired, activeTimers, t, currentTick);
      PushBack(t);
      activeTimers := activeTimers + 1;
      added := added + multiset{t};
    }

    /** Runs one callback: one timer per scripted delay. */
    method RunCallback(ghost rest: seq<Timer>)
      requires Accounted(rest)
      modifies this`slots, this`activeTimers, this`added, this`nextId, this`script
      ensures Accounted(rest)
      ensures old(added) <= added
      ensures |added| == |old(added)| + if old(script) == [] then 0 else |old(script)[0]|
      ensures script == Drop(old(script), 1)
    {
      hide All; hide Count; hide Timers; hide SlotOf; hide Balanced; hide Ahead;
      if |script| > 0 {
        var delays := script[0];
        script := script[1..];
        AddAll(delays, rest);
      }
    }

    method AddAll(delays: seq<int>, ghost rest: seq<Timer>)
      requires Accounted(rest)
      modifies this`slots, this`activeTimers, this`added, this`nextId
      ensures Accounted(rest)
      ensures old(added) <= added && |added| == |old(added)| + |delays|
    {
      hide Accounted;
      for i := 0 to |delays|
        invariant Accounted(rest)
        invariant old(added) <= added && |added| == |old(added)| + i
      {
        var _ := AddTimer(delays[i], rest);
      }
    }

    /** Fires the first waiting timer if it is due, or puts it back in its slot. */
    method ProcessTimer(t: Timer, ghost rest: seq<Timer>)
      requires Accounted([t] + rest) && t.expirationTick >= currentTick
      modifies this`slots, this`activeTimers, this`added, this`nextId, this`script, this`fired
      ensures Accounted(rest)
      ensures old(added) <= added && old(fired) <= fired
      ensures script == Drop(old(script), |fired| - |old(fired)|)
    {
      hide All; hide Count; hide Timers; hide SlotOf;
      if t.expirationTick <= currentTick {
        RunCallback([t] + rest);
        BalancedFire(added, slots, rest, fired, activeTimers, t, currentTick);
        if activeTimers > 0 {
          activeTimers := activeTimers - 1;
        }
        fired := fired + [Firing(t, currentTick)];
      } else {
        BalancedReturn(added, slots, rest, fired, activeTimers, t, currentTick);
        PushBack(t);
      }
    }

    /** Processes the bucket of the tick just entered. */
    method ProcessCurrentTick()
      requires Entered()
      modifies this`slots, this`activeTimers, this`added, this`nextId, this`script, this`fired
      ensures Valid()
      ensures old(added) <= added && old(fired) <= fired
      ensures script == Drop(old(script), |fired| - |old(fired)|)
    {
      hide All; hide Count; hide Timers; hide SlotOf; hide Balanced;
      var slotIndex := currentTick % slotCount;
      SlotOfIsModulo(currentTick, slotCount);
      var scratch := slots[slotIndex];
      BucketSplit(slots, currentTick);
      BalancedTake(added, slots, fired, activeTimers, slotIndex);
      slots := slots[slotIndex := []];
      ProcessBucket(scratch);
    }

    /** Fires or puts back the timers taken out of a bucket, one after the other. */
    method ProcessBucket(scratch: seq<Timer>)
      requires Accounted(scratch)
      requires forall j :: 0 <= j < |scratch| ==> scratch[j].expirationTick >= currentTick
      modifies this`slots, this`activeTimers, this`added, this`nextId, this`script, this`fired
      ensures Valid()
      ensures old(added) <= added && old(fired) <= fired
      ensures script == Drop(old(script), |fired| - |old(fired)|)
    {
      hide Accounted; hide Drop;
      DropNone(script);
      assert scratch[0..] == scratch;
      for i := 0 to |scratch|
        invariant Accounted(scratch[i..])
        invariant old(added) <= added && old(fired) <= fired
        invariant script == Drop(old(script), |fired| - |old(fired)|)
      {
        assert scratch[i..] == [scratch[i]] + scratch[i + 1..];
        ghost var n := |fired|;
        ProcessTimer(scratch[i], scratch[i + 1..]);
        DropMore(old(script), n - |old(fired)|, |fired| - n);
      }
      assert scratch[|scratch|..] == [];
    }

    /** One logical tick. */
    method Tick()
      requires Valid()
      modifies this`slots, this`activeTimers, this`added, this`nextId, this`script, this`fired, this`currentTick
      ensures Valid() && currentTick == old(currentTick) + 1
      ensures old(added) <= added && old(fired) <= fired
      ensures script == Drop(old(script), |fired| - |old(fired)|)
    {
      currentTick := currentTick + 1;
      ProcessCurrentTick();
    }

    /** Nanoseconds per tick. */
    function Step(): (s: int)
      ensures tickResolution > 0 ==> s > 0
    {
      tickResolution * NS_PER_MS
    }

    /** The tick counter is the number of whole ticks between the start and the latest instant seen. */
    ghost predicate Clocked()
      reads this
    {
      tickResolution > 0 && OnClock(start, currentTick, Step(), lastTickTime, latest)
    }

    /** How many whole ticks `now` is ahead of the last one. */
    method TicksDue(now: int) returns (ticks: nat)
      requires tickResolution > 0
      ensures now <= lastTickTime ==> ticks == 0
      ensures now > lastTickTime ==> ticks * Step() <= now - lastTickTime < ticks * Step() + Step()
    {
      if now <= lastTickTime {
        return 0;
      }
      var elapsed := now - lastTickTime;
      var elapsedMs := elapsed / NS_PER_MS;
      FloorTwice(elapsed, NS_PER_MS, tickResolution);
      Distribute(elapsedMs / tickResolution, 1, Step());
      if elapsedMs < tickResolution {
        return 0;
      }
      return elapsedMs / tickResolution;
    }

    method TickTimes(n: nat)
      requires Valid()
      modifies this`slots, this`activeTimers, this`added, this`nextId, this`script, this`fired, this`currentTick
      ensures Valid() && currentTick == old(currentTick) + n
      ensures old(added) <= added && old(fired) <= fired
    {
      for i := 0 to n
        invariant Valid() && currentTick == old(currentTick) + i
        invariant old(added) <= added && old(fired) <= fired
      {
        Tick();
      }
    }

    /**
     Catches up with the clock. Late, early or backward calls never make the counter drift: it is
     always the whole number of ticks from the start to the latest instant seen.
     */
    method TickAt(now: int)
      requires Valid() && Clocked()
      modifies this
      ensures Valid() && Clocked()
      ensures latest == if now > old(latest) then now else old(latest)
      ensures currentTick == (latest - start) / Step()
      ensures old(added) <= added && old(fired) <= fired
    {
      hide OnClock; hide Step; hide Balanced; hide Ahead;
      var ticks := TicksDue(now);
      ClockAdvances(start, currentTick, Step(), lastTickTime, latest, now, ticks);
      TickTimes(ticks);
      lastTickTime := lastTickTime + ticks * Step();
      latest := if now > latest then now else latest;
    }
  }

  ghost predicate OnClock(start: int, tick: nat, step: int, last: int, latest: int) {
    last == start + tick * step && last <= latest < last + step
  }

  lemma ClockAdvances(start: int, tick: nat, step: int, last: int, latest: int, now: int, ticks: nat)
    requires step > 0 && OnClock(start, tick, step, last, latest)
    requires now <= last ==> ticks == 0
    requires now > last ==> ticks * step <= now - last < ticks * step + step
    ensures var seen := if now > latest then now else latest;
            && OnClock(start, tick + ticks, step, last + ticks * step, seen)
            && (seen - start) / step == tick + ticks
  {
    var seen := if now > latest then now else latest;
    Distribute(tick, ticks, step);
    if now <= latest {
      MulGap(0, ticks, step);
    }
    FloorOfSum(seen, start, tick + ticks, step);
  }

  lemma Distribute(a: int, b: int, n: int)
    ensures (a + b) * n == a * n + n * b
  {
  }

  lemma MulMonotone(a: int, b: int, n: int)
    requires a <= b && n >= 0
    ensures a * n <= b * n
  {
    assert (b - a) * n >= 0;
    assert b * n == a * n + (b - a) * n;
  }

  lemma Quotient(x: int, n: int)
    requires x >= 0 && n > 0
    ensures x / n >= 0 && (x / n) * n <= x < (x / n + 1) * n
  {
    assert x == (x / n) * n + x % n;
    assert (x / n + 1) * n == (x / n) * n + n;
  }

  lemma MulAssociates(a: int, b: int, c: int)
    ensures a * b * c == a * (b * c)
  {
  }

  /** Dividing to milliseconds and then to ticks is dividing once. */
  lemma FloorTwice(x: int, ns: int, res: int)
    requires x >= 0 && ns > 0 && res > 0
    ensures var k := x / ns / res;
            && k * (res * ns) <= x < (k + 1) * (res * ns)
            && (x / ns < res <==> x < res * ns)
            && k >= 0
  {
    var ms := x / ns;
    var k := ms / res;
    Quotient(x, ns);
    Quotient(ms, res);
    FloorBelow(x, ms, k, ns, res);
    FloorAbove(x, ms, k, ns, res);
    if ms < res {
      MulMonotone(ms + 1, res, ns);
    } else {
      MulMonotone(res, ms, ns);
    }
  }

  lemma FloorBelow(x: int, ms: int, k: int, ns: int, res: int)
    requires ns > 0 && ms * ns <= x && k * res <= ms
    ensures k * (res * ns) <= x
  {
    MulMonotone(k * res, ms, ns);
    MulAssociates(k, res, ns);
  }

  lemma FloorAbove(x: int, ms: int, k: int, ns: int, res: int)
    requires ns > 0 && x < (ms + 1) * ns && ms < (k + 1) * res
    ensures x < (k + 1) * (res * ns)
  {
    MulMonotone(ms + 1, (k + 1) * res, ns);
    MulAssociates(k + 1, res, ns);
  }

  lemma FloorOfSum(x: int, start: int, k: nat, step: int)
    requires step > 0 && start + k * step <= x < start + k * step + step
    ensures (x - start) / step == k
  {
    assert k * step >= 0;
    RemainderUnique(x - start, step, k, x - start - k * step);
  }

  lemma {:induction false} TimersDue(fs: seq<Firing>, t: Timer, tick: nat)
    requires forall k :: 0 <= k < |fs| ==> fs[k].tick == fs[k].timer.expirationTick <= tick
    ensures t in Timers(fs) ==> t.expirationTick <= tick
  {
    if fs != [] {
      TimersDue(fs[..|fs| - 1], t, tick);
    }
  }

  /**
   Exactly once, at its own tick: between ticks, a timer that is due has fired as often as it was
   added, and one that is not due has not fired; every firing happened at the timer's expiry.
   */
  lemma FiresExactlyOnce(w: TimerWheel, t: Timer)
    requires w.Valid()
    ensures Timers(w.fired)[t] == if t.expirationTick <= w.currentTick then w.added[t] else 0
    ensures forall k :: 0 <= k < |w.fired| ==> w.fired[k].tick == w.fired[k].timer.expirationTick
    ensures w.activeTimers == Count(w.slots)
  {
    TimersDue(w.fired, t, w.currentTick);
    AllMember(w.slots, t);
    assert w.added[t] == All(w.slots)[t] + Timers(w.fired)[t];
  }

  /** A wheel with 10 ms ticks, to which a timer of 10 ms was added in the last nanosecond of tick 0. */
  method AddedLate(slotCount: nat) returns (wheel: TimerWheel, t: Timer)
    requires slotCount > 0
    ensures fresh(wheel) && wheel.Valid() && wheel.Clocked() && wheel.start == 0 && wheel.tickResolution == 10
    ensures wheel.latest == 9_999_999 && t in wheel.added && t !in Timers(wheel.fired)
    ensures t.expirationTick == ExpirationTick(0, 10, 10)
  {
    hide OnClock;
    wheel := new TimerWheel(10, slotCount, 0, []);
    assert wheel.Step() == 10_000_000;
    wheel.TickAt(9_999_999);
    assert wheel.currentTick == 0;
    var id := wheel.AddTimer(10, []);
    t := Timer(id, ExpirationTick(0, 10, 10));
    FiresExactlyOnce(wheel, t);
  }

  /** The early firing on a wheel: the timer fires as soon as the clock shows 10 ms. */
  method EarlyOnWheel(wheel: TimerWheel, t: Timer)
    requires wheel.Valid() && wheel.Clocked() && wheel.start == 0 && wheel.tickResolution == 10
    requires wheel.latest == 9_999_999 && t in wheel.added && t.expirationTick == ExpirationTick(0, 10, 10)
    modifies wheel
    ensures wheel.Valid() && wheel.latest == 10 * NS_PER_MS && t in wheel.added && t in Timers(wheel.fired)
  {
    hide OnClock;
    assert wheel.Step() == 10_000_000;
    wheel.TickAt(10 * NS_PER_MS);
    assert wheel.currentTick == 1;
    FiresExactlyOnce(wheel, t);
  }

  /** Of the timers after `tick - 1`, those due at `tick` are all in one bucket; emptying it leaves only later ones. */
  lemma BucketSplit(slots: seq<seq<Timer>>, tick: nat)
    requires |slots| > 0 && tick > 0 && Ahead(slots, tick - 1)
    ensures Ahead(slots[SlotOf(tick, |slots|) := []], tick)
    ensures var b := slots[SlotOf(tick, |slots|)];
            forall j :: 0 <= j < |b| ==> b[j].expirationTick >= tick
  {
  }

  lemma {:induction false} AllEmpty(slots: seq<seq<Timer>>)
    requires forall i :: 0 <= i < |slots| ==> slots[i] == []
    ensures All(slots) == multiset{} && Count(slots) == 0
  {
    if slots != [] {
      AllEmpty(slots[1..]);
    }
  }
}

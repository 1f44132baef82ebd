/**
 The trading gateway: every worker keeps one upstream session in its slot, clients say hello before
 they may ping, and a ping is forwarded to the upstream of a worker chosen by routing mode.
 Workers interleave; the end of a session is three separate steps of its worker.
 */
module Gateways {
  import opened SessionIds
  import opened Registries
  import opened Wrappers

  datatype Role = Client | Exchange

  /** A ping that was sent on: by worker `w` for session `client`, to `target`, through a queue or not. */
  datatype Forwarded = Forwarded(w: nat, client: SessionId, target: SessionId, posted: bool)

  /**
   One worker: its slot, its session table, the connection states in its registry, and the session
   whose end callbacks are running, with whether the controller's has run already.
   */
  datatype Shard = Shard(slot: SessionId, live: set<SessionId>, states: map<SessionId, ConnState>,
                      ending: Option<SessionId>, cleared: bool)

  datatype Step =
    | Accept(w: nat, sid: SessionId)
    | DialOk(w: nat, sid: SessionId)
    | Hello(w: nat, sid: SessionId, role: Role, ackFails: bool)
    | Ping(w: nat, sid: SessionId)
    | Close(w: nat, sid: SessionId)
    | ControllerEnd(w: nat)
    | RuntimeEnd(w: nat)

  /** The slot names no session, or a recorded session of this worker that is live unless its end is being handled. */
  ghost predicate SlotHeld(s: Shard, w: nat) {
    s.slot != 0 ==>
      && OwnerWorkerFromId(s.slot) == w
      && s.slot in s.states
      && (s.slot in s.live || (s.ending == Some(s.slot) && !s.cleared))
  }

  ghost predicate ShardOk(s: Shard, w: nat, helloed: set<SessionId>) {
    && SlotHeld(s, w)
    && s.states.Keys == s.live + (if s.ending.Some? then {s.ending.value} else {})
    && (s.ending.Some? ==> s.ending.value !in s.live)
    && (forall sid :: sid in s.states ==> sid != 0 && OwnerWorkerFromId(sid) == w)
    && (forall sid :: sid in s.states && s.states[sid] == Handshaked ==> sid in helloed)
  }

  /** Whether a hello is accepted: an exchange needs the slot free or its own, a client must not hold it. */
  predicate Acceptable(s: Shard, sid: SessionId, role: Role) {
    if role == Exchange then s.slot == 0 || s.slot == sid else s.slot != sid
  }

  /** A new session; a dialled one becomes the worker's upstream. */
  function Arrived(s: Shard, sid: SessionId, dialled: bool): Shard {
    s.(live := s.live + {sid}, states := s.states[sid := Connected], slot := if dialled then sid else s.slot)
  }

  /** The session has left the table, and its end callbacks are to come. */
  function Leaving(s: Shard, sid: SessionId): Shard {
    s.(live := s.live - {sid}, ending := Some(sid), cleared := false)
  }

  /** After a hello: refused unless it is the session's first and acceptable; a failed answer ends the session. */
  function Greeted(s: Shard, sid: SessionId, role: Role, ackFails: bool): Shard
    requires sid in s.states
  {
    if s.states[sid] != Connected then s
    else if !Acceptable(s, sid, role) then Leaving(s, sid)
    else
      var t := s.(slot := if role == Exchange then sid else s.slot, states := s.states[sid := Handshaked]);
      if ackFails then Leaving(t, sid) else t
  }

  /** What a step does to its own worker; a step that cannot happen now does nothing. */
  function After(s: Shard, step: Step): Shard {
    match step
    case Accept(w, sid) => if MayJoin(s, w, sid) then Arrived(s, sid, false) else s
    case DialOk(w, sid) => if MayJoin(s, w, sid) then Arrived(s, sid, true) else s
    case Hello(w, sid, role, ackFails) =>
      if s.ending.None? && sid in s.live && sid in s.states then Greeted(s, sid, role, ackFails) else s
    case Ping(_, _) => s
    case Close(w, sid) => if s.ending.None? && sid in s.live then Leaving(s, sid) else s
    case ControllerEnd(w) =>
      if s.ending.Some? && !s.cleared then s.(slot := if Some(s.slot) == s.ending then 0 else s.slot, cleared := true)
      else s
    case RuntimeEnd(w) =>
      if s.ending.Some? && s.cleared then s.(states := s.states - {s.ending.value}, ending := None) else s
  }

  function AfterAt(shards: seq<Shard>, step: Step): (after: seq<Shard>)
    ensures |after| == |shards|
  {
    if step.w < |shards| then shards[step.w := After(shards[step.w], step)] else shards
  }

  function AfterAll(shards: seq<Shard>, steps: seq<Step>): seq<Shard>
    decreases |steps|
  {
    if steps == [] then shards else AfterAll(AfterAt(shards, steps[0]), steps[1..])
  }

  predicate CanPing(shards: seq<Shard>, w: nat, sid: SessionId) {
    w < |shards| && shards[w].ending.None? && sid in shards[w].live
  }

  predicate MayJoin(s: Shard, w: nat, sid: SessionId) {
    s.ending.None? && sid != 0 && OwnerWorkerFromId(sid) == w && sid !in s.states
  }

  /** What a ping is turned into: nothing before the hello or without an upstream on the routed worker. */
  function Relayed(shards: seq<Shard>, handoff: bool, w: nat, sid: SessionId): seq<Forwarded>
    requires w < |shards|
  {
    var target := shards[Route(handoff, sid, w, |shards|)].slot;
    if sid !in shards[w].states || shards[w].states[sid] != Handshaked || target == 0 then []
    else [Forwarded(w, sid, target, OwnerWorkerFromId(target) != w)]
  }

  class Gateway {
    const handoff: bool
    var shards: seq<Shard>
    var forwards: seq<Forwarded>
    ghost var helloed: set<SessionId>

    ghost predicate Valid()
      reads this
    {
      && |shards| > 0
      && (forall w :: 0 <= w < |shards| ==> ShardOk(shards[w], w, helloed))
      && (forall i :: 0 <= i < |forwards| ==> ForwardOk(forwards[i]))
    }

    /** Forwarded for a session that had said hello; through a queue exactly when the upstream is another worker's. */
    ghost predicate ForwardOk(f: Forwarded)
      reads this
    {
      && f.client in helloed
      && f.target != 0
      && (f.posted <==> OwnerWorkerFromId(f.target) != f.w)
      && |shards| > 0 && f.w < |shards| && OwnerWorkerFromId(f.target) == Route(handoff, f.client, f.w, |shards|)
      && (!handoff ==> !f.posted)
    }

    constructor (workers: nat, handoff: bool)
      requires workers > 0
      ensures Valid() && |shards| == workers && this.handoff == handoff && forwards == [] && helloed == {}
      ensures forall w :: 0 <= w < workers ==> shards[w] == Shard(0, {}, map[], None, false)
    {
      this.handoff := handoff;
      shards := seq(workers, _ => Shard(0, {}, map[], None, false));
      forwards := [];
      helloed := {};
    }

    /** Replaces one worker's shard by another good one. */
    method Update(w: nat, s: Shard)
      requires Valid() && w < |shards| && ShardOk(s, w, helloed)
      modifies this`shards
      ensures Valid() && shards == old(shards)[w := s]
    {
      hide ShardOk;
      shards := shards[w := s];
    }

    /** A new session, inbound or dialled; a dialled one becomes the worker's upstream at once. */
    method OnSessionStart(w: nat, sid: SessionId, dialled: bool)
      requires Valid() && w < |shards| && shards[w].ending.None?
      requires sid != 0 && OwnerWorkerFromId(sid) == w && sid !in shards[w].states
      modifies this`shards
      ensures Valid() && shards == old(shards)[w := Arrived(old(shards)[w], sid, dialled)]
      ensures shards[w].live == old(shards)[w].live + {sid}
      ensures shards[w].states == old(shards)[w].states[sid := Connected]
      ensures shards[w].slot == if dialled then sid else old(shards)[w].slot
    {
      hide OwnerWorkerFromId;
      var s := shards[w];
      var slot := if dialled then sid else s.slot;
      Update(w, s.(live := s.live + {sid}, states := s.states[sid := Connected], slot := slot));
    }

    /** The session leaves the table; its end callbacks follow. */
    method BeginEnd(w: nat, sid: SessionId)
      requires Valid() && w < |shards| && shards[w].ending.None? && sid in shards[w].live
      modifies this`shards
      ensures Valid() && shards == old(shards)[w := Leaving(old(shards)[w], sid)]
      ensures shards[w].live == old(shards)[w].live - {sid} && shards[w].ending == Some(sid) && !shards[w].cleared
      ensures shards[w].slot == old(shards)[w].slot && shards[w].states == old(shards)[w].states
    {
      hide OwnerWorkerFromId;
      var s := shards[w];
      Update(w, s.(live := s.live - {sid}, ending := Some(sid), cleared := false));
    }

    /** The controller's end callback: a slot that names the session is emptied. */
    method ControllerSessionEnd(w: nat)
      requires Valid() && w < |shards| && shards[w].ending.Some? && !shards[w].cleared
      modifies this`shards
      ensures Valid() && shards == old(shards)[w := After(old(shards)[w], ControllerEnd(w))]
      ensures shards[w].slot == (if old(shards)[w].slot == old(shards)[w].ending.value then 0 else old(shards)[w].slot)
      ensures shards[w].slot != 0 ==> shards[w].slot in shards[w].live
      ensures shards[w].cleared && shards[w].ending == old(shards)[w].ending && shards[w].live == old(shards)[w].live
    {
      hide OwnerWorkerFromId;
      var s := shards[w];
      var upId := s.slot;
      if upId != 0 && upId == s.ending.value {
        upId := 0;
      }
      Update(w, s.(slot := upId, cleared := true));
    }

    /** The runtime's end callback: the registry record goes last. */
    method RuntimeSessionEnd(w: nat)
      requires Valid() && w < |shards| && shards[w].ending.Some? && shards[w].cleared
      modifies this`shards
      ensures Valid() && shards == old(shards)[w := After(old(shards)[w], RuntimeEnd(w))]
      ensures shards[w].states == old(shards)[w].states - {old(shards)[w].ending.value} && shards[w].ending == None
      ensures shards[w].states.Keys == shards[w].live && shards[w].slot == old(shards)[w].slot
    {
      hide OwnerWorkerFromId;
      var s := shards[w];
      Update(w, s.(states := s.states - {s.ending.value}, ending := None));
    }

    /**
     The role handshake, once per session; a conflicting one, or one whose answer cannot be sent, ends the session.
     */
    method OnRoleHello(w: nat, sid: SessionId, role: Role, ackFails: bool)
      requires Valid() && w < |shards| && shards[w].ending.None? && sid in shards[w].live
      modifies this`shards, this`helloed
      ensures Valid() && sid in old(shards)[w].states
      ensures shards == old(shards)[w := Greeted(old(shards)[w], sid, role, ackFails)]
      ensures var s, t := old(shards)[w], shards[w];
              if s.states[sid] != Connected then t == s
              else if !Acceptable(s, sid, role) then
                t.live == s.live - {sid} && t.slot == s.slot && t.states == s.states
              else
                && t.slot == (if role == Exchange then sid else s.slot)
                && t.states == s.states[sid := Handshaked]
                && t.live == (if ackFails then s.live - {sid} else s.live)
      ensures helloed == old(helloed) +
              (if old(shards)[w].states[sid] == Connected && Acceptable(old(shards)[w], sid, role) then {sid} else {})
    {
      hide OwnerWorkerFromId; hide ShardOk;
      StatesOfLive(shards[w], w, helloed, sid);
      var s := shards[w];
      assert shards[w := s] == shards;
      if s.states[sid] != Connected {
        return;
      }
      var localUp := s.slot;
      if role == Exchange {
        if localUp != 0 && sid != localUp {
          BeginEnd(w, sid);
          return;
        }
        if localUp == 0 {
          localUp := sid;
        }
      } else if localUp != 0 && sid == localUp {
        BeginEnd(w, sid);
        return;
      }
      AcceptHello(w, sid, localUp);
      if ackFails {
        BeginEnd(w, sid);
      }
    }

    method AcceptHello(w: nat, sid: SessionId, slot: SessionId)
      requires Valid() && w < |shards| && shards[w].ending.None? && sid in shards[w].live
      requires (slot == shards[w].slot || slot == sid)
      modifies this`shards, this`helloed
      ensures Valid()
      ensures shards == old(shards)[w := old(shards)[w].(slot := slot,
                states := old(shards)[w].states[sid := Handshaked])]
      ensures helloed == old(helloed) + {sid}
    {
      hide OwnerWorkerFromId; hide Route; hide ShardOk;
      forall v | 0 <= v < |shards|
        ensures ShardOk(shards[v], v, helloed + {sid})
      {
        HelloedGrows(shards[v], v, helloed, sid);
      }
      var s := shards[w];
      HelloAccepted(s, w, helloed, sid, slot);
      helloed := helloed + {sid};
      Update(w, s.(slot := slot, states := s.states[sid := Handshaked]));
    }

    /** A ping from a session that has said hello goes to the upstream its route names, if there is one. */
    method OnPerfPing(w: nat, sid: SessionId)
      requires Valid() && w < |shards| && sid in shards[w].live
      modifies this`forwards
      ensures Valid()
      ensures forwards == old(forwards) + Relayed(shards, handoff, w, sid)
      ensures var target := shards[Route(handoff, sid, w, |shards|)].slot;
              if sid in shards[w].states && shards[w].states[sid] == Handshaked && target != 0
              then forwards == old(forwards) + [Forwarded(w, sid, target, OwnerWorkerFromId(target) != w)]
              else forwards == old(forwards)
    {
      hide OwnerWorkerFromId;
      StatesOfLive(shards[w], w, helloed, sid);
      if shards[w].states[sid] != Handshaked {
        return;
      }
      var idx := Route(handoff, sid, w, |shards|);
      var target := shards[idx].slot;
      if target == 0 {
        return;
      }
      assert ShardOk(shards[idx], idx, helloed) && ShardOk(shards[w], w, helloed);
      forwards := forwards + [Forwarded(w, sid, target, OwnerWorkerFromId(target) != w)];
    }

    /** One step of some worker; a step that cannot happen now changes nothing. */
    method Take(step: Step)
      requires Valid()
      modifies this
      ensures Valid() && old(helloed) <= helloed
      ensures shards == AfterAt(old(shards), step)
      ensures forwards ==
              if step.Ping? && CanPing(old(shards), step.w, step.sid)
              then old(forwards) + Relayed(old(shards), handoff, step.w, step.sid)
              else old(forwards)
      ensures |forwards| > |old(forwards)| ==> forwards[|old(forwards)|].client in old(helloed)
    {
      hide ShardOk; hide OwnerWorkerFromId; hide Route;
      if step.w >= |shards| {
        return;
      }
      var s := shards[step.w];
      assert shards[step.w := s] == shards;
      match step
      case Accept(w, sid) =>
        if MayJoin(s, w, sid) { OnSessionStart(w, sid, false); }
      case DialOk(w, sid) =>
        if MayJoin(s, w, sid) { OnSessionStart(w, sid, true); }
      case Hello(w, sid, role, ackFails) =>
        if s.ending.None? && sid in s.live {
          StatesOfLive(s, w, helloed, sid);
          OnRoleHello(w, sid, role, ackFails);
        }
      case Ping(w, sid) =>
        if s.ending.None? && sid in s.live { OnPerfPing(w, sid); }
      case Close(w, sid) =>
        if s.ending.None? && sid in s.live { BeginEnd(w, sid); }
      case ControllerEnd(w) =>
        if s.ending.Some? && !s.cleared { ControllerSessionEnd(w); }
      case RuntimeEnd(w) =>
        if s.ending.Some? && s.cleared { RuntimeSessionEnd(w); }
    }

    /** Over every interleaving of the workers' steps the slots and the forwarding rules hold. */
    method Run(steps: seq<Step>)
      requires Valid()
      modifies this
      ensures Valid() && |shards| == |old(shards)| && old(forwards) <= forwards
      ensures shards == AfterAll(old(shards), steps)
      ensures forall w :: 0 <= w < |shards| ==> SlotHeld(shards[w], w)
      ensures forall w :: 0 <= w < |shards| && shards[w].ending.None? && shards[w].slot != 0 ==>
                shards[w].slot in shards[w].live
      ensures forall i :: 0 <= i < |forwards| ==> forwards[i].client in helloed && (!handoff ==> !forwards[i].posted)
    {
      hide ShardOk; hide SlotHeld; hide OwnerWorkerFromId; hide Route;
      for i := 0 to |steps|
        invariant Valid() && |shards| == |old(shards)| && old(forwards) <= forwards
        invariant AfterAll(shards, steps[i..]) == AfterAll(old(shards), steps)
      {
        assert steps[i..][1..] == steps[i + 1..];
        Take(steps[i]);
      }
      forall w | 0 <= w < |shards|
        ensures SlotHeld(shards[w], w)
        ensures shards[w].ending.None? && shards[w].slot != 0 ==> shards[w].slot in shards[w].live
      {
        SlotOfShard(shards[w], w, helloed);
      }
    }
  }

  lemma StatesOfLive(s: Shard, w: nat, helloed: set<SessionId>, sid: SessionId)
    requires ShardOk(s, w, helloed) && sid in s.live
    ensures sid in s.states && sid != 0
  {
    assert sid in s.states.Keys;
  }

  lemma HelloedGrows(s: Shard, w: nat, helloed: set<SessionId>, sid: SessionId)
    requires ShardOk(s, w, helloed)
    ensures ShardOk(s, w, helloed + {sid})
  {
  }

  lemma HelloAccepted(s: Shard, w: nat, helloed: set<SessionId>, sid: SessionId, slot: SessionId)
    requires ShardOk(s, w, helloed) && s.ending.None? && sid in s.live && (slot == s.slot || slot == sid)
    ensures ShardOk(s.(slot := slot, states := s.states[sid := Handshaked]), w, helloed + {sid})
  {
    assert sid in s.states.Keys;
  }

  lemma SlotOfShard(s: Shard, w: nat, helloed: set<SessionId>)
    requires ShardOk(s, w, helloed)
    ensures SlotHeld(s, w)
    ensures s.ending.None? && s.slot != 0 ==> s.slot in s.live
  {
  }

  /** The worker whose upstream a ping goes to: the client's own, or one chosen by the client's id. */
  function Route(handoff: bool, client: SessionId, w: nat, count: nat): (idx: nat)
    requires count > 0
    ensures idx < count
    ensures !handoff && w < count ==> idx == w
  {
    if handoff then client % count else w % count
  }

  /** With handoff on, client ids take turns around the workers, whichever worker the client is on. */
  lemma RouteTurns(client: SessionId, w: nat, w': nat, count: nat)
    requires count > 0 && client + 1 < TWO_64
    ensures Route(true, 0, w, count) == 0
    ensures Route(true, client + 1, w, count) ==
            var idx := Route(true, client, w', count);
            if idx + 1 == count then 0 else idx + 1
  {
    var q, r := client / count, client % count;
    assert client + 1 == q * count + (r + 1);
    if r + 1 == count {
      assert client + 1 == (q + 1) * count;
      MultipleRemains(q + 1, count, 0);
    } else {
      MultipleRemains(q, count, r + 1);
    }
  }

  lemma MultipleRemains(q: nat, count: nat, r: nat)
    requires r < count
    ensures (q * count + r) % count == r
  {
    var n := q * count + r;
    var a, b := n / count, n % count;
    assert n == a * count + b;
    if a > q {
      Apart(q, a, count);
    } else if q > a {
      Apart(a, q, count);
    }
  }

  /** Multiples of different numbers are at least one step apart. */
  lemma Apart(q: nat, a: nat, count: nat)
    requires q < a
    ensures q * count + count <= a * count
  {
    assert (a - q - 1) * count >= 0;
    assert a * count == q * count + count + (a - q - 1) * count;
  }
}

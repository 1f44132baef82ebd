/** What holds in every run of all workers: who is reached, where, how often and in which order. */
module RoutingRuns {
  import opened SessionIds
  import opened Registries
  import opened Routing
  import opened Wrappers
  import opened RoutingMachine
  import opened RoutingInvariant

  lemma StartedKept(sys: System)
    requires Started(sys)
    ensures Inv(sys)
  {
    hide WorkFor; hide Owned; hide Fits; hide Pends; hide Midway;
    forall s: nat, o: nat
      ensures StreamOk(sys, s, o)
    {
      if s < |sys.workers| && o < |sys.workers| {
        assert Unused(sys.workers[s], |sys.workers|) && Unused(sys.workers[o], |sys.workers|);
      }
    }
    forall w | 0 <= w < |sys.workers|
      ensures WorkerOk(sys.workers[w], w, |sys.workers|, sys.execs) && QueueOk(sys, w)
      ensures Told(sys.log, sys.workers[w].stack) && Latest(sys.workers[w].stack, sys.execs, w)
    {
      assert Unused(sys.workers[w], |sys.workers|);
    }
  }

  lemma {:induction false} RunKeeps(sys: System, steps: seq<Step>)
    requires Inv(sys)
    ensures Inv(Run(sys, steps))
    decreases |steps|
  {
    hide Inv; hide Next;
    if steps != [] {
      NextKeeps(sys, steps[0]);
      RunKeeps(Next(sys, steps[0]), steps[1..]);
    }
  }

  /** Every call was made outside all loops, or in an end callback: while a share's packet was being handed over. */
  ghost predicate CallsNest(sys: System) {
    forall w, k :: 0 <= w < |sys.workers| && 0 <= k < |sys.workers[w].calls| ==>
      var under := sys.workers[w].calls[k].under;
      under != [] ==> Top(under).Delivering? && Top(under).next > 0
  }

  lemma NextNests(sys: System, step: Step)
    requires CallsNest(sys)
    ensures CallsNest(Next(sys, step))
  {
    hide WorkFor; hide Fits; hide Owned;
  }

  lemma {:induction false} RunNests(sys: System, steps: seq<Step>)
    requires CallsNest(sys)
    ensures CallsNest(Run(sys, steps))
    decreases |steps|
  {
    hide Next; hide CallsNest;
    if steps != [] {
      NextNests(sys, steps[0]);
      RunNests(Next(sys, steps[0]), steps[1..]);
    }
  }

  /** A system that some run leads to. */
  ghost predicate Reachable(sys: System) {
    exists start, steps :: Started(start) && Run(start, steps) == sys
  }

  lemma ReachableKept(sys: System)
    requires Reachable(sys)
    ensures Inv(sys)
  {
    hide Inv; hide Started; hide Run;
    var start, steps :| Started(start) && Run(start, steps) == sys;
    StartedKept(start);
    RunKeeps(start, steps);
  }

  /** In every run, a call made inside loops was made while a packet was being handed to a session. */
  lemma MadeInCallback(sys: System, w: nat, k: nat)
    requires Reachable(sys) && w < |sys.workers| && k < |sys.workers[w].calls|
    ensures var under := sys.workers[w].calls[k].under;
            under == [] || (Top(under).Delivering? && Top(under).next > 0)
  {
    hide Run;
    var start, steps :| Started(start) && Run(start, steps) == sys;
    assert forall v :: 0 <= v < |start.workers| ==> Unused(start.workers[v], |start.workers|);
    RunNests(start, steps);
  }

  /** The session a delivery went to. */
  function SessionAt(sys: System, i: nat): SessionId
    requires i < |sys.log| && sys.log[i].exec < |sys.execs| && sys.log[i].k < |sys.execs[sys.log[i].exec].targets|
  {
    sys.execs[sys.log[i].exec].targets[sys.log[i].k]
  }

  /** In every run a packet is handed to a session only on the worker that owns the session. */
  lemma OnlyOnOwner(sys: System, i: nat)
    requires Reachable(sys) && i < |sys.log|
    ensures sys.log[i].exec < |sys.execs| && sys.log[i].k < |sys.execs[sys.log[i].exec].targets|
    ensures OwnerWorkerFromId(SessionAt(sys, i)) == sys.execs[sys.log[i].exec].worker < |sys.workers|
  {
    hide Reachable; hide Loops; hide Streams; hide AllTold; hide AllFinished; hide Pairs;
    hide OwnerWorkerFromId; hide WorkFor; hide Fits; hide Owned; hide Due; hide Entries;
    ReachableKept(sys);
    var x := sys.execs[sys.log[i].exec];
    assert ExecOk(sys, x);
    TargetsAreDue(sys.workers[x.item.source].calls[x.item.number].call, x.worker, x.reg, x.targets, SessionAt(sys, i));
  }

  /**
   Two packets from one worker to one session, of different calls, arrive in the order the calls were
   made if and only if the later call was not made while the earlier one still owed that delivery:
   before its share for the session's owner was posted, or, on the session's own worker, before the
   session's turn in its loop.
   */
  lemma CallOrderIff(sys: System, i: nat, j: nat)
    requires Reachable(sys) && i < |sys.log| && j < |sys.log|
    requires sys.log[i].exec < |sys.execs| && sys.log[i].k < |sys.execs[sys.log[i].exec].targets|
    requires sys.log[j].exec < |sys.execs| && sys.log[j].k < |sys.execs[sys.log[j].exec].targets|
    requires SessionAt(sys, i) == SessionAt(sys, j)
    requires sys.execs[sys.log[i].exec].item.source == sys.execs[sys.log[j].exec].item.source
    requires sys.execs[sys.log[i].exec].item.number < sys.execs[sys.log[j].exec].item.number
    ensures var x, y := sys.execs[sys.log[i].exec], sys.execs[sys.log[j].exec];
            var s := x.item.source;
            && s < |sys.workers| && y.item.number < |sys.workers[s].calls|
            && (i < j <==>
                  !Owed(sys.workers[s].calls[y.item.number].under, x.item.number, s, x.worker, sys.log[i].exec,
                      sys.log[i].k))
  {
    hide Reachable; hide Loops; hide Streams; hide Progress; hide OwnerWorkerFromId; hide WorkFor;
    hide Fits; hide Owned; hide Owed;
    ReachableKept(sys);
    OnlyOnOwner(sys, i);
    OnlyOnOwner(sys, j);
    assert ExecOk(sys, sys.execs[sys.log[i].exec]) && ExecOk(sys, sys.execs[sys.log[j].exec]);
    if i < j {
      assert PairOk(sys, sys.log[i], sys.log[j]);
    } else {
      assert PairOk(sys, sys.log[j], sys.log[i]);
    }
  }

  /** Calls made outside all loops never overtake: their packets arrive after those of every earlier call. */
  lemma TopLevelInOrder(sys: System, i: nat, j: nat)
    requires Reachable(sys) && i < |sys.log| && j < |sys.log|
    requires sys.log[i].exec < |sys.execs| && sys.log[i].k < |sys.execs[sys.log[i].exec].targets|
    requires sys.log[j].exec < |sys.execs| && sys.log[j].k < |sys.execs[sys.log[j].exec].targets|
    requires SessionAt(sys, i) == SessionAt(sys, j)
    requires sys.execs[sys.log[i].exec].item.source == sys.execs[sys.log[j].exec].item.source
    requires sys.execs[sys.log[i].exec].item.number < sys.execs[sys.log[j].exec].item.number
    requires var y := sys.execs[sys.log[j].exec].item;
             y.source < |sys.workers| && y.number < |sys.workers[y.source].calls|
                 && sys.workers[y.source].calls[y.number].under == []
    ensures i < j
  {
    hide Reachable;
    CallOrderIff(sys, i, j);
  }

  // ------------------------------------------------------------- who is reached, and how often

  /** The exec serves call `k` of worker `s`. */
  predicate OfCall(x: Exec, s: nat, k: nat) {
    x.item.source == s && x.item.number == k
  }

  /** How often a list of target numbers names `t`. */
  function Named(ks: seq<nat>, targets: seq<SessionId>, t: SessionId): nat {
    if ks == [] then 0
    else
      var k := ks[|ks| - 1];
      Named(ks[..|ks| - 1], targets, t) + if k < |targets| && targets[k] == t then 1 else 0
  }

  lemma NamedSnoc(ks: seq<nat>, k: nat, targets: seq<SessionId>, t: SessionId)
    ensures Named(ks + [k], targets, t) == Named(ks, targets, t) + if k < |targets| && targets[k] == t then 1 else 0
  {
    assert (ks + [k])[..|ks|] == ks;
  }

  lemma NamedNone(targets: seq<SessionId>, t: SessionId)
    ensures Named([], targets, t) == 0
  {
  }

  lemma {:induction false} NamedUpto(m: nat, targets: seq<SessionId>, t: SessionId)
    requires m <= |targets|
    ensures Named(Upto(m), targets, t) == multiset(targets[..m])[t]
  {
    hide Named;
    if m == 0 {
      assert targets[..m] == [] && Upto(m) == [];
      NamedNone(targets, t);
    } else {
      NamedUpto(m - 1, targets, t);
      NamedSnoc(Upto(m - 1), m - 1, targets, t);
      assert targets[..m] == targets[..m - 1] + [targets[m - 1]];
    }
  }

  /** How often the packet of call `k` of worker `s` was handed to `t`, anywhere. */
  function Reached(log: seq<Delivery>, execs: seq<Exec>, s: nat, k: nat, t: SessionId): nat {
    if log == [] then 0
    else
      var d := log[|log| - 1];
      Reached(log[..|log| - 1], execs, s, k, t) +
      if d.exec < |execs| && d.k < |execs[d.exec].targets| && OfCall(execs[d.exec], s, k)
         && execs[d.exec].targets[d.k] == t then 1 else 0
  }

  /** If one exec is the only one of a call that names `t`, the call reaches `t` through that exec alone. */
  lemma {:induction false} ReachedThrough(log: seq<Delivery>, execs: seq<Exec>, s: nat, k: nat, t: SessionId, e: nat)
    requires Logged(log, execs) && e < |execs| && OfCall(execs[e], s, k)
    requires forall f :: 0 <= f < |execs| && OfCall(execs[f], s, k) && t in execs[f].targets ==> f == e
    ensures Reached(log, execs, s, k, t) == Named(KsOf(log, e), execs[e].targets, t)
  {
    if log != [] {
      var d := log[|log| - 1];
      ReachedThrough(log[..|log| - 1], execs, s, k, t, e);
      if d.exec == e {
        NamedSnoc(KsOf(log[..|log| - 1], e), d.k, execs[e].targets, t);
      } else {
        assert execs[d.exec].targets[d.k] in execs[d.exec].targets;
        assert KsOf(log, e) == KsOf(log[..|log| - 1], e);
      }
    }
  }

  lemma {:induction false} ReachedNever(log: seq<Delivery>, execs: seq<Exec>, s: nat, k: nat, t: SessionId)
    requires forall f :: 0 <= f < |execs| && OfCall(execs[f], s, k) ==> t !in execs[f].targets
    ensures Reached(log, execs, s, k, t) == 0
  {
    if log != [] {
      ReachedNever(log[..|log| - 1], execs, s, k, t);
    }
  }

  /** Two execs of one call on one worker are the same exec. */
  lemma ServedOnce(sys: System, e: nat, f: nat)
    requires Loops(sys) && Streams(sys) && Execs(sys) && e < |sys.execs| && f < |sys.execs|
    requires sys.execs[e].worker == sys.execs[f].worker && sys.execs[e].item.source == sys.execs[f].item.source
    requires sys.execs[e].item.number == sys.execs[f].item.number
    ensures e == f
  {
    hide Loops; hide Streams; hide ExecsOf; hide WorkFor; hide Owned; hide Fits;
    var x := sys.execs[e];
    assert ExecOk(sys, x);
    ServedInOrder(sys, x.item.source, x.worker);
    if e < f {
      ExecPair(sys.execs, sys.workers[x.item.source].calls, e, f);
    } else if f < e {
      ExecPair(sys.execs, sys.workers[x.item.source].calls, f, e);
    }
  }

  /** Only the exec on a session's owner names the session. */
  lemma NamedOnOwner(sys: System, f: nat, t: SessionId)
    requires Execs(sys) && f < |sys.execs| && t in sys.execs[f].targets
    ensures sys.execs[f].worker == OwnerWorkerFromId(t)
  {
    hide OwnerWorkerFromId; hide WorkFor; hide Fits; hide Owned; hide Due; hide Entries;
    var x := sys.execs[f];
    assert ExecOk(sys, x);
    TargetsAreDue(sys.workers[x.item.source].calls[x.item.number].call, x.worker, x.reg, x.targets, t);
  }

  /** What an exec has told so far is a beginning of its targets. */
  lemma ToldSoFar(sys: System, e: nat) returns (m: nat)
    requires Loops(sys) && Progress(sys) && Execs(sys) && e < |sys.execs|
    ensures m <= |sys.execs[e].targets| && KsOf(sys.log, e) == Upto(m)
    ensures sys.execs[e].worker < |sys.workers|
    ensures (sys.workers[sys.execs[e].worker].stack == [] ==> m == |sys.execs[e].targets|)
  {
    hide KsOf; hide Upto; hide WorkFor; hide Owned; hide Fits; hide Climbs; hide Sound; hide Complete;
    hide NotYet; hide AllOrdered; hide Nested; hide NestedIn; hide Latest;
    var v := sys.execs[e].worker;
    assert ExecOk(sys, sys.execs[e]);
    assert Finished(sys.log, sys.execs, e, sys.workers[v].stack);
    if KsOf(sys.log, e) == Upto(|sys.execs[e].targets|) {
      m := |sys.execs[e].targets|;
    } else {
      var stack := sys.workers[v].stack;
      var i :| 0 <= i < |stack| && stack[i].Delivering? && stack[i].exec == e;
      assert WorkerOk(sys.workers[v], v, |sys.workers|, sys.execs);
      assert FrameOk(stack, i, sys.workers[v].calls, sys.execs, v);
      assert Told(sys.log, stack);
      m := stack[i].next;
    }
  }

  /** The call reaches `t` through one exec: as often as due once that exec is over, never more often. */
  lemma ReachedByExec(sys: System, e: nat, t: SessionId)
    requires Inv(sys) && e < |sys.execs| && sys.execs[e].worker == OwnerWorkerFromId(t)
    ensures ExecOk(sys, sys.execs[e])
    ensures var x := sys.execs[e]; var call := sys.workers[x.item.source].calls[x.item.number].call;
            var times := Reached(sys.log, sys.execs, x.item.source, x.item.number, t);
            && times <= Due(call, x.reg, t) <= Entries(call, t)
            && (sys.workers[x.worker].stack == [] ==> times == Due(call, x.reg, t))
  {
    hide OwnerWorkerFromId; hide WorkFor; hide Fits; hide Owned; hide Due; hide Entries; hide WorkerOk;
    hide Streams; hide AllTold; hide AllFinished; hide Pairs; hide KsOf;
    var x := sys.execs[e];
    assert ExecOk(sys, x);
    forall f | 0 <= f < |sys.execs| && OfCall(sys.execs[f], x.item.source, x.item.number) && t in sys.execs[f].targets
      ensures f == e
    {
      NamedOnOwner(sys, f, t);
      ServedOnce(sys, e, f);
    }
    ReachedThrough(sys.log, sys.execs, x.item.source, x.item.number, t, e);
    var m := ToldSoFar(sys, e);
    NamedUpto(m, x.targets, t);
    TargetsAreDue(sys.workers[x.item.source].calls[x.item.number].call, x.worker, x.reg, x.targets, t);
    assert x.targets == x.targets[..m] + x.targets[m..];
    assert x.targets[..|x.targets|] == x.targets;
  }

  /** At any time in any run, a call has reached a session at most as often as it names the session. */
  lemma AtMostPerEntry(sys: System, s: nat, k: nat, t: SessionId)
    requires Reachable(sys) && s < |sys.workers| && k < |sys.workers[s].calls|
    ensures Reached(sys.log, sys.execs, s, k, t) <= Entries(sys.workers[s].calls[k].call, t)
  {
    hide OwnerWorkerFromId; hide Reachable; hide Entries; hide Due; hide Loops; hide Streams;
    hide Progress; hide Pairs; hide ExecOk;
    ReachableKept(sys);
    if e :| 0 <= e < |sys.execs| && OfCall(sys.execs[e], s, k) && t in sys.execs[e].targets {
      NamedOnOwner(sys, e, t);
      ReachedByExec(sys, e, t);
    } else {
      ReachedNever(sys.log, sys.execs, s, k, t);
    }
  }

  lemma {:induction false} ExecsOfFound(execs: seq<Exec>, s: nat, o: nat, it: Item) returns (e: nat)
    requires it in ExecsOf(execs, s, o)
    ensures e < |execs| && execs[e].worker == o && execs[e].item == it && it.source == s
  {
    if it in ExecsOf(execs[..|execs| - 1], s, o) {
      e := ExecsOfFound(execs[..|execs| - 1], s, o, it);
    } else {
      e := |execs| - 1;
    }
  }

  /** Worker `s` is between calls, and worker `o` has nothing left to do for it. */
  predicate Settled(sys: System, s: nat, o: nat)
    requires s < |sys.workers| && o < |sys.workers|
  {
    sys.workers[s].stack == [] && sys.workers[o].queue == [] && sys.workers[o].stack == []
  }

  /** Exec `e` is the one that serves call `k` of worker `s` on worker `o`. */
  ghost predicate TheExec(sys: System, s: nat, k: nat, o: nat, e: nat) {
    && e < |sys.execs| && sys.execs[e].worker == o && OfCall(sys.execs[e], s, k)
    && forall f :: 0 <= f < |sys.execs| && sys.execs[f].worker == o && OfCall(sys.execs[f], s, k) ==> f == e
  }

  /** Once settled, every worker with a share of a call has served it, exactly once. */
  lemma ShareServed(sys: System, s: nat, k: nat, o: nat) returns (e: nat)
    requires Inv(sys) && s < |sys.workers| && o < |sys.workers| && k < |sys.workers[s].calls| && Settled(sys, s, o)
    requires WorkFor(sys.workers[s].calls[k].call, o).Some?
    ensures TheExec(sys, s, k, o, e)
  {
    hide WorkFor; hide ExecsOf; hide Owned; hide Fits; hide Shape; hide Climbs; hide Sound; hide NotYet;
    hide AllOrdered; hide Nested; hide NestedIn; hide Progress; hide Pairs;
    var me := sys.workers[s];
    assert WorkerOk(me, s, |sys.workers|, sys.execs);
    assert HandedOrPends(me.calls, me.handed, me.stack, s, k, o);
    assert StreamOk(sys, s, o);
    e := ExecsOfFound(sys.execs, s, o, Item(s, k, WorkFor(me.calls[k].call, o).value));
    forall f | 0 <= f < |sys.execs| && sys.execs[f].worker == o && OfCall(sys.execs[f], s, k)
      ensures f == e
    {
      ServedOnce(sys, e, f);
    }
  }

  /** A session without an owner among the workers, or whose owner has no share of the call, is never reached. */
  lemma NoShareNotReached(sys: System, s: nat, k: nat, t: SessionId)
    requires Inv(sys) && s < |sys.workers| && k < |sys.workers[s].calls|
    requires var o := OwnerWorkerFromId(t);
             0 <= o < |sys.workers| ==> WorkFor(sys.workers[s].calls[k].call, o).None?
    ensures Reached(sys.log, sys.execs, s, k, t) == 0
  {
    hide OwnerWorkerFromId; hide WorkFor; hide Loops; hide Streams; hide Progress; hide Pairs; hide Owned; hide Fits;
    forall f | 0 <= f < |sys.execs| && OfCall(sys.execs[f], s, k)
      ensures t !in sys.execs[f].targets
    {
      assert ExecOk(sys, sys.execs[f]);
      if t in sys.execs[f].targets {
        NamedOnOwner(sys, f, t);
      }
    }
    ReachedNever(sys.log, sys.execs, s, k, t);
  }

  /**
   In every run, once the caller is between calls and the session's owner has nothing left to do: a
   call with a share for that owner was served there once, and has reached the session exactly as
   often as it was due by the registry at that moment. Without such a share the session was not
   reached, and by no registry of its owner was it due to be.
   */
  lemma CallReaches(sys: System, s: nat, k: nat, t: SessionId) returns (e: nat)
    requires Reachable(sys) && s < |sys.workers| && k < |sys.workers[s].calls|
    requires 0 <= OwnerWorkerFromId(t) < |sys.workers| ==> Settled(sys, s, OwnerWorkerFromId(t))
    ensures var call, o := sys.workers[s].calls[k].call, OwnerWorkerFromId(t);
            if 0 <= o < |sys.workers| && WorkFor(call, o).Some? then
              && TheExec(sys, s, k, o, e) && Owned(sys.execs[e].reg, o)
              && Reached(sys.log, sys.execs, s, k, t) == Due(call, sys.execs[e].reg, t)
            else
              && Reached(sys.log, sys.execs, s, k, t) == 0
              && (0 <= o < |sys.workers| ==> forall reg :: Owned(reg, o) ==> Due(call, reg, t) == 0)
  {
    hide OwnerWorkerFromId; hide Reachable; hide WorkFor; hide Due; hide Loops; hide Streams;
    hide Progress; hide Pairs; hide Owned; hide Fits;
    ReachableKept(sys);
    var call, o := sys.workers[s].calls[k].call, OwnerWorkerFromId(t);
    if 0 <= o < |sys.workers| && WorkFor(call, o).Some? {
      e := ShareServed(sys, s, k, o);
      ReachedByExec(sys, e, t);
    } else {
      e := 0;
      NoShareNotReached(sys, s, k, t);
      if 0 <= o < |sys.workers| {
        forall reg | Owned(reg, o)
          ensures Due(call, reg, t) == 0
        {
          NoShareNothingDue(call, o, reg, t);
        }
      }
    }
  }

  /**
   A multicast reaches a session it names exactly as often as it names it, if the session was registered, and else
   never.
   */
  lemma MulticastReaches(sys: System, s: nat, k: nat, t: SessionId) returns (e: nat)
    requires Reachable(sys) && s < |sys.workers| && k < |sys.workers[s].calls|
    requires sys.workers[s].calls[k].call.Multicast?
    requires 0 <= OwnerWorkerFromId(t) < |sys.workers| && Settled(sys, s, OwnerWorkerFromId(t))
    requires t != 0 && t in sys.workers[s].calls[k].call.sids && t != sys.workers[s].calls[k].call.except
    ensures TheExec(sys, s, k, OwnerWorkerFromId(t), e)
    ensures Reached(sys.log, sys.execs, s, k, t) ==
            if t in sys.execs[e].reg.live then multiset(sys.workers[s].calls[k].call.sids)[t] else 0
  {
    hide OwnerWorkerFromId; hide Reachable; hide Bucket;
    var call := sys.workers[s].calls[k].call;
    BucketKeeps(call.sids, call.except, OwnerWorkerFromId(t), t);
    assert t in multiset(Bucket(call.sids, call.except, OwnerWorkerFromId(t)));
    e := CallReaches(sys, s, k, t);
  }

  /**
   A broadcast reaches, once each and on every worker, exactly the sessions listed there for its target, without the
   excluded one.
   */
  lemma BroadcastReaches(sys: System, s: nat, k: nat, o: nat) returns (e: nat)
    requires Reachable(sys) && s < |sys.workers| && k < |sys.workers[s].calls|
    requires sys.workers[s].calls[k].call.Broadcast?
    requires o < |sys.workers| && Settled(sys, s, o)
    ensures TheExec(sys, s, k, o, e)
    ensures var call := sys.workers[s].calls[k].call;
            forall t :: OwnerWorkerFromId(t) == o ==>
              Reached(sys.log, sys.execs, s, k, t) ==
              if Listed(sys.execs[e].reg, call.target, t) && t != 0 && t != call.excluded then 1 else 0
  {
    hide OwnerWorkerFromId; hide Reachable; hide Listed; hide Inv; hide Reached;
    ReachableKept(sys);
    e := ShareServed(sys, s, k, o);
    forall t: SessionId | OwnerWorkerFromId(t) == o
      ensures Reached(sys.log, sys.execs, s, k, t) ==
              if Listed(sys.execs[e].reg, sys.workers[s].calls[k].call.target, t) && t != 0
                  && t != sys.workers[s].calls[k].call.excluded then 1 else 0
    {
      var e' := CallReaches(sys, s, k, t);
      assert e' == e;
    }
  }

  // ------------------------------------------------------------- a run in which a later call overtakes

  lemma RunFirst(sys: System, step: Step, rest: seq<Step>)
    ensures Run(sys, [step] + rest) == Run(Next(sys, step), rest)
  {
    assert ([step] + rest)[1..] == rest;
  }

  /** A system of one worker, with everything but its queue and history spelled out. */
  predicate Solo(sys: System, stack: seq<Frame>, calls: seq<Begun>, execs: seq<Exec>, log: seq<Delivery>,
                 reg: Relation) {
    && |sys.workers| == 1 && sys.workers[0].stack == stack && sys.workers[0].calls == calls
    && |sys.workers[0].handed| == 1 && sys.workers[0].reg == reg && sys.execs == execs && sys.log == log
  }

  lemma TwoRegistered()
    ensures Registered({1, 2}, [1, 2]) == [1, 2] && Registered({1, 2}, [2]) == [2]
  {
    assert [1, 2][..1] == [1] && [1][..0] == [] && [2][..0] == [];
    assert Registered({1, 2}, [1]) == [1];
  }

  lemma SharesOfTwo(reg: Relation)
    requires reg.live == {1, 2}
    ensures WorkFor(Multicast([1, 2], 0), 0) == Some(WorkMany([1, 2])) && Fits(WorkMany([1, 2]), reg, [1, 2])
    ensures WorkFor(SendTo(2), 0) == Some(WorkOne(2)) && Fits(WorkOne(2), reg, [2])
  {
    hide Bucket; hide Registered;
    RegroupIsLocal([1, 2], 0, 0);
    TwoRegistered();
  }

  lemma SoloStarts(reg: Relation)
    requires reg == Relation({1, 2}, {})
    ensures var sys := System([Worker([], [], [], [[]], reg)], [], []); Started(sys) && Solo(sys, [], [], [], [], reg)
  {
  }

  /**
   One worker multicasts to its sessions 1 and 2. Handing the packet to session 1 closes it, and its
   end callback sends to session 2. Session 2 gets the later call's packet first.
   */
  lemma Overtakes() returns (sys: System)
    ensures Reachable(sys) && |sys.workers| == 1 && |sys.workers[0].calls| == 2
    ensures |sys.log| == 3 && sys.log[1].exec == 1 < |sys.execs| && sys.log[2].exec == 0
    ensures sys.log[1].k < |sys.execs[1].targets| && sys.log[2].k < |sys.execs[0].targets|
    ensures SessionAt(sys, 1) == SessionAt(sys, 2) == 2
    ensures sys.execs[1].item.source == sys.execs[0].item.source == 0
    ensures sys.execs[1].item.number == 1 && sys.execs[0].item.number == 0
  {
    hide Next; hide Started; hide Run;
    var reg := Relation({1, 2}, {});
    var start := System([Worker([], [], [], [[]], reg)], [], []);
    var steps1 := [Begin(0, Multicast([1, 2], 0)), HandOut(0, [1, 2]), Deliver(0)];
    var steps2 := [Begin(0, SendTo(2)), HandOut(0, [2]), Deliver(0)];
    var steps3 := [Return(0), HandOut(0, []), Deliver(0)];
    SoloStarts(reg);
    var mid, x0 := MulticastBegins(start, reg);
    var late, x1 := SendOvertakes(mid, reg, x0);
    sys := MulticastGoesOn(late, reg, x0, x1);
    RunThree(mid, steps2);
    RunThree(late, steps3);
    RunThree(start, steps1);
    RunAppend(start, steps1, steps2 + steps3);
    RunAppend(mid, steps2, steps3);
    assert sys == Run(start, steps1 + (steps2 + steps3));
  }

  lemma {:induction false} RunAppend(sys: System, steps: seq<Step>, more: seq<Step>)
    ensures Run(sys, steps + more) == Run(Run(sys, steps), more)
    decreases |steps|
  {
    hide Next;
    if steps == [] {
      assert steps + more == more;
    } else {
      assert (steps + more)[1..] == steps[1..] + more;
      RunAppend(Next(sys, steps[0]), steps[1..], more);
    }
  }

  lemma RunThree(sys: System, steps: seq<Step>)
    requires |steps| == 3
    ensures Run(sys, steps) == Next(Next(Next(sys, steps[0]), steps[1]), steps[2])
  {
    hide Next;
    assert steps == [steps[0]] + ([steps[1]] + ([steps[2]] + []));
    RunFirst(sys, steps[0], [steps[1]] + ([steps[2]] + []));
    RunFirst(Next(sys, steps[0]), steps[1], [steps[2]] + []);
    RunFirst(Next(Next(sys, steps[0]), steps[1]), steps[2], []);
  }

  lemma MulticastBegins(start: System, reg: Relation) returns (mid: System, x0: Exec)
    requires reg == Relation({1, 2}, {}) && Solo(start, [], [], [], [], reg)
    ensures mid == Next(Next(Next(start, Begin(0, Multicast([1, 2], 0))), HandOut(0, [1, 2])), Deliver(0))
    ensures x0.worker == 0 && x0.item.source == 0 && x0.item.number == 0 && x0.targets == [1, 2]
    ensures Solo(mid, [Handing(0, 1), Delivering(0, 1)], [Begun(Multicast([1, 2], 0), [])], [x0], [Delivery(0, 0)], reg)
  {
    hide WorkFor; hide Fits;
    var call := Multicast([1, 2], 0);
    SharesOfTwo(reg);
    x0 := Exec(0, Item(0, 0, WorkMany([1, 2])), reg, [1, 2]);
    var s1 := Next(start, Begin(0, call));
    assert Solo(s1, [Handing(0, 0)], [Begun(call, [])], [], [], reg);
    var s2 := Next(s1, HandOut(0, [1, 2]));
    assert Solo(s2, [Handing(0, 1), Delivering(0, 0)], [Begun(call, [])], [x0], [], reg);
    mid := Next(s2, Deliver(0));
  }

  lemma SendOvertakes(mid: System, reg: Relation, x0: Exec) returns (late: System, x1: Exec)
    requires reg == Relation({1, 2}, {})
    requires Solo(mid, [Handing(0, 1), Delivering(0, 1)], [Begun(Multicast([1, 2], 0), [])], [x0], [Delivery(0, 0)],
               reg)
    ensures late == Next(Next(Next(mid, Begin(0, SendTo(2))), HandOut(0, [2])), Deliver(0))
    ensures x1.worker == 0 && x1.item.source == 0 && x1.item.number == 1 && x1.targets == [2]
    ensures Solo(late, [Handing(0, 1), Delivering(0, 1), Handing(1, 1), Delivering(1, 1)],
                 [Begun(Multicast([1, 2], 0), []), Begun(SendTo(2), [Handing(0, 1), Delivering(0, 1)])], [x0, x1],
                     [Delivery(0, 0), Delivery(1, 0)], reg)
  {
    hide WorkFor; hide Fits;
    var under := [Handing(0, 1), Delivering(0, 1)];
    var calls := [Begun(Multicast([1, 2], 0), []), Begun(SendTo(2), under)];
    SharesOfTwo(reg);
    x1 := Exec(0, Item(0, 1, WorkOne(2)), reg, [2]);
    var s1 := Next(mid, Begin(0, SendTo(2)));
    assert Solo(s1, under + [Handing(1, 0)], calls, [x0], [Delivery(0, 0)], reg);
    var s2 := Next(s1, HandOut(0, [2]));
    assert Solo(s2, under + [Handing(1, 1), Delivering(1, 0)], calls, [x0, x1], [Delivery(0, 0)], reg);
    late := Next(s2, Deliver(0));
  }

  lemma MulticastGoesOn(late: System, reg: Relation, x0: Exec, x1: Exec) returns (end: System)
    requires x0.targets == [1, 2] && x1.targets == [2]
    requires Solo(late, [Handing(0, 1), Delivering(0, 1), Handing(1, 1), Delivering(1, 1)],
                  [Begun(Multicast([1, 2], 0), []), Begun(SendTo(2), [Handing(0, 1), Delivering(0, 1)])], [x0, x1],
                      [Delivery(0, 0), Delivery(1, 0)], reg)
    ensures end == Next(Next(Next(late, Return(0)), HandOut(0, [])), Deliver(0))
    ensures Solo(end, [Handing(0, 1), Delivering(0, 2)],
                 [Begun(Multicast([1, 2], 0), []), Begun(SendTo(2), [Handing(0, 1), Delivering(0, 1)])], [x0, x1],
                 [Delivery(0, 0), Delivery(1, 0), Delivery(0, 1)], reg)
  {
    hide WorkFor; hide Fits;
    var calls := late.workers[0].calls;
    var s1 := Next(late, Return(0));
    assert Solo(s1, [Handing(0, 1), Delivering(0, 1), Handing(1, 1)], calls, [x0, x1], late.log, reg);
    var s2 := Next(s1, HandOut(0, []));
    assert Solo(s2, [Handing(0, 1), Delivering(0, 1)], calls, [x0, x1], late.log, reg);
    end := Next(s2, Deliver(0));
  }
}

/** Sends, multicasts and broadcasts: which worker serves whom, and who is meant to receive the packet. */
module Routing {
  import opened SessionIds
  import opened Registries
  import opened Wrappers

  // ------------------------------------------------------------- multicast buckets

  /** The ids of a request that worker `o` serves, in request order. */
  function Bucket(sids: seq<SessionId>, except: SessionId, o: int): seq<SessionId> {
    if sids == [] then []
    else
      var last := sids[|sids| - 1];
      Bucket(sids[..|sids| - 1], except, o) +
      if last != 0 && last != except && OwnerWorkerFromId(last) == o then [last] else []
  }

  lemma BucketSnoc(sids: seq<SessionId>, except: SessionId, o: int, i: nat)
    requires i < |sids|
    ensures Bucket(sids[..i + 1], except, o) ==
            Bucket(sids[..i], except, o) + if sids[i] != 0 && sids[i] != except
                && OwnerWorkerFromId(sids[i]) == o then [sids[i]] else []
  {
    assert sids[..i + 1][..i] == sids[..i];
  }

  /** Requests one after the other fill the buckets one after the other. */
  lemma {:induction false} BucketConcat(a: seq<SessionId>, b: seq<SessionId>, except: SessionId, o: int)
    ensures Bucket(a + b, except, o) == Bucket(a, except, o) + Bucket(b, except, o)
    decreases |b|
  {
    hide OwnerWorkerFromId;
    if b == [] {
      assert a + b == a;
    } else {
      assert (a + b)[..|a + b| - 1] == a + b[..|b| - 1];
      BucketConcat(a, b[..|b| - 1], except, o);
    }
  }

  /** Sorts a request into one bucket per worker. */
  method Bucketize(sids: seq<SessionId>, except: SessionId, n: nat) returns (buckets: seq<seq<SessionId>>)
    ensures |buckets| == n
    ensures forall o :: 0 <= o < n ==> buckets[o] == Bucket(sids, except, o)
  {
    buckets := seq(n, _ => []);
    for i := 0 to |sids|
      invariant |buckets| == n
      invariant forall o :: 0 <= o < n ==> buckets[o] == Bucket(sids[..i], except, o)
    {
      var sid := sids[i];
      var owner := OwnerWorkerFromId(sid);
      forall o | 0 <= o < n
        ensures Bucket(sids[..i + 1], except, o) ==
                Bucket(sids[..i], except, o) + if sid != 0 && sid != except && owner == o then [sid] else []
      {
        BucketSnoc(sids, except, o, i);
      }
      if sid == 0 || sid == except {
        continue;
      }
      if owner < 0 || owner >= n {
        continue;
      }
      buckets := buckets[owner := buckets[owner] + [sid]];
    }
    assert sids[..|sids|] == sids;
  }

  /** Every wanted id keeps its multiplicity in its owner's bucket and appears in no other. */
  lemma {:induction false} BucketKeeps(sids: seq<SessionId>, except: SessionId, o: int, t: SessionId)
    ensures multiset(Bucket(sids, except, o))[t] ==
            if t != 0 && t != except && OwnerWorkerFromId(t) == o then multiset(sids)[t] else 0
  {
    hide OwnerWorkerFromId;
    if sids != [] {
      var front, last := sids[..|sids| - 1], sids[|sids| - 1];
      BucketKeeps(front, except, o, t);
      assert sids == front + [last];
    }
  }

  // ------------------------------------------------------------- calls and work

  datatype Target = Everyone | WholeScope(w: ScopeId) | OneTopic(key: TopicKey)

  /** A call made through the session service. */
  datatype Call =
    | SendTo(sid: SessionId)
    | Multicast(sids: seq<SessionId>, except: SessionId)
    | Broadcast(target: Target, excluded: SessionId)

  /** The share of a call that one worker carries out. */
  datatype Work =
    | WorkOne(sid: SessionId)
    | WorkMany(sids: seq<SessionId>)
    | WorkSnapshot(target: Target, excluded: SessionId)

  function WorkFor(call: Call, o: int): Option<Work> {
    match call
    case SendTo(sid) => if OwnerWorkerFromId(sid) == o then Some(WorkOne(sid)) else None
    case Multicast(sids, except) => if Bucket(sids, except, o) == [] then None
        else Some(WorkMany(Bucket(sids, except, o)))
    case Broadcast(target, excluded) => Some(WorkSnapshot(target, excluded))
  }

  /** The session is one a broadcast to `target` is meant for. */
  ghost predicate Listed(reg: Relation, target: Target, t: SessionId) {
    match target
    case Everyone => t in reg.live
    case WholeScope(w) => exists k: TopicKey :: (t, k) in reg.pairs && k.scope == w
    case OneTopic(key) => (t, key) in reg.pairs
  }

  /** The ids of a list that are registered, in order and with repetitions. */
  function Registered(live: set<SessionId>, sids: seq<SessionId>): seq<SessionId> {
    if sids == [] then []
    else
      var last := sids[|sids| - 1];
      Registered(live, sids[..|sids| - 1]) + if last in live && last != 0 then [last] else []
  }

  /** A worker with registry `reg` may carry out `work` by handing the packet to `targets`, in that order. */
  ghost predicate Fits(work: Work, reg: Relation, targets: seq<SessionId>) {
    match work
    case WorkOne(sid) => targets == Registered(reg.live, [sid])
    case WorkMany(sids) => targets == Registered(reg.live, sids)
    case WorkSnapshot(target, excluded) =>
      && NoDuplicates(targets)
      && forall t :: t in targets <==> Listed(reg, target, t) && t != excluded && t != 0
  }

  /** A snapshot of the registry is a list of targets for a broadcast's share. */
  method TakeSnapshot(reg: SessionRegistry, ghost rel: Relation, target: Target,
                      excluded: SessionId) returns (out: seq<SessionId>)
    requires reg.Represents(rel)
    ensures Fits(WorkSnapshot(target, excluded), rel, out)
  {
    match target
    case Everyone =>
      out := reg.SnapshotAll(excluded);
    case WholeScope(w) =>
      out := reg.SnapshotScope(w, excluded);
      forall s: SessionId
        ensures Listed(rel, target, s) <==> InScope(reg.subs.Subs(s), w) != {}
      {
        if InScope(reg.subs.Subs(s), w) != {} {
          var k :| k in InScope(reg.subs.Subs(s), w);
          assert (s, k) in rel.pairs;
        }
        if Listed(rel, target, s) {
          var k: TopicKey :| (s, k) in rel.pairs && k.scope == w;
          assert k in InScope(reg.subs.Subs(s), w);
        }
      }
    case OneTopic(key) =>
      out := reg.SnapshotTopic(key.scope, key.topic, excluded);
  }

  lemma RegisteredSnoc(live: set<SessionId>, sids: seq<SessionId>, i: nat)
    requires i < |sids|
    ensures Registered(live, sids[..i + 1]) == Registered(live, sids[..i]) + if sids[i] in live
              && sids[i] != 0 then [sids[i]] else []
  {
    assert sids[..i + 1][..i] == sids[..i];
  }

  /** Looking up the ids of a bucket one by one gives the targets of a multicast's share. */
  method CollectTargets(reg: SessionRegistry, ghost rel: Relation,
                      sids: seq<SessionId>) returns (targets: seq<SessionId>)
    requires reg.Represents(rel)
    ensures Fits(WorkMany(sids), rel, targets)
  {
    targets := [];
    for i := 0 to |sids|
      invariant targets == Registered(rel.live, sids[..i])
    {
      RegisteredSnoc(rel.live, sids, i);
      if sids[i] in reg.records && sids[i] != 0 {
        targets := targets + [sids[i]];
      }
    }
    assert sids[..|sids|] == sids;
  }

  lemma {:induction false} RegisteredKeeps(live: set<SessionId>, sids: seq<SessionId>, t: SessionId)
    ensures multiset(Registered(live, sids))[t] == if t in live && t != 0 then multiset(sids)[t] else 0
  {
    if sids == [] {
      assert Registered(live, sids) == [];
    } else {
      var front, last := sids[..|sids| - 1], sids[|sids| - 1];
      RegisteredKeeps(live, front, t);
      assert sids == front + [last];
    }
  }

  /** The order of the request is kept: lists one after the other give their registered ids one after the other. */
  lemma {:induction false} RegisteredConcat(live: set<SessionId>, a: seq<SessionId>, b: seq<SessionId>)
    ensures Registered(live, a + b) == Registered(live, a) + Registered(live, b)
    decreases |b|
  {
    if b == [] {
      assert a + b == a;
    } else {
      assert (a + b)[..|a + b| - 1] == a + b[..|b| - 1];
      RegisteredConcat(live, a, b[..|b| - 1]);
    }
  }

  /** A worker's registry lists only sessions the worker owns. */
  predicate Owned(reg: Relation, o: int) {
    && (forall s :: s in reg.live ==> OwnerWorkerFromId(s) == o)
    && (forall p :: p in reg.pairs ==> p.0 in reg.live)
  }

  /** How often a packet is to reach `t`, given the registry of its owner when that worker serves the call. */
  ghost function Due(call: Call, reg: Relation, t: SessionId): nat {
    match call
    case SendTo(sid) => if sid == t && t in reg.live && t != 0 then 1 else 0
    case Multicast(sids, except) => if t in reg.live && t != 0 && t != except then multiset(sids)[t] else 0
    case Broadcast(target, excluded) => if Listed(reg, target, t) && t != 0 && t != excluded then 1 else 0
  }

  /** How often a call names `t` at all. */
  function Entries(call: Call, t: SessionId): nat {
    match call
    case SendTo(sid) => if sid == t && t != 0 then 1 else 0
    case Multicast(sids, except) => if t == 0 || t == except then 0 else multiset(sids)[t]
    case Broadcast(_, excluded) => if t == 0 || t == excluded then 0 else 1
  }

  lemma ListedIsLive(reg: Relation, o: int, target: Target, t: SessionId)
    requires Owned(reg, o) && Listed(reg, target, t)
    ensures t in reg.live
  {
    match target
    case Everyone =>
    case WholeScope(w) =>
      var k: TopicKey :| (t, k) in reg.pairs && k.scope == w;
      assert (t, k).0 in reg.live;
    case OneTopic(key) => assert (t, key).0 in reg.live;
  }

  lemma {:induction false} OnceEach(targets: seq<SessionId>, t: SessionId)
    requires NoDuplicates(targets)
    ensures multiset(targets)[t] == if t in targets then 1 else 0
  {
    if targets != [] {
      var front, last := targets[..|targets| - 1], targets[|targets| - 1];
      OnceEach(front, t);
      assert targets == front + [last];
    }
  }

  /** A share's targets are exactly the sessions the call is due to reach on that worker, as often as it is due. */
  lemma TargetsAreDue(call: Call, o: int, reg: Relation, targets: seq<SessionId>, t: SessionId)
    requires WorkFor(call, o).Some? && Owned(reg, o) && Fits(WorkFor(call, o).value, reg, targets)
    ensures multiset(targets)[t] == Due(call, reg, t) <= Entries(call, t)
    ensures t in targets ==> OwnerWorkerFromId(t) == o && t != 0
  {
    hide Bucket; hide Registered; hide OwnerWorkerFromId; hide Listed;
    assert t in targets <==> multiset(targets)[t] > 0;
    match call
    case SendTo(sid) =>
      RegisteredKeeps(reg.live, [sid], t);
      assert multiset([sid])[t] == if sid == t then 1 else 0;
    case Multicast(sids, except) =>
      RegisteredKeeps(reg.live, Bucket(sids, except, o), t);
      BucketKeeps(sids, except, o, t);
    case Broadcast(target, excluded) =>
      OnceEach(targets, t);
      if Listed(reg, target, t) { ListedIsLive(reg, o, target, t); }
  }

  /** No smaller bound would do: some registry makes the call reach `t` as often as it names it. */
  lemma EntriesAttained(call: Call, t: SessionId) returns (reg: Relation)
    ensures Owned(reg, OwnerWorkerFromId(t)) && Due(call, reg, t) == Entries(call, t)
  {
    hide OwnerWorkerFromId;
    var key := match call
      case Broadcast(WholeScope(w), _) => TopicKey(w, 0)
      case Broadcast(OneTopic(key), _) => key
      case _ => TopicKey(0, 0);
    reg := Relation({t}, {(t, key)});
    assert (t, key) in reg.pairs;
  }

  /** A worker has a share exactly if it owns a session the call names; of a broadcast every worker has one. */
  lemma ShareIff(call: Call, o: int)
    ensures WorkFor(call, o).Some? <==>
            match call
            case SendTo(sid) => OwnerWorkerFromId(sid) == o
            case Multicast(sids, except) =>
              exists t :: t in sids && t != 0 && t != except && OwnerWorkerFromId(t) == o
            case Broadcast(_, _) => true
  {
    hide OwnerWorkerFromId; hide Bucket;
    if call.Multicast? {
      var b := Bucket(call.sids, call.except, o);
      forall t: SessionId
        ensures t in b <==> t in call.sids && t != 0 && t != call.except && OwnerWorkerFromId(t) == o
      {
        BucketKeeps(call.sids, call.except, o, t);
        assert t in b <==> multiset(b)[t] > 0;
        assert t in call.sids <==> multiset(call.sids)[t] > 0;
      }
      if b != [] {
        assert b[0] in b;
      }
    }
  }

  /** A worker without a share owns nobody the call is due to reach. */
  lemma NoShareNothingDue(call: Call, o: int, reg: Relation, t: SessionId)
    requires WorkFor(call, o).None? && Owned(reg, o)
    ensures Due(call, reg, t) == 0
  {
    hide Bucket; hide OwnerWorkerFromId;
    match call
    case SendTo(sid) =>
    case Multicast(sids, except) =>
      BucketKeeps(sids, except, o, t);
    case Broadcast(target, excluded) =>
  }

  // ------------------------------------------------------------- the router on the owner worker

  /**
   The engine's router groups a task's targets by owner once more. On the owner worker this changes
   nothing: all targets fall in its own group, in order, and every other group is empty.
   */
  lemma {:induction false} RegroupIsLocal(targets: seq<SessionId>, w: int, o: int)
    requires forall i :: 0 <= i < |targets| ==> targets[i] != 0 && OwnerWorkerFromId(targets[i]) == w
    ensures Bucket(targets, 0, o) == if o == w then targets else []
  {
    hide OwnerWorkerFromId;
    if targets != [] {
      var front := targets[..|targets| - 1];
      RegroupIsLocal(front, w, o);
      assert targets == front + [targets[|targets| - 1]];
    }
  }
}

/**
 A worker's session registry: session records, and a subscription index that keeps reverse
 indexes by topic and by scope beside each session's own subscriptions.
 */
module Registries {
  import opened SessionIds

  type ScopeId = nat
  type TopicId = nat

  datatype TopicKey = TopicKey(scope: ScopeId, topic: TopicId)

  /** One session's subscriptions, and how many of them lie in each scope. */
  datatype SubscriptionState = SubscriptionState(subscriptions: set<TopicKey>, scopeRefCount: map<ScopeId, nat>)

  type Index<K(==)> = map<K, set<SessionId>>

  function Members<K>(idx: Index<K>, k: K): set<SessionId> {
    if k in idx then idx[k] else {}
  }

  predicate NoEmptyEntry<K>(idx: Index<K>) {
    forall k :: k in idx ==> idx[k] != {}
  }

  function Inserted<K(!new)>(idx: Index<K>, k: K, sid: SessionId): (r: Index<K>)
    ensures Members(r, k) == Members(idx, k) + {sid}
    ensures forall k' :: k' != k ==> Members(r, k') == Members(idx, k')
    ensures NoEmptyEntry(idx) ==> NoEmptyEntry(r)
  {
    idx[k := Members(idx, k) + {sid}]
  }

  /** Removes `sid` from the entry of `k`, and the entry itself when nothing is left. */
  function Erased<K(!new)>(idx: Index<K>, k: K, sid: SessionId): (r: Index<K>)
    ensures Members(r, k) == Members(idx, k) - {sid}
    ensures forall k' :: k' != k ==> Members(r, k') == Members(idx, k')
    ensures NoEmptyEntry(idx) ==> NoEmptyEntry(r)
  {
    if k !in idx then idx
    else if idx[k] - {sid} == {} then idx - {k}
    else idx[k := idx[k] - {sid}]
  }

  function InScope(keys: set<TopicKey>, w: ScopeId): set<TopicKey> {
    set k | k in keys && k.scope == w
  }

  function SubsOf(states: map<SessionId, SubscriptionState>, sid: SessionId): set<TopicKey> {
    if sid in states then states[sid].subscriptions else {}
  }

  /** A scope is counted exactly when a subscription lies in it, with the number that do. */
  ghost predicate CountsMatch(st: SubscriptionState) {
    && (forall w :: w in st.scopeRefCount <==> InScope(st.subscriptions, w) != {})
    && (forall w :: w in st.scopeRefCount ==> st.scopeRefCount[w] == |InScope(st.subscriptions, w)|)
  }

  lemma ScopeGrows(keys: set<TopicKey>, key: TopicKey)
    requires key !in keys
    ensures InScope(keys + {key}, key.scope) == InScope(keys, key.scope) + {key}
    ensures |InScope(keys + {key}, key.scope)| == |InScope(keys, key.scope)| + 1
    ensures forall w :: w != key.scope ==> InScope(keys + {key}, w) == InScope(keys, w)
  {
    assert InScope(keys + {key}, key.scope) == InScope(keys, key.scope) + {key};
    forall w | w != key.scope
      ensures InScope(keys + {key}, w) == InScope(keys, w)
    {
    }
  }

  lemma ScopeShrinks(keys: set<TopicKey>, key: TopicKey)
    requires key in keys
    ensures InScope(keys - {key}, key.scope) == InScope(keys, key.scope) - {key}
    ensures |InScope(keys, key.scope)| == |InScope(keys - {key}, key.scope)| + 1
    ensures forall w :: w != key.scope ==> InScope(keys - {key}, w) == InScope(keys, w)
  {
    assert keys - {key} + {key} == keys;
    ScopeGrows(keys - {key}, key);
  }

  const NO_SUBSCRIPTIONS := SubscriptionState({}, map[])

  function CountIn(st: SubscriptionState, w: ScopeId): nat {
    if w in st.scopeRefCount then st.scopeRefCount[w] else 0
  }

  function WithKey(st: SubscriptionState, key: TopicKey): SubscriptionState {
    SubscriptionState(st.subscriptions + {key}, st.scopeRefCount[key.scope := CountIn(st, key.scope) + 1])
  }

  /** `st` without `key`: the scope's count goes down, and goes away at zero. */
  function WithoutKey(st: SubscriptionState, key: TopicKey): SubscriptionState
    requires key.scope in st.scopeRefCount && st.scopeRefCount[key.scope] > 0
  {
    var n := st.scopeRefCount[key.scope] - 1;
    SubscriptionState(st.subscriptions - {key},
                      if n == 0 then st.scopeRefCount - {key.scope} else st.scopeRefCount[key.scope := n])
  }

  lemma CountsOfNone()
    ensures CountsMatch(NO_SUBSCRIPTIONS)
  {
  }

  lemma CountsGrow(st: SubscriptionState, key: TopicKey)
    requires CountsMatch(st) && key !in st.subscriptions
    ensures CountsMatch(WithKey(st, key))
    ensures CountIn(st, key.scope) == 0 <==> InScope(st.subscriptions, key.scope) == {}
    ensures forall w :: InScope(WithKey(st, key).subscriptions, w) != {} <==>
              w == key.scope || InScope(st.subscriptions, w) != {}
  {
    ScopeGrows(st.subscriptions, key);
  }

  lemma CountsShrink(st: SubscriptionState, key: TopicKey)
    requires CountsMatch(st) && key in st.subscriptions
    ensures key.scope in st.scopeRefCount && st.scopeRefCount[key.scope] > 0
    ensures CountsMatch(WithoutKey(st, key))
    ensures st.scopeRefCount[key.scope] == 1 <==> InScope(WithoutKey(st, key).subscriptions, key.scope) == {}
    ensures forall w :: w != key.scope ==> InScope(WithoutKey(st, key).subscriptions, w) == InScope(st.subscriptions, w)
    ensures WithoutKey(st, key).subscriptions == {} ==> WithoutKey(st, key).scopeRefCount == map[]
  {
    ScopeShrinks(st.subscriptions, key);
    assert key in InScope(st.subscriptions, key.scope);
  }

  ghost predicate TopicsMirror(topicIndex: Index<TopicKey>, states: map<SessionId, SubscriptionState>) {
    forall k, s :: s in Members(topicIndex, k) <==> k in SubsOf(states, s)
  }

  ghost predicate ScopesMirror(scopeIndex: Index<ScopeId>, states: map<SessionId, SubscriptionState>) {
    forall w, s :: s in Members(scopeIndex, w) <==> InScope(SubsOf(states, s), w) != {}
  }

  /** The two states differ at most in what `sid` is subscribed to. */
  ghost predicate OnlyChanges(sid: SessionId, was: map<SessionId, SubscriptionState>, now: map<SessionId,
                      SubscriptionState>) {
    forall s :: s != sid ==> SubsOf(now, s) == SubsOf(was, s)
  }

  lemma TopicsStayMirrored(t: Index<TopicKey>, t': Index<TopicKey>, sid: SessionId,
                           was: map<SessionId, SubscriptionState>, now: map<SessionId, SubscriptionState>)
    requires TopicsMirror(t, was) && OnlyChanges(sid, was, now)
    requires forall k, s :: s != sid ==> (s in Members(t', k) <==> s in Members(t, k))
    requires forall k :: sid in Members(t', k) <==> k in SubsOf(now, sid)
    ensures TopicsMirror(t', now)
  {
    forall k, s
      ensures s in Members(t', k) <==> k in SubsOf(now, s)
    {
      if s != sid {
        assert s in Members(t', k) <==> s in Members(t, k);
        assert SubsOf(now, s) == SubsOf(was, s);
      }
    }
  }

  lemma ScopesStayMirrored(t: Index<ScopeId>, t': Index<ScopeId>, sid: SessionId,
                           was: map<SessionId, SubscriptionState>, now: map<SessionId, SubscriptionState>)
    requires ScopesMirror(t, was) && OnlyChanges(sid, was, now)
    requires forall w, s :: s != sid ==> (s in Members(t', w) <==> s in Members(t, w))
    requires forall w :: sid in Members(t', w) <==> InScope(SubsOf(now, sid), w) != {}
    ensures ScopesMirror(t', now)
  {
    forall w, s
      ensures s in Members(t', w) <==> InScope(SubsOf(now, s), w) != {}
    {
      if s != sid {
        assert s in Members(t', w) <==> s in Members(t, w);
        assert SubsOf(now, s) == SubsOf(was, s);
      }
    }
  }

  ghost predicate StatesValid(states: map<SessionId, SubscriptionState>) {
    forall s :: s in states ==> states[s].subscriptions != {} && CountsMatch(states[s])
  }

  function StateOf(states: map<SessionId, SubscriptionState>, sid: SessionId): SubscriptionState {
    if sid in states then states[sid] else NO_SUBSCRIPTIONS
  }

  /** A topic index updated at one key for one session mirrors states updated the same way. */
  lemma TopicChanges(t: Index<TopicKey>, t': Index<TopicKey>, sid: SessionId, key: TopicKey,
                     states: map<SessionId, SubscriptionState>, now: map<SessionId, SubscriptionState>)
    requires TopicsMirror(t, states) && OnlyChanges(sid, states, now)
    requires t' == if key in SubsOf(now, sid) then Inserted(t, key, sid) else Erased(t, key, sid)
    requires SubsOf(now, sid) - {key} == SubsOf(states, sid) - {key}
    ensures TopicsMirror(t', now)
  {
    hide Inserted; hide Erased; hide SubsOf; hide Members;
    forall k
      ensures sid in Members(t', k) <==> k in SubsOf(now, sid)
    {
      assert sid in Members(t, k) <==> k in SubsOf(states, sid);
      assert k != key ==> (k in SubsOf(now, sid) - {key} <==> k in SubsOf(states, sid) - {key});
    }
    TopicsStayMirrored(t, t', sid, states, now);
  }

  lemma ScopeChanges(t: Index<ScopeId>, t': Index<ScopeId>, sid: SessionId, w: ScopeId,
                     states: map<SessionId, SubscriptionState>, now: map<SessionId, SubscriptionState>)
    requires ScopesMirror(t, states) && OnlyChanges(sid, states, now)
    requires t' == t || t' == Inserted(t, w, sid) || t' == Erased(t, w, sid)
    requires sid in Members(t', w) <==> InScope(SubsOf(now, sid), w) != {}
    requires forall x :: x != w ==> (InScope(SubsOf(now, sid), x) != {} <==> InScope(SubsOf(states, sid), x) != {})
    ensures ScopesMirror(t', now)
  {
    hide Inserted; hide Erased; hide SubsOf; hide Members; hide InScope;
    forall x
      ensures sid in Members(t', x) <==> InScope(SubsOf(now, sid), x) != {}
    {
      assert sid in Members(t, x) <==> InScope(SubsOf(states, sid), x) != {};
    }
    ScopesStayMirrored(t, t', sid, states, now);
  }

  lemma ScopeMirroredAt(sc: Index<ScopeId>, states: map<SessionId, SubscriptionState>, sid: SessionId, w: ScopeId)
    requires ScopesMirror(sc, states)
    ensures sid in Members(sc, w) <==> InScope(SubsOf(states, sid), w) != {}
  {
  }

  lemma StatesGrow(states: map<SessionId, SubscriptionState>, sid: SessionId, key: TopicKey)
    requires StatesValid(states) && key !in SubsOf(states, sid)
    ensures StatesValid(states[sid := WithKey(StateOf(states, sid), key)])
    ensures CountsMatch(StateOf(states, sid))
  {
    CountsOfNone();
    CountsGrow(StateOf(states, sid), key);
    hide CountsMatch; hide WithKey;
    assert key in (StateOf(states, sid).subscriptions + {key});
  }

  lemma SubscribeKeepsMirrors(t: Index<TopicKey>, sc: Index<ScopeId>, states: map<SessionId, SubscriptionState>,
                              sid: SessionId, key: TopicKey)
    requires StatesValid(states) && TopicsMirror(t, states) && ScopesMirror(sc, states)
    requires key !in SubsOf(states, sid)
    ensures var st := StateOf(states, sid);
            var now := states[sid := WithKey(st, key)];
            && StatesValid(now)
            && TopicsMirror(Inserted(t, key, sid), now)
            && ScopesMirror(if CountIn(st, key.scope) == 0 then Inserted(sc, key.scope, sid) else sc, now)
  {
    var st := StateOf(states, sid);
    var now := states[sid := WithKey(st, key)];
    var sc' := if CountIn(st, key.scope) == 0 then Inserted(sc, key.scope, sid) else sc;
    hide InScope; hide CountsMatch; hide Inserted; hide Members; hide TopicsMirror; hide ScopesMirror; hide StatesValid;
    StatesGrow(states, sid, key);
    CountsGrow(st, key);
    ScopeMirroredAt(sc, states, sid, key.scope);
    TopicChanges(t, Inserted(t, key, sid), sid, key, states, now);
    ScopeChanges(sc, sc', sid, key.scope, states, now);
  }

  lemma UnsubscribeKeepsMirrors(t: Index<TopicKey>, sc: Index<ScopeId>, states: map<SessionId, SubscriptionState>,
                                sid: SessionId, key: TopicKey)
    requires StatesValid(states) && TopicsMirror(t, states) && ScopesMirror(sc, states)
    requires sid in states && key in states[sid].subscriptions
    ensures key.scope in states[sid].scopeRefCount && states[sid].scopeRefCount[key.scope] > 0
    ensures var st := WithoutKey(states[sid], key);
            var now := if st.subscriptions == {} then states - {sid} else states[sid := st];
            && StatesValid(now)
            && TopicsMirror(Erased(t, key, sid), now)
            && ScopesMirror(if states[sid].scopeRefCount[key.scope] == 1 then Erased(sc, key.scope, sid) else sc, now)
            && (st.subscriptions == {} ==> st.scopeRefCount == map[])
  {
    CountsShrink(states[sid], key);
    assert key in InScope(states[sid].subscriptions, key.scope);
    ScopeMirroredAt(sc, states, sid, key.scope);
    hide InScope; hide CountsMatch; hide Erased; hide Members; hide TopicsMirror; hide ScopesMirror;
    var st := WithoutKey(states[sid], key);
    var now := if st.subscriptions == {} then states - {sid} else states[sid := st];
    var sc' := if states[sid].scopeRefCount[key.scope] == 1 then Erased(sc, key.scope, sid) else sc;
    assert SubsOf(now, sid) == st.subscriptions;
    TopicChanges(t, Erased(t, key, sid), sid, key, states, now);
    ScopeChanges(sc, sc', sid, key.scope, states, now);
  }

  class SubscriptionIndex {
    var states: map<SessionId, SubscriptionState>
    var scopeIndex: Index<ScopeId>
    var topicIndex: Index<TopicKey>

    constructor ()
      ensures Valid() && forall s :: Subs(s) == {}
    {
      states, scopeIndex, topicIndex := map[], map[], map[];
    }

    /** The subscriptions of a session: the one relation that everything else mirrors. */
    function Subs(sid: SessionId): set<TopicKey>
      reads this
    {
      SubsOf(states, sid)
    }

    /** Both indexes hold exactly the sessions the subscriptions imply, with no empty entries. */
    ghost predicate Valid()
      reads this
    {
      && StatesValid(states)
      && NoEmptyEntry(topicIndex) && NoEmptyEntry(scopeIndex)
      && TopicsMirror(topicIndex, states) && ScopesMirror(scopeIndex, states)
    }

    method Subscribe(sid: SessionId, w: ScopeId, c: TopicId) returns (added: bool)
      requires Valid()
      modifies this
      ensures Valid()
      ensures added <==> TopicKey(w, c) !in old(Subs(sid))
      ensures Subs(sid) == old(Subs(sid)) + {TopicKey(w, c)}
      ensures forall s :: s != sid ==> Subs(s) == old(Subs(s))
    {
      hide TopicsMirror; hide ScopesMirror; hide StatesValid; hide Inserted; hide Erased; hide Members;
      hide NoEmptyEntry;
      var key := TopicKey(w, c);
      var st := StateOf(states, sid);
      if key in st.subscriptions {
        return false;
      }
      SubscribeKeepsMirrors(topicIndex, scopeIndex, states, sid, key);
      topicIndex := Inserted(topicIndex, key, sid);
      var cnt := CountIn(st, w);
      if cnt == 0 {
        scopeIndex := Inserted(scopeIndex, w, sid);
      }
      states := states[sid := SubscriptionState(st.subscriptions + {key}, st.scopeRefCount[w := cnt + 1])];
      return true;
    }

    /** Removes `sid` from the topic entries of `keys`. */
    method DropTopics(sid: SessionId, keys: set<TopicKey>)
      requires NoEmptyEntry(topicIndex)
      modifies this`topicIndex
      ensures NoEmptyEntry(topicIndex)
      ensures forall k, s :: s in Members(topicIndex, k) <==>
                s in Members(old(topicIndex), k) && !(s == sid && k in keys)
    {
      var todo := keys;
      while todo != {}
        invariant todo <= keys && NoEmptyEntry(topicIndex)
        invariant forall k, s :: s in Members(topicIndex, k) <==>
                    s in Members(old(topicIndex), k) && !(s == sid && k in keys - todo)
        decreases todo
      {
        var key :| key in todo;
        topicIndex := Erased(topicIndex, key, sid);
        todo := todo - {key};
      }
    }

    /** Removes `sid` from the entries of `scopes`. */
    method DropScopes(sid: SessionId, scopes: set<ScopeId>)
      requires NoEmptyEntry(scopeIndex)
      modifies this`scopeIndex
      ensures NoEmptyEntry(scopeIndex)
      ensures forall w, s :: s in Members(scopeIndex, w) <==>
                s in Members(old(scopeIndex), w) && !(s == sid && w in scopes)
      ensures scopes == {} ==> scopeIndex == old(scopeIndex)
    {
      var todo := scopes;
      while todo != {}
        invariant todo <= scopes && NoEmptyEntry(scopeIndex)
        invariant scopes == {} ==> scopeIndex == old(scopeIndex)
        invariant forall w, s :: s in Members(scopeIndex, w) <==>
                    s in Members(old(scopeIndex), w) && !(s == sid && w in scopes - todo)
        decreases todo
      {
        var w :| w in todo;
        scopeIndex := Erased(scopeIndex, w, sid);
        todo := todo - {w};
      }
    }

    method Unsubscribe(sid: SessionId, w: ScopeId, c: TopicId) returns (removed: bool)
      requires Valid()
      modifies this
      ensures Valid()
      ensures removed <==> TopicKey(w, c) in old(Subs(sid))
      ensures Subs(sid) == old(Subs(sid)) - {TopicKey(w, c)}
      ensures forall s :: s != sid ==> Subs(s) == old(Subs(s))
    {
      hide TopicsMirror; hide ScopesMirror; hide StatesValid; hide Inserted; hide Erased; hide Members;
      hide NoEmptyEntry;
      if sid !in states {
        return false;
      }
      var st := states[sid];
      var key := TopicKey(w, c);
      if key !in st.subscriptions {
        return false;
      }
      UnsubscribeKeepsMirrors(topicIndex, scopeIndex, states, sid, key);
      var subscriptions := st.subscriptions - {key};
      var counts := st.scopeRefCount;
      topicIndex := Erased(topicIndex, key, sid);
      if w in counts {
        if counts[w] > 0 {
          counts := counts[w := counts[w] - 1];
        }
        if counts[w] == 0 {
          counts := counts - {w};
          scopeIndex := Erased(scopeIndex, w, sid);
        }
      }
      assert SubscriptionState(subscriptions, counts) == WithoutKey(st, key);
      if subscriptions == {} {
        DropScopes(sid, counts.Keys);
        states := states - {sid};
      } else {
        states := states[sid := SubscriptionState(subscriptions, counts)];
      }
      return true;
    }

    method ClearAll(sid: SessionId)
      requires Valid()
      modifies this
      ensures Valid()
      ensures Subs(sid) == {}
      ensures forall s :: s != sid ==> Subs(s) == old(Subs(s))
    {
      if sid !in states {
        return;
      }
      var st := states[sid];
      DropTopics(sid, st.subscriptions);
      DropScopes(sid, st.scopeRefCount.Keys);
      states := states - {sid};
      forall k
        ensures sid in Members(topicIndex, k) <==> k in SubsOf(states, sid)
      {
        assert sid in Members(old(topicIndex), k) <==> k in SubsOf(old(states), sid);
      }
      forall sc
        ensures sid in Members(scopeIndex, sc) <==> InScope(SubsOf(states, sid), sc) != {}
      {
        assert sid in Members(old(scopeIndex), sc) <==> InScope(SubsOf(old(states), sid), sc) != {};
      }
      TopicsStayMirrored(old(topicIndex), topicIndex, sid, old(states), states);
      ScopesStayMirrored(old(scopeIndex), scopeIndex, sid, old(states), states);
    }
  }

  datatype ConnState = Connected | Handshaked | Authed | Joined | Active | Closing

  /** What the registry knows of a session: its primary topic and its connection state. */
  datatype SessionContext = SessionContext(scope: ScopeId, topic: TopicId, state: ConnState)

  ghost predicate NoDuplicates(s: seq<SessionId>) {
    forall i, j :: 0 <= i < j < |s| ==> s[i] != s[j]
  }

  datatype RegistryOp =
    | AddSession(sid: SessionId, w: ScopeId, c: TopicId)
    | RemoveSession(sid: SessionId)
    | SubscribeTo(sid: SessionId, w: ScopeId, c: TopicId)
    | UnsubscribeFrom(sid: SessionId, w: ScopeId, c: TopicId)
    | UnsubscribeFromAll(sid: SessionId)
    | MakePrimary(sid: SessionId, w: ScopeId, c: TopicId)
    | MoveTo(sid: SessionId, w: ScopeId, c: TopicId)
    | ChangeState(sid: SessionId, state: ConnState)

  /** An operation that does not register a session with half a topic. */
  predicate Balanced(op: RegistryOp) {
    op.AddSession? ==> (op.w == 0 <==> op.c == 0)
  }

  /** The reference: the registered sessions, and who subscribes to what, as one plain relation. */
  datatype Relation = Relation(live: set<SessionId>, pairs: set<(SessionId, TopicKey)>)

  function Without(pairs: set<(SessionId, TopicKey)>, sid: SessionId): set<(SessionId, TopicKey)> {
    set p | p in pairs && p.0 != sid
  }

  function Joined(sid: SessionId, w: ScopeId, c: TopicId): set<(SessionId, TopicKey)> {
    if w != 0 && c != 0 then {(sid, TopicKey(w, c))} else {}
  }

  function Apply(rel: Relation, op: RegistryOp): Relation {
    match op
    case AddSession(sid, w, c) => Relation(rel.live + {sid}, rel.pairs + Joined(sid, w, c))
    case RemoveSession(sid) => Relation(rel.live - {sid}, Without(rel.pairs, sid))
    case SubscribeTo(sid, w, c) => if sid in rel.live then rel.(pairs := rel.pairs + {(sid, TopicKey(w, c))}) else rel
    case UnsubscribeFrom(sid, w, c) => rel.(pairs := rel.pairs - {(sid, TopicKey(w, c))})
    case UnsubscribeFromAll(sid) => rel.(pairs := Without(rel.pairs, sid))
    case MakePrimary(_, _, _) => rel
    case ChangeState(_, _) => rel
    case MoveTo(sid, w, c) =>
      if sid in rel.live then rel.(pairs := Without(rel.pairs, sid) + Joined(sid, w, c)) else rel
  }

  /** An operation changes nothing about other sessions. */
  lemma ApplyLocal(rel: Relation, op: RegistryOp)
    ensures forall s: SessionId, k: TopicKey :: s != op.sid ==>
              ((s, k) in Apply(rel, op).pairs <==> (s, k) in rel.pairs)
  {
  }

  function ApplyAll(ops: seq<RegistryOp>): Relation {
    if ops == [] then Relation({}, {}) else Apply(ApplyAll(ops[..|ops| - 1]), ops[|ops| - 1])
  }

  type Records = map<SessionId, SessionContext>

  /** What an operation does to the records, given the relation before it. */
  function Recorded(records: Records, rel: Relation, op: RegistryOp): Records {
    var sid := op.sid;
    match op
    case AddSession(_, w, c) => records[sid := SessionContext(w, c, Connected)]
    case RemoveSession(_) => records - {sid}
    case SubscribeTo(_, _, _) => records
    case UnsubscribeFrom(_, w, c) =>
      if sid in records && (sid, TopicKey(w, c)) in rel.pairs
         && (IsPrimary(records, sid, TopicKey(w, c)) || Topics(Apply(rel, op), sid) == {})
      then WithPrimary(records, sid, 0, 0) else records
    case UnsubscribeFromAll(_) => WithPrimary(records, sid, 0, 0)
    case MakePrimary(_, w, c) =>
      if (w == 0 && c == 0) || (sid, TopicKey(w, c)) in rel.pairs then WithPrimary(records, sid, w, c) else records
    case ChangeState(_, st) => if sid in records then records[sid := records[sid].(state := st)] else records
    case MoveTo(_, w, c) =>
      if w != 0 && c != 0 then WithPrimary(records, sid, w, c) else WithPrimary(records, sid, 0, 0)
  }

  function WithPrimary(records: Records, sid: SessionId, w: ScopeId, c: TopicId): Records {
    if sid in records then records[sid := records[sid].(scope := w, topic := c)] else records
  }

  /** The topics a session is related to. */
  function Topics(rel: Relation, sid: SessionId): set<TopicKey> {
    set p | p in rel.pairs && p.0 == sid :: p.1
  }

  lemma TopicsAre(rel: Relation, op: RegistryOp, topics: set<TopicKey>)
    requires forall k: TopicKey :: (op.sid, k) in Apply(rel, op).pairs <==> k in topics
    ensures Topics(Apply(rel, op), op.sid) == topics
  {
    forall k: TopicKey
      ensures k in Topics(Apply(rel, op), op.sid) <==> k in topics
    {
      assert k in topics ==> (op.sid, k).0 == op.sid;
    }
  }

  function RecordedAll(ops: seq<RegistryOp>): Records {
    if ops == [] then map[]
    else
      var before := ops[..|ops| - 1];
      Recorded(RecordedAll(before), ApplyAll(before), ops[|ops| - 1])
  }

  predicate IsPrimary(records: Records, sid: SessionId, key: TopicKey) {
    sid in records && records[sid].scope == key.scope && records[sid].topic == key.topic
  }

  class SessionRegistry {
    var records: map<SessionId, SessionContext>
    const subs: SubscriptionIndex

    constructor ()
      ensures Valid() && fresh(subs) && records == map[]
    {
      records := map[];
      subs := new SubscriptionIndex();
    }

    /** Only registered sessions have subscriptions, and the indexes mirror them. */
    ghost predicate Valid()
      reads this, subs
    {
      subs.Valid() && forall s :: subs.Subs(s) != {} ==> s in records
    }

    /** The primary topic of a session is unset or one it subscribes to. */
    ghost predicate PrimaryHeld(sid: SessionId)
      reads this, subs
    {
      sid in records ==>
        var c := records[sid];
        (c.scope == 0 && c.topic == 0) || TopicKey(c.scope, c.topic) in subs.Subs(sid)
    }

    ghost predicate PrimariesHeld()
      reads this, subs
    {
      forall s :: s in records ==> PrimaryHeld(s)
    }

    /** Everything about sessions other than `sid` is as in `was`. */
    twostate predicate OthersKept(sid: SessionId)
      reads this, subs
    {
      && (forall s :: s != sid ==> subs.Subs(s) == old(subs.Subs(s)))
      && records - {sid} == old(records) - {sid}
    }

    method Add(sid: SessionId, w: ScopeId, c: TopicId)
      requires Valid()
      modifies this, subs
      ensures Valid() && OthersKept(sid)
      ensures records == old(records)[sid := SessionContext(w, c, Connected)]
      ensures subs.Subs(sid) == old(subs.Subs(sid)) + if w != 0 && c != 0 then {TopicKey(w, c)} else {}
      ensures PrimaryHeld(sid) <==> (w == 0 <==> c == 0) || TopicKey(w, c) in old(subs.Subs(sid))
    {
      hide SubscriptionIndex.Valid;
      records := records[sid := SessionContext(w, c, Connected)];
      if w != 0 && c != 0 {
        var _ := Subscribe(sid, w, c);
      }
    }

    method Remove(sid: SessionId)
      requires Valid()
      modifies this, subs
      ensures Valid() && OthersKept(sid)
      ensures records == old(records) - {sid} && subs.Subs(sid) == {}
    {
      hide SubscriptionIndex.Valid;
      if sid !in records {
        return;
      }
      subs.ClearAll(sid);
      records := records - {sid};
    }

    method SetState(sid: SessionId, st: ConnState)
      requires Valid()
      modifies this
      ensures Valid() && OthersKept(sid)
      ensures subs.Subs(sid) == old(subs.Subs(sid))
      ensures records == if sid in old(records) then old(records)[sid := old(records)[sid].(state := st)]
                else old(records)
    {
      hide SubscriptionIndex.Valid;
      if sid !in records {
        return;
      }
      records := records[sid := records[sid].(state := st)];
    }

    method Subscribe(sid: SessionId, w: ScopeId, c: TopicId) returns (added: bool)
      requires Valid()
      modifies subs
      ensures Valid() && OthersKept(sid)
      ensures added <==> sid in records && TopicKey(w, c) !in old(subs.Subs(sid))
      ensures subs.Subs(sid) == old(subs.Subs(sid)) + if sid in records then {TopicKey(w, c)} else {}
      ensures old(PrimaryHeld(sid)) ==> PrimaryHeld(sid)
    {
      hide SubscriptionIndex.Valid;
      if sid !in records {
        return false;
      }
      added := subs.Subscribe(sid, w, c);
    }

    method Unsubscribe(sid: SessionId, w: ScopeId, c: TopicId) returns (removed: bool)
      requires Valid()
      modifies this, subs
      ensures Valid() && OthersKept(sid)
      ensures removed <==> TopicKey(w, c) in old(subs.Subs(sid))
      ensures subs.Subs(sid) == old(subs.Subs(sid)) - {TopicKey(w, c)}
      ensures records ==
              if removed && (subs.Subs(sid) == {} || IsPrimary(old(records), sid, TopicKey(w, c)))
              then old(records)[sid := old(records)[sid].(scope := 0, topic := 0)]
              else old(records)
      ensures old(PrimaryHeld(sid)) ==> PrimaryHeld(sid)
    {
      hide SubscriptionIndex.Valid;
      if sid !in records {
        return false;
      }
      removed := subs.Unsubscribe(sid, w, c);
      if !removed {
        return;
      }
      if records[sid].scope == w && records[sid].topic == c {
        records := records[sid := records[sid].(scope := 0, topic := 0)];
      }
      if subs.Subs(sid) == {} {
        records := records[sid := records[sid].(scope := 0, topic := 0)];
      }
    }

    method UnsubscribeAll(sid: SessionId) returns (found: bool)
      requires Valid()
      modifies this, subs
      ensures Valid() && OthersKept(sid)
      ensures found <==> sid in old(records)
      ensures subs.Subs(sid) == {}
      ensures records == if found then old(records)[sid := old(records)[sid].(scope := 0, topic := 0)] else old(records)
    {
      hide SubscriptionIndex.Valid;
      if sid !in records {
        return false;
      }
      subs.ClearAll(sid);
      records := records[sid := records[sid].(scope := 0, topic := 0)];
      return true;
    }

    method SetPrimaryTopic(sid: SessionId, w: ScopeId, c: TopicId) returns (ok: bool)
      requires Valid()
      modifies this
      ensures Valid() && OthersKept(sid)
      ensures subs.Subs(sid) == old(subs.Subs(sid))
      ensures ok <==> sid in old(records) && ((w == 0 && c == 0) || TopicKey(w, c) in subs.Subs(sid))
      ensures records == if ok then old(records)[sid := old(records)[sid].(scope := w, topic := c)] else old(records)
      ensures ok ==> PrimaryHeld(sid)
    {
      hide SubscriptionIndex.Valid;
      if sid !in records {
        return false;
      }
      if w == 0 && c == 0 {
        records := records[sid := records[sid].(scope := 0, topic := 0)];
        return true;
      }
      if TopicKey(w, c) !in subs.Subs(sid) {
        return false;
      }
      records := records[sid := records[sid].(scope := w, topic := c)];
      return true;
    }

    method MoveToTopic(sid: SessionId, newW: ScopeId, newC: TopicId) returns (found: bool, oldW: ScopeId, oldC: TopicId)
      requires Valid()
      modifies this, subs
      ensures Valid() && OthersKept(sid)
      ensures found <==> sid in old(records)
      ensures !found ==> records == old(records) && subs.Subs(sid) == old(subs.Subs(sid))
      ensures found ==>
                && oldW == old(records[sid].scope) && oldC == old(records[sid].topic)
                && subs.Subs(sid) == (if newW != 0 && newC != 0 then {TopicKey(newW, newC)} else {})
                && records == old(records)[sid := if newW != 0 && newC != 0
                                                  then old(records[sid]).(scope := newW, topic := newC)
                                                  else old(records[sid]).(scope := 0, topic := 0)]
                && PrimaryHeld(sid)
    {
      hide SubscriptionIndex.Valid;
      if sid !in records {
        return false, 0, 0;
      }
      oldW, oldC := records[sid].scope, records[sid].topic;
      subs.ClearAll(sid);
      records := records[sid := records[sid].(scope := 0, topic := 0)];
      if newW != 0 && newC != 0 {
        var _ := Subscribe(sid, newW, newC);
        var _ := SetPrimaryTopic(sid, newW, newC);
      }
      found := true;
    }

    /** The registered, valid sessions among `members`, each once, without `except`. */
    method Collect(members: set<SessionId>, except: SessionId) returns (out: seq<SessionId>)
      ensures NoDuplicates(out)
      ensures forall s :: s in out <==> s in members && s != except && s in records && s != 0
    {
      out := [];
      var todo := members;
      while todo != {}
        invariant todo <= members && NoDuplicates(out)
        invariant forall s :: s in out <==> s in members - todo && s != except && s in records && s != 0
        decreases todo
      {
        var sid :| sid in todo;
        todo := todo - {sid};
        if sid != except && sid in records && sid != 0 {
          assert sid !in out;
          out := out + [sid];
        }
      }
    }

    method SnapshotAll(except: SessionId) returns (out: seq<SessionId>)
      requires Valid()
      ensures NoDuplicates(out)
      ensures forall s :: s in out <==> s in records && s != except && s != 0
    {
      out := Collect(records.Keys, except);
    }

    /** Exactly the valid sessions with a subscription in scope `w`, each once, without `except`. */
    method SnapshotScope(w: ScopeId, except: SessionId) returns (out: seq<SessionId>)
      requires Valid()
      ensures NoDuplicates(out)
      ensures forall s :: s in out <==> InScope(subs.Subs(s), w) != {} && s != except && s != 0
    {
      ScopeMembersRegistered(w);
      if w !in subs.scopeIndex {
        return [];
      }
      out := Collect(subs.scopeIndex[w], except);
    }

    lemma ScopeMembersRegistered(w: ScopeId)
      requires Valid()
      ensures forall s :: InScope(subs.Subs(s), w) != {} <==> s in Members(subs.scopeIndex, w)
      ensures forall s :: s in Members(subs.scopeIndex, w) ==> s in records
    {
      forall s
        ensures InScope(subs.Subs(s), w) != {} <==> s in Members(subs.scopeIndex, w)
        ensures s in Members(subs.scopeIndex, w) ==> s in records
      {
        assert s in Members(subs.scopeIndex, w) <==> InScope(SubsOf(subs.states, s), w) != {};
        if InScope(subs.Subs(s), w) != {} {
          var k :| k in InScope(subs.Subs(s), w);
          assert subs.Subs(s) != {};
        }
      }
    }

    /** Exactly the valid sessions subscribed to the topic, each once, without `except`. */
    method SnapshotTopic(w: ScopeId, c: TopicId, except: SessionId) returns (out: seq<SessionId>)
      requires Valid()
      ensures NoDuplicates(out)
      ensures forall s :: s in out <==> TopicKey(w, c) in subs.Subs(s) && s != except && s != 0
    {
      var key := TopicKey(w, c);
      assert forall s :: key in subs.Subs(s) ==> s in records;
      assert forall s :: s in Members(subs.topicIndex, key) <==> key in subs.Subs(s);
      if key !in subs.topicIndex {
        return [];
      }
      out := Collect(subs.topicIndex[key], except);
    }

    /** The registry holds exactly the reference relation. */
    ghost predicate Represents(rel: Relation)
      reads this, subs
    {
      && Valid() && rel.live == records.Keys
      && forall s: SessionId, k: TopicKey :: (s, k) in rel.pairs <==> k in subs.Subs(s)
    }

    twostate lemma OthersStayHeld(sid: SessionId)
      requires OthersKept(sid)
      ensures old(PrimariesHeld()) ==> forall s :: s in records && s != sid ==> PrimaryHeld(s)
    {
      if old(PrimariesHeld()) {
        forall s | s in records && s != sid
          ensures PrimaryHeld(s)
        {
          assert s in records - {sid} && (records - {sid})[s] == records[s];
          assert old(s in records ==> PrimaryHeld(s));
          assert (old(records) - {sid})[s] == old(records)[s];
        }
      }
    }

    /** Carries out one operation; what it does to its own session is what the reference does. */
    method Execute(op: RegistryOp, ghost rel: Relation)
      requires Represents(rel)
      modifies this, subs
      ensures Valid() && OthersKept(op.sid)
      ensures records.Keys == Apply(rel, op).live
      ensures forall k: TopicKey :: (op.sid, k) in Apply(rel, op).pairs <==> k in subs.Subs(op.sid)
      ensures old(PrimaryHeld(op.sid)) && Balanced(op) ==> PrimaryHeld(op.sid)
      ensures records == Recorded(old(records), rel, op)
    {
      hide SubscriptionIndex.Valid;
      match op
      case AddSession(sid, w, c) =>
        Add(sid, w, c);
      case RemoveSession(sid) =>
        Remove(sid);
      case SubscribeTo(sid, w, c) =>
        var _ := Subscribe(sid, w, c);
      case UnsubscribeFrom(sid, w, c) =>
        var _ := Unsubscribe(sid, w, c);
        assert Topics(Apply(rel, op), sid) == {} <==> subs.Subs(sid) == {} by { TopicsAre(rel, op, subs.Subs(sid)); }
      case UnsubscribeFromAll(sid) =>
        var _ := UnsubscribeAll(sid);
      case MakePrimary(sid, w, c) =>
        var _ := SetPrimaryTopic(sid, w, c);
      case MoveTo(sid, w, c) =>
        var _, _, _ := MoveToTopic(sid, w, c);
      case ChangeState(sid, st) =>
        SetState(sid, st);
    }

    method Perform(op: RegistryOp, ghost rel: Relation)
      requires Represents(rel)
      modifies this, subs
      ensures Represents(Apply(rel, op)) && records == Recorded(old(records), rel, op)
      ensures old(PrimariesHeld()) && Balanced(op) ==> PrimariesHeld()
    {
      ApplyLocal(rel, op);
      Execute(op, rel);
      OthersStayHeld(op.sid);
      hide SubscriptionIndex.Valid; hide Apply; hide Recorded;
      forall s: SessionId, k: TopicKey
        ensures (s, k) in Apply(rel, op).pairs <==> k in subs.Subs(s)
      {
        if s != op.sid {
          assert subs.Subs(s) == old(subs.Subs(s));
        }
      }
    }

    lemma IndexesList(rel: Relation)
      requires Represents(rel)
      ensures forall k: TopicKey, s: SessionId :: s in Members(subs.topicIndex, k) <==> (s, k) in rel.pairs
      ensures NoEmptyEntry(subs.topicIndex) && NoEmptyEntry(subs.scopeIndex)
    {
      forall k: TopicKey, s: SessionId
        ensures s in Members(subs.topicIndex, k) <==> (s, k) in rel.pairs
      {
        assert s in Members(subs.topicIndex, k) <==> k in SubsOf(subs.states, s);
        assert k in subs.Subs(s) <==> (s, k) in rel.pairs;
      }
    }

    /** After any run, both indexes list exactly what the reference relation implies. */
    method Run(ops: seq<RegistryOp>)
      requires Represents(Relation({}, {}))
      modifies this, subs
      ensures Represents(ApplyAll(ops)) && records == RecordedAll(ops)
      ensures (forall i :: 0 <= i < |ops| ==> Balanced(ops[i])) ==> PrimariesHeld()
      ensures forall k: TopicKey, s: SessionId :: s in Members(subs.topicIndex, k) <==> (s, k) in ApplyAll(ops).pairs
      ensures NoEmptyEntry(subs.topicIndex) && NoEmptyEntry(subs.scopeIndex)
    {
      hide Apply; hide SubscriptionIndex.Valid; hide Recorded;
      for i := 0 to |ops|
        invariant Represents(ApplyAll(ops[..i])) && records == RecordedAll(ops[..i])
        invariant (forall j :: 0 <= j < i ==> Balanced(ops[j])) ==> PrimariesHeld()
      {
        assert ops[..i + 1][..i] == ops[..i];
        Perform(ops[i], ApplyAll(ops[..i]));
      }
      assert ops[..|ops|] == ops;
      IndexesList(ApplyAll(ops));
    }
  }
}

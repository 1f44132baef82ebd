/**
 One worker's tables: live sessions, fd registrations, registry records, the connection gauge and
 outbound dials. Application callbacks run inside the operations and may close sessions or dial
 again before the operation that called them has finished.

 What the kernel and the application answer is read from finite scripts; an exhausted script
 answers with success, or with no further action.
 */
module Workers {
  import opened Wrappers

  /** The handler behind a registered fd. */
  datatype Handler = OfSession(id: nat) | OfDial(dial: nat) | OfAcceptor | OfWakeup

  datatype Dial = Dial(attempt: nat, sock: Option<nat>, registered: bool, completed: bool, retryOnce: bool,
                      timeoutMs: nat)

  datatype Timer = Retry(dial: nat) | Timeout(dial: nat, attempt: nat)

  /** A dial callback: which dial, and the session it was given, if any. */
  datatype Called = Called(dial: nat, session: Option<nat>)

  /** What application code asks for. */
  datatype Act = CloseOne(id: nat) | CloseAll | DialTcp(valid: bool, retryOnce: bool, timeoutMs: nat)

  datatype State = State(
    sessions: Sessions,
    contexts: Contexts,
    open: set<nat>,
    registry: set<nat>,
    gauge: int,
    localCounter: nat,
    dials: Dials,
    nextDialId: nat,
    timers: multiset<Timer>,
    callbacks: seq<Called>,
    // dials refused for an unusable address
    rejected: nat,
    // sessions whose start callback, and whose end callback, has been called
    begun: set<nat>,
    gone: set<nat>,
    // sessions whose end callback is running
    ending: set<nat>,
    // completed dials whose callback is still to be called
    finishing: set<nat>,
    // dials given up by a shutdown
    dropped: set<nat>,
    // what the application will do in its next callbacks
    script: seq<seq<Act>>,
    // sessions that something in the current loop step has asked to close
    excused: iset<nat>)

  // ------------------------------------------------------------- the invariant

  type Sessions = map<nat, nat>
  type Contexts = map<nat, Handler>
  type Dials = map<nat, Dial>

  /** The handler is alive and registered under this fd. */
  ghost predicate Live(h: Handler, fd: nat, sessions: Sessions, dials: Dials) {
    match h
    case OfSession(id) => id in sessions && sessions[id] == fd
    case OfDial(d) => d in dials && dials[d].sock == Some(fd) && dials[d].registered
    case OfAcceptor => true
    case OfWakeup => true
  }

  ghost predicate SessionsLinked(sessions: Sessions, contexts: Contexts) {
    forall id :: id in sessions ==> sessions[id] in contexts && contexts[sessions[id]] == OfSession(id)
  }

  ghost predicate ContextsLive(contexts: Contexts, open: set<nat>, sessions: Sessions, dials: Dials) {
    forall fd :: fd in contexts ==> fd in open && Live(contexts[fd], fd, sessions, dials)
  }

  /** A session is in the table from its start callback to its end callback. */
  ghost predicate Tabled(sessions: Sessions, gauge: int, localCounter: nat, begun: set<nat>, gone: set<nat>) {
    && sessions.Keys == begun - gone
    && gone <= begun
    && gauge == |sessions|
    && 0 < localCounter
    && forall id :: id in begun ==> 0 < id < localCounter
  }

  /** It is in the registry until its end callback has returned. */
  ghost predicate Recorded(sessions: Sessions, registry: set<nat>, ending: set<nat>, gone: set<nat>) {
    && registry == sessions.Keys + ending
    && ending <= gone
    && sessions.Keys !! ending
  }

  ghost predicate RecordsAgree(sessions: Sessions, registry: set<nat>, ending: set<nat>, gauge: int,
                      localCounter: nat, begun: set<nat>, gone: set<nat>) {
    Tabled(sessions, gauge, localCounter, begun, gone) && Recorded(sessions, registry, ending, gone)
  }

  ghost predicate Linked(x: Dial, d: nat, contexts: Contexts) {
    && x.registered == x.sock.Some?
    && (x.sock.Some? ==> x.sock.value in contexts && contexts[x.sock.value] == OfDial(d))
    && (x.completed ==> x.sock.None?)
  }

  ghost predicate DialsLinked(dials: Dials, contexts: Contexts) {
    forall d :: d in dials ==> Linked(dials[d], d, contexts)
  }

  /** Something will still happen to the dial. */
  ghost predicate Waiting(x: Dial, d: nat, timers: multiset<Timer>) {
    || x.completed
    || Retry(d) in timers
    || (x.registered && (x.timeoutMs > 0 ==> Timeout(d, x.attempt) in timers))
  }

  ghost predicate DialsWait(dials: Dials, timers: multiset<Timer>) {
    forall d :: d in dials ==> Waiting(dials[d], d, timers)
  }

  /** The dial being worked on: it may hold a socket that is not registered yet. */
  ghost predicate Loose(x: Dial, d: nat, contexts: Contexts, open: set<nat>) {
    && (x.registered ==> Linked(x, d, contexts))
    && (x.completed ==> x.sock.None? && !x.registered)
    && (x.sock.Some? && !x.registered ==> x.sock.value in open && x.sock.value !in contexts)
  }

  function Calls(callbacks: seq<Called>, d: nat): nat {
    if callbacks == [] then 0
    else Calls(callbacks[..|callbacks| - 1], d) + if callbacks[|callbacks| - 1].dial == d then 1 else 0
  }

  /** The dial is pending and on this attempt. */
  predicate Current(dials: Dials, d: nat, n: nat) {
    Dialling(dials, d) && dials[d].attempt == n
  }

  predicate Dialling(dials: Dials, d: nat) {
    d in dials && !dials[d].completed
  }

  /** No callback yet: still dialling, finishing, dropped by a shutdown, or not started. */
  ghost predicate Silent(d: nat, dials: Dials, finishing: set<nat>, dropped: set<nat>, nextDialId: nat) {
    || (d in dials && !dials[d].completed)
    || d in finishing
    || d in dropped
    || d == 0 || d >= nextDialId
  }

  /** Every dial started has had its callback exactly once, or is silent for one of the stated reasons. */
  ghost predicate CallsAgree(callbacks: seq<Called>, dials: Dials, finishing: set<nat>, dropped: set<nat>,
                      nextDialId: nat) {
    && (forall d: nat :: Calls(callbacks, d) == if Silent(d, dials, finishing, dropped, nextDialId) then 0 else 1)
    && 0 < nextDialId
    && (forall d :: d in dials ==> 0 < d < nextDialId && d !in dropped)
    && (forall d :: d in finishing ==> d in dials && dials[d].completed)
    && (forall d :: d in dropped ==> 0 < d < nextDialId)
  }

  /** A dial's callback is given only sessions that have started. */
  ghost predicate Announces(callbacks: seq<Called>, begun: set<nat>) {
    forall i :: 0 <= i < |callbacks| && callbacks[i].session.Some? ==> callbacks[i].session.value in begun
  }

  ghost predicate Core(s: State) {
    && SessionsLinked(s.sessions, s.contexts)
    && ContextsLive(s.contexts, s.open, s.sessions, s.dials)
    && RecordsAgree(s.sessions, s.registry, s.ending, s.gauge, s.localCounter, s.begun, s.gone)
    && CallsAgree(s.callbacks, s.dials, s.finishing, s.dropped, s.nextDialId)
    && Announces(s.callbacks, s.begun)
  }

  ghost predicate Inv(s: State) {
    Core(s) && DialsLinked(s.dials, s.contexts) && DialsWait(s.dials, s.timers)
  }

  /** The invariant, with dial `x` in the middle of an operation. */
  ghost predicate InvBut(s: State, x: nat) {
    && Core(s)
    && DialsLinked(s.dials - {x}, s.contexts) && DialsWait(s.dials - {x}, s.timers)
    && (x in s.dials ==> Loose(s.dials[x], x, s.contexts, s.open))
  }

  /** Fds that are open without being registered. */
  ghost function Leaked(s: State): set<nat> {
    s.open - s.contexts.Keys
  }

  function SockOf(dials: Dials, d: nat): set<nat> {
    if d in dials && dials[d].sock.Some? then {dials[d].sock.value} else {}
  }

  /** These dials are still there, as they were. */
  ghost predicate Untouched(dials: Dials, dials': Dials) {
    forall d :: d in dials ==> d in dials' && dials'[d] == dials[d]
  }

  /** The actions ask for a session's close. */
  predicate Asks(acts: seq<Act>, id: nat) {
    exists i :: 0 <= i < |acts| && acts[i] in {CloseOne(id), CloseAll}
  }

  ghost function AskedBy(acts: seq<Act>): iset<nat> {
    iset id: nat | Asks(acts, id)
  }

  /** What is left of a script after some callbacks. */
  predicate Used(script: seq<seq<Act>>, rest: seq<seq<Act>>) {
    |rest| <= |script| && script[|script| - |rest|..] == rest
  }

  /** One of the callbacks run until only `rest` was left asks for it. */
  predicate AskedIn(script: seq<seq<Act>>, rest: seq<seq<Act>>, id: nat) {
    exists i :: 0 <= i < |script| - |rest| && Asks(script[i], id)
  }

  /** Every session that ended was asked to, by something asked before or by a callback run meanwhile. */
  ghost predicate Excuses(s: State, t: State) {
    && Used(s.script, t.script)
    && s.excused <= t.excused
    && (forall id: nat :: id in t.excused ==> id in s.excused || AskedIn(s.script, t.script, id))
    && (forall id :: id in t.gone ==> id in s.gone || id in t.excused)
  }

  lemma UsedTrans(s: seq<seq<Act>>, t: seq<seq<Act>>, u: seq<seq<Act>>)
    requires Used(s, t) && Used(t, u)
    ensures Used(s, u)
    ensures forall id :: AskedIn(s, t, id) || AskedIn(t, u, id) ==> AskedIn(s, u, id)
  {
    hide Asks;
    var a, b := |s| - |t|, |t| - |u|;
    assert s[a..][b..] == s[a + b..];
    forall id | AskedIn(t, u, id)
      ensures AskedIn(s, u, id)
    {
      var i :| 0 <= i < b && Asks(t[i], id);
      assert s[a + i] == t[i];
    }
  }

  lemma ExcusesTrans(s: State, t: State, u: State)
    requires Excuses(s, t) && Excuses(t, u)
    ensures Excuses(s, u)
  {
    hide AskedIn; hide Used;
    UsedTrans(s.script, t.script, u.script);
  }

  /** How many dials with a usable, or an unusable, address the actions ask for. */
  function DialsIn(acts: seq<Act>, valid: bool): nat {
    if acts == [] then 0
    else
      var last := acts[|acts| - 1];
      DialsIn(acts[..|acts| - 1], valid) + if last.DialTcp? && last.valid == valid then 1 else 0
  }

  lemma DialsInSnoc(acts: seq<Act>, i: nat, valid: bool)
    requires i < |acts|
    ensures DialsIn(acts[..i + 1], valid) ==
            DialsIn(acts[..i], valid) + if acts[i].DialTcp? && acts[i].valid == valid then 1 else 0
  {
    assert acts[..i + 1][..i] == acts[..i];
  }

  /** From `s` to `t` the actions were carried out: sessions closed, dials started, unusable addresses refused. */
  ghost predicate Carried(acts: seq<Act>, s: State, t: State) {
    && (forall id :: id in s.sessions && Asks(acts, id) ==> id !in t.sessions)
    && t.nextDialId >= s.nextDialId + DialsIn(acts, true)
    && t.rejected >= s.rejected + DialsIn(acts, false)
  }

  /** From `s` on, the application's next callback has been called. */
  ghost predicate CalledBack(s: State, t: State) {
    s.script != [] ==> |t.script| < |s.script| && Carried(s.script[0], s, t)
  }

  /** The dial was started, and is over or past its first attempt. */
  predicate PastFirst(s: State, d: nat) {
    0 < d < s.nextDialId && (d in s.dials ==> s.dials[d].attempt > 0)
  }

  /** From then on no retry of it is scheduled any more. */
  ghost predicate RetriesEnd(s: State, t: State) {
    forall d: nat :: PastFirst(s, d) ==> PastFirst(t, d) && t.timers[Retry(d)] <= s.timers[Retry(d)]
  }

  ghost predicate SettingsStay(s: State, t: State) {
    forall d :: d in s.dials && d in t.dials && d < s.nextDialId ==>
      t.dials[d].retryOnce == s.dials[d].retryOnce && t.dials[d].timeoutMs == s.dials[d].timeoutMs
  }

  /** What any operation leaves in place for the callers below it on the stack. */
  ghost predicate Forward(s: State, t: State) {
    && s.callbacks <= t.callbacks
    && s.localCounter <= t.localCounter && s.nextDialId <= t.nextDialId
    && s.begun <= t.begun && s.gone <= t.gone && s.rejected <= t.rejected
    && t.ending == s.ending && t.finishing == s.finishing && t.dropped == s.dropped
    && Excuses(s, t) && RetriesEnd(s, t) && SettingsStay(s, t)
    && (forall id :: id in t.sessions ==> id in s.sessions || id >= s.localCounter)
    && (forall d :: d in s.dials && s.dials[d].completed ==> d in t.dials && t.dials[d] == s.dials[d])
    && (forall d :: d in t.dials ==>
                      if d in s.dials then t.dials[d].completed == s.dials[d].completed
                      else d >= s.nextDialId && !t.dials[d].completed)
  }

  lemma ForwardTrans(s: State, t: State, u: State)
    requires Forward(s, t) && Forward(t, u)
    ensures Forward(s, u)
  {
    hide Excuses;
    ExcusesTrans(s, t, u);
  }

  // ------------------------------------------------------------- sessions

  /** A session's fd is unregistered and closed, its table entry erased; its end callback is about to run. */
  function Closed(s: State, id: nat): State
    requires id in s.sessions
  {
    var fd := s.sessions[id];
    s.(contexts := s.contexts - {fd}, open := s.open - {fd}, sessions := s.sessions - {id},
       gauge := s.gauge - 1, gone := s.gone + {id}, ending := s.ending + {id})
  }

  /** Unregistering the fd of a session breaks no other link. */
  lemma SessionUnlinked(sessions: Sessions, contexts: Contexts, open: set<nat>, dials: Dials, id: nat)
    requires SessionsLinked(sessions, contexts) && ContextsLive(contexts, open, sessions, dials)
    requires DialsLinked(dials, contexts)
    requires id in sessions
    ensures var fd := sessions[id];
            && SessionsLinked(sessions - {id}, contexts - {fd})
            && ContextsLive(contexts - {fd}, open - {fd}, sessions - {id}, dials)
            && DialsLinked(dials, contexts - {fd})
  {
  }

  lemma RecordClosed(sessions: Sessions, registry: set<nat>, ending: set<nat>, gauge: int, localCounter: nat,
                     begun: set<nat>, gone: set<nat>, id: nat)
    requires RecordsAgree(sessions, registry, ending, gauge, localCounter, begun, gone) && id in sessions
    ensures RecordsAgree(sessions - {id}, registry, ending + {id}, gauge - 1, localCounter, begun, gone + {id})
  {
    var rest := sessions - {id};
    assert rest.Keys == sessions.Keys - {id};
    assert |rest| == |rest.Keys| && |sessions| == |sessions.Keys|;
  }

  lemma RecordOpened(sessions: Sessions, registry: set<nat>, ending: set<nat>, gauge: int, begun: set<nat>,
                     gone: set<nat>, id: nat, fd: nat)
    requires RecordsAgree(sessions, registry, ending, gauge, id, begun, gone)
    ensures RecordsAgree(sessions[id := fd], registry + {id}, ending, gauge + 1, id + 1, begun + {id}, gone)
  {
    hide Tabled; hide Recorded;
    TabledOpened(sessions, gauge, begun, gone, id, fd);
    RecordedOpened(sessions, registry, ending, gone, id, fd);
  }

  lemma TabledOpened(sessions: Sessions, gauge: int, begun: set<nat>, gone: set<nat>, id: nat, fd: nat)
    requires Tabled(sessions, gauge, id, begun, gone)
    ensures Tabled(sessions[id := fd], gauge + 1, id + 1, begun + {id}, gone)
    ensures id !in gone && id !in sessions
  {
    assert id !in begun;
    assert id !in sessions.Keys;
    OneMore(sessions, id, fd);
  }

  lemma RecordedOpened(sessions: Sessions, registry: set<nat>, ending: set<nat>, gone: set<nat>, id: nat, fd: nat)
    requires Recorded(sessions, registry, ending, gone) && id !in gone && id !in sessions
    ensures Recorded(sessions[id := fd], registry + {id}, ending, gone)
  {
    OneMore(sessions, id, fd);
  }

  lemma OneMore(sessions: Sessions, id: nat, fd: nat)
    requires id !in sessions
    ensures sessions[id := fd].Keys == sessions.Keys + {id}
    ensures |sessions[id := fd]| == |sessions| + 1
  {
    var more := sessions[id := fd];
    assert more.Keys == sessions.Keys + {id};
    assert |more| == |more.Keys| && |sessions| == |sessions.Keys|;
  }

  lemma ClosedKeeps(s: State, id: nat)
    requires Inv(s) && id in s.sessions
    ensures Inv(Closed(s, id)) && Leaked(Closed(s, id)) <= Leaked(s)
  {
    hide SessionsLinked; hide ContextsLive; hide DialsLinked; hide RecordsAgree; hide CallsAgree; hide DialsWait;
    SessionUnlinked(s.sessions, s.contexts, s.open, s.dials, id);
    RecordClosed(s.sessions, s.registry, s.ending, s.gauge, s.localCounter, s.begun, s.gone, id);
  }

  function Ended(s: State, id: nat): State {
    s.(registry := s.registry - {id}, ending := s.ending - {id})
  }

  lemma EndedKeeps(s: State, id: nat)
    requires Inv(s) && id in s.ending
    ensures Inv(Ended(s, id))
  {
    hide SessionsLinked; hide ContextsLive; hide DialsLinked; hide CallsAgree; hide DialsWait;
  }

  /** A new session takes over an fd that nothing is registered under. */
  function Opened(s: State, fd: nat): State {
    var id := s.localCounter;
    s.(contexts := s.contexts[fd := OfSession(id)], sessions := s.sessions[id := fd],
       registry := s.registry + {id}, gauge := s.gauge + 1, begun := s.begun + {id}, localCounter := id + 1)
  }

  /** A socket that could not be made a session is closed, and an id is spent on it. */
  function Refused(s: State, fd: nat): State {
    s.(open := s.open - {fd}, localCounter := s.localCounter + 1)
  }

  lemma SessionLinked(sessions: Sessions, contexts: Contexts, open: set<nat>, dials: Dials, id: nat, fd: nat)
    requires SessionsLinked(sessions, contexts) && ContextsLive(contexts, open, sessions, dials)
    requires DialsLinked(dials, contexts)
    requires id !in sessions && fd in open && fd !in contexts
    ensures SessionsLinked(sessions[id := fd], contexts[fd := OfSession(id)])
    ensures ContextsLive(contexts[fd := OfSession(id)], open, sessions[id := fd], dials)
    ensures DialsLinked(dials, contexts[fd := OfSession(id)])
  {
  }

  lemma OpenedFields(s: State, t: State, fd: nat)
    requires t == s.(contexts := t.contexts, sessions := t.sessions, registry := t.registry, gauge := t.gauge,
               begun := t.begun, localCounter := t.localCounter)
    requires t.localCounter == s.localCounter + 1 && t.gauge == s.gauge + 1
    requires t.contexts == s.contexts[fd := OfSession(s.localCounter)] && t.sessions == s.sessions[s.localCounter := fd]
    requires t.registry == s.registry + {s.localCounter} && t.begun == s.begun + {s.localCounter}
    ensures t == Opened(s, fd)
  {
  }

  lemma OpenedLinks(s: State, fd: nat)
    requires Inv(s) && fd in s.open && fd !in s.contexts
    ensures var t := Opened(s, fd);
            && SessionsLinked(t.sessions, t.contexts) && DialsLinked(t.dials, t.contexts)
            && ContextsLive(t.contexts, t.open, t.sessions, t.dials)
  {
    hide SessionsLinked; hide ContextsLive; hide DialsLinked; hide CallsAgree; hide DialsWait; hide RecordsAgree;
    FreshId(s);
    SessionLinked(s.sessions, s.contexts, s.open, s.dials, s.localCounter, fd);
  }

  lemma OpenedRecords(s: State, fd: nat)
    requires RecordsAgree(s.sessions, s.registry, s.ending, s.gauge, s.localCounter, s.begun, s.gone)
    ensures var t := Opened(s, fd);
            RecordsAgree(t.sessions, t.registry, t.ending, t.gauge, t.localCounter, t.begun, t.gone)
    ensures var t := Opened(s, fd); t.dials == s.dials && t.timers == s.timers && t.callbacks == s.callbacks
    ensures var t := Opened(s, fd); t.finishing == s.finishing && t.dropped == s.dropped && t.nextDialId == s.nextDialId
    ensures s.begun <= Opened(s, fd).begun
  {
    hide RecordsAgree;
    RecordOpened(s.sessions, s.registry, s.ending, s.gauge, s.begun, s.gone, s.localCounter, fd);
  }

  lemma OpenedLeaks(s: State, fd: nat)
    ensures Leaked(Opened(s, fd)) <= Leaked(s) - {fd}
  {
  }

  lemma OpenedKeeps(s: State, fd: nat)
    requires Inv(s) && fd in s.open && fd !in s.contexts
    ensures Inv(Opened(s, fd)) && Leaked(Opened(s, fd)) <= Leaked(s) - {fd} && Opened(s, fd).dials == s.dials
  {
    hide SessionsLinked; hide ContextsLive; hide DialsLinked; hide CallsAgree; hide DialsWait;
    hide RecordsAgree; hide Opened;
    assert Leaked(Opened(s, fd)) <= Leaked(s) - {fd} by { OpenedLeaks(s, fd); }
    OpenedLinks(s, fd);
    OpenedRecords(s, fd);
  }

  lemma FreshId(s: State)
    requires Inv(s)
    ensures s.localCounter !in s.sessions
  {
    hide SessionsLinked; hide ContextsLive; hide DialsLinked; hide CallsAgree; hide DialsWait;
    assert s.localCounter !in s.begun;
  }

  /** An fd that nothing is registered under may be closed, and a socket that fails to become a session is. */
  lemma UnusedClosed(s: State, fd: nat)
    requires Inv(s) && fd !in s.contexts
    ensures Inv(Refused(s, fd)) && Leaked(Refused(s, fd)) <= Leaked(s) - {fd}
  {
    hide SessionsLinked; hide DialsLinked; hide CallsAgree; hide DialsWait; hide Live;
  }

  // ------------------------------------------------------------- dials

  lemma InvOpens(s: State, d: nat)
    requires Inv(s)
    ensures InvBut(s, d)
  {
    hide SessionsLinked; hide CallsAgree; hide RecordsAgree; hide Waiting; hide Live;
  }

  lemma InvCloses(s: State, d: nat)
    requires InvBut(s, d)
    requires d in s.dials ==> Linked(s.dials[d], d, s.contexts) && Waiting(s.dials[d], d, s.timers)
    ensures Inv(s)
  {
    hide SessionsLinked; hide CallsAgree; hide RecordsAgree; hide Waiting; hide Linked; hide ContextsLive;
    assert forall e :: e in s.dials && e != d ==> e in s.dials - {d};
  }

  /** Changing a dial in progress, other than completing it, leaves the callback accounts alone. */
  lemma CallsSame(callbacks: seq<Called>, dials: Dials, finishing: set<nat>, dropped: set<nat>, nextDialId: nat,
                  d: nat, y: Dial)
    requires CallsAgree(callbacks, dials, finishing, dropped, nextDialId)
    requires d in dials && y.completed == dials[d].completed
    ensures CallsAgree(callbacks, dials[d := y], finishing, dropped, nextDialId)
  {
    hide Calls;
    var more := dials[d := y];
    assert forall e: nat ::
        Silent(e, dials, finishing, dropped, nextDialId) == Silent(e, more, finishing, dropped, nextDialId);
  }

  /** The fd of a dial is unregistered; the dial keeps the socket. */
  function Unregistered(s: State, d: nat): State
    requires d in s.dials && s.dials[d].sock.Some?
  {
    s.(contexts := s.contexts - {s.dials[d].sock.value}, dials := s.dials[d := s.dials[d].(registered := false)])
  }

  lemma UnregisteredKeeps(s: State, d: nat)
    requires InvBut(s, d) && d in s.dials && s.dials[d].sock.Some? && s.dials[d].registered
    ensures InvBut(Unregistered(s, d), d)
  {
    hide CallsAgree; hide DialsWait; hide RecordsAgree;
    var t := Unregistered(s, d);
    assert t.dials - {d} == s.dials - {d};
    CallsSame(s.callbacks, s.dials, s.finishing, s.dropped, s.nextDialId, d, t.dials[d]);
  }

  /** The dial lets go of a socket that is not registered, closed or handed on. */
  function Released(s: State, d: nat, open: set<nat>): State
    requires d in s.dials
  {
    s.(open := open, dials := s.dials[d := s.dials[d].(sock := None)])
  }

  lemma ReleasedKeeps(s: State, d: nat, open: set<nat>)
    requires InvBut(s, d) && d in s.dials && s.dials[d].sock.Some? && !s.dials[d].registered
    requires open == s.open || open == s.open - {s.dials[d].sock.value}
    ensures InvBut(Released(s, d, open), d)
  {
    hide CallsAgree; hide DialsWait; hide RecordsAgree; hide SessionsLinked;
    var t := Released(s, d, open);
    assert t.dials - {d} == s.dials - {d};
    CallsSame(s.callbacks, s.dials, s.finishing, s.dropped, s.nextDialId, d, t.dials[d]);
  }

  /** A new attempt, on a fresh socket if the kernel gave one. */
  function Attempting(s: State, d: nat, n: nat, sock: Option<nat>): State
    requires d in s.dials
  {
    s.(dials := s.dials[d := s.dials[d].(attempt := n, sock := sock)],
       open := if sock.Some? then s.open + {sock.value} else s.open)
  }

  lemma AttemptingKeeps(s: State, d: nat, n: nat, sock: Option<nat>)
    requires InvBut(s, d) && d in s.dials && s.dials[d].sock.None? && !s.dials[d].registered && !s.dials[d].completed
    requires sock.Some? ==> sock.value !in s.open
    ensures InvBut(Attempting(s, d, n, sock), d)
  {
    hide CallsAgree; hide DialsWait; hide RecordsAgree; hide SessionsLinked;
    var t := Attempting(s, d, n, sock);
    assert t.dials - {d} == s.dials - {d};
    CallsSame(s.callbacks, s.dials, s.finishing, s.dropped, s.nextDialId, d, t.dials[d]);
  }

  /** The dial's socket is registered with the loop. */
  function Registered(s: State, d: nat): State
    requires d in s.dials && s.dials[d].sock.Some?
  {
    var x := s.dials[d];
    s.(contexts := s.contexts[x.sock.value := OfDial(d)], dials := s.dials[d := x.(registered := true)],
       timers := if x.timeoutMs > 0 then s.timers + multiset{Timeout(d, x.attempt)} else s.timers)
  }

  lemma RegisteredLinks(s: State, d: nat)
    requires InvBut(s, d) && d in s.dials && s.dials[d].sock.Some? && !s.dials[d].registered && !s.dials[d].completed
    ensures var t := Registered(s, d);
            && SessionsLinked(t.sessions, t.contexts)
            && ContextsLive(t.contexts, t.open, t.sessions, t.dials)
            && DialsLinked(t.dials, t.contexts)
  {
    hide CallsAgree; hide DialsWait; hide RecordsAgree;
    assert forall e :: e in s.dials && e != d ==> e in s.dials - {d};
  }

  lemma RegisteredKeeps(s: State, d: nat)
    requires InvBut(s, d) && d in s.dials && s.dials[d].sock.Some? && !s.dials[d].registered && !s.dials[d].completed
    ensures Inv(Registered(s, d))
  {
    hide CallsAgree; hide DialsLinked; hide RecordsAgree; hide SessionsLinked; hide ContextsLive; hide Loose;
    var t := Registered(s, d);
    RegisteredLinks(s, d);
    CallsSame(s.callbacks, s.dials, s.finishing, s.dropped, s.nextDialId, d, t.dials[d]);
    assert forall e :: e in s.dials && e != d ==> e in s.dials - {d};
  }

  /** The dial is over; its callback is still to come. */
  function Completed(s: State, d: nat): State
    requires d in s.dials
  {
    s.(dials := s.dials[d := s.dials[d].(completed := true)], finishing := s.finishing + {d})
  }

  lemma CallsCompleted(callbacks: seq<Called>, dials: Dials, finishing: set<nat>, dropped: set<nat>, nextDialId: nat,
                      d: nat)
    requires CallsAgree(callbacks, dials, finishing, dropped, nextDialId) && d in dials && !dials[d].completed
    ensures CallsAgree(callbacks, dials[d := dials[d].(completed := true)], finishing + {d}, dropped, nextDialId)
  {
    hide Calls;
    var more := dials[d := dials[d].(completed := true)];
    assert forall e: nat ::
        Silent(e, dials, finishing, dropped, nextDialId) == Silent(e, more, finishing + {d}, dropped, nextDialId);
  }

  lemma CompletedKeeps(s: State, d: nat)
    requires InvBut(s, d) && d in s.dials && s.dials[d].sock.None? && !s.dials[d].registered && !s.dials[d].completed
    ensures Inv(Completed(s, d))
  {
    hide CallsAgree; hide RecordsAgree; hide SessionsLinked;
    var t := Completed(s, d);
    CallsCompleted(s.callbacks, s.dials, s.finishing, s.dropped, s.nextDialId, d);
    assert t.dials - {d} == s.dials - {d};
    InvCloses(t, d);
  }

  /** The callback is called. */
  function Announced(s: State, d: nat, session: Option<nat>): State {
    s.(callbacks := s.callbacks + [Called(d, session)], finishing := s.finishing - {d})
  }

  lemma CallsSnoc(callbacks: seq<Called>, c: Called, d: nat)
    ensures Calls(callbacks + [c], d) == Calls(callbacks, d) + if c.dial == d then 1 else 0
  {
    assert (callbacks + [c])[..|callbacks|] == callbacks;
  }

  lemma CallsAnnounced(callbacks: seq<Called>, dials: Dials, finishing: set<nat>, dropped: set<nat>, nextDialId: nat,
                      c: Called)
    requires CallsAgree(callbacks, dials, finishing, dropped, nextDialId) && c.dial in finishing
    ensures CallsAgree(callbacks + [c], dials, finishing - {c.dial}, dropped, nextDialId)
  {
    hide Calls;
    forall d: nat
      ensures Calls(callbacks + [c], d) == if Silent(d, dials, finishing - {c.dial}, dropped, nextDialId) then 0 else 1
    {
      CallsSnoc(callbacks, c, d);
    }
  }

  lemma AnnouncedKeeps(s: State, d: nat, session: Option<nat>)
    requires Inv(s) && d in s.finishing && (session.Some? ==> session.value in s.begun)
    ensures Inv(Announced(s, d, session))
  {
    hide CallsAgree; hide DialsLinked; hide RecordsAgree; hide SessionsLinked; hide ContextsLive; hide DialsWait;
    CallsAnnounced(s.callbacks, s.dials, s.finishing, s.dropped, s.nextDialId, Called(d, session));
  }

  lemma ErasedKeeps(s: State, d: nat)
    requires Inv(s) && d in s.dials && s.dials[d].completed && d !in s.finishing
    ensures Inv(s.(dials := s.dials - {d}))
  {
    hide RecordsAgree; hide SessionsLinked; hide Waiting; hide Calls;
    var less := s.dials - {d};
    assert forall e: nat ::
        Silent(e, s.dials, s.finishing, s.dropped, s.nextDialId) ==
            Silent(e, less, s.finishing, s.dropped, s.nextDialId);
  }

  /** A dial is entered under a new id. */
  function Started(s: State, retryOnce: bool, timeoutMs: nat): State {
    s.(dials := s.dials[s.nextDialId := Dial(0, None, false, false, retryOnce, timeoutMs)],
        nextDialId := s.nextDialId + 1)
  }

  lemma CallsStarted(callbacks: seq<Called>, dials: Dials, finishing: set<nat>, dropped: set<nat>, d: nat, x: Dial)
    requires CallsAgree(callbacks, dials, finishing, dropped, d) && !x.completed
    ensures CallsAgree(callbacks, dials[d := x], finishing, dropped, d + 1)
  {
    hide Calls;
    var more := dials[d := x];
    assert forall e: nat :: Silent(e, dials, finishing, dropped, d) == Silent(e, more, finishing, dropped, d + 1);
  }

  lemma StartedKeeps(s: State, retryOnce: bool, timeoutMs: nat)
    requires Inv(s)
    ensures InvBut(Started(s, retryOnce, timeoutMs), s.nextDialId)
  {
    hide CallsAgree; hide RecordsAgree; hide SessionsLinked;
    var d := s.nextDialId;
    var t := Started(s, retryOnce, timeoutMs);
    CallsStarted(s.callbacks, s.dials, s.finishing, s.dropped, d, t.dials[d]);
    assert d !in s.dials by { FreshDial(s); }
    assert t.dials - {d} == s.dials;
  }

  lemma FreshDial(s: State)
    requires Inv(s)
    ensures s.nextDialId !in s.dials
  {
    hide DialsLinked; hide RecordsAgree; hide SessionsLinked; hide ContextsLive; hide DialsWait;
  }

  /** Taking a timer off the wheel can only leave its own dial without one. */
  lemma TimerTaken(s: State, t: Timer)
    requires Inv(s)
    ensures InvBut(s.(timers := s.timers - multiset{t}), t.dial)
  {
    hide CallsAgree; hide RecordsAgree; hide SessionsLinked;
    InvOpens(s, t.dial);
  }

  lemma RetryAdded(s: State, d: nat)
    requires InvBut(s, d) && (d in s.dials ==> Linked(s.dials[d], d, s.contexts))
    ensures Inv(s.(timers := s.timers + multiset{Retry(d)}))
  {
    hide CallsAgree; hide RecordsAgree; hide SessionsLinked; hide ContextsLive; hide Linked;
    var t := s.(timers := s.timers + multiset{Retry(d)});
    assert DialsWait(t.dials - {d}, t.timers);
    InvCloses(t, d);
  }

  /** The dial's socket, if any, is unregistered and closed. */
  function Disconnected(s: State, d: nat): State
    requires d in s.dials
  {
    var x := s.dials[d];
    if x.sock.None? then s
    else Released(if x.registered then Unregistered(s, d) else s, d, s.open - {x.sock.value})
  }

  lemma DisconnectedKeeps(s: State, d: nat)
    requires InvBut(s, d) && d in s.dials
    ensures InvBut(Disconnected(s, d), d)
    ensures Disconnected(s, d).dials == s.dials[d := s.dials[d].(sock := None, registered := false)]
    ensures Forward(s, Disconnected(s, d))
    ensures s.dials[d].registered ==> s.dials[d].sock.Some?
  {
    hide Core; hide DialsLinked; hide DialsWait;
    var x := s.dials[d];
    if x.sock.Some? {
      if x.registered { UnregisteredKeeps(s, d); }
      var u := if x.registered then Unregistered(s, d) else s;
      ReleasedKeeps(u, d, s.open - {x.sock.value});
    }
  }

  // ------------------------------------------------------------- what nested callbacks leave in place

  lemma CloseForward(s: State, id: nat, t: State)
    requires Inv(s) && id in s.sessions && id in s.excused && Forward(Closed(s, id), t)
    ensures Forward(s, Ended(t, id))
    ensures id !in t.sessions && id in t.ending && id in t.gone
  {
    hide SessionsLinked; hide ContextsLive; hide DialsLinked; hide CallsAgree; hide DialsWait; hide AskedIn; hide Used;
    assert id in s.begun;
  }

  lemma OpenForward(s: State, fd: nat, t: State)
    requires Forward(Opened(s, fd), t)
    ensures Forward(s, t) && s.localCounter in t.begun
  {
  }

  /** From `s` to `a`, dial `d` was completed and nothing else that callers rely on changed. */
  ghost predicate Finishes(s: State, a: State, d: nat) {
    && d in s.dials && !s.dials[d].completed && d !in s.finishing
    && a.finishing == s.finishing + {d} && a.dials.Keys == s.dials.Keys && a.dials[d].completed
    && (forall e :: e in s.dials && e != d ==> a.dials[e] == s.dials[e])
    && a.callbacks == s.callbacks && a.localCounter == s.localCounter && a.nextDialId == s.nextDialId
    && a.ending == s.ending && a.dropped == s.dropped && a.sessions == s.sessions
    && a.begun == s.begun && a.gone == s.gone && a.rejected == s.rejected
    && a.script == s.script && a.excused == s.excused && a.timers == s.timers
    && a.dials[d].attempt == s.dials[d].attempt
  }

  lemma FailFinishes(s: State, d: nat)
    requires InvBut(s, d) && d in s.dials && !s.dials[d].completed
    ensures Finishes(s, Completed(Disconnected(s, d), d), d)
  {
    hide InvBut; hide Disconnected;
    NotFinishing(s, d);
    DisconnectedKeeps(s, d);
    DisconnectedSame(s, d);
  }

  lemma DisconnectedSame(s: State, d: nat)
    requires d in s.dials
    ensures Leaked(Disconnected(s, d)) <= Leaked(s) - SockOf(s.dials, d)
    ensures Disconnected(s, d).open == s.open - SockOf(s.dials, d)
    ensures var t := Disconnected(s, d);
            && t.callbacks == s.callbacks && t.localCounter == s.localCounter && t.nextDialId == s.nextDialId
            && t.ending == s.ending && t.dropped == s.dropped && t.sessions == s.sessions && t.finishing == s.finishing
            && t.begun == s.begun && t.gone == s.gone && t.rejected == s.rejected
            && t.script == s.script && t.excused == s.excused && t.timers == s.timers
  {
  }

  lemma FinishRetries(s: State, a: State, b: State, c: State, d: nat, session: Option<nat>)
    requires Finishes(s, a, d) && Forward(a, b) && Forward(Announced(b, d, session), c)
    ensures RetriesEnd(s, c.(dials := c.dials - {d}))
  {
    hide Excuses; hide SettingsStay;
    forall e: nat | PastFirst(s, e)
      ensures PastFirst(c.(dials := c.dials - {d}), e) && c.timers[Retry(e)] <= s.timers[Retry(e)]
    {
      assert PastFirst(a, e);
      assert PastFirst(b, e);
      assert PastFirst(Announced(b, d, session), e);
      assert PastFirst(c, e);
    }
  }

  /** From the start of a dial's last operation `s`, through completion `a` and the callbacks, to its erasure. */
  lemma FinishForward(s: State, a: State, b: State, c: State, d: nat, session: Option<nat>)
    requires Finishes(s, a, d) && Forward(a, b) && Forward(Announced(b, d, session), c)
    ensures Forward(s, c.(dials := c.dials - {d}))
    ensures d in c.dials && c.dials[d].completed && d !in c.finishing
    ensures Called(d, session) in c.callbacks
  {
    hide Used; hide AskedIn; hide PastFirst;
    assert Excuses(b, c);
    ExcusesTrans(a, b, c);
    FinishRetries(s, a, b, c, d, session);
    var t := Announced(b, d, session);
    assert t.callbacks[|b.callbacks|] == Called(d, session);
    assert c.callbacks[|b.callbacks|] == Called(d, session);
  }

  /** The dial's socket leaves the dial to become a session. */
  function Handed(s: State, d: nat): State
    requires d in s.dials && s.dials[d].sock.Some?
  {
    Released(if s.dials[d].registered then Unregistered(s, d) else s, d, s.open)
  }

  function Forgotten(s: State, d: nat): State {
    s.(dials := s.dials - {d})
  }

  /** A dial that fails, when its callback is about to run. */
  function Failing(s: State, d: nat): State
    requires d in s.dials
  {
    Announced(Completed(Disconnected(s, d), d), d, None)
  }

  /** A dial that fails without the application doing anything: only its socket, its entry and its callback. */
  function Failed(s: State, d: nat): State
    requires d in s.dials
  {
    Forgotten(Failing(s, d), d)
  }

  /** A dial whose socket became session `handle`, or could not be made one. */
  function Succeeded(s: State, d: nat, handle: Option<nat>): State
    requires d in s.dials && s.dials[d].sock.Some?
  {
    var fd, a := s.dials[d].sock.value, Completed(Handed(s, d), d);
    Forgotten(Announced(if handle.Some? then Opened(a, fd) else Refused(a, fd), d, handle), d)
  }

  lemma HandedKeeps(s: State, d: nat)
    requires InvBut(s, d) && d in s.dials && !s.dials[d].completed && s.dials[d].sock.Some?
    ensures InvBut(Handed(s, d), d)
    ensures Handed(s, d).dials == s.dials[d := s.dials[d].(sock := None, registered := false)]
    ensures s.dials[d].sock.value in Handed(s, d).open && s.dials[d].sock.value !in Handed(s, d).contexts
    ensures Finishes(s, Completed(Handed(s, d), d), d)
    ensures Leaked(Completed(Handed(s, d), d)) <= Leaked(s) + SockOf(s.dials, d)
  {
    hide Core; hide DialsLinked; hide DialsWait;
    var x := s.dials[d];
    NotFinishing(s, d);
    FdOpen(s, d);
    if x.registered { UnregisteredKeeps(s, d); }
    ReleasedKeeps(if x.registered then Unregistered(s, d) else s, d, s.open);
  }

  lemma FdOpen(s: State, d: nat)
    requires InvBut(s, d) && d in s.dials && s.dials[d].sock.Some?
    ensures s.dials[d].sock.value in s.open
  {
    hide DialsLinked; hide DialsWait; hide CallsAgree; hide RecordsAgree; hide SessionsLinked;
  }

  lemma StartForward(s: State, retryOnce: bool, timeoutMs: nat, t: State)
    requires Inv(s) && Forward(Started(s, retryOnce, timeoutMs), t)
    ensures Forward(s, t)
  {
    hide Inv;
    FreshDial(s);
  }

  lemma NotFinishing(s: State, d: nat)
    requires InvBut(s, d) && d in s.dials && !s.dials[d].completed
    ensures d !in s.finishing
  {
    hide DialsLinked; hide RecordsAgree; hide SessionsLinked; hide ContextsLive; hide DialsWait;
  }

  // ------------------------------------------------------------- the worker

  /** What `socket`, `connect` and the registration answer to one attempt. */
  datatype Connect = NoSocket | ConnectFails | Immediate(fd: nat) | InProgress(fd: nat, registers: bool)

  /** The kernel's answer to the next attempt; an fd number that is already open stands for no socket. */
  function Answer(connects: seq<Connect>, open: set<nat>): (k: Connect)
    ensures k.Immediate? || k.InProgress? ==> k.fd !in open
  {
    if connects == [] then NoSocket
    else
      var k := connects[0];
      if (k.Immediate? || k.InProgress?) && k.fd in open then NoSocket else k
  }

  function NextAnswers(connects: seq<Connect>): seq<Connect> {
    if connects == [] then [] else connects[1..]
  }

  /** After this answer the dial goes on: it is connecting, or will be retried. */
  predicate GoesOn(k: Connect, retryOnce: bool, n: nat) {
    (k.InProgress? && k.registers) || (k.ConnectFails? && retryOnce && n == 0)
  }

  /** What becomes of a connected socket: a session, or a failure to allocate or register one. */
  datatype Create = SessionMade | MakeFails | RegisterFails

  /** The handle a connected socket gets: the next session id, unless making the session fails. */
  function HandleFor(creates: seq<Create>, localCounter: nat): Option<nat> {
    if creates == [] || creates[0] == SessionMade then Some(localCounter) else None
  }

  /** The first of these sockets is new and can be made a session. */
  predicate Accepts(fds: seq<nat>, open: set<nat>, creates: seq<Create>) {
    fds != [] && fds[0] !in open && HandleFor(creates, 0).Some?
  }

  /** The sockets of an accept event, one after the other, when the application does nothing in between. */
  function AcceptedAll(s: State, fds: seq<nat>, creates: seq<Create>): State
    decreases |fds|
  {
    if fds == [] then s
    else if fds[0] in s.open then AcceptedAll(s, fds[1..], creates)
    else
      var t := s.(open := s.open + {fds[0]});
      AcceptedAll(if HandleFor(creates, s.localCounter).Some? then Opened(t, fds[0]) else Refused(t, fds[0]), fds[1..],
          if creates == [] then [] else creates[1..])
  }

  lemma {:induction false} AcceptedAside(s: State, fds: seq<nat>, creates: seq<Create>, excused: iset<nat>)
    ensures AcceptedAll(s.(excused := excused), fds, creates) == AcceptedAll(s, fds, creates).(excused := excused)
    decreases |fds|
  {
    if fds != [] {
      if fds[0] in s.open {
        AcceptedAside(s, fds[1..], creates, excused);
      } else {
        var t := s.(open := s.open + {fds[0]});
        var u := if HandleFor(creates, s.localCounter).Some? then Opened(t, fds[0]) else Refused(t, fds[0]);
        AcceptedAside(u, fds[1..], if creates == [] then [] else creates[1..], excused);
      }
    }
  }

  predicate Under(sessions: Sessions, id: nat, fd: nat) {
    id in sessions && sessions[id] == fd
  }

  /** Every new socket becomes a session, in order, under the next ids, if all of them can be made one. */
  lemma {:induction false} EverySocketServed(s: State, fds: seq<nat>, creates: seq<Create>)
    requires forall i :: 0 <= i < |creates| ==> creates[i] == SessionMade
    requires forall i :: 0 <= i < |fds| ==> fds[i] !in s.open
    requires forall i, j :: 0 <= i < j < |fds| ==> fds[i] != fds[j]
    ensures var t := AcceptedAll(s, fds, creates);
            && t.localCounter == s.localCounter + |fds|
            && (forall i :: 0 <= i < |fds| ==> Under(t.sessions, s.localCounter + i, fds[i]))
            && (forall id :: id in s.sessions && id < s.localCounter ==>
                  id in t.sessions && t.sessions[id] == s.sessions[id])
    decreases |fds|
  {
    if fds != [] {
      var u := Opened(s.(open := s.open + {fds[0]}), fds[0]);
      EverySocketServed(u, fds[1..], if creates == [] then [] else creates[1..]);
      var t := AcceptedAll(s, fds, creates);
      assert t == AcceptedAll(u, fds[1..], if creates == [] then [] else creates[1..]);
      assert s.localCounter in u.sessions;
      forall i | 0 <= i < |fds|
        ensures Under(t.sessions, s.localCounter + i, fds[i])
      {
        if i > 0 {
          assert Under(t.sessions, u.localCounter + (i - 1), fds[1..][i - 1]);
        }
      }
    }
  }

  /** What `getsockopt(SO_ERROR)` says about a ready dial. */
  datatype Check = Unreadable | SocketError | NoError

  class Worker {
    var sessions: Sessions
    var contexts: Contexts
    var open: set<nat>
    var registry: set<nat>
    var gauge: int
    var localCounter: nat
    var dials: Dials
    var nextDialId: nat
    var timers: multiset<Timer>
    var callbacks: seq<Called>
    var rejected: nat

    var connects: seq<Connect>
    var creates: seq<Create>
    var script: seq<seq<Act>>

    ghost var begun: set<nat>
    ghost var gone: set<nat>
    ghost var ending: set<nat>
    ghost var finishing: set<nat>
    ghost var dropped: set<nat>
    ghost var excused: iset<nat>

    ghost function S(): State
      reads this
    {
      State(sessions, contexts, open, registry, gauge, localCounter, dials, nextDialId, timers, callbacks, rejected,
          begun, gone, ending, finishing, dropped, script, excused)
    }

    ghost predicate Valid()
      reads this
    {
      Inv(S())
    }

    /** A worker with an acceptor and a wakeup fd registered; kernel and application may do anything. */
    constructor (acceptorFd: nat, wakeupFd: nat, connects: seq<Connect>, creates: seq<Create>, script: seq<seq<Act>>)
      requires acceptorFd != wakeupFd
      ensures Quiet(S()) && sessions == map[] && dials == map[]
      ensures contexts == map[acceptorFd := OfAcceptor, wakeupFd := OfWakeup]
      ensures this.connects == connects && this.creates == creates && this.script == script
    {
      sessions, contexts, open := map[], map[acceptorFd := OfAcceptor, wakeupFd := OfWakeup], {acceptorFd, wakeupFd};
      registry, gauge, localCounter := {}, 0, 1;
      dials, nextDialId, timers, callbacks, rejected := map[], 1, multiset{}, [], 0;
      this.connects, this.creates, this.script := connects, creates, script;
      begun, gone, ending, finishing, dropped, excused := {}, {}, {}, {}, {}, iset{};
    }

    /** One application callback: the next list of actions of the script. */
    method Callback()
      requires Valid()
      modifies this
      ensures Valid() && Forward(old(S()), S()) && |script| <= old(|script|)
      ensures Untouched(old(dials), dials) && Leaked(S()) <= old(Leaked(S()))
      ensures old(script) == [] ==> S() == old(S()) && connects == old(connects) && creates == old(creates)
      ensures CalledBack(old(S()), S())
      decreases |script|, 1
    {
      hide Inv;
      if script == [] {
        return;
      }
      var acts := script[0];
      ghost var s := S();
      script := script[1..];
      excused := excused + AskedBy(acts);
      PopForward(s, S());
      ghost var t := S();
      RunActs(acts);
      ForwardTrans(s, t, S());
    }

    method RunActs(acts: seq<Act>)
      requires Valid() && AskedBy(acts) <= excused
      modifies this
      ensures Valid() && Forward(old(S()), S()) && |script| <= old(|script|)
      ensures Untouched(old(dials), dials) && Leaked(S()) <= old(Leaked(S()))
      ensures Carried(acts, old(S()), S())
      decreases |script|, 10
    {
      hide Inv; hide Forward; hide Carried; hide Leaked; hide Untouched; hide AskedBy;
      ForwardSelf(S());
      UntouchedSelf(dials);
      CarriedNone(S());
      for i := 0 to |acts|
        invariant Valid() && Forward(old(S()), S()) && |script| <= old(|script|)
        invariant Untouched(old(dials), dials) && Leaked(S()) <= old(Leaked(S()))
        invariant Carried(acts[..i], old(S()), S())
      {
        ghost var s := S();
        ExcusedStay(old(S()), s);
        AskedOne(acts, i);
        Perform(acts[i]);
        UntouchedTrans(old(dials), s.dials, dials);
        CarriedMore(acts, i, old(S()), s, S());
        ForwardTrans(old(S()), s, S());
      }
      assert acts[..|acts|] == acts;
    }

    method Perform(act: Act)
      requires Valid() && AskedBy([act]) <= excused
      modifies this
      ensures Valid() && Forward(old(S()), S()) && |script| <= old(|script|)
      ensures Untouched(old(dials), dials) && Leaked(S()) <= old(Leaked(S()))
      ensures act.CloseOne? && act.id in old(sessions) ==> act.id !in sessions
      ensures act.CloseAll? ==> forall id :: id in sessions ==> id >= old(localCounter)
      ensures act.DialTcp? && act.valid ==> nextDialId > old(nextDialId)
      ensures act.DialTcp? && !act.valid ==> rejected > old(rejected)
      decreases |script|, 9
    {
      hide Inv; hide Forward;
      assert AskedBy([act]) <= excused;
      AskedAct(act);
      match act
      case CloseOne(id) => BeginClose(id);
      case CloseAll => CloseAllByPolicy();
      case DialTcp(valid, retryOnce, timeoutMs) => DialTcpSession(valid, retryOnce, timeoutMs);
    }

    // ----------------------------------------------------------- sessions

    /** Ends a session: afterwards its id is in no table, and it never comes back. */
    method BeginClose(id: nat)
      requires Valid() && (id in sessions ==> id in excused)
      modifies this
      ensures Valid() && Forward(old(S()), S()) && |script| <= old(|script|)
      ensures Untouched(old(dials), dials) && Leaked(S()) <= old(Leaked(S()))
      ensures id in old(sessions) ==> id !in sessions && id in gone
      ensures id !in old(sessions) ==> S() == old(S())
      ensures id in old(sessions) && old(script) == [] ==> S() == Ended(Closed(old(S()), id), id)
      ensures id in old(sessions) ==> CalledBack(Closed(old(S()), id), S())
      decreases |script|, 2
    {
      hide Inv; hide Forward; hide Closed; hide Leaked; hide Carried;
      if id !in sessions {
        assert Forward(S(), S()) by { ForwardSelf(S()); }
        return;
      }
      ghost var s := S();
      CloseTables(id);
      ClosedKeeps(s, id);
      Callback();
      ghost var t := S();
      CloseForward(s, id, t);
      EndedKeeps(t, id);
      registry := registry - {id};
      ending := ending - {id};
      LeakedSame(t, S());
      CalledBackSame(Closed(s, id), t, S());
    }

    method CloseTables(id: nat)
      requires id in sessions
      modifies this`contexts, this`open, this`sessions, this`gauge, this`gone, this`ending
      ensures S() == Closed(old(S()), id)
    {
      var fd := sessions[id];
      contexts := contexts - {fd};
      open := open - {fd};
      sessions := sessions - {id};
      gauge := gauge - 1;
      gone := gone + {id};
      ending := ending + {id};
    }

    /** Closes every session there was; sessions opened meanwhile by callbacks are left alone. */
    method CloseAllByPolicy()
      requires Valid() && forall id :: id in sessions ==> id in excused
      modifies this
      ensures Valid() && Forward(old(S()), S()) && |script| <= old(|script|)
      ensures Untouched(old(dials), dials) && Leaked(S()) <= old(Leaked(S()))
      ensures forall id :: id in sessions ==> id >= old(localCounter)
      decreases |script|, 3
    {
      hide Inv; hide Forward;
      var ids := sessions.Keys;
      IdsBelow(S());
      ForwardSelf(S());
      while ids != {}
        invariant Valid() && Forward(old(S()), S()) && |script| <= old(|script|)
        invariant Untouched(old(dials), dials) && Leaked(S()) <= old(Leaked(S()))
        invariant forall id :: id in sessions ==> id in ids || id >= old(localCounter)
        invariant forall id :: id in ids ==> id in excused
        decreases |ids|
      {
        var id :| id in ids;
        ghost var s := S();
        BeginClose(id);
        ForwardTrans(old(S()), s, S());
        SessionsFade(s, S());
        SessionsFade(old(S()), s);
        ids := ids - {id};
        ExcusedStay(s, S());
      }
    }

    /** Turns a connected socket into a session and tells the application. */
    method OnAccepted(fd: nat) returns (handle: Option<nat>)
      requires Valid() && fd in open && fd !in contexts
      modifies this
      ensures Valid() && Forward(old(S()), S()) && |script| <= old(|script|)
      ensures Untouched(old(dials), dials) && Leaked(S()) <= old(Leaked(S())) - {fd}
      ensures handle == HandleFor(old(creates), old(localCounter))
      ensures old(script) == [] ==> connects == old(connects)
      ensures handle.Some? ==> handle.value in begun
      ensures handle.None? ==> S() == Refused(old(S()), fd)
      ensures handle.Some? && old(script) == [] ==> S() == Opened(old(S()), fd)
      ensures handle.Some? ==> CalledBack(Opened(old(S()), fd), S())
      ensures old(script) == [] ==> creates == if old(creates) == [] then [] else old(creates)[1..]
      decreases |script|, 3
    {
      hide Inv; hide Forward; hide Opened; hide Refused; hide Leaked; hide Untouched; hide CalledBack;
      ghost var s := S();
      UntouchedSelf(dials);
      var made := NextCreate();
      if made != SessionMade {
        UnusedClosed(s, fd);
        UnusedForward(s, fd);
        RefuseSocket(fd);
        return None;
      }
      var id := OpenSession(fd);
      handle := Some(id);
    }

    method OpenSession(fd: nat) returns (id: nat)
      requires Valid() && fd in open && fd !in contexts
      modifies this
      ensures Valid() && Forward(old(S()), S()) && |script| <= old(|script|)
      ensures Untouched(old(dials), dials) && Leaked(S()) <= old(Leaked(S())) - {fd}
      ensures id == old(localCounter) && id in begun
      ensures CalledBack(Opened(old(S()), fd), S())
      ensures old(script) == [] ==> S() == Opened(old(S()), fd) && connects == old(connects) && creates == old(creates)
      decreases |script|, 2
    {
      hide Inv; hide Forward; hide Opened; hide Leaked; hide Untouched; hide CalledBack;
      ghost var s := S();
      id := OpenTables(fd);
      OpenedFields(s, S(), fd);
      OpenedKeeps(s, fd);
      Callback();
      OpenForward(s, fd, S());
    }

    method NextCreate() returns (made: Create)
      modifies this`creates
      ensures made == if old(creates) == [] then SessionMade else old(creates)[0]
      ensures creates == if old(creates) == [] then [] else old(creates)[1..]
    {
      made := SessionMade;
      if creates != [] {
        made := creates[0];
        creates := creates[1..];
      }
    }

    method RefuseSocket(fd: nat)
      modifies this`open, this`localCounter
      ensures S() == Refused(old(S()), fd)
    {
      open := open - {fd};
      localCounter := localCounter + 1;
    }

    method OpenTables(fd: nat) returns (id: nat)
      modifies this`contexts, this`sessions, this`registry, this`gauge, this`begun, this`localCounter
      ensures id == old(localCounter) && localCounter == id + 1
      ensures contexts == old(contexts)[fd := OfSession(id)] && sessions == old(sessions)[id := fd]
      ensures registry == old(registry) + {id} && begun == old(begun) + {id} && gauge == old(gauge) + 1
    {
      id := localCounter;
      contexts := contexts[fd := OfSession(id)];
      sessions := sessions[id := fd];
      gauge := gauge + 1;
      registry := registry + {id};
      begun := begun + {id};
      localCounter := localCounter + 1;
    }

    // ----------------------------------------------------------- dials

    /** Starts a dial; an unusable address is answered at once, without a dial. */
    method DialTcpSession(valid: bool, retryOnce: bool, timeoutMs: nat)
      requires Valid()
      modifies this
      ensures Valid() && Forward(old(S()), S()) && |script| <= old(|script|)
      ensures Untouched(old(dials), dials) && Leaked(S()) <= old(Leaked(S()))
      ensures !valid ==> rejected > old(rejected)
      ensures !valid ==> CalledBack(old(S()).(rejected := old(rejected) + 1), S())
      ensures valid ==>
                var d := old(nextDialId);
                && d < nextDialId
                && (d in dials <==> GoesOn(Answer(old(connects), old(open)), retryOnce, 0))
                && (if d in dials then !dials[d].completed && Calls(callbacks, d) == 0 else Calls(callbacks, d) == 1)
                && (d in dials ==> dials[d].retryOnce == retryOnce && dials[d].timeoutMs == timeoutMs)
      decreases |script|, 8
    {
      hide Inv; hide InvBut; hide Forward; hide Answer; hide GoesOn; hide Calls;
      ghost var s := S();
      if !valid {
        RejectedKeeps(s);
        rejected := rejected + 1;
        ghost var t := S();
        Callback();
        ForwardTrans(s, t, S());
        DialsGrow(t, S());
        return;
      }
      var d := nextDialId;
      nextDialId := nextDialId + 1;
      dials := dials[d := Dial(0, None, false, false, retryOnce, timeoutMs)];
      StartedKeeps(s, retryOnce, timeoutMs);
      FreshDial(s);
      DialStartAttempt(d, 0);
      StartForward(s, retryOnce, timeoutMs, S());
      DialsGrow(Started(s, retryOnce, timeoutMs), S());
      StartedIsServed(s, S());
    }

    /** Unregisters and closes the dial's socket, if it has one. */
    method Disconnect(d: nat)
      requires d in dials && (dials[d].registered ==> dials[d].sock.Some?)
      modifies this`contexts, this`open, this`dials
      ensures S() == Disconnected(old(S()), d)
    {
      var x := dials[d];
      if x.sock.Some? {
        if x.registered {
          contexts := contexts - {x.sock.value};
        }
        open := open - {x.sock.value};
        dials := dials[d := x.(sock := None, registered := false)];
        assert old(dials)[d := x.(registered := false)][d := x.(sock := None, registered := false)] == dials;
      }
    }

    /** The dial fails: its socket is closed and its callback called, exactly once. */
    method FinishDialFail(d: nat, n: nat)
      requires InvBut(S(), d) && (d in dials && dials[d].attempt != n ==> Inv(S()))
      modifies this
      ensures Valid() && Forward(old(S()), S()) && |script| <= old(|script|)
      ensures Untouched(old(dials) - {d}, dials) && Leaked(S()) <= old(Leaked(S()))
      ensures Current(old(dials), d, n) ==> Leaked(S()) <= old(Leaked(S())) - SockOf(old(dials), d)
      ensures Current(old(dials), d, n) ==> d !in dials && Called(d, None) in callbacks
      ensures old(script) == [] ==> connects == old(connects)
      ensures Current(old(dials), d, n) && old(script) == [] ==> S() == Failed(old(S()), d)
      ensures Current(old(dials), d, n) ==>
                CalledBack(Failing(old(S()), d), S())
      ensures !Current(old(dials), d, n) ==> S() == old(S())
      decreases |script|, 3
    {
      hide Inv; hide Core; hide Forward; hide DialsLinked; hide DialsWait; hide Disconnected; hide Finishes;
      ghost var s := S();
      if d !in dials || dials[d].completed || dials[d].attempt != n {
        NotCurrentKeeps(s, d, n);
        ForwardSelf(s);
        return;
      }
      FailFinishes(s, d);
      DisconnectedKeeps(s, d);
      DisconnectedSame(s, d);
      Disconnect(d);
      CompleteDial(d);
      ForwardSelf(S());
      AnnounceAndErase(s, S(), d, None);
    }

    /** The dial succeeds: its socket becomes a session, and its callback is called exactly once with the outcome. */
    method FinishDialOk(d: nat, n: nat) returns (handle: Option<nat>)
      requires InvBut(S(), d) && (d in dials && dials[d].attempt != n ==> Inv(S()))
      modifies this
      ensures Valid() && Forward(old(S()), S()) && |script| <= old(|script|)
      ensures Untouched(old(dials) - {d}, dials) && Leaked(S()) <= old(Leaked(S()))
      ensures Current(old(dials), d, n) ==> Leaked(S()) <= old(Leaked(S())) - SockOf(old(dials), d)
      ensures Current(old(dials), d, n) ==> d !in dials && Called(d, handle) in callbacks
      ensures old(script) == [] ==> connects == old(connects)
      ensures Current(old(dials), d, n) ==>
                handle == if old(dials)[d].sock.Some? then HandleFor(old(creates), old(localCounter)) else None
      ensures !Current(old(dials), d, n) ==> S() == old(S()) && handle == None
      ensures Current(old(dials), d, n) && old(script) != [] ==> |script| < |old(script)|
      ensures Current(old(dials), d, n) && old(dials)[d].sock.Some? && old(script) == [] ==>
                S() == Succeeded(old(S()), d, handle)
      decreases |script|, 5
    {
      hide Inv; hide Core; hide Forward; hide DialsLinked; hide DialsWait; hide Finishes; hide Succeeded;
      ghost var s := S();
      if d !in dials || dials[d].completed || dials[d].attempt != n {
        NotCurrentKeeps(s, d, n);
        ForwardSelf(s);
        return None;
      }
      if dials[d].sock.None? {
        // a dial without a socket cannot become a session; an id is spent on the attempt
        FailFinishes(s, d);
        CompleteDial(d);
        ghost var a := S();
        IdSpent(a);
        localCounter := localCounter + 1;
        FinishingStays(s, a, S(), d);
        LeakedSame(s, S());
        AnnounceAndErase(s, a, d, None);
        return None;
      }
      handle := FinishWithSocket(d);
    }

    method FinishWithSocket(d: nat) returns (handle: Option<nat>)
      requires InvBut(S(), d) && Dialling(dials, d) && dials[d].sock.Some?
      modifies this
      ensures Valid() && Forward(old(S()), S()) && |script| <= old(|script|)
      ensures Untouched(old(dials) - {d}, dials) && Leaked(S()) <= old(Leaked(S())) - SockOf(old(dials), d)
      ensures d !in dials && Called(d, handle) in callbacks
      ensures handle == HandleFor(old(creates), old(localCounter))
      ensures old(script) != [] ==> |script| < |old(script)|
      ensures old(script) == [] ==> connects == old(connects) && S() == Succeeded(old(S()), d, handle)
      decreases |script|, 4
    {
      hide Inv; hide InvBut; hide Forward; hide Finishes; hide Handed;
      hide Opened; hide Refused; hide Forgotten; hide Leaked; hide Announced; hide HandleFor;
      ghost var s := S();
      var fd := dials[d].sock.value;
      HandedKeeps(s, d);
      HandSocket(d);
      CompleteDial(d);
      ghost var a := S();
      handle := OnAccepted(fd);
      FinishingStays(s, a, S(), d);
      AnnounceAndErase(s, a, d, handle);
    }

    method HandSocket(d: nat)
      requires d in dials && dials[d].sock.Some?
      modifies this`contexts, this`dials
      ensures S() == Handed(old(S()), d)
    {
      var x := dials[d];
      if x.registered {
        contexts := contexts - {x.sock.value};
      }
      dials := dials[d := x.(sock := None, registered := false)];
      assert old(dials)[d := x.(registered := false)][d := x.(sock := None, registered := false)] == dials;
    }

    method Announce(d: nat, session: Option<nat>)
      modifies this`callbacks, this`finishing
      ensures S() == Announced(old(S()), d, session)
    {
      callbacks := callbacks + [Called(d, session)];
      finishing := finishing - {d};
    }

    /** Calls a completed dial's callback, then forgets the dial. */
    method AnnounceAndErase(ghost s: State, ghost a: State, d: nat, session: Option<nat>)
      requires Valid() && Finishes(s, a, d) && Forward(a, S()) && d in finishing
      requires session.Some? ==> session.value in begun
      modifies this
      ensures Valid() && Forward(s, S()) && |script| <= old(|script|)
      ensures Untouched(old(dials) - {d}, dials) && Leaked(S()) <= old(Leaked(S()))
      ensures d !in dials && Called(d, session) in callbacks
      ensures old(script) == [] ==> connects == old(connects)
      ensures old(script) == [] ==> S() == Forgotten(Announced(old(S()), d, session), d)
      ensures CalledBack(Announced(old(S()), d, session), S())
      ensures old(script) != [] ==> |script| < |old(script)|
      decreases |script|, 2
    {
      hide Inv; hide Forward; hide Finishes; hide Announced; hide Leaked; hide CalledBack;
      ghost var b := S();
      AnnouncedKeeps(b, d, session);
      Announce(d, session);
      LeakedSame(b, S());
      Callback();
      ghost var c := S();
      FinishForward(s, a, b, c, d, session);
      ErasedKeeps(c, d);
      dials := dials - {d};
      LeakedSame(c, S());
      CalledBackSame(Announced(b, d, session), c, S());
      ScriptUsed(b, d, session, S());
    }

    method CompleteDial(d: nat)
      requires InvBut(S(), d) && d in dials && dials[d].sock.None? && !dials[d].registered && !dials[d].completed
      modifies this`dials, this`finishing
      ensures S() == Completed(old(S()), d) && Valid()
    {
      hide Inv; hide InvBut;
      CompletedKeeps(S(), d);
      dials := dials[d := dials[d].(completed := true)];
      finishing := finishing + {d};
    }

    method NextConnect() returns (k: Connect)
      modifies this`connects
      ensures k == Answer(old(connects), open) && connects == NextAnswers(old(connects))
    {
      k := NoSocket;
      if connects != [] {
        k := connects[0];
        connects := connects[1..];
      }
      if (k.Immediate? || k.InProgress?) && k.fd in open {
        k := NoSocket;
      }
    }

    method TakeAttempt(d: nat, n: nat, sock: Option<nat>)
      requires d in dials
      modifies this`dials, this`open
      ensures S() == Attempting(old(S()), d, n, sock)
    {
      dials := dials[d := dials[d].(attempt := n, sock := sock)];
      if sock.Some? {
        open := open + {sock.value};
      }
    }

    method RegisterDial(d: nat)
      requires d in dials && dials[d].sock.Some?
      modifies this`contexts, this`dials, this`timers
      ensures S() == Registered(old(S()), d)
    {
      var x := dials[d];
      contexts := contexts[x.sock.value := OfDial(d)];
      dials := dials[d := x.(registered := true)];
      if x.timeoutMs > 0 {
        timers := timers + multiset{Timeout(d, x.attempt)};
      }
    }

    /**
     Begins attempt `n` of a dial, giving up its previous socket. Afterwards the dial is over and its
     callback called, or it is on attempt `n` with an event or a timer to come.
     */
    method DialStartAttempt(d: nat, n: nat)
      requires InvBut(S(), d) && (n > 0 || (d in dials ==> dials[d].attempt == 0))
      modifies this
      ensures Valid() && Forward(old(S()), S()) && |script| <= old(|script|)
      ensures Untouched(old(dials) - {d}, dials) && Leaked(S()) <= old(Leaked(S()))
      ensures !Dialling(old(dials), d) ==> S() == old(S())
      ensures Dialling(old(dials), d) ==>
                var k := Answer(old(connects), Disconnected(old(S()), d).open);
                && (d in dials <==> GoesOn(k, old(dials)[d].retryOnce, n))
                && (d in dials ==> dials[d].attempt == n && callbacks == old(callbacks))
                && (d in dials || old(script) == [] ==> connects == NextAnswers(old(connects)))
                && (d !in dials ==>
                      Called(d, if k.Immediate? then HandleFor(old(creates), old(localCounter)) else None) in callbacks)
                && (d in dials && k.ConnectFails? ==> Retry(d) in timers)
                && (d in dials && k.InProgress? ==> dials[d].sock == Some(k.fd) && dials[d].registered)
                && (d in dials && k.InProgress? && dials[d].timeoutMs > 0 ==> Timeout(d, n) in timers)
      decreases |script|, 7
    {
      hide Inv; hide Core; hide Forward; hide DialsLinked; hide DialsWait; hide Disconnected;
      hide Linked; hide Answer; hide Loose;
      ghost var s := S();
      if d !in dials || dials[d].completed {
        CompletedWaits(s, d);
        ForwardSelf(s);
        return;
      }
      var k := Reattempt(d, n);
      AttemptAnswered(s, d, n, k);
    }

    /** Replaces the dial's socket by a new one, if the kernel gives one. */
    method Reattempt(d: nat, n: nat) returns (k: Connect)
      requires InvBut(S(), d) && d in dials && !dials[d].completed && (n > 0 || dials[d].attempt == 0)
      modifies this`contexts, this`open, this`dials, this`connects
      ensures k == Answer(old(connects), Disconnected(old(S()), d).open) && connects == NextAnswers(old(connects))
      ensures InvBut(S(), d) && Forward(old(S()), S()) && dials.Keys == old(dials).Keys
      ensures Untouched(old(dials) - {d}, dials)
      ensures Leaked(S()) <= old(Leaked(S())) - SockOf(old(dials), d) + SockOf(dials, d)
      ensures dials[d] == old(dials)[d].(attempt := n, registered := false,
                sock := if k.Immediate? || k.InProgress? then Some(k.fd) else None)
    {
      hide Inv; hide InvBut; hide Forward; hide Disconnected; hide Attempting; hide Answer;
      ghost var s := S();
      DisconnectedKeeps(s, d);
      DisconnectedSame(s, d);
      Disconnect(d);
      ghost var t := S();
      k := NextConnect();
      var sock := if k.Immediate? || k.InProgress? then Some(k.fd) else None;
      AttemptingKeeps(t, d, n, sock);
      AttemptForward(t, d, n, sock);
      ForwardTrans(s, t, Attempting(t, d, n, sock));
      TakeAttempt(d, n, sock);
    }

    method AttemptAnswered(ghost s: State, d: nat, n: nat, k: Connect)
      requires InvBut(S(), d) && Forward(s, S())
      requires d in dials && !dials[d].completed && !dials[d].registered && dials[d].attempt == n
      requires dials[d].sock == if k.Immediate? || k.InProgress? then Some(k.fd) else None
      modifies this
      ensures Valid() && Forward(s, S()) && |script| <= old(|script|)
      ensures Untouched(old(dials) - {d}, dials) && Leaked(S()) <= old(Leaked(S())) - SockOf(old(dials), d)
      ensures d in dials <==> GoesOn(k, old(dials)[d].retryOnce, n)
      ensures d in dials ==> dials[d].attempt == n && callbacks == old(callbacks)
      ensures d in dials || old(script) == [] ==> connects == old(connects)
      ensures d !in dials ==>
                Called(d, if k.Immediate? then HandleFor(old(creates), old(localCounter)) else None) in callbacks
      ensures d in dials && k.ConnectFails? ==> Retry(d) in timers
      ensures d in dials && k.InProgress? ==> dials[d].sock == Some(k.fd) && dials[d].registered
      ensures d in dials && k.InProgress? && dials[d].timeoutMs > 0 ==> Timeout(d, n) in timers
      decreases |script|, 6
    {
      hide Inv; hide Core; hide Forward; hide DialsLinked; hide DialsWait; hide Disconnected; hide Registered;
      hide Leaked;
      ghost var t := S();
      match k
      case NoSocket =>
        FinishDialFail(d, n);
        ForwardTrans(s, t, S());
      case ConnectFails =>
        if dials[d].retryOnce && n == 0 {
          RetryAdded(t, d);
          TimersForward(t, Retry(d));
          timers := timers + multiset{Retry(d)};
          LeakedSame(t, S());
        } else {
          FinishDialFail(d, n);
        }
        ForwardTrans(s, t, S());
      case Immediate(_) =>
        var _ := FinishDialOk(d, n);
        ForwardTrans(s, t, S());
      case InProgress(_, registers) =>
        if registers {
          RegisteredKeeps(t, d);
          RegisteredForward(t, d);
          RegisterDial(d);
          ForwardTrans(s, t, S());
        } else {
          DisconnectedKeeps(t, d);
          DisconnectedSame(t, d);
          Disconnect(d);
          ghost var u := S();
          FinishDialFail(d, n);
          ForwardTrans(t, u, S());
          ForwardTrans(s, t, S());
        }
    }

    /** A ready event on a registered dial. */
    method DialEvent(d: nat, check: Check)
      requires Valid() && d in dials && dials[d].registered && !dials[d].completed
      modifies this
      ensures Valid() && Forward(old(S()), S()) && |script| <= old(|script|)
      ensures Untouched(old(dials) - {d}, dials) && Leaked(S()) <= old(Leaked(S()))
      ensures d in dials <==> check == SocketError && old(dials)[d].retryOnce && old(dials)[d].attempt == 0
      ensures d in dials ==> Retry(d) in timers
      ensures d !in dials ==>
                Called(d, if check == NoError then HandleFor(old(creates), old(localCounter)) else None) in callbacks
      decreases |script|, 6
    {
      hide Inv; hide Core; hide Forward; hide DialsLinked; hide DialsWait;
      ghost var s := S();
      var x := dials[d];
      RegisteredHasSock(s, d);
      InvOpens(s, d);
      match check
      case Unreadable => FinishDialFail(d, x.attempt);
      case SocketError =>
        if x.retryOnce && x.attempt == 0 {
          RetryAdded(s, d);
          TimersForward(s, Retry(d));
          timers := timers + multiset{Retry(d)};
        } else {
          FinishDialFail(d, x.attempt);
        }
      case NoError => var _ := FinishDialOk(d, x.attempt);
    }

    /** The timeout of attempt `n` fires; it means nothing to a later attempt. */
    method DialTimeout(d: nat, n: nat)
      requires InvBut(S(), d) && (d in dials ==> Linked(dials[d], d, contexts))
      requires d in dials && dials[d].attempt != n ==> Waiting(dials[d], d, timers)
      modifies this
      ensures Valid() && Forward(old(S()), S()) && |script| <= old(|script|)
      ensures Untouched(old(dials) - {d}, dials) && Leaked(S()) <= old(Leaked(S()))
      ensures Current(old(dials), d, n) ==>
                && (d in dials <==> old(dials)[d].retryOnce && n == 0)
                && if d in dials then Retry(d) in timers else Called(d, None) in callbacks
      ensures !Current(old(dials), d, n) ==> S() == old(S())
      decreases |script|, 5
    {
      hide Inv; hide Core; hide Forward; hide DialsLinked; hide DialsWait; hide Linked;
      ghost var s := S();
      if d !in dials || dials[d].completed || dials[d].attempt != n {
        InvCloses(s, d);
        ForwardSelf(s);
        return;
      }
      if dials[d].retryOnce && n == 0 {
        RetryAdded(s, d);
        TimersForward(s, Retry(d));
        timers := timers + multiset{Retry(d)};
        return;
      }
      FinishDialFail(d, n);
    }

    /**
     A timer that is not on the wheel, or of a dial or an attempt that is over, does nothing. A retry asks
     the kernel once, and the dial goes on or is called back as that answer says. A timeout schedules the
     one retry or fails the dial.
     */
    twostate predicate TimerFired(t: Timer)
      reads this
    {
      var d := t.dial;
      if t !in old(timers) || (if t.Retry? then !Dialling(old(dials), d) else !Current(old(dials), d, t.attempt)) then
        S() == old(S()).(timers := old(timers) - multiset{t}, excused := excused)
      else if t.Retry? then
        var k := Answer(old(connects), old(open) - SockOf(old(dials), d));
        && (d in dials <==> GoesOn(k, old(dials)[d].retryOnce, 1))
        && (d in dials ==> dials[d].attempt == 1 && dials[d].sock == Some(k.fd) && callbacks == old(callbacks))
        && (d in dials || old(script) == [] ==> connects == NextAnswers(old(connects)))
        && (d !in dials ==>
              Called(d, if k.Immediate? then HandleFor(old(creates), old(localCounter)) else None) in callbacks)
      else
        && (d in dials <==> old(dials)[d].retryOnce && t.attempt == 0)
        && if d in dials then Retry(d) in timers else Called(d, None) in callbacks
    }

    /** A timer that is due is taken off the wheel and runs. */
    method FireTimer(t: Timer)
      requires Valid()
      modifies this
      ensures Valid() && Forward(old(S()), S()) && |script| <= old(|script|)
      ensures Untouched(old(dials) - {t.dial}, dials) && Leaked(S()) <= old(Leaked(S()))
      ensures TimerFired(t)
      decreases |script|, 8
    {
      hide Inv; hide InvBut; hide Forward; hide Waiting; hide Linked;
      ghost var s := S();
      if t !in timers {
        ForwardSelf(s);
        return;
      }
      TimerTaken(s, t);
      if t.dial in dials {
        TimerTakenDial(s, t);
      }
      TimersForward(s, t);
      timers := timers - multiset{t};
      ghost var u := S();
      if t.dial in dials { DisconnectedSame(u, t.dial); }
      match t {
        case Retry(d) => DialStartAttempt(d, 1);
        case Timeout(d, n) => DialTimeout(d, n);
      }
      ForwardTrans(s, u, S());
    }

    // ----------------------------------------------------------- the loop

    /** A session's handler: the messages it dispatches run application code, and it may end with a close. */
    method SessionEvent(id: nat, closes: bool)
      requires Valid() && id in sessions && (closes ==> id in excused)
      modifies this
      ensures Valid() && Forward(old(S()), S()) && |script| <= old(|script|)
      ensures Untouched(old(dials), dials) && Leaked(S()) <= old(Leaked(S()))
      ensures closes ==> id !in sessions
      ensures old(script) == [] ==> S() == if closes then Ended(Closed(old(S()), id), id) else old(S())
      ensures CalledBack(old(S()), S())
    {
      hide Inv; hide Forward; hide Carried;
      ghost var s := S();
      IdsBelow(s);
      Callback();
      ghost var t := S();
      if closes {
        ExcusedStay(s, t);
        BeginClose(id);
        ForwardTrans(s, t, S());
        SessionsFade(s, t);
        if s.script != [] { CarriedOn(s.script[0], s, t, S()); }
      }
    }

    /** The acceptor takes whatever sockets the kernel has ready. */
    method AcceptEvent(fds: seq<nat>)
      requires Valid()
      modifies this
      ensures Valid() && Forward(old(S()), S()) && |script| <= old(|script|)
      ensures Untouched(old(dials), dials) && Leaked(S()) <= old(Leaked(S()))
      ensures Accepts(fds, old(open), old(creates)) ==> old(localCounter) in begun
      ensures old(script) == [] ==> S() == AcceptedAll(old(S()), fds, old(creates))
    {
      hide Inv; hide Forward; hide Opened; hide Refused;
      ForwardSelf(S());
      for i := 0 to |fds|
        invariant Valid() && Forward(old(S()), S()) && |script| <= old(|script|)
        invariant Untouched(old(dials), dials) && Leaked(S()) <= old(Leaked(S()))
        invariant i == 0 ==> open == old(open) && creates == old(creates) && localCounter == old(localCounter)
        invariant i > 0 && Accepts(fds, old(open), old(creates)) ==> old(localCounter) in begun
        invariant old(script) == [] ==>
                    script == [] && AcceptedAll(S(), fds[i..], creates) == AcceptedAll(old(S()), fds, old(creates))
      {
        BegunStay(old(S()), S());
        assert fds[i..][1..] == fds[i + 1..];
        if fds[i] !in open {
          ghost var s := S();
          FdAccepted(s, fds[i]);
          open := open + {fds[i]};
          ghost var t := S();
          ForwardTrans(old(S()), s, t);
          var _ := OnAccepted(fds[i]);
          BegunStay(t, S());
          ForwardTrans(old(S()), t, S());
        }
      }
    }

    /**
     An event without a context, or on the wakeup fd, does nothing. A session's ends it if it must and
     otherwise only runs the application. A dial's ends the dial with its outcome, or schedules the one
     retry. The acceptor's opens sessions.
     */
    twostate predicate Dispatched(ev: Ready)
      reads this
    {
      var same := S() == old(S()).(excused := excused);
      if ev.fd !in old(contexts) then same
      else
        match old(contexts)[ev.fd]
        case OfWakeup => same
        case OfSession(id) =>
          && (ev.closes ==> id !in sessions)
          && (!ev.closes && old(script) == [] ==> same)
          && CalledBack(old(S()), S())
        case OfDial(d) =>
          && d in old(dials)
          && (d in dials <==> ev.check == SocketError && old(dials)[d].retryOnce && old(dials)[d].attempt == 0)
          && if d in dials then Retry(d) in timers
             else
               Called(d, if ev.check == NoError then HandleFor(old(creates), old(localCounter)) else None) in callbacks
        case OfAcceptor =>
          && (Accepts(ev.accepted, old(open), old(creates)) ==> old(localCounter) in begun)
          && (old(script) == [] ==> S() == AcceptedAll(old(S()), ev.accepted, old(creates)).(excused := excused))
    }

    /** Dispatches one ready event. The handler it reaches, if any, is alive. */
    method Dispatch(ev: Ready)
      requires Valid() && EndedBy(Event(ev), contexts) <= excused
      modifies this
      ensures Valid() && Forward(old(S()), S()) && |script| <= old(|script|)
      ensures Leaked(S()) <= old(Leaked(S()))
      ensures Untouched(old(dials) - DialsOf(Event(ev), old(contexts)), dials)
      ensures Dispatched(ev)
    {
      hide Inv; hide Forward;
      if ev.fd !in contexts {
        ForwardSelf(S());
        return;
      }
      DispatchIsLive(S(), ev.fd);
      assert contexts[ev.fd].OfSession? && ev.closes ==> contexts[ev.fd].id in EndedBy(Event(ev), contexts);
      match contexts[ev.fd]
      case OfSession(id) => SessionEvent(id, ev.closes);
      case OfDial(d) => DialEvent(d, ev.check);
      case OfAcceptor => AcceptEvent(ev.accepted);
      case OfWakeup => ForwardSelf(S());
    }

    /** Gives up all dials without calling their callbacks, when the worker shuts down. */
    method ShutdownDials()
      requires Quiet(S())
      modifies this`contexts, this`open, this`dials, this`dropped
      ensures Quiet(S()) && dials == map[] && sessions == old(sessions) && callbacks == old(callbacks)
      ensures dropped == old(dropped) + old(dials).Keys
      ensures Onward(old(S()), S())
    {
      hide Quiet; hide Onward;
      while dials != map[]
        invariant Quiet(S())
        invariant old(dropped) <= dropped && dials.Keys <= old(dials).Keys
        invariant dropped == old(dropped) + (old(dials).Keys - dials.Keys)
        decreases |dials|
      {
        var d :| d in dials;
        ghost var keys := dials.Keys;
        DropDial(d);
        assert dials.Keys == keys - {d};
      }
      DroppedOnward(old(S()), S());
    }

    method DropDial(d: nat)
      requires Quiet(S()) && d in dials
      modifies this`contexts, this`open, this`dials, this`dropped
      ensures Quiet(S()) && dials == old(dials) - {d} && dropped == old(dropped) + {d}
    {
      hide Inv; hide InvBut; hide Disconnected; hide Forward;
      ghost var s := S();
      InvOpens(s, d);
      DisconnectedKeeps(s, d);
      DisconnectedSame(s, d);
      Disconnect(d);
      DroppedKeeps(S(), d);
      dials := dials - {d};
      dropped := dropped + {d};
    }

    /** One thing the loop does: a task, a timer, a ready event, or a session's idle timer. */
    method Step(step: LoopStep)
      requires Quiet(S())
      modifies this
      ensures Quiet(S()) && Onward(old(S()), S())
      ensures step.DialShutdown? ==> dials == map[] && callbacks == old(callbacks) && sessions == old(sessions)
      ensures forall id :: id in old(sessions) && id in EndedBy(step, old(contexts)) ==> id !in sessions
      ensures step.Task? ==> Carried(step.acts, old(S()), S())
      ensures step.TimerDue? ==> TimerFired(step.timer)
      ensures step.Event? ==> Dispatched(step.ev)
      ensures forall id :: id in gone && id !in old(gone) ==>
                id in EndedBy(step, old(contexts)) || AskedIn(old(script), script, id)
      ensures !step.DialShutdown? ==> Untouched(old(dials) - DialsOf(step, old(contexts)), dials)
    {
      hide Inv; hide Excuses; hide Onward; hide Asks; hide AcceptedAll; hide Answer; hide GoesOn; hide HandleFor;
      hide SettingsStay; hide RetriesEnd; hide NextAnswers; hide Accepts; hide DialsIn;
      excused := EndedBy(step, contexts);
      ghost var s := S();
      SameTables(old(S()), s);
      OnwardSame(old(S()), s);
      match step {
        case Task(acts) => RunActs(acts); ForwardIsOnward(s, S());
        case TimerDue(t) => FireTimer(t); ForwardIsOnward(s, S());
        case Event(ev) =>
          AcceptedAside(old(S()), ev.accepted, creates, s.excused);
          Dispatch(ev);
          ForwardIsOnward(s, S());
        case IdleDue(id) => BeginClose(id); ForwardIsOnward(s, S());
        case DialShutdown => ShutdownDials();
      }
      OnwardTrans(old(S()), s, S());
    }

    /**
     However the loop runs and whatever the application does in its callbacks, the tables agree between
     steps, and no session ends unless a step or a callback asked for it.
     */
    method Run(steps: seq<LoopStep>)
      requires Quiet(S())
      modifies this
      ensures Quiet(S()) && Onward(old(S()), S())
      ensures forall id :: id in gone && id !in old(gone) ==>
                AskedIn(old(script), script, id) || exists i :: 0 <= i < |steps| && MayEnd(steps[i], id)
      ensures forall i, id :: 0 <= i < |steps| && MustEnd(steps[i], id) && id in old(sessions) ==> id !in sessions
    {
      hide Quiet; hide Onward; hide AskedIn; hide MayEnd; hide MustEnd;
      OnwardSame(S(), S());
      for i := 0 to |steps|
        invariant Quiet(S()) && Onward(old(S()), S())
        invariant forall id :: id in gone && id !in old(gone) ==>
                    AskedIn(old(script), script, id) || exists j :: 0 <= j < i && MayEnd(steps[j], id)
        invariant forall j, id :: 0 <= j < i && MustEnd(steps[j], id) && id in old(sessions) ==> id !in sessions
      {
        ghost var s := S();
        Step(steps[i]);
        OnwardTrans(old(S()), s, S());
        EndedMayEnd(steps[i], s.contexts);
        FadedOnward(old(S()), s);
        FadedOnward(s, S());
      }
    }
  }

  /** The sessions a loop step itself asks to close. */
  ghost function EndedBy(step: LoopStep, contexts: Contexts): iset<nat> {
    match step
    case Task(acts) => AskedBy(acts)
    case TimerDue(_) => iset{}
    case Event(ev) =>
      if ev.fd in contexts && contexts[ev.fd].OfSession? && ev.closes then iset{contexts[ev.fd].id} else iset{}
    case IdleDue(id) => iset{id}
    case DialShutdown => iset{}
  }

  /** The dial a loop step is about. */
  function DialsOf(step: LoopStep, contexts: Contexts): set<nat> {
    match step
    case Task(_) => {}
    case TimerDue(t) => {t.dial}
    case Event(ev) => if ev.fd in contexts && contexts[ev.fd].OfDial? then {contexts[ev.fd].dial} else {}
    case IdleDue(_) => {}
    case DialShutdown => {}
  }

  lemma EndedMayEnd(step: LoopStep, contexts: Contexts)
    ensures forall id :: id in EndedBy(step, contexts) ==> MayEnd(step, id)
    ensures forall id :: MustEnd(step, id) ==> id in EndedBy(step, contexts)
  {
  }

  lemma FadedOnward(s: State, t: State)
    requires Quiet(s) && Onward(s, t)
    ensures forall id :: id in t.sessions ==> id in s.sessions || id >= s.localCounter
    ensures forall id :: id in s.sessions ==> id < s.localCounter
    ensures s.localCounter <= t.localCounter
  {
    hide Inv;
    IdsBelow(s);
  }

  /** The step ends the session, whatever is registered. */
  predicate MustEnd(step: LoopStep, id: nat) {
    match step
    case Task(acts) => Asks(acts, id)
    case IdleDue(due) => id == due
    case _ => false
  }

  /** The step ends the session, or may if it is an event for it. */
  predicate MayEnd(step: LoopStep, id: nat) {
    match step
    case Task(acts) => Asks(acts, id)
    case TimerDue(_) => false
    case Event(ev) => ev.closes
    case IdleDue(due) => id == due
    case DialShutdown => false
  }

  lemma ForwardSelf(s: State)
    ensures Forward(s, s)
  {
  }

  /** A callback is taken off the script, and what it asks for is asked. */
  lemma PopForward(s: State, t: State)
    requires s.script != [] && t == s.(script := s.script[1..], excused := s.excused + AskedBy(s.script[0]))
    ensures Forward(s, t)
    ensures Inv(s) ==> Inv(t)
  {
    hide Asks; hide Inv;
    assert Inv(s) ==> Inv(t) by { SameTables(s, t); }
  }

  lemma SameTables(s: State, t: State)
    requires t == s.(script := t.script, excused := t.excused)
    ensures Inv(s) <==> Inv(t)
    ensures Quiet(s) <==> Quiet(t)
  {
    hide Core; hide DialsLinked; hide DialsWait;
    assert Core(s) <==> Core(t) by { SameCore(s, t); }
  }

  lemma SameCore(s: State, t: State)
    requires t == s.(script := t.script, excused := t.excused)
    ensures Core(s) <==> Core(t)
  {
  }

  lemma ExcusedStay(s: State, t: State)
    requires Forward(s, t)
    ensures s.excused <= t.excused
  {
  }

  lemma AskedAct(act: Act)
    ensures act.CloseOne? ==> act.id in AskedBy([act])
    ensures act.CloseAll? ==> forall id: nat :: id in AskedBy([act])
  {
    assert [act][0] == act;
  }

  lemma AskedOne(acts: seq<Act>, i: nat)
    requires i < |acts|
    ensures AskedBy([acts[i]]) <= AskedBy(acts)
  {
  }

  lemma UnusedForward(s: State, fd: nat)
    ensures Forward(s, Refused(s, fd)) && Refused(s, fd).dials == s.dials
  {
  }

  lemma IdsBelow(s: State)
    requires Inv(s)
    ensures forall id :: id in s.sessions ==> id < s.localCounter
  {
    hide SessionsLinked; hide ContextsLive; hide DialsLinked; hide CallsAgree; hide DialsWait;
    assert forall id :: id in s.sessions ==> id in s.begun;
  }

  lemma SessionsFade(s: State, t: State)
    requires Forward(s, t)
    ensures s.localCounter <= t.localCounter
    ensures forall id :: id in t.sessions ==> id in s.sessions || id >= s.localCounter
  {
  }

  lemma BegunStay(s: State, t: State)
    requires Forward(s, t)
    ensures s.begun <= t.begun
  {
  }

  lemma DialsGrow(s: State, t: State)
    requires Forward(s, t)
    ensures s.nextDialId <= t.nextDialId && s.rejected <= t.rejected && SettingsStay(s, t)
  {
  }

  lemma RejectedKeeps(s: State)
    requires Inv(s)
    ensures Inv(s.(rejected := s.rejected + 1)) && Forward(s, s.(rejected := s.rejected + 1))
  {
    hide SessionsLinked; hide ContextsLive; hide DialsLinked; hide RecordsAgree; hide CallsAgree; hide DialsWait;
  }

  /** The dial that took the next id is pending without a callback, or has had exactly one. */
  lemma StartedIsServed(s: State, t: State)
    requires Inv(s) && Inv(t) && Forward(s, t) && s.nextDialId < t.nextDialId
    ensures if s.nextDialId in t.dials then !t.dials[s.nextDialId].completed && Calls(t.callbacks, s.nextDialId) == 0
            else Calls(t.callbacks, s.nextDialId) == 1
  {
    hide SessionsLinked; hide ContextsLive; hide DialsLinked; hide RecordsAgree; hide DialsWait; hide Calls;
    FreshDial(s);
  }

  lemma CarriedNone(s: State)
    ensures Carried([], s, s)
  {
  }

  lemma CarriedOn(acts: seq<Act>, s: State, t: State, u: State)
    requires Inv(s) && Carried(acts, s, t) && Forward(t, u) && s.localCounter <= t.localCounter
    ensures Carried(acts, s, u)
  {
    hide Inv; hide Asks; hide DialsIn;
    IdsBelow(s);
  }

  lemma CarriedMore(acts: seq<Act>, i: nat, s: State, t: State, u: State)
    requires i < |acts| && Inv(s) && Forward(s, t) && Forward(t, u) && Carried(acts[..i], s, t)
    requires acts[i].CloseOne? && acts[i].id in t.sessions ==> acts[i].id !in u.sessions
    requires acts[i].CloseAll? ==> forall id :: id in u.sessions ==> id >= t.localCounter
    requires acts[i].DialTcp? && acts[i].valid ==> u.nextDialId > t.nextDialId
    requires acts[i].DialTcp? && !acts[i].valid ==> u.rejected > t.rejected
    ensures Carried(acts[..i + 1], s, u)
  {
    hide Inv; hide DialsIn; hide Excuses; hide RetriesEnd; hide SettingsStay;
    IdsBelow(s);
    DialsInSnoc(acts, i, true);
    DialsInSnoc(acts, i, false);
    forall id | id in s.sessions && Asks(acts[..i + 1], id)
      ensures id !in u.sessions
    {
      var j :| 0 <= j < i + 1 && acts[..i + 1][j] in {CloseOne(id), CloseAll};
      if j < i {
        assert acts[..i][j] == acts[j];
        assert Asks(acts[..i], id);
      }
    }
  }

  lemma ScriptUsed(b: State, d: nat, session: Option<nat>, t: State)
    requires CalledBack(Announced(b, d, session), t)
    ensures b.script != [] ==> |t.script| < |b.script|
  {
    hide Carried;
  }

  lemma CalledBackSame(s: State, t: State, u: State)
    requires CalledBack(s, t)
    requires u.script == t.script && u.sessions == t.sessions
    requires u.nextDialId == t.nextDialId && u.rejected == t.rejected
    ensures CalledBack(s, u)
  {
  }

  lemma UntouchedTrans(dials: Dials, dials': Dials, dials'': Dials)
    requires Untouched(dials, dials') && Untouched(dials', dials'')
    ensures Untouched(dials, dials'')
  {
  }

  lemma UntouchedSelf(dials: Dials)
    ensures Untouched(dials, dials)
  {
  }

  lemma LeakedSame(s: State, t: State)
    requires t.open == s.open && t.contexts == s.contexts
    ensures Leaked(t) == Leaked(s)
  {
  }

  lemma FinishingStays(s: State, a: State, b: State, d: nat)
    requires Finishes(s, a, d) && Forward(a, b)
    ensures d in b.finishing
  {
  }

  lemma NotCurrentKeeps(s: State, d: nat, n: nat)
    requires InvBut(s, d) && (d in s.dials && s.dials[d].attempt != n ==> Inv(s)) && !Current(s.dials, d, n)
    ensures Inv(s)
  {
    hide Core; hide DialsLinked; hide DialsWait; hide Inv;
    if !(d in s.dials && s.dials[d].attempt != n) {
      CompletedWaits(s, d);
    }
  }

  lemma IdSpent(s: State)
    requires Inv(s)
    ensures Inv(s.(localCounter := s.localCounter + 1)) && Forward(s, s.(localCounter := s.localCounter + 1))
  {
    hide SessionsLinked; hide ContextsLive; hide DialsLinked; hide CallsAgree; hide DialsWait;
  }

  lemma CompletedWaits(s: State, d: nat)
    requires InvBut(s, d) && (d in s.dials ==> s.dials[d].completed)
    ensures Inv(s)
  {
    hide Core; hide DialsLinked; hide DialsWait;
    InvCloses(s, d);
  }

  lemma AttemptForward(s: State, d: nat, n: nat, sock: Option<nat>)
    requires d in s.dials && !s.dials[d].completed && (n > 0 || s.dials[d].attempt == 0)
    ensures Forward(s, Attempting(s, d, n, sock))
    ensures Attempting(s, d, n, sock).callbacks == s.callbacks
    ensures Leaked(Attempting(s, d, n, sock)) <= Leaked(s) + SockOf(Attempting(s, d, n, sock).dials, d)
    ensures Attempting(s, d, n, sock).dials == s.dials[d := s.dials[d].(attempt := n, sock := sock)]
  {
  }

  lemma RegisteredForward(s: State, d: nat)
    requires d in s.dials && s.dials[d].sock.Some? && !s.dials[d].completed
    ensures Forward(s, Registered(s, d))
    ensures var t := Registered(s, d);
            && t.callbacks == s.callbacks && t.dials == s.dials[d := s.dials[d].(registered := true)]
            && Leaked(t) <= Leaked(s) - SockOf(s.dials, d)
            && (s.dials[d].timeoutMs > 0 ==> Timeout(d, s.dials[d].attempt) in t.timers)
  {
  }

  lemma TimersForward(s: State, t: Timer)
    ensures t.Timeout? || !PastFirst(s, t.dial) ==> Forward(s, s.(timers := s.timers + multiset{t}))
    ensures Forward(s, s.(timers := s.timers - multiset{t}))
  {
  }

  lemma RegisteredHasSock(s: State, d: nat)
    requires Inv(s) && d in s.dials && s.dials[d].registered
    ensures s.dials[d].sock.Some? && Linked(s.dials[d], d, s.contexts)
  {
    hide Core; hide DialsWait;
  }

  /** The timeout of one attempt is not what another attempt waits for. */
  lemma TimerTakenDial(s: State, t: Timer)
    requires Inv(s) && t.dial in s.dials
    ensures Linked(s.dials[t.dial], t.dial, s.contexts)
    ensures t.Timeout? && t.attempt != s.dials[t.dial].attempt ==>
              Waiting(s.dials[t.dial], t.dial, s.timers - multiset{t})
  {
    hide Core;
  }

  /** A ready event, with what its handler will find. */
  datatype Ready = Ready(fd: nat, check: Check, closes: bool, accepted: seq<nat>)

  datatype LoopStep = Task(acts: seq<Act>) | TimerDue(timer: Timer) | Event(ev: Ready) | IdleDue(id: nat) | DialShutdown

  /** What whole runs leave in place, also across a shutdown of the dials. */
  ghost predicate Onward(s: State, t: State) {
    && Used(s.script, t.script) && RetriesEnd(s, t)
    && s.callbacks <= t.callbacks
    && s.localCounter <= t.localCounter && s.nextDialId <= t.nextDialId
    && s.begun <= t.begun && s.gone <= t.gone && s.dropped <= t.dropped
    && (forall id :: id in t.sessions ==> id in s.sessions || id >= s.localCounter)
  }

  lemma DroppedOnward(s: State, t: State)
    requires t == s.(contexts := t.contexts, open := t.open, dials := t.dials, dropped := t.dropped)
    requires s.dropped <= t.dropped && t.dials == map[]
    ensures Onward(s, t)
  {
  }

  lemma OnwardTrans(s: State, t: State, u: State)
    requires Onward(s, t) && Onward(t, u)
    ensures Onward(s, u)
    ensures forall id :: AskedIn(s.script, t.script, id) || AskedIn(t.script, u.script, id)
              ==> AskedIn(s.script, u.script, id)
  {
    hide AskedIn; hide Used;
    UsedTrans(s.script, t.script, u.script);
  }

  lemma OnwardSame(s: State, t: State)
    requires t == s.(excused := t.excused)
    ensures Onward(s, t)
  {
  }

  lemma ForwardIsOnward(s: State, t: State)
    requires Forward(s, t)
    ensures Onward(s, t)
    ensures forall id :: id in t.gone && id !in s.gone ==>
              id in s.excused || AskedIn(s.script, t.script, id)
  {
  }

  /** Between two steps of the loop: the invariant holds and no callback is running. */
  ghost predicate Quiet(s: State) {
    && Inv(s) && s.ending == {} && s.finishing == {} && Leaked(s) == {}
    && forall d :: d in s.dials ==> !s.dials[d].completed
  }

  lemma DispatchIsLive(s: State, fd: nat)
    requires Inv(s) && fd in s.contexts
    ensures match s.contexts[fd]
            case OfSession(id) => id in s.sessions && s.sessions[id] == fd
            case OfDial(d) => d in s.dials && s.dials[d].registered && !s.dials[d].completed
                && s.dials[d].sock == Some(fd)
            case OfAcceptor => true
            case OfWakeup => true
  {
    hide RecordsAgree; hide CallsAgree; hide DialsWait; hide SessionsLinked;
    if s.contexts[fd].OfDial? {
      assert Linked(s.dials[s.contexts[fd].dial], s.contexts[fd].dial, s.contexts);
    }
  }

  lemma FdAccepted(s: State, fd: nat)
    requires Inv(s) && fd !in s.open
    ensures Inv(s.(open := s.open + {fd})) && fd !in s.contexts
    ensures Forward(s, s.(open := s.open + {fd}))
  {
    hide RecordsAgree; hide CallsAgree; hide DialsWait; hide SessionsLinked; hide DialsLinked; hide Live;
  }

  lemma DroppedKeeps(s: State, d: nat)
    requires InvBut(s, d) && d in s.dials && !s.dials[d].completed && s.dials[d].sock.None?
    ensures Inv(s.(dials := s.dials - {d}, dropped := s.dropped + {d}))
  {
    hide RecordsAgree; hide SessionsLinked; hide Waiting; hide Calls;
    var less := s.dials - {d};
    assert forall e: nat :: Silent(e, s.dials, s.finishing, s.dropped, s.nextDialId) ==
                            Silent(e, less, s.finishing, s.dropped + {d}, s.nextDialId);
  }

  /**
   Table agreement between loop steps: the session table, the registry, the gauge and the fd
   registrations describe the same sessions, and every registration points to a live handler.
   */
  lemma TablesAgree(s: State)
    requires Quiet(s)
    ensures s.registry == s.sessions.Keys == s.begun - s.gone && s.gauge == |s.sessions| && 0 !in s.sessions
    ensures s.open == s.contexts.Keys
    ensures forall id :: id in s.sessions <==> exists fd :: fd in s.contexts && s.contexts[fd] == OfSession(id)
    ensures forall fd :: fd in s.contexts ==> Live(s.contexts[fd], fd, s.sessions, s.dials)
    ensures forall id, id' :: id in s.sessions && id' in s.sessions && id != id' ==> s.sessions[id] != s.sessions[id']
  {
    hide CallsAgree; hide DialsWait; hide DialsLinked;
  }

  /**
   The dial protocol between loop steps: a callback has run at most once per dial, and exactly once for
   every dial that is no longer pending; a dial with a timeout that is still pending has a timer.
   */
  lemma DialsAgree(s: State, d: nat)
    requires Quiet(s)
    ensures Calls(s.callbacks, d) <= 1
    ensures forall id :: Called(d, Some(id)) in s.callbacks ==> id in s.begun
    ensures Calls(s.callbacks, d) == 1 <==> 0 < d < s.nextDialId && d !in s.dials && d !in s.dropped
    ensures d in s.dials && s.dials[d].timeoutMs > 0 ==>
              Retry(d) in s.timers || Timeout(d, s.dials[d].attempt) in s.timers
    ensures d in s.dials ==> Retry(d) in s.timers || (s.dials[d].sock.Some? && s.dials[d].sock.value in s.contexts)
  {
    hide RecordsAgree; hide SessionsLinked; hide ContextsLive;
    if d in s.dials {
      assert Linked(s.dials[d], d, s.contexts) && Waiting(s.dials[d], d, s.timers);
    }
  }
}

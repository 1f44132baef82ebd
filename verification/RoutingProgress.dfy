/**
 Every share handed out can be served, and is once the workers run on: without new calls and registry
 changes every step that does something brings the workers closer to having nothing left to do, and as long
 as something is left there is such a step.
 */
module RoutingProgress {
  import opened SessionIds
  import opened Registries
  import opened Routing
  import opened Wrappers
  import opened RoutingMachine
  import opened RoutingInvariant
  import opened RoutingRuns

  // ------------------------------------------------------------- what is left to do

  function Sum(xs: seq<nat>): nat {
    if xs == [] then 0 else Sum(xs[..|xs| - 1]) + xs[|xs| - 1]
  }

  lemma {:induction false} SumUpdate(xs: seq<nat>, i: nat, v: nat)
    requires i < |xs|
    ensures Sum(xs[i := v]) == Sum(xs) - xs[i] + v
  {
    var ys := xs[i := v];
    if i == |xs| - 1 {
      assert ys[..i] == xs[..i];
    } else {
      SumUpdate(xs[..|xs| - 1], i, v);
      assert ys[..|ys| - 1] == xs[..|xs| - 1][i := v];
    }
  }

  /** How many workers the calls on a stack have still to look at, counting the end of each loop as one. */
  function HandsLeft(stack: seq<Frame>, n: nat): nat {
    if stack == [] then 0
    else
      HandsLeft(Below(stack), n) +
      match Top(stack)
      case Handing(_, next) => if next < n then n - next + 1 else 1
      case Delivering(_, _) => 0
  }

  /** How many sessions the shares on a stack have still to reach, counting the end of each loop as one. */
  function TellsLeft(stack: seq<Frame>, execs: seq<Exec>): nat {
    if stack == [] then 0
    else
      TellsLeft(Below(stack), execs) +
      match Top(stack)
      case Handing(_, _) => 0
      case Delivering(e, next) =>
        if e < |execs| && next < |execs[e].targets| then |execs[e].targets| - next + 1 else 1
  }

  function Hands(sys: System): seq<nat> {
    seq(|sys.workers|, i requires 0 <= i < |sys.workers| => HandsLeft(sys.workers[i].stack, |sys.workers|))
  }

  function Queued(sys: System): seq<nat> {
    seq(|sys.workers|, i requires 0 <= i < |sys.workers| => |sys.workers[i].queue|)
  }

  function Tells(sys: System): seq<nat> {
    seq(|sys.workers|, i requires 0 <= i < |sys.workers| => TellsLeft(sys.workers[i].stack, sys.execs))
  }

  /** Less is left to do: shares to hand out first, then shares queued, then sessions to reach. */
  predicate Closer(sys': System, sys: System) {
    || Sum(Hands(sys')) < Sum(Hands(sys))
    || (Sum(Hands(sys')) == Sum(Hands(sys)) && Sum(Queued(sys')) < Sum(Queued(sys)))
    || (&& Sum(Hands(sys')) == Sum(Hands(sys)) && Sum(Queued(sys')) == Sum(Queued(sys))
        && Sum(Tells(sys')) < Sum(Tells(sys)))
  }

  lemma PushLeft(stack: seq<Frame>, f: Frame, n: nat, execs: seq<Exec>)
    ensures Below(stack + [f]) == stack && Top(stack + [f]) == f
    ensures f.Delivering? ==> HandsLeft(stack + [f], n) == HandsLeft(stack, n)
    ensures f.Handing? ==> TellsLeft(stack + [f], execs) == TellsLeft(stack, execs)
  {
    assert Below(stack + [f]) == stack;
  }

  // ------------------------------------------------------------- each step

  /** Fewer workers to look at on one worker bring the system closer, whatever is queued or begun to be served. */
  lemma HandsFewer(sys: System, sys': System, w: nat)
    requires w < |sys.workers| == |sys'.workers|
    requires forall v :: 0 <= v < |sys.workers| && v != w ==> sys'.workers[v].stack == sys.workers[v].stack
    requires HandsLeft(sys'.workers[w].stack, |sys.workers|) < HandsLeft(sys.workers[w].stack, |sys.workers|)
    ensures Closer(sys', sys)
  {
    SumUpdate(Hands(sys), w, HandsLeft(sys'.workers[w].stack, |sys.workers|));
    assert Hands(sys') == Hands(sys)[w := HandsLeft(sys'.workers[w].stack, |sys.workers|)];
  }

  lemma HandOutCloser(sys: System, w: nat, targets: seq<SessionId>)
    requires w < |sys.workers| && sys.workers[w].stack != [] && Top(sys.workers[w].stack).Handing?
    requires Top(sys.workers[w].stack).number < |sys.workers[w].calls|
    requires |sys.workers[w].handed| == |sys.workers|
    ensures HandNext(sys, w, targets) == sys || Closer(HandNext(sys, w, targets), sys)
    ensures HandNext(sys, w, targets) == sys ==>
              var me := sys.workers[w];
              var work := WorkFor(me.calls[Top(me.stack).number].call, Top(me.stack).next);
              work.Some? && !Fits(work.value, me.reg, targets)
  {
    hide WorkFor; hide Fits; hide Closer;
    var me := sys.workers[w];
    var f, n := Top(me.stack), |sys.workers|;
    var sys' := HandNext(sys, w, targets);
    PushLeft(Below(me.stack), Handing(f.number, f.next + 1), n, sys.execs);
    PushLeft(Skip(me).stack, Delivering(|sys.execs|, 0), n, sys.execs);
    if sys'.workers[w].stack != me.stack {
      HandsFewer(sys, sys', w);
    }
  }

  lemma RunTaskCloser(sys: System, w: nat, targets: seq<SessionId>)
    requires w < |sys.workers| && sys.workers[w].stack == [] && sys.workers[w].queue != []
    requires Fits(sys.workers[w].queue[0].work, sys.workers[w].reg, targets)
    ensures Closer(Next(sys, RunTask(w, targets)), sys)
  {
    hide Fits;
    var sys' := Next(sys, RunTask(w, targets));
    PushLeft([], Delivering(|sys.execs|, 0), |sys.workers|, sys.execs);
    assert [] + [Delivering(|sys.execs|, 0)] == [Delivering(|sys.execs|, 0)];
    assert Hands(sys') == Hands(sys);
    SumUpdate(Queued(sys), w, |sys.workers[w].queue| - 1);
    assert Queued(sys') == Queued(sys)[w := |sys.workers[w].queue| - 1];
  }

  /** Fewer sessions to reach on one worker, and nothing else changed. */
  lemma TellsFewer(sys: System, sys': System, w: nat)
    requires w < |sys.workers| == |sys'.workers| && sys'.execs == sys.execs
    requires forall v :: 0 <= v < |sys.workers| ==> sys'.workers[v].queue == sys.workers[v].queue
    requires forall v :: 0 <= v < |sys.workers| && v != w ==> sys'.workers[v].stack == sys.workers[v].stack
    requires HandsLeft(sys'.workers[w].stack, |sys.workers|) == HandsLeft(sys.workers[w].stack, |sys.workers|)
    requires TellsLeft(sys'.workers[w].stack, sys.execs) < TellsLeft(sys.workers[w].stack, sys.execs)
    ensures Closer(sys', sys)
  {
    hide HandsLeft; hide TellsLeft;
    assert Hands(sys') == Hands(sys);
    assert Queued(sys') == Queued(sys);
    SumUpdate(Tells(sys), w, TellsLeft(sys'.workers[w].stack, sys.execs));
    assert Tells(sys') == Tells(sys)[w := TellsLeft(sys'.workers[w].stack, sys.execs)];
  }

  lemma ShareCloser(sys: System, w: nat)
    requires w < |sys.workers| && sys.workers[w].stack != [] && Top(sys.workers[w].stack).Delivering?
    requires Top(sys.workers[w].stack).exec < |sys.execs|
    ensures var f := Top(sys.workers[w].stack);
            Closer(Next(sys, if f.next < |sys.execs[f.exec].targets| then Deliver(w) else Return(w)), sys)
  {
    hide Closer;
    var me := sys.workers[w];
    var f, n := Top(me.stack), |sys.workers|;
    var sys' := Next(sys, if f.next < |sys.execs[f.exec].targets| then Deliver(w) else Return(w));
    PushLeft(Below(me.stack), Delivering(f.exec, f.next + 1), n, sys.execs);
    TellsFewer(sys, sys', w);
  }

  /** A step other than a new call or a registry change. */
  predicate Onward(step: Step) {
    !step.Begin? && !step.ChangeRegistry?
  }

  /** Every such step does nothing, or leaves less to do. */
  lemma NextIsCloser(sys: System, step: Step)
    requires Onward(step)
    ensures Next(sys, step) == sys || Closer(Next(sys, step), sys)
  {
    hide Closer; hide HandNext; hide Fits;
    if step.w < |sys.workers| {
      var me := sys.workers[step.w];
      match step
      case HandOut(w, targets) =>
        if me.stack != [] && Top(me.stack).Handing? && Top(me.stack).number < |me.calls|
           && |me.handed| == |sys.workers| {
          HandOutCloser(sys, w, targets);
        }
      case Deliver(w) =>
        if me.stack != [] && Top(me.stack).Delivering? && Top(me.stack).exec < |sys.execs| { ShareCloser(sys, w); }
      case Return(w) =>
        if me.stack != [] && Top(me.stack).Delivering? && Top(me.stack).exec < |sys.execs| { ShareCloser(sys, w); }
      case RunTask(w, targets) =>
        if me.stack == [] && me.queue != [] && Fits(me.queue[0].work, me.reg, targets) {
          RunTaskCloser(sys, w, targets);
        }
    }
  }

  // ------------------------------------------------------------- some step is possible

  lemma {:induction false} ListOf(all: set<SessionId>) returns (list: seq<SessionId>)
    ensures NoDuplicates(list) && forall t :: t in list <==> t in all
  {
    if all == {} {
      list := [];
    } else {
      var t :| t in all;
      var rest := ListOf(all - {t});
      list := rest + [t];
    }
  }

  /** Every share can be served, whatever the registry of the worker. */
  lemma FittingTargets(work: Work, reg: Relation, w: int) returns (targets: seq<SessionId>)
    requires Owned(reg, w)
    ensures Fits(work, reg, targets)
  {
    hide OwnerWorkerFromId; hide Listed;
    match work
    case WorkOne(sid) => targets := Registered(reg.live, [sid]);
    case WorkMany(sids) => targets := Registered(reg.live, sids);
    case WorkSnapshot(target, excluded) =>
      forall t: SessionId | Listed(reg, target, t)
        ensures t in reg.live
      {
        ListedIsLive(reg, w, target, t);
      }
      targets := ListOf(set t | t in reg.live && Listed(reg, target, t) && t != excluded && t != 0);
  }

  /** The worker has no loop in progress and no share to serve. */
  predicate AtRest(me: Worker) {
    me.stack == [] && me.queue == []
  }

  /** A worker that is not at rest has a step that leaves less to do. */
  lemma CanMove(sys: System, w: nat) returns (step: Step)
    requires Inv(sys) && w < |sys.workers| && !AtRest(sys.workers[w])
    ensures Onward(step) && step.w == w && Closer(Next(sys, step), sys)
  {
    hide Closer; hide Fits; hide WorkFor; hide HandNext; hide Owned; hide Progress; hide Streams; hide Execs;
    hide Pairs; hide Climbs; hide Sound; hide Complete; hide NotYet; hide AllOrdered; hide Nested; hide NestedIn;
    var me := sys.workers[w];
    assert WorkerOk(me, w, |sys.workers|, sys.execs);
    if me.stack == [] {
      var targets := FittingTargets(me.queue[0].work, me.reg, w);
      step := RunTask(w, targets);
      RunTaskCloser(sys, w, targets);
    } else {
      var f := Top(me.stack);
      assert FrameOk(me.stack, |me.stack| - 1, me.calls, sys.execs, w);
      match f
      case Handing(k, o) =>
        var work := WorkFor(me.calls[k].call, o);
        var targets := [];
        if work.Some? { targets := FittingTargets(work.value, me.reg, w); }
        step := HandOut(w, targets);
        HandOutCloser(sys, w, targets);
      case Delivering(e, next) =>
        step := if next < |sys.execs[e].targets| then Deliver(w) else Return(w);
        ShareCloser(sys, w);
    }
  }

  // ------------------------------------------------------------- all calls reach their sessions

  /** The same calls and registries, everything served or delivered before, and more served with these registries. */
  predicate Continues(sys: System, sys': System) {
    && |sys'.workers| == |sys.workers|
    && (forall w :: 0 <= w < |sys.workers| ==>
          sys'.workers[w].calls == sys.workers[w].calls && sys'.workers[w].reg == sys.workers[w].reg)
    && sys.execs <= sys'.execs && sys.log <= sys'.log
    && forall e :: |sys.execs| <= e < |sys'.execs| ==>
         sys'.execs[e].worker < |sys.workers| && sys'.execs[e].reg == sys.workers[sys'.execs[e].worker].reg
  }

  lemma NextContinues(sys: System, step: Step)
    requires Onward(step)
    ensures Continues(sys, Next(sys, step))
  {
    hide Fits; hide WorkFor;
  }

  /**
   From every system the invariant holds of, the workers get to rest without new calls. By `NextIsCloser`
   they do so on every schedule that never runs a step in vain for ever.
   */
  lemma ComesToRest(sys: System) returns (steps: seq<Step>)
    requires Inv(sys)
    ensures forall i :: 0 <= i < |steps| ==> Onward(steps[i])
    ensures Continues(sys, Run(sys, steps)) && Inv(Run(sys, steps))
    ensures forall w :: 0 <= w < |sys.workers| ==> AtRest(Run(sys, steps).workers[w])
    decreases Sum(Hands(sys)), Sum(Queued(sys)), Sum(Tells(sys))
  {
    hide Inv; hide Next; hide Sum;
    if w :| 0 <= w < |sys.workers| && !AtRest(sys.workers[w]) {
      var step := CanMove(sys, w);
      NextContinues(sys, step);
      NextKeeps(sys, step);
      var rest := ComesToRest(Next(sys, step));
      steps := [step] + rest;
      RunFirst(sys, step, rest);
    } else {
      steps := [];
    }
  }

  lemma ReachableOn(sys: System, steps: seq<Step>)
    requires Reachable(sys)
    ensures Reachable(Run(sys, steps))
  {
    hide Run; hide Started;
    var start, before :| Started(start) && Run(start, before) == sys;
    RunAppend(start, before, steps);
  }

  /**
   Every call ever made reaches, if the workers run on, every session as often as it is due there by the
   registry of the session's owner when that worker serves the call: the one of now, if it is still to do so.
   */
  lemma EveryCallReaches(sys: System, s: nat, k: nat, t: SessionId) returns (steps: seq<Step>, e: nat)
    requires Reachable(sys) && s < |sys.workers| && k < |sys.workers[s].calls|
    ensures forall i :: 0 <= i < |steps| ==> Onward(steps[i])
    ensures var sys' := Run(sys, steps); var call, o := sys.workers[s].calls[k].call, OwnerWorkerFromId(t);
            && Reachable(sys') && Continues(sys, sys')
            && if 0 <= o < |sys.workers| && WorkFor(call, o).Some? then
                 && TheExec(sys', s, k, o, e) && Owned(sys'.execs[e].reg, o)
                 && Reached(sys'.log, sys'.execs, s, k, t) == Due(call, sys'.execs[e].reg, t)
                 && (e >= |sys.execs| ==> sys'.execs[e].reg == sys.workers[o].reg)
               else Reached(sys'.log, sys'.execs, s, k, t) == 0
  {
    hide Reachable; hide Inv; hide Run; hide OwnerWorkerFromId; hide WorkFor; hide Owned; hide Due; hide Reached;
    ReachableKept(sys);
    steps := ComesToRest(sys);
    ReachableOn(sys, steps);
    e := CallReaches(Run(sys, steps), s, k, t);
  }

  // ------------------------------------------------------------- a share posted to another worker

  /** A session of worker 1. */
  const FAR: SessionId := TWO_32 + 1

  lemma ShareOfFar(reg: Relation)
    requires reg.live == {FAR}
    ensures WorkFor(SendTo(FAR), 0).None? && WorkFor(SendTo(FAR), 1) == Some(WorkOne(FAR))
    ensures Fits(WorkOne(FAR), reg, [FAR]) && OwnerWorkerFromId(FAR) == 1
  {
    assert [FAR][..0] == [];
  }

  lemma {:induction false} RunAll(sys: System, steps: seq<Step>, states: seq<System>)
    requires |states| == |steps| + 1 && states[0] == sys
    requires forall i :: 0 <= i < |steps| ==> Next(states[i], steps[i]) == states[i + 1]
    ensures Run(sys, steps) == states[|steps|]
    decreases |steps|
  {
    hide Next;
    if steps != [] {
      RunAll(states[1], steps[1..], states[1..]);
    }
  }

  /** Two workers of which the first only makes calls and the second only serves them. */
  predicate Duo(sys: System, stack: seq<Frame>, calls: seq<Begun>, queue: seq<Item>, serving: seq<Frame>,
                execs: seq<Exec>, log: seq<Delivery>, reg: Relation) {
    && |sys.workers| == 2 && sys.workers[0].stack == stack && sys.workers[0].calls == calls
    && |sys.workers[0].handed| == 2 && sys.workers[1].queue == queue && sys.workers[1].stack == serving
    && sys.workers[1].reg == reg && sys.execs == execs && sys.log == log
  }

  lemma FarRegisters(reg: Relation) returns (s0: System, s1: System)
    requires reg == Relation({FAR}, {})
    ensures Started(s0) && s1 == Next(s0, ChangeRegistry(1, reg)) && Duo(s1, [], [], [], [], [], [], reg)
  {
    var none := Relation({}, {});
    ShareOfFar(reg);
    s0 := System([Worker([], [], [], [[], []], none), Worker([], [], [], [[], []], none)], [], []);
    s1 := Next(s0, ChangeRegistry(1, reg));
  }

  lemma CallBegins(s1: System, reg: Relation, call: Call) returns (s2: System)
    requires Duo(s1, [], [], [], [], [], [], reg)
    ensures s2 == Next(s1, Begin(0, call)) && Duo(s2, [Handing(0, 0)], [Begun(call, [])], [], [], [], [], reg)
  {
    s2 := Next(s1, Begin(0, call));
  }

  lemma FirstIsSkipped(s2: System, reg: Relation, call: Call) returns (s3: System)
    requires Duo(s2, [Handing(0, 0)], [Begun(call, [])], [], [], [], [], reg) && WorkFor(call, 0).None?
    ensures s3 == Next(s2, HandOut(0, [])) && Duo(s3, [Handing(0, 1)], [Begun(call, [])], [], [], [], [], reg)
  {
    hide WorkFor;
    s3 := Next(s2, HandOut(0, []));
  }

  lemma SecondIsPosted(s3: System, reg: Relation, call: Call, work: Work) returns (s4: System)
    requires Duo(s3, [Handing(0, 1)], [Begun(call, [])], [], [], [], [], reg) && WorkFor(call, 1) == Some(work)
    ensures s4 == Next(s3, HandOut(0, []))
    ensures Duo(s4, [Handing(0, 2)], [Begun(call, [])], [Item(0, 0, work)], [], [], [], reg)
  {
    hide WorkFor;
    s4 := Next(s3, HandOut(0, []));
  }

  lemma LoopEnds(s4: System, reg: Relation, calls: seq<Begun>, it: Item) returns (s5: System)
    requires Duo(s4, [Handing(0, 2)], calls, [it], [], [], [], reg) && |calls| == 1
    ensures s5 == Next(s4, HandOut(0, [])) && Duo(s5, [], calls, [it], [], [], [], reg)
  {
    s5 := Next(s4, HandOut(0, []));
  }

  lemma ItemIsTaken(s5: System, reg: Relation, calls: seq<Begun>, it: Item) returns (s6: System)
    requires Duo(s5, [], calls, [it], [], [], [], reg) && Fits(it.work, reg, [FAR])
    ensures s6 == Next(s5, RunTask(1, [FAR]))
    ensures Duo(s6, [], calls, [], [Delivering(0, 0)], [Exec(1, it, reg, [FAR])], [], reg)
  {
    hide Fits;
    s6 := Next(s5, RunTask(1, [FAR]));
  }

  lemma ItemIsDelivered(s6: System, reg: Relation, calls: seq<Begun>, x: Exec) returns (s7: System)
    requires Duo(s6, [], calls, [], [Delivering(0, 0)], [x], [], reg) && |x.targets| == 1
    ensures s7 == Next(s6, Deliver(1))
    ensures Duo(s7, [], calls, [], [Delivering(0, 1)], [x], [Delivery(0, 0)], reg)
  {
    s7 := Next(s6, Deliver(1));
  }

  /** Worker 0 sends to a session that has registered on worker 1: the share is posted, taken and delivered there. */
  lemma SendCrosses() returns (sys: System)
    ensures Reachable(sys) && |sys.workers| == 2 && sys.workers[0].calls == [Begun(SendTo(FAR), [])]
    ensures sys.log == [Delivery(0, 0)] && |sys.execs| == 1
    ensures sys.execs[0].worker == 1 && sys.execs[0].item == Item(0, 0, WorkOne(FAR)) && sys.execs[0].targets == [FAR]
    ensures SessionAt(sys, 0) == FAR
  {
    hide Next; hide Run; hide Started; hide Fits; hide WorkFor;
    var reg, calls, it := Relation({FAR}, {}), [Begun(SendTo(FAR), [])], Item(0, 0, WorkOne(FAR));
    ShareOfFar(reg);
    var s0, s1 := FarRegisters(reg);
    var s2 := CallBegins(s1, reg, SendTo(FAR));
    var s3 := FirstIsSkipped(s2, reg, SendTo(FAR));
    var s4 := SecondIsPosted(s3, reg, SendTo(FAR), WorkOne(FAR));
    var s5 := LoopEnds(s4, reg, calls, it);
    var s6 := ItemIsTaken(s5, reg, calls, it);
    sys := ItemIsDelivered(s6, reg, calls, Exec(1, it, reg, [FAR]));
    var steps := [ChangeRegistry(1, reg), Begin(0, SendTo(FAR)), HandOut(0, []), HandOut(0, []), HandOut(0, []),
      RunTask(1, [FAR]), Deliver(1)];
    RunAll(s0, steps, [s0, s1, s2, s3, s4, s5, s6, sys]);
  }
}

/**
 Runs of all workers. Workers share nothing but FIFO task queues. A call made on one worker is handed
 out worker by worker: its own share is served at once, one session after the other, and the other
 shares are posted. Handing a packet to a session may close the session, and its end callback may make
 further calls before the loop it interrupted goes on; so a worker has a stack of loops.
 */
module RoutingMachine {
  import opened SessionIds
  import opened Registries
  import opened Routing
  import opened Wrappers

  /** A worker's share of the `number`-th call made on worker `source`. */
  datatype Item = Item(source: nat, number: nat, work: Work)

  /** A share being served: where, with which registry, and the sessions to hand the packet to. */
  datatype Exec = Exec(worker: nat, item: Item, reg: Relation, targets: seq<SessionId>)

  /** The packet of an exec was handed to its `k`-th target. */
  datatype Delivery = Delivery(exec: nat, k: nat)

  /** A loop in progress: over the workers of a call, or over the targets of a share. */
  datatype Frame = Handing(number: nat, next: nat) | Delivering(exec: nat, next: nat)

  /** A call, and the loops that were in progress when it was made. */
  datatype Begun = Begun(call: Call, under: seq<Frame>)

  /** `handed[o]` is the history of shares handed out to worker `o`. */
  datatype Worker = Worker(queue: seq<Item>, stack: seq<Frame>, calls: seq<Begun>, handed: seq<seq<Item>>,
                      reg: Relation)

  datatype System = System(workers: seq<Worker>, execs: seq<Exec>, log: seq<Delivery>)

  datatype Step =
    | Begin(w: nat, call: Call)
    | HandOut(w: nat, targets: seq<SessionId>)
    | Deliver(w: nat)
    | Return(w: nat)
    | RunTask(w: nat, targets: seq<SessionId>)
    | ChangeRegistry(w: nat, reg: Relation)

  function Top(stack: seq<Frame>): Frame
    requires stack != []
  {
    stack[|stack| - 1]
  }

  function Below(stack: seq<Frame>): seq<Frame>
    requires stack != []
  {
    stack[..|stack| - 1]
  }

  /** Application code runs outside all loops, or in an end callback while a packet is being handed over. */
  predicate MayBegin(stack: seq<Frame>) {
    stack == [] || (Top(stack).Delivering? && Top(stack).next > 0)
  }

  function BeginCall(me: Worker, call: Call): Worker {
    me.(stack := me.stack + [Handing(|me.calls|, 0)], calls := me.calls + [Begun(call, me.stack)])
  }

  /** The loop over the workers moves on, past the last worker or one without a share. */
  function Skip(me: Worker): Worker
    requires me.stack != []
  {
    me.(stack := Below(me.stack) + [Top(me.stack).(next := Top(me.stack).next + 1)])
  }

  function Pop(me: Worker): Worker
    requires me.stack != []
  {
    me.(stack := Below(me.stack))
  }

  /** The loop over the workers moves on past worker `o`, which gets `item`. */
  function Hand(me: Worker, o: nat, item: Item): Worker
    requires me.stack != [] && o < |me.handed|
  {
    Skip(me).(handed := me.handed[o := me.handed[o] + [item]])
  }

  function Enter(me: Worker, e: nat): Worker {
    me.(stack := me.stack + [Delivering(e, 0)])
  }

  function Update(sys: System, w: nat, me: Worker): System
    requires w < |sys.workers|
  {
    sys.(workers := sys.workers[w := me])
  }

  /** Worker `w` moves on past worker `o` and posts `item` to its queue. */
  function Posted(sys: System, w: nat, o: nat, item: Item): System
    requires w < |sys.workers| && o < |sys.workers| && sys.workers[w].stack != [] && o < |sys.workers[w].handed|
  {
    Update(Update(sys, w, Hand(sys.workers[w], o, item)), o, sys.workers[o].(queue := sys.workers[o].queue + [item]))
  }

  /** Worker `w` begins to serve a share: `me` is the worker with that share's loop on its stack. */
  function Served(sys: System, w: nat, me: Worker, x: Exec): System
    requires w < |sys.workers|
  {
    Update(sys, w, me).(execs := sys.execs + [x])
  }

  /** One step of the loop of worker `w` over the workers of a call. */
  ghost function HandNext(sys: System, w: nat, targets: seq<SessionId>): System
    requires w < |sys.workers| && sys.workers[w].stack != [] && Top(sys.workers[w].stack).Handing?
    requires Top(sys.workers[w].stack).number < |sys.workers[w].calls|
    requires |sys.workers[w].handed| == |sys.workers|
  {
    var me := sys.workers[w];
    var f := Top(me.stack);
    var o := f.next;
    if o >= |sys.workers| then Update(sys, w, Pop(me))
    else
      var work := WorkFor(me.calls[f.number].call, o);
      if work.None? then Update(sys, w, Skip(me))
      else
        var item := Item(w, f.number, work.value);
        if o != w then Posted(sys, w, o, item)
        else if Fits(item.work, me.reg, targets) then
          Served(sys, w, Enter(Hand(me, o, item), |sys.execs|), Exec(w, item, me.reg, targets))
        else sys
  }

  /** Worker `w` hands the packet of the share on top of its stack to the next target. */
  function Delivered(sys: System, w: nat): System
    requires w < |sys.workers| && sys.workers[w].stack != [] && Top(sys.workers[w].stack).Delivering?
  {
    var f := Top(sys.workers[w].stack);
    Update(sys, w, Skip(sys.workers[w])).(log := sys.log + [Delivery(f.exec, f.next)])
  }

  /** One atomic step of worker `step.w`; a step that cannot happen changes nothing. */
  ghost function Next(sys: System, step: Step): System {
    if step.w >= |sys.workers| then sys
    else
      var me := sys.workers[step.w];
      match step
      case Begin(w, call) =>
        if MayBegin(me.stack) then Update(sys, w, BeginCall(me, call)) else sys
      case HandOut(w, targets) =>
        if me.stack != [] && Top(me.stack).Handing? && Top(me.stack).number < |me.calls| && |me.handed| == |sys.workers|
        then HandNext(sys, w, targets)
        else sys
      case Deliver(w) =>
        if me.stack != [] && Top(me.stack).Delivering? && Top(me.stack).exec < |sys.execs|
           && Top(me.stack).next < |sys.execs[Top(me.stack).exec].targets|
        then Delivered(sys, w)
        else sys
      case Return(w) =>
        if me.stack != [] && Top(me.stack).Delivering? && Top(me.stack).exec < |sys.execs|
           && Top(me.stack).next >= |sys.execs[Top(me.stack).exec].targets|
        then Update(sys, w, Pop(me))
        else sys
      case RunTask(w, targets) =>
        if me.stack == [] && me.queue != [] && Fits(me.queue[0].work, me.reg, targets) then
          Served(sys, w, Enter(me.(queue := me.queue[1..]), |sys.execs|), Exec(w, me.queue[0], me.reg, targets))
        else sys
      case ChangeRegistry(w, reg) =>
        if Owned(reg, w) then Update(sys, w, me.(reg := reg)) else sys
  }

  ghost function Run(sys: System, steps: seq<Step>): System
    decreases |steps|
  {
    if steps == [] then sys else Run(Next(sys, steps[0]), steps[1..])
  }

  predicate Started(sys: System) {
    && sys.execs == [] && sys.log == []
    && forall w :: 0 <= w < |sys.workers| ==> Unused(sys.workers[w], |sys.workers|) && Owned(sys.workers[w].reg, w)
  }

  predicate Unused(me: Worker, n: nat) {
    && me.queue == [] && me.stack == [] && me.calls == []
    && |me.handed| == n && forall o :: 0 <= o < n ==> me.handed[o] == []
  }
}

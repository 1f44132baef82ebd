/**
 What every step of every worker keeps: the loops of each worker, the streams between workers, the progress
 of the shares being served, and the order of the deliveries.
 */
module RoutingInvariant {
  import opened SessionIds
  import opened Registries
  import opened Routing
  import opened Wrappers
  import opened RoutingMachine

  // ------------------------------------------------------------- one worker's loops

  /** Call `k` still has to hand out its share for worker `o`. */
  ghost predicate Pends(stack: seq<Frame>, k: nat, o: nat) {
    exists i :: 0 <= i < |stack| && stack[i].Handing? && stack[i].number == k && stack[i].next <= o
  }

  /** Exec `e` still has to hand its packet to its `k`-th target. */
  ghost predicate Midway(stack: seq<Frame>, e: nat, k: nat) {
    exists i :: 0 <= i < |stack| && stack[i].Delivering? && stack[i].exec == e && stack[i].next <= k
  }

  /** A call's loop stands on the loops it was made under; a local share's loop stands on its call's. */
  ghost predicate FrameOk(stack: seq<Frame>, i: nat, calls: seq<Begun>, execs: seq<Exec>, w: nat)
    requires i < |stack|
  {
    match stack[i]
    case Handing(k, _) => k < |calls| && stack[..i] == calls[k].under
    case Delivering(e, next) =>
      && e < |execs| && execs[e].worker == w && next <= |execs[e].targets|
      && if execs[e].item.source == w then i > 0 && stack[i - 1].Handing? && stack[i - 1].number == execs[e].item.number
            else i == 0
  }

  ghost predicate Shape(stack: seq<Frame>, calls: seq<Begun>, execs: seq<Exec>, w: nat) {
    forall i :: 0 <= i < |stack| ==> FrameOk(stack, i, calls, execs, w)
  }

  ghost predicate Climbs(stack: seq<Frame>) {
    forall i, j :: 0 <= i < j < |stack| ==>
      && (stack[i].Handing? && stack[j].Handing? ==> stack[i].number < stack[j].number)
      && (stack[i].Delivering? && stack[j].Delivering? ==> stack[i].exec < stack[j].exec)
  }

  ghost predicate IssuedBy(calls: seq<Begun>, w: nat, o: nat, it: Item) {
    it.source == w && it.number < |calls| && WorkFor(calls[it.number].call, o) == Some(it.work)
  }

  ghost predicate Sound(calls: seq<Begun>, handed: seq<seq<Item>>, w: nat) {
    forall o, i :: 0 <= o < |handed| && 0 <= i < |handed[o]| ==> IssuedBy(calls, w, o, handed[o][i])
  }

  ghost predicate HandedOrPends(calls: seq<Begun>, handed: seq<seq<Item>>, stack: seq<Frame>, w: nat, k: nat, o: nat)
    requires k < |calls| && o < |handed|
  {
    var work := WorkFor(calls[k].call, o);
    work.Some? ==> Item(w, k, work.value) in handed[o] || Pends(stack, k, o)
  }

  ghost predicate Complete(calls: seq<Begun>, handed: seq<seq<Item>>, stack: seq<Frame>, w: nat) {
    forall k, o :: 0 <= k < |calls| && 0 <= o < |handed| ==> HandedOrPends(calls, handed, stack, w, k, o)
  }

  ghost predicate NotYet(stack: seq<Frame>, handed: seq<seq<Item>>) {
    forall i, o, j :: 0 <= i < |stack| && stack[i].Handing? && stack[i].next <= o < |handed| && 0 <= j < |handed[o]| ==>
      handed[o][j].number != stack[i].number
  }

  /**
   Of two calls, the later one was handed out to `o` first exactly if it was made before the earlier one got there.
   */
  ghost predicate Pair(calls: seq<Begun>, o: nat, a: nat, b: nat) {
    && a < |calls| && b < |calls| && a != b
    && (a < b ==> !Pends(calls[b].under, a, o))
    && (b < a ==> Pends(calls[a].under, b, o))
  }

  ghost predicate Ordered(items: seq<Item>, calls: seq<Begun>, o: nat) {
    forall i, j :: 0 <= i < j < |items| ==> Pair(calls, o, items[i].number, items[j].number)
  }

  ghost predicate AllOrdered(handed: seq<seq<Item>>, calls: seq<Begun>) {
    forall o :: 0 <= o < |handed| ==> Ordered(handed[o], calls, o)
  }

  /** A call made after a loop in progress was made under that loop. */
  ghost predicate Nested(stack: seq<Frame>, calls: seq<Begun>) {
    forall i, y :: 0 <= i < |stack| && stack[i].Handing? && stack[i].number < y < |calls| ==>
      Pends(calls[y].under, stack[i].number, stack[i].next)
  }

  /** The frame is a local share's loop, and the call with this `under` was not made before that share was reached. */
  ghost predicate MadeUnder(f: Frame, under: seq<Frame>, execs: seq<Exec>, w: nat)
    requires f.Delivering? && f.exec < |execs|
  {
    Pends(under, execs[f.exec].item.number, w) || Midway(under, f.exec, f.next)
  }

  predicate LocalAfter(f: Frame, y: nat, execs: seq<Exec>, w: nat) {
    f.Delivering? && f.exec < |execs| && execs[f.exec].item.source == w && execs[f.exec].item.number < y
  }

  ghost predicate NestedIn(stack: seq<Frame>, calls: seq<Begun>, execs: seq<Exec>, w: nat) {
    forall i, y :: 0 <= i < |stack| && 0 <= y < |calls| && LocalAfter(stack[i], y, execs, w) ==>
        MadeUnder(stack[i], calls[y].under, execs, w)
  }

  ghost predicate WorkerOk(me: Worker, w: nat, n: nat, execs: seq<Exec>) {
    && |me.handed| == n && Owned(me.reg, w)
    && Shape(me.stack, me.calls, execs, w) && Climbs(me.stack)
    && Sound(me.calls, me.handed, w) && Complete(me.calls, me.handed, me.stack, w) && NotYet(me.stack, me.handed)
    && AllOrdered(me.handed, me.calls)
    && Nested(me.stack, me.calls) && NestedIn(me.stack, me.calls, execs, w)
  }

  lemma PendsSnoc(stack: seq<Frame>, f: Frame, k: nat, o: nat)
    ensures Pends(stack + [f], k, o) <==> Pends(stack, k, o) || (f.Handing? && f.number == k && f.next <= o)
  {
    var more := stack + [f];
    if Pends(stack, k, o) {
      var i :| 0 <= i < |stack| && stack[i].Handing? && stack[i].number == k && stack[i].next <= o;
      assert more[i] == stack[i];
    }
    if f.Handing? && f.number == k && f.next <= o {
      assert more[|stack|] == f;
    }
  }

  lemma TopSplit(stack: seq<Frame>)
    requires stack != []
    ensures stack == Below(stack) + [Top(stack)]
  {
  }

  // ---- a call begins

  lemma BeginShape(stack: seq<Frame>, calls: seq<Begun>, execs: seq<Exec>, w: nat, call: Call)
    requires Shape(stack, calls, execs, w) && Climbs(stack)
    ensures Shape(stack + [Handing(|calls|, 0)], calls + [Begun(call, stack)], execs, w)
    ensures Climbs(stack + [Handing(|calls|, 0)])
  {
    var stack', calls' := stack + [Handing(|calls|, 0)], calls + [Begun(call, stack)];
    forall i | 0 <= i < |stack'|
      ensures FrameOk(stack', i, calls', execs, w)
    {
      assert stack'[..|stack|] == stack;
      if i < |stack| {
        assert FrameOk(stack, i, calls, execs, w);
        assert stack'[..i] == stack[..i];
      }
    }
    forall j | 0 <= j < |stack|
      ensures stack[j].Handing? ==> stack[j].number < |calls|
    {
      assert FrameOk(stack, j, calls, execs, w);
    }
  }

  lemma BeginHanded(calls: seq<Begun>, handed: seq<seq<Item>>, stack: seq<Frame>, w: nat, call: Call)
    requires Sound(calls, handed, w) && Complete(calls, handed, stack, w) && NotYet(stack, handed)
    requires AllOrdered(handed, calls)
    ensures var calls' := calls + [Begun(call, stack)]; var stack' := stack + [Handing(|calls|, 0)];
            && Sound(calls', handed, w) && Complete(calls', handed, stack', w) && NotYet(stack', handed)
                  && AllOrdered(handed, calls')
  {
    hide WorkFor; hide Pends;
    var calls' := calls + [Begun(call, stack)];
    var stack' := stack + [Handing(|calls|, 0)];
    forall k, o | 0 <= k < |calls'| && 0 <= o < |handed|
      ensures HandedOrPends(calls', handed, stack', w, k, o)
    {
      PendsSnoc(stack, Handing(|calls|, 0), k, o);
      if k < |calls| {
        assert HandedOrPends(calls, handed, stack, w, k, o);
      }
    }
    forall o, i | 0 <= o < |handed| && 0 <= i < |handed[o]|
      ensures IssuedBy(calls', w, o, handed[o][i]) && handed[o][i].number != |calls|
    {
      assert IssuedBy(calls, w, o, handed[o][i]);
    }
    forall o | 0 <= o < |handed|
      ensures Ordered(handed[o], calls', o)
    {
      assert Ordered(handed[o], calls, o);
    }
  }

  lemma BeginNested(stack: seq<Frame>, calls: seq<Begun>, execs: seq<Exec>, w: nat, call: Call)
    requires Nested(stack, calls) && NestedIn(stack, calls, execs, w)
    ensures var calls' := calls + [Begun(call, stack)]; var stack' := stack + [Handing(|calls|, 0)];
            Nested(stack', calls') && NestedIn(stack', calls', execs, w)
  {
    var calls' := calls + [Begun(call, stack)];
    var stack' := stack + [Handing(|calls|, 0)];
    forall i, y | 0 <= i < |stack'| && stack'[i].Handing? && stack'[i].number < y < |calls'|
      ensures Pends(calls'[y].under, stack'[i].number, stack'[i].next)
    {
      assert i < |stack| && stack'[i] == stack[i];
      if y < |calls| {
        assert calls'[y] == calls[y];
      }
    }
    forall i, y | 0 <= i < |stack'| && 0 <= y < |calls'| && LocalAfter(stack'[i], y, execs, w)
      ensures MadeUnder(stack'[i], calls'[y].under, execs, w)
    {
      assert i < |stack| && stack'[i] == stack[i];
      if y < |calls| {
        assert calls'[y] == calls[y];
      }
    }
  }

  lemma BeginWorker(me: Worker, w: nat, n: nat, execs: seq<Exec>, call: Call)
    requires WorkerOk(me, w, n, execs)
    ensures WorkerOk(BeginCall(me, call), w, n, execs)
  {
    hide Shape; hide Climbs; hide Sound; hide Complete; hide NotYet; hide AllOrdered; hide Nested;
    hide NestedIn; hide Owned;
    BeginShape(me.stack, me.calls, execs, w, call);
    BeginHanded(me.calls, me.handed, me.stack, w, call);
    BeginNested(me.stack, me.calls, execs, w, call);
  }

  // ---- a loop moves on

  function Moved(stack: seq<Frame>): seq<Frame>
    requires stack != []
  {
    Below(stack) + [Top(stack).(next := Top(stack).next + 1)]
  }

  lemma MovedShape(stack: seq<Frame>, calls: seq<Begun>, execs: seq<Exec>, w: nat)
    requires stack != [] && Shape(stack, calls, execs, w) && Climbs(stack)
    requires Top(stack).Delivering? ==> Top(stack).exec < |execs| && Top(stack).next < |execs[Top(stack).exec].targets|
    ensures Shape(Moved(stack), calls, execs, w) && Climbs(Moved(stack))
  {
    var moved := Moved(stack);
    forall i | 0 <= i < |stack|
      ensures FrameOk(moved, i, calls, execs, w)
    {
      assert FrameOk(stack, i, calls, execs, w);
      assert moved[..i] == stack[..i];
    }
  }

  lemma PopShape(stack: seq<Frame>, calls: seq<Begun>, execs: seq<Exec>, w: nat)
    requires stack != [] && Shape(stack, calls, execs, w) && Climbs(stack)
    ensures Shape(Below(stack), calls, execs, w) && Climbs(Below(stack))
  {
    var below := Below(stack);
    forall i | 0 <= i < |below|
      ensures FrameOk(below, i, calls, execs, w)
    {
      assert FrameOk(stack, i, calls, execs, w);
      assert below[..i] == stack[..i];
    }
  }

  lemma MovedNested(stack: seq<Frame>, calls: seq<Begun>, execs: seq<Exec>, w: nat)
    requires stack != [] && Nested(stack, calls) && NestedIn(stack, calls, execs, w)
    ensures Nested(Moved(stack), calls) && NestedIn(Moved(stack), calls, execs, w)
    ensures Nested(Below(stack), calls) && NestedIn(Below(stack), calls, execs, w)
  {
    var moved, below := Moved(stack), Below(stack);
    forall i, y | 0 <= i < |stack| && moved[i].Handing? && moved[i].number < y < |calls|
      ensures Pends(calls[y].under, moved[i].number, moved[i].next)
    {
      assert Pends(calls[y].under, stack[i].number, stack[i].next);
    }
    forall i, y | 0 <= i < |stack| && 0 <= y < |calls| && LocalAfter(moved[i], y, execs, w)
      ensures MadeUnder(moved[i], calls[y].under, execs, w)
    {
      assert LocalAfter(stack[i], y, execs, w);
      assert MadeUnder(stack[i], calls[y].under, execs, w);
    }
    assert forall i :: 0 <= i < |below| ==> below[i] == stack[i];
  }

  lemma MovedNotYet(stack: seq<Frame>, handed: seq<seq<Item>>)
    requires stack != [] && NotYet(stack, handed)
    ensures NotYet(Moved(stack), handed) && NotYet(Below(stack), handed)
  {
    var moved, below := Moved(stack), Below(stack);
    assert forall i :: 0 <= i < |below| ==> below[i] == stack[i] == moved[i];
  }

  /** The loop may move on, or end, when worker `next` needs nothing. */
  lemma MovedComplete(calls: seq<Begun>, handed: seq<seq<Item>>, stack: seq<Frame>, w: nat)
    requires stack != [] && Complete(calls, handed, stack, w)
    requires Top(stack).Handing? ==>
               Top(stack).number < |calls| && (Top(stack).next < |handed| ==>
                   WorkFor(calls[Top(stack).number].call, Top(stack).next).None?)
    ensures Complete(calls, handed, Moved(stack), w)
    ensures Top(stack).Handing? ==> Top(stack).next >= |handed| ==> Complete(calls, handed, Below(stack), w)
    ensures Top(stack).Delivering? ==> Complete(calls, handed, Below(stack), w)
  {
    hide WorkFor; hide Pends;
    var f := Top(stack);
    TopSplit(stack);
    forall k, o | 0 <= k < |calls| && 0 <= o < |handed|
      ensures HandedOrPends(calls, handed, Moved(stack), w, k, o)
      ensures f.Delivering? || f.next >= |handed| ==> HandedOrPends(calls, handed, Below(stack), w, k, o)
    {
      assert HandedOrPends(calls, handed, stack, w, k, o);
      PendsSnoc(Below(stack), f, k, o);
      PendsSnoc(Below(stack), f.(next := f.next + 1), k, o);
    }
  }

  // ---- a share is handed out

  lemma HandSound(calls: seq<Begun>, handed: seq<seq<Item>>, stack: seq<Frame>, w: nat, item: Item)
    requires stack != [] && Top(stack).Handing? && Top(stack).next < |handed|
    requires Sound(calls, handed, w) && Complete(calls, handed, stack, w)
    requires IssuedBy(calls, w, Top(stack).next, item) && item.number == Top(stack).number
    ensures var o := Top(stack).next; var handed' := handed[o := handed[o] + [item]];
            Sound(calls, handed', w) && Complete(calls, handed', Moved(stack), w)
  {
    hide WorkFor; hide Pends;
    var f := Top(stack);
    var handed' := handed[f.next := handed[f.next] + [item]];
    TopSplit(stack);
    forall k, o | 0 <= k < |calls| && 0 <= o < |handed|
      ensures HandedOrPends(calls, handed', Moved(stack), w, k, o)
    {
      assert HandedOrPends(calls, handed, stack, w, k, o);
      PendsSnoc(Below(stack), f, k, o);
      PendsSnoc(Below(stack), Handing(f.number, f.next + 1), k, o);
      if k == f.number && o == f.next {
        assert handed'[o][|handed[o]|] == item;
      }
    }
    forall o, i | 0 <= o < |handed'| && 0 <= i < |handed'[o]|
      ensures IssuedBy(calls, w, o, handed'[o][i])
    {
      if i < |handed[o]| {
        assert IssuedBy(calls, w, o, handed[o][i]);
      }
    }
  }

  lemma HandNotYet(stack: seq<Frame>, handed: seq<seq<Item>>, item: Item)
    requires stack != [] && Top(stack).Handing? && Top(stack).next < |handed| && item.number == Top(stack).number
    requires NotYet(stack, handed) && Climbs(stack)
    ensures var o := Top(stack).next; NotYet(Moved(stack), handed[o := handed[o] + [item]])
  {
    var f, moved := Top(stack), Moved(stack);
    var handed': seq<seq<Item>> := handed[f.next := handed[f.next] + [item]];
    forall i: int, o: int, j: int | 0 <= i < |moved| && moved[i].Handing? && moved[i].next <= o < |handed'|
        && 0 <= j < |handed'[o]|
      ensures handed'[o][j].number != moved[i].number
    {
      assert stack[i].Handing? && stack[i].number == moved[i].number && stack[i].next <= moved[i].next;
      if j < |handed[o]| {
        assert handed'[o][j] == handed[o][j];
      } else {
        assert o == f.next && i < |stack| - 1;
      }
    }
  }

  lemma PendsPrefix(stack: seq<Frame>, m: nat, k: nat, o: nat)
    requires m <= |stack|
    ensures Pends(stack[..m], k, o) ==> Pends(stack, k, o)
  {
    if Pends(stack[..m], k, o) {
      var p :| 0 <= p < m && stack[..m][p].Handing? && stack[..m][p].number == k && stack[..m][p].next <= o;
      assert stack[p] == stack[..m][p];
    }
  }

  lemma MidwayPrefix(stack: seq<Frame>, m: nat, e: nat, k: nat)
    requires m <= |stack|
    ensures Midway(stack[..m], e, k) ==> Midway(stack, e, k)
  {
    if Midway(stack[..m], e, k) {
      var p :| 0 <= p < m && stack[..m][p].Delivering? && stack[..m][p].exec == e && stack[..m][p].next <= k;
      assert stack[p] == stack[..m][p];
    }
  }

  lemma PendsNotHanded(stack: seq<Frame>, handed: seq<seq<Item>>, o: nat, j: nat)
    requires NotYet(stack, handed) && o < |handed| && j < |handed[o]|
    ensures !Pends(stack, handed[o][j].number, o)
  {
  }

  /** Handing a share out keeps the order: what was handed to that worker before was made before, or in between. */
  lemma HandOrdered(me: Worker, w: nat, execs: seq<Exec>, item: Item)
    requires me.stack != [] && Top(me.stack).Handing? && Top(me.stack).next < |me.handed|
    requires item.number == Top(me.stack).number
    requires Shape(me.stack, me.calls, execs, w) && Sound(me.calls, me.handed, w) && NotYet(me.stack, me.handed)
    requires AllOrdered(me.handed, me.calls) && Nested(me.stack, me.calls)
    ensures var o := Top(me.stack).next; AllOrdered(me.handed[o := me.handed[o] + [item]], me.calls)
  {
    hide WorkFor; hide Pends;
    var f := Top(me.stack);
    var o, x := f.next, f.number;
    var items := me.handed[o];
    var last := |me.stack| - 1;
    assert FrameOk(me.stack, last, me.calls, execs, w);
    assert Ordered(items, me.calls, o);
    forall i | 0 <= i < |items|
      ensures Pair(me.calls, o, items[i].number, x)
    {
      var y := items[i].number;
      assert IssuedBy(me.calls, w, o, items[i]);
      assert y != x;
      PendsPrefix(me.stack, last, y, o);
      PendsNotHanded(me.stack, me.handed, o, i);
      if x < y {
        assert Pends(me.calls[y].under, me.stack[last].number, me.stack[last].next);
      }
    }
    var handed' := me.handed[o := items + [item]];
    forall v | 0 <= v < |handed'|
      ensures Ordered(handed'[v], me.calls, v)
    {
      assert Ordered(me.handed[v], me.calls, v);
    }
  }

  // ---- what each of its steps does to a worker

  lemma PopWorker(me: Worker, w: nat, n: nat, execs: seq<Exec>)
    requires WorkerOk(me, w, n, execs) && me.stack != []
    requires Top(me.stack).Handing? ==> Top(me.stack).number < |me.calls| && Top(me.stack).next >= n
    ensures WorkerOk(Pop(me), w, n, execs)
  {
    hide Shape; hide Climbs; hide Sound; hide Complete; hide NotYet; hide AllOrdered; hide Nested;
    hide NestedIn; hide Owned;
    PopShape(me.stack, me.calls, execs, w);
    MovedNested(me.stack, me.calls, execs, w);
    MovedNotYet(me.stack, me.handed);
    MovedComplete(me.calls, me.handed, me.stack, w);
  }

  lemma SkipWorker(me: Worker, w: nat, n: nat, execs: seq<Exec>)
    requires WorkerOk(me, w, n, execs) && me.stack != []
    requires var f := Top(me.stack);
             if f.Handing? then f.number < |me.calls| && (f.next < n ==> WorkFor(me.calls[f.number].call, f.next).None?)
             else f.exec < |execs| && f.next < |execs[f.exec].targets|
    ensures WorkerOk(Skip(me), w, n, execs)
  {
    hide Shape; hide Climbs; hide Sound; hide Complete; hide NotYet; hide AllOrdered; hide Nested;
    hide NestedIn; hide Owned; hide WorkFor;
    assert Skip(me).stack == Moved(me.stack);
    MovedShape(me.stack, me.calls, execs, w);
    MovedNested(me.stack, me.calls, execs, w);
    MovedNotYet(me.stack, me.handed);
    MovedComplete(me.calls, me.handed, me.stack, w);
  }

  lemma HandWorker(me: Worker, w: nat, n: nat, execs: seq<Exec>, item: Item)
    requires WorkerOk(me, w, n, execs) && me.stack != [] && Top(me.stack).Handing? && Top(me.stack).next < n
    requires IssuedBy(me.calls, w, Top(me.stack).next, item) && item.number == Top(me.stack).number
    ensures WorkerOk(Hand(me, Top(me.stack).next, item), w, n, execs)
  {
    hide Shape; hide Climbs; hide Sound; hide Complete; hide NotYet; hide AllOrdered; hide Nested;
    hide NestedIn; hide Owned; hide IssuedBy;
    var me' := Hand(me, Top(me.stack).next, item);
    assert me'.stack == Moved(me.stack);
    MovedShape(me.stack, me.calls, execs, w);
    MovedNested(me.stack, me.calls, execs, w);
    HandSound(me.calls, me.handed, me.stack, w, item);
    HandNotYet(me.stack, me.handed, item);
    HandOrdered(me, w, execs, item);
  }

  /** Execs of other workers, and later ones, do not matter to a worker's loops. */
  lemma ExecsGrow(me: Worker, w: nat, n: nat, execs: seq<Exec>, x: Exec)
    requires WorkerOk(me, w, n, execs)
    ensures WorkerOk(me, w, n, execs + [x])
  {
    hide Climbs; hide Sound; hide Complete; hide NotYet; hide AllOrdered; hide Nested; hide Owned;
    var execs' := execs + [x];
    forall i | 0 <= i < |me.stack|
      ensures FrameOk(me.stack, i, me.calls, execs', w)
    {
      assert FrameOk(me.stack, i, me.calls, execs, w);
    }
    forall i, y | 0 <= i < |me.stack| && 0 <= y < |me.calls| && LocalAfter(me.stack[i], y, execs', w)
      ensures MadeUnder(me.stack[i], me.calls[y].under, execs', w)
    {
      assert FrameOk(me.stack, i, me.calls, execs, w);
      assert LocalAfter(me.stack[i], y, execs, w);
    }
  }

  /** Where the loop of a new exec may stand: on its own call's loop, or on nothing. */
  ghost predicate MayEnter(me: Worker, w: nat, x: Exec) {
    && x.worker == w
    && if x.item.source == w then
         && me.stack != [] && Top(me.stack).Handing? && Top(me.stack).number == x.item.number
         && forall y :: x.item.number < y < |me.calls| ==> Pends(me.calls[y].under, x.item.number, w)
       else me.stack == []
  }

  lemma EnterShape(me: Worker, w: nat, execs: seq<Exec>, x: Exec)
    requires Shape(me.stack, me.calls, execs, w) && Climbs(me.stack)
    requires NestedIn(me.stack, me.calls, execs, w) && MayEnter(me, w, x)
    ensures var stack' := me.stack + [Delivering(|execs|, 0)];
            Shape(stack', me.calls, execs + [x], w) && Climbs(stack') && NestedIn(stack', me.calls, execs + [x], w)
  {
    hide Pends; hide Midway;
    var stack', execs' := me.stack + [Delivering(|execs|, 0)], execs + [x];
    forall i | 0 <= i < |stack'|
      ensures FrameOk(stack', i, me.calls, execs', w)
      ensures i < |me.stack| && stack'[i].Delivering? ==> stack'[i].exec < |execs|
    {
      if i < |me.stack| {
        assert FrameOk(me.stack, i, me.calls, execs, w);
        assert stack'[..i] == me.stack[..i];
      }
    }
    forall i, y | 0 <= i < |stack'| && 0 <= y < |me.calls| && LocalAfter(stack'[i], y, execs', w)
      ensures MadeUnder(stack'[i], me.calls[y].under, execs', w)
    {
      if i < |me.stack| {
        assert LocalAfter(me.stack[i], y, execs, w);
      }
    }
  }

  lemma EnterRest(me: Worker, w: nat, e: nat)
    requires Complete(me.calls, me.handed, me.stack, w) && NotYet(me.stack, me.handed) && Nested(me.stack, me.calls)
    ensures var stack' := me.stack + [Delivering(e, 0)];
            Complete(me.calls, me.handed, stack', w) && NotYet(stack', me.handed) && Nested(stack', me.calls)
  {
    hide WorkFor; hide Pends;
    var stack' := me.stack + [Delivering(e, 0)];
    forall k, o | 0 <= k < |me.calls| && 0 <= o < |me.handed|
      ensures HandedOrPends(me.calls, me.handed, stack', w, k, o)
    {
      assert HandedOrPends(me.calls, me.handed, me.stack, w, k, o);
      PendsSnoc(me.stack, Delivering(e, 0), k, o);
    }
    assert forall i :: 0 <= i < |me.stack| ==> stack'[i] == me.stack[i];
  }

  lemma EnterWorker(me: Worker, w: nat, n: nat, execs: seq<Exec>, x: Exec)
    requires WorkerOk(me, w, n, execs) && MayEnter(me, w, x)
    ensures WorkerOk(Enter(me, |execs|), w, n, execs + [x])
  {
    hide Shape; hide Climbs; hide Sound; hide Complete; hide NotYet; hide AllOrdered; hide Nested;
    hide NestedIn; hide Owned; hide MayEnter;
    EnterShape(me, w, execs, x);
    EnterRest(me, w, |execs|);
  }

  /** Handing out the own share and entering its loop. */
  lemma HandEnterWorker(me: Worker, w: nat, n: nat, execs: seq<Exec>, x: Exec)
    requires WorkerOk(me, w, n, execs) && me.stack != [] && Top(me.stack).Handing? && Top(me.stack).next == w < n
    requires IssuedBy(me.calls, w, w, x.item) && x.item.number == Top(me.stack).number && x.worker == w
    ensures WorkerOk(Enter(Hand(me, w, x.item), |execs|), w, n, execs + [x])
  {
    hide Shape; hide Climbs; hide Sound; hide Complete; hide NotYet; hide AllOrdered; hide NestedIn;
    hide Owned; hide Pends; hide WorkFor;
    HandWorker(me, w, n, execs, x.item);
    var me' := Hand(me, w, x.item);
    var last := |me.stack| - 1;
    forall y | x.item.number < y < |me'.calls|
      ensures Pends(me'.calls[y].under, x.item.number, w)
    {
      assert Pends(me.calls[y].under, me.stack[last].number, me.stack[last].next);
    }
    assert MayEnter(me', w, x);
    EnterWorker(me', w, n, execs, x);
  }

  // ------------------------------------------------------------- all workers

  ghost predicate Loops(sys: System) {
    forall w :: 0 <= w < |sys.workers| ==> WorkerOk(sys.workers[w], w, |sys.workers|, sys.execs)
  }

  function Keep(it: Item, s: nat): seq<Item> {
    if it.source == s then [it] else []
  }

  /** The items of source `s` in a queue, in order. */
  function QueueOf(queue: seq<Item>, s: nat): seq<Item> {
    if queue == [] then [] else Keep(queue[0], s) + QueueOf(queue[1..], s)
  }

  /** The items of source `s` that worker `o` has begun to serve, in order. */
  function ExecsOf(execs: seq<Exec>, s: nat, o: nat): seq<Item> {
    if execs == [] then []
    else
      var x := execs[|execs| - 1];
      ExecsOf(execs[..|execs| - 1], s, o) + if x.worker == o then Keep(x.item, s) else []
  }

  /** Nothing lost, duplicated or reordered between two workers: served and queued is what was handed out. */
  ghost predicate StreamOk(sys: System, s: nat, o: nat) {
    s < |sys.workers| && o < |sys.workers| && o < |sys.workers[s].handed| ==>
      ExecsOf(sys.execs, s, o) + QueueOf(sys.workers[o].queue, s) == sys.workers[s].handed[o]
  }

  ghost predicate QueueOk(sys: System, w: nat)
    requires w < |sys.workers|
  {
    var queue := sys.workers[w].queue;
    QueueOf(queue, w) == [] && forall i :: 0 <= i < |queue| ==> queue[i].source < |sys.workers|
  }

  ghost predicate Streams(sys: System) {
    && (forall s, o :: StreamOk(sys, s, o))
    && (forall w :: 0 <= w < |sys.workers| ==> QueueOk(sys, w))
  }

  /** A share is served as its call asks, with a registry of its own worker. */
  ghost predicate ExecOk(sys: System, x: Exec) {
    && x.worker < |sys.workers| && x.item.source < |sys.workers|
    && IssuedBy(sys.workers[x.item.source].calls, x.item.source, x.worker, x.item)
    && Owned(x.reg, x.worker) && Fits(x.item.work, x.reg, x.targets)
  }

  ghost predicate Execs(sys: System) {
    forall e :: 0 <= e < |sys.execs| ==> ExecOk(sys, sys.execs[e])
  }

  lemma {:induction false} QueueOfSnoc(queue: seq<Item>, it: Item, s: nat)
    ensures QueueOf(queue + [it], s) == QueueOf(queue, s) + Keep(it, s)
  {
    hide Keep;
    if queue == [] {
      assert queue + [it] == [it];
      assert [it][1..] == [];
    } else {
      assert (queue + [it])[1..] == queue[1..] + [it];
      QueueOfSnoc(queue[1..], it, s);
    }
  }

  lemma ExecsOfSnoc(execs: seq<Exec>, x: Exec, s: nat, o: nat)
    ensures ExecsOf(execs + [x], s, o) == ExecsOf(execs, s, o) + if x.worker == o then Keep(x.item, s) else []
  {
    assert (execs + [x])[..|execs|] == execs;
  }

  /** Two systems whose queues, histories and execs are the same. */
  ghost predicate SameTraffic(sys: System, sys': System) {
    && |sys'.workers| == |sys.workers| && sys'.execs == sys.execs
    && forall v :: 0 <= v < |sys.workers| ==>
          sys'.workers[v].queue == sys.workers[v].queue && sys'.workers[v].handed == sys.workers[v].handed
  }

  lemma StreamsSame(sys: System, sys': System)
    requires Streams(sys) && SameTraffic(sys, sys')
    ensures Streams(sys')
  {
    hide QueueOf; hide ExecsOf;
    forall s, o
      ensures StreamOk(sys', s, o)
    {
      assert StreamOk(sys, s, o);
    }
    forall w | 0 <= w < |sys'.workers|
      ensures QueueOk(sys', w)
    {
      assert QueueOk(sys, w);
    }
  }

  /** Calls are only ever added. */
  ghost predicate CallsKept(sys: System, sys': System) {
    && |sys'.workers| == |sys.workers|
    && forall v :: 0 <= v < |sys.workers| ==> sys.workers[v].calls <= sys'.workers[v].calls
  }

  lemma ExecStays(sys: System, sys': System, x: Exec)
    requires ExecOk(sys, x) && CallsKept(sys, sys')
    ensures ExecOk(sys', x)
  {
    hide WorkFor; hide Owned; hide Fits;
    assert sys'.workers[x.item.source].calls[x.item.number] == sys.workers[x.item.source].calls[x.item.number];
  }

  lemma LoopsUpdate(sys: System, w: nat, me: Worker)
    requires Loops(sys) && w < |sys.workers| && WorkerOk(me, w, |sys.workers|, sys.execs)
    ensures Loops(Update(sys, w, me))
  {
    hide WorkerOk;
  }

  /** Only worker `w` changed, and only its loops, calls or registry. */
  lemma QuietUpdate(sys: System, w: nat, me: Worker)
    requires Loops(sys) && Streams(sys) && Execs(sys) && w < |sys.workers| && WorkerOk(me, w, |sys.workers|, sys.execs)
    requires me.queue == sys.workers[w].queue && me.handed == sys.workers[w].handed && sys.workers[w].calls <= me.calls
    ensures var sys' := Update(sys, w, me); Loops(sys') && Streams(sys') && Execs(sys')
  {
    hide WorkerOk; hide Streams; hide ExecOk;
    var sys' := Update(sys, w, me);
    LoopsUpdate(sys, w, me);
    StreamsSame(sys, sys');
    forall e | 0 <= e < |sys'.execs|
      ensures ExecOk(sys', sys'.execs[e])
    {
      ExecStays(sys, sys', sys.execs[e]);
    }
  }

  lemma PostedStreams(sys: System, w: nat, o: nat, item: Item)
    requires Streams(sys) && w < |sys.workers| && o < |sys.workers| && w != o
    requires sys.workers[w].stack != [] && o < |sys.workers[w].handed|
    requires item.source == w
    ensures Streams(Posted(sys, w, o, item))
  {
    hide QueueOf; hide ExecsOf;
    var sys' := Posted(sys, w, o, item);
    forall s, v
      ensures StreamOk(sys', s, v)
    {
      assert StreamOk(sys, s, v);
      if v == o {
        QueueOfSnoc(sys.workers[o].queue, item, s);
      }
    }
    forall v | 0 <= v < |sys'.workers|
      ensures QueueOk(sys', v)
    {
      assert QueueOk(sys, v);
      if v == o {
        QueueOfSnoc(sys.workers[o].queue, item, o);
      }
    }
  }

  lemma PostedKeeps(sys: System, w: nat, item: Item)
    requires Loops(sys) && Streams(sys) && Execs(sys) && w < |sys.workers|
    requires var me := sys.workers[w];
             && me.stack != [] && Top(me.stack).Handing? && Top(me.stack).next < |sys.workers|
                   && Top(me.stack).next != w
             && IssuedBy(me.calls, w, Top(me.stack).next, item) && item.number == Top(me.stack).number
    ensures WorkerOk(sys.workers[w], w, |sys.workers|, sys.execs)
    ensures var sys' := Posted(sys, w, Top(sys.workers[w].stack).next, item);
            Loops(sys') && Streams(sys') && Execs(sys')
  {
    hide WorkFor; hide Streams; hide ExecOk; hide Shape; hide Climbs; hide Sound; hide Complete;
    hide NotYet; hide AllOrdered; hide Nested; hide NestedIn; hide Owned;
    var me := sys.workers[w];
    var o := Top(me.stack).next;
    var sys' := Posted(sys, w, o, item);
    HandWorker(me, w, |sys.workers|, sys.execs, item);
    PostedStreams(sys, w, o, item);
    forall e | 0 <= e < |sys'.execs|
      ensures ExecOk(sys', sys'.execs[e])
    {
      ExecStays(sys, sys', sys.execs[e]);
    }
  }

  lemma ServedLoops(sys: System, w: nat, me: Worker, x: Exec)
    requires Loops(sys) && w < |sys.workers| && WorkerOk(me, w, |sys.workers|, sys.execs + [x])
    ensures Loops(Served(sys, w, me, x))
  {
    hide WorkerOk;
    forall v | 0 <= v < |sys.workers| && v != w
      ensures WorkerOk(sys.workers[v], v, |sys.workers|, sys.execs + [x])
    {
      ExecsGrow(sys.workers[v], v, |sys.workers|, sys.execs, x);
    }
  }

  lemma ServedExecs(sys: System, w: nat, me: Worker, x: Exec)
    requires Execs(sys) && w < |sys.workers| && ExecOk(sys, x) && me.calls == sys.workers[w].calls
    ensures Execs(Served(sys, w, me, x))
  {
    hide ExecOk;
    var sys' := Served(sys, w, me, x);
    forall e | 0 <= e < |sys'.execs|
      ensures ExecOk(sys', sys'.execs[e])
    {
      ExecStays(sys, sys', sys'.execs[e]);
    }
  }

  lemma LocalStreams(sys: System, w: nat, me: Worker, x: Exec)
    requires Streams(sys) && w < |sys.workers| && w < |sys.workers[w].handed| && x.worker == w && x.item.source == w
    requires me.queue == sys.workers[w].queue
    requires me.handed == sys.workers[w].handed[w := sys.workers[w].handed[w] + [x.item]]
    ensures Streams(Served(sys, w, me, x))
  {
    hide QueueOf; hide ExecsOf;
    var sys' := Served(sys, w, me, x);
    assert QueueOk(sys, w);
    forall s, o
      ensures StreamOk(sys', s, o)
    {
      assert StreamOk(sys, s, o);
      ExecsOfSnoc(sys.execs, x, s, o);
    }
    forall v | 0 <= v < |sys'.workers|
      ensures QueueOk(sys', v)
    {
      assert QueueOk(sys, v);
    }
  }

  lemma TaskStreams(sys: System, w: nat, me: Worker, x: Exec)
    requires Streams(sys) && w < |sys.workers| && sys.workers[w].queue != [] && x.worker == w
    requires x.item == sys.workers[w].queue[0]
    requires me.queue == sys.workers[w].queue[1..] && me.handed == sys.workers[w].handed
    ensures Streams(Served(sys, w, me, x))
  {
    hide ExecsOf;
    var sys' := Served(sys, w, me, x);
    forall s, o
      ensures StreamOk(sys', s, o)
    {
      assert StreamOk(sys, s, o);
      ExecsOfSnoc(sys.execs, x, s, o);
    }
    forall v | 0 <= v < |sys'.workers|
      ensures QueueOk(sys', v)
    {
      assert QueueOk(sys, v);
    }
  }

  /** The oldest task of a queue is a share of a call made on its source, another worker. */
  lemma HeadWasIssued(sys: System, w: nat)
    requires Loops(sys) && Streams(sys) && w < |sys.workers| && sys.workers[w].queue != []
    ensures var it := sys.workers[w].queue[0];
            && it.source < |sys.workers| && it.source != w
            && IssuedBy(sys.workers[it.source].calls, it.source, w, it)
  {
    hide WorkFor; hide ExecsOf; hide Shape; hide Climbs; hide Complete; hide NotYet; hide AllOrdered;
    hide Nested; hide NestedIn; hide Owned;
    var it := sys.workers[w].queue[0];
    assert QueueOk(sys, w);
    assert WorkerOk(sys.workers[it.source], it.source, |sys.workers|, sys.execs);
    assert StreamOk(sys, it.source, w);
    var i := |ExecsOf(sys.execs, it.source, w)|;
    assert QueueOf(sys.workers[w].queue, it.source)[0] == it;
    assert sys.workers[it.source].handed[w][i] == it;
  }

  // ------------------------------------------------------------- progress of the shares

  /** The target numbers an exec has handed its packet to, in order. */
  function KsOf(log: seq<Delivery>, e: nat): seq<nat> {
    if log == [] then []
    else
      var d := log[|log| - 1];
      KsOf(log[..|log| - 1], e) + if d.exec == e then [d.k] else []
  }

  function Upto(n: nat): seq<nat> {
    if n == 0 then [] else Upto(n - 1) + [n - 1]
  }

  /** A share's loop has served exactly the targets before its position, in order, once each. */
  ghost predicate Told(log: seq<Delivery>, stack: seq<Frame>) {
    forall i :: 0 <= i < |stack| && stack[i].Delivering? ==> KsOf(log, stack[i].exec) == Upto(stack[i].next)
  }

  ghost predicate OnStack(stack: seq<Frame>, e: nat) {
    exists i :: 0 <= i < |stack| && stack[i].Delivering? && stack[i].exec == e
  }

  /** A share has served all its targets, or its loop is still in progress. */
  ghost predicate Finished(log: seq<Delivery>, execs: seq<Exec>, e: nat, stack: seq<Frame>)
    requires e < |execs|
  {
    KsOf(log, e) == Upto(|execs[e].targets|) || OnStack(stack, e)
  }

  /** The share of another worker's call that is being served is the latest one. */
  ghost predicate Latest(stack: seq<Frame>, execs: seq<Exec>, w: nat) {
    stack != [] && stack[0].Delivering? ==>
      forall f :: 0 <= f < |execs| && execs[f].worker == w && execs[f].item.source != w ==> f <= stack[0].exec
  }

  ghost predicate Logged(log: seq<Delivery>, execs: seq<Exec>) {
    forall i :: 0 <= i < |log| ==> log[i].exec < |execs| && log[i].k < |execs[log[i].exec].targets|
  }

  ghost predicate AllTold(sys: System) {
    forall w :: 0 <= w < |sys.workers| ==>
        Told(sys.log, sys.workers[w].stack) && Latest(sys.workers[w].stack, sys.execs, w)
  }

  ghost predicate AllFinished(sys: System) {
    forall e :: 0 <= e < |sys.execs| && sys.execs[e].worker < |sys.workers| ==>
      Finished(sys.log, sys.execs, e, sys.workers[sys.execs[e].worker].stack)
  }

  ghost predicate Progress(sys: System) {
    Logged(sys.log, sys.execs) && AllTold(sys) && AllFinished(sys)
  }

  lemma KsOfSnoc(log: seq<Delivery>, d: Delivery, e: nat)
    ensures KsOf(log + [d], e) == KsOf(log, e) + if d.exec == e then [d.k] else []
  {
    assert (log + [d])[..|log|] == log;
  }

  lemma {:induction false} KsOfHolds(log: seq<Delivery>, i: nat)
    requires i < |log|
    ensures log[i].k in KsOf(log, log[i].exec)
  {
    if i < |log| - 1 {
      KsOfHolds(log[..|log| - 1], i);
    }
  }

  lemma {:induction false} KsOfFresh(log: seq<Delivery>, execs: seq<Exec>)
    requires Logged(log, execs)
    ensures KsOf(log, |execs|) == []
  {
    if log != [] {
      KsOfFresh(log[..|log| - 1], execs);
    }
  }

  lemma {:induction false} UptoBelow(n: nat, k: nat)
    requires k in Upto(n)
    ensures k < n
  {
    if n > 0 && k in Upto(n - 1) {
      UptoBelow(n - 1, k);
    }
  }

  /** The loops over targets are the same in both stacks. */
  ghost predicate SameShares(stack: seq<Frame>, stack': seq<Frame>) {
    && (forall i :: 0 <= i < |stack'| && stack'[i].Delivering? ==> i < |stack| && stack[i] == stack'[i])
    && (forall i :: 0 <= i < |stack| && stack[i].Delivering? ==> i < |stack'| && stack'[i] == stack[i])
  }

  lemma SharesSame(log: seq<Delivery>, execs: seq<Exec>, stack: seq<Frame>, stack': seq<Frame>, w: nat)
    requires SameShares(stack, stack')
    ensures Told(log, stack) ==> Told(log, stack')
    ensures Latest(stack, execs, w) ==> Latest(stack', execs, w)
    ensures forall e :: OnStack(stack, e) ==> OnStack(stack', e)
  {
    hide KsOf; hide Upto;
  }

  lemma ProgressSame(sys: System, sys': System)
    requires Progress(sys) && |sys'.workers| == |sys.workers| && sys'.log == sys.log && sys'.execs == sys.execs
    requires forall v :: 0 <= v < |sys.workers| ==> SameShares(sys.workers[v].stack, sys'.workers[v].stack)
    ensures Progress(sys')
  {
    hide Told; hide Latest; hide OnStack; hide KsOf; hide SameShares;
    forall v | 0 <= v < |sys'.workers|
      ensures Told(sys'.log, sys'.workers[v].stack) && Latest(sys'.workers[v].stack, sys'.execs, v)
    {
      SharesSame(sys.log, sys.execs, sys.workers[v].stack, sys'.workers[v].stack, v);
    }
    forall e | 0 <= e < |sys'.execs| && sys'.execs[e].worker < |sys'.workers|
      ensures Finished(sys'.log, sys'.execs, e, sys'.workers[sys'.execs[e].worker].stack)
    {
      var v := sys.execs[e].worker;
      assert Finished(sys.log, sys.execs, e, sys.workers[v].stack);
      SharesSame(sys.log, sys.execs, sys.workers[v].stack, sys'.workers[v].stack, v);
    }
  }

  /** The position of a share's loop moves on with its delivery; no other loop has that exec. */
  lemma DeliverTold(log: seq<Delivery>, stack: seq<Frame>)
    requires stack != [] && Top(stack).Delivering? && Told(log, stack) && Climbs(stack)
    ensures Told(log + [Delivery(Top(stack).exec, Top(stack).next)], Moved(stack))
  {
    hide KsOf;
    var f := Top(stack);
    var log' := log + [Delivery(f.exec, f.next)];
    forall i | 0 <= i < |stack| && Moved(stack)[i].Delivering?
      ensures KsOf(log', Moved(stack)[i].exec) == Upto(Moved(stack)[i].next)
    {
      KsOfSnoc(log, Delivery(f.exec, f.next), stack[i].exec);
      assert KsOf(log, stack[i].exec) == Upto(stack[i].next);
    }
  }

  lemma DeliverElsewhere(log: seq<Delivery>, d: Delivery, stack: seq<Frame>)
    requires Told(log, stack) && forall i :: 0 <= i < |stack| && stack[i].Delivering? ==> stack[i].exec != d.exec
    ensures Told(log + [d], stack)
  {
    hide KsOf; hide Upto;
    forall i | 0 <= i < |stack| && stack[i].Delivering?
      ensures KsOf(log + [d], stack[i].exec) == Upto(stack[i].next)
    {
      KsOfSnoc(log, d, stack[i].exec);
    }
  }

  lemma MovedOnStack(stack: seq<Frame>, execs: seq<Exec>, w: nat)
    requires stack != []
    ensures forall e :: OnStack(Moved(stack), e) <==> OnStack(stack, e)
    ensures Latest(stack, execs, w) ==> Latest(Moved(stack), execs, w)
  {
    var moved := Moved(stack);
    forall e
      ensures OnStack(moved, e) <==> OnStack(stack, e)
    {
      if OnStack(stack, e) {
        var i :| 0 <= i < |stack| && stack[i].Delivering? && stack[i].exec == e;
        assert moved[i].Delivering? && moved[i].exec == e;
      }
      if OnStack(moved, e) {
        var i :| 0 <= i < |moved| && moved[i].Delivering? && moved[i].exec == e;
        assert stack[i].Delivering? && stack[i].exec == e;
      }
    }
  }

  lemma DeliveredTold(sys: System, w: nat, v: nat)
    requires Loops(sys) && AllTold(sys) && w < |sys.workers| && v < |sys.workers|
    requires sys.workers[w].stack != [] && Top(sys.workers[w].stack).Delivering?
    ensures var sys' := Delivered(sys, w);
            Told(sys'.log, sys'.workers[v].stack) && Latest(sys'.workers[v].stack, sys'.execs, v)
  {
    hide Told; hide Latest; hide KsOf; hide Climbs; hide Sound; hide Complete; hide NotYet;
    hide AllOrdered; hide Nested; hide NestedIn; hide Owned;
    var f := Top(sys.workers[w].stack);
    assert WorkerOk(sys.workers[w], w, |sys.workers|, sys.execs);
    if v == w {
      DeliverTold(sys.log, sys.workers[w].stack);
      MovedOnStack(sys.workers[w].stack, sys.execs, w);
    } else {
      var stack := sys.workers[v].stack;
      assert WorkerOk(sys.workers[v], v, |sys.workers|, sys.execs);
      assert FrameOk(sys.workers[w].stack, |sys.workers[w].stack| - 1, sys.workers[w].calls, sys.execs, w);
      forall i | 0 <= i < |stack| && stack[i].Delivering?
        ensures stack[i].exec != f.exec
      {
        assert FrameOk(stack, i, sys.workers[v].calls, sys.execs, v);
      }
      DeliverElsewhere(sys.log, Delivery(f.exec, f.next), stack);
    }
  }

  lemma DeliveredProgress(sys: System, w: nat)
    requires Loops(sys) && Progress(sys) && w < |sys.workers|
    requires sys.workers[w].stack != [] && Top(sys.workers[w].stack).Delivering?
    requires var f := Top(sys.workers[w].stack); f.exec < |sys.execs| && f.next < |sys.execs[f.exec].targets|
    ensures Progress(Delivered(sys, w))
  {
    hide Told; hide Latest; hide KsOf; hide OnStack; hide WorkerOk;
    var sys' := Delivered(sys, w);
    var f := Top(sys.workers[w].stack);
    forall v | 0 <= v < |sys'.workers|
      ensures Told(sys'.log, sys'.workers[v].stack) && Latest(sys'.workers[v].stack, sys'.execs, v)
    {
      DeliveredTold(sys, w, v);
    }
    forall e | 0 <= e < |sys'.execs| && sys'.execs[e].worker < |sys'.workers|
      ensures Finished(sys'.log, sys'.execs, e, sys'.workers[sys'.execs[e].worker].stack)
    {
      var v := sys.execs[e].worker;
      assert Finished(sys.log, sys.execs, e, sys.workers[v].stack);
      MovedOnStack(sys.workers[w].stack, sys.execs, w);
      KsOfSnoc(sys.log, Delivery(f.exec, f.next), e);
      if e == f.exec {
        TopOnStack(sys, w);
      }
    }
  }

  lemma TopOnStack(sys: System, w: nat)
    requires Loops(sys) && w < |sys.workers| && sys.workers[w].stack != [] && Top(sys.workers[w].stack).Delivering?
    ensures var e := Top(sys.workers[w].stack).exec;
            e < |sys.execs| && sys.execs[e].worker == w && OnStack(sys.workers[w].stack, e)
  {
    hide Climbs; hide Sound; hide Complete; hide NotYet; hide AllOrdered; hide Nested; hide NestedIn; hide Owned;
    var stack := sys.workers[w].stack;
    assert WorkerOk(sys.workers[w], w, |sys.workers|, sys.execs);
    assert FrameOk(stack, |stack| - 1, sys.workers[w].calls, sys.execs, w);
    assert stack[|stack| - 1].exec == Top(stack).exec;
  }

  lemma ReturnProgress(sys: System, w: nat)
    requires Loops(sys) && Progress(sys) && w < |sys.workers|
    requires sys.workers[w].stack != [] && Top(sys.workers[w].stack).Delivering?
    requires var f := Top(sys.workers[w].stack); f.exec < |sys.execs| && f.next == |sys.execs[f.exec].targets|
    ensures Progress(Update(sys, w, Pop(sys.workers[w])))
  {
    hide KsOf; hide Upto; hide WorkerOk;
    var sys' := Update(sys, w, Pop(sys.workers[w]));
    var stack := sys.workers[w].stack;
    var f := Top(stack);
    assert Told(sys.log, stack);
    forall v | 0 <= v < |sys'.workers|
      ensures Told(sys'.log, sys'.workers[v].stack) && Latest(sys'.workers[v].stack, sys'.execs, v)
    {
      assert Told(sys.log, sys.workers[v].stack) && Latest(sys.workers[v].stack, sys.execs, v);
    }
    forall e | 0 <= e < |sys'.execs| && sys'.execs[e].worker < |sys'.workers|
      ensures Finished(sys'.log, sys'.execs, e, sys'.workers[sys'.execs[e].worker].stack)
    {
      var v := sys.execs[e].worker;
      assert Finished(sys.log, sys.execs, e, sys.workers[v].stack);
      if v == w && e != f.exec && OnStack(stack, e) {
        var i :| 0 <= i < |stack| && stack[i].Delivering? && stack[i].exec == e;
        assert Below(stack)[i] == stack[i];
      }
      if e == f.exec {
        assert KsOf(sys.log, stack[|stack| - 1].exec) == Upto(stack[|stack| - 1].next);
      }
    }
  }

  lemma EnterOnStack(stack: seq<Frame>, e: nat)
    ensures OnStack(stack + [Delivering(e, 0)], e)
    ensures forall x :: OnStack(stack, x) ==> OnStack(stack + [Delivering(e, 0)], x)
  {
    var more := stack + [Delivering(e, 0)];
    assert more[|stack|] == Delivering(e, 0);
    forall x | OnStack(stack, x)
      ensures OnStack(more, x)
    {
      var i :| 0 <= i < |stack| && stack[i].Delivering? && stack[i].exec == x;
      assert more[i] == stack[i];
    }
  }

  /**
   A worker whose stack is `stack` with the loop of a new exec on top; `stack` may differ from before in its call loops.
   */
  lemma ServedProgress(sys: System, w: nat, me: Worker, stack: seq<Frame>, x: Exec)
    requires Progress(sys) && w < |sys.workers| && x.worker == w
    requires SameShares(sys.workers[w].stack, stack) && me.stack == stack + [Delivering(|sys.execs|, 0)]
    requires x.item.source != w ==> stack == []
    requires stack == [] ==> x.item.source != w
    ensures Progress(Served(sys, w, me, x))
  {
    hide KsOf; hide OnStack; hide SameShares;
    var sys' := Served(sys, w, me, x);
    var e' := |sys.execs|;
    KsOfFresh(sys.log, sys.execs);
    SharesSame(sys.log, sys.execs, sys.workers[w].stack, stack, w);
    EnterOnStack(stack, e');
    assert Told(sys.log, sys.workers[w].stack) && Latest(sys.workers[w].stack, sys.execs, w);
    forall v | 0 <= v < |sys'.workers|
      ensures Told(sys'.log, sys'.workers[v].stack) && Latest(sys'.workers[v].stack, sys'.execs, v)
    {
      assert Told(sys.log, sys.workers[v].stack) && Latest(sys.workers[v].stack, sys.execs, v);
    }
    forall e | 0 <= e < |sys'.execs| && sys'.execs[e].worker < |sys'.workers|
      ensures Finished(sys'.log, sys'.execs, e, sys'.workers[sys'.execs[e].worker].stack)
    {
      if e < e' {
        assert Finished(sys.log, sys.execs, e, sys.workers[sys.execs[e].worker].stack);
      }
    }
  }

  // ------------------------------------------------------------- order

  /**
   When the call with this `under` was made on `s`, call `a` still owed worker `o` its share, or exec `e` its `k`-th
   target.
   */
  ghost predicate Owed(under: seq<Frame>, a: nat, s: nat, o: nat, e: nat, k: nat) {
    Pends(under, a, o) || (o == s && Midway(under, e, k))
  }

  predicate WereMade(sys: System, s: nat, a: nat, b: nat) {
    s < |sys.workers| && a < |sys.workers[s].calls| && b < |sys.workers[s].calls|
  }

  /** The order of two deliveries of one worker's calls on one worker. */
  ghost predicate PairOk(sys: System, d: Delivery, d': Delivery) {
    d.exec < |sys.execs| && d'.exec < |sys.execs| ==>
      var x, x' := sys.execs[d.exec], sys.execs[d'.exec];
      var s, o, a, b := x.item.source, x.worker, x.item.number, x'.item.number;
      x'.worker == o && x'.item.source == s && WereMade(sys, s, a, b) ==>
        && (a < b ==> !Owed(sys.workers[s].calls[b].under, a, s, o, d.exec, d.k))
        && (b < a ==> Owed(sys.workers[s].calls[a].under, b, s, o, d'.exec, d'.k))
  }

  ghost predicate Pairs(sys: System) {
    forall i, j :: 0 <= i < j < |sys.log| ==> PairOk(sys, sys.log[i], sys.log[j])
  }

  lemma PairStays(sys: System, sys': System, d: Delivery, d': Delivery)
    requires PairOk(sys, d, d') && Execs(sys) && CallsKept(sys, sys') && sys.execs <= sys'.execs
    requires d.exec < |sys.execs| && d'.exec < |sys.execs|
    ensures PairOk(sys', d, d')
  {
    hide Owed; hide WorkFor; hide Owned; hide Fits;
    var x, x' := sys.execs[d.exec], sys.execs[d'.exec];
    assert ExecOk(sys, x) && ExecOk(sys, x');
    assert sys'.execs[d.exec] == x && sys'.execs[d'.exec] == x';
    assert forall k :: 0 <= k < |sys.workers[x.item.source].calls| ==>
      sys'.workers[x.item.source].calls[k] == sys.workers[x.item.source].calls[k];
  }

  lemma PairsStay(sys: System, sys': System)
    requires Pairs(sys) && Execs(sys) && CallsKept(sys, sys') && sys.execs <= sys'.execs
    requires sys'.log == sys.log && Logged(sys.log, sys.execs)
    ensures Pairs(sys')
  {
    hide PairOk; hide ExecOk; hide CallsKept;
    forall i, j | 0 <= i < j < |sys'.log|
      ensures PairOk(sys', sys'.log[i], sys'.log[j])
    {
      PairStays(sys, sys', sys.log[i], sys.log[j]);
    }
  }

  lemma {:induction false} ExecsOfHolds(execs: seq<Exec>, e: nat)
    requires e < |execs|
    ensures execs[e].item in ExecsOf(execs, execs[e].item.source, execs[e].worker)
  {
    if e < |execs| - 1 {
      ExecsOfHolds(execs[..|execs| - 1], e);
    }
  }

  /** Two execs of one source on one worker are ordered as their items are. */
  lemma {:induction false} ExecPair(execs: seq<Exec>, calls: seq<Begun>, e: nat, f: nat)
    requires e < f < |execs| && execs[e].worker == execs[f].worker && execs[e].item.source == execs[f].item.source
    requires Ordered(ExecsOf(execs, execs[e].item.source, execs[e].worker), calls, execs[e].worker)
    ensures Pair(calls, execs[e].worker, execs[e].item.number, execs[f].item.number)
  {
    hide Pair;
    var front := execs[..|execs| - 1];
    var s, o := execs[e].item.source, execs[e].worker;
    var items, fewer := ExecsOf(execs, s, o), ExecsOf(front, s, o);
    assert fewer == items[..|fewer|];
    if f < |execs| - 1 {
      ExecPair(front, calls, e, f);
    } else {
      ExecsOfHolds(front, e);
      var k :| 0 <= k < |fewer| && fewer[k] == execs[e].item;
      assert items[k] == execs[e].item && items[|items| - 1] == execs[f].item;
    }
  }

  ghost predicate Inv(sys: System) {
    Loops(sys) && Streams(sys) && Execs(sys) && Progress(sys) && Pairs(sys)
  }

  /** The execs of one source on one worker are a prefix of what that source handed out to it. */
  lemma ServedInOrder(sys: System, s: nat, o: nat)
    requires Loops(sys) && Streams(sys) && s < |sys.workers| && o < |sys.workers|
    ensures ExecsOf(sys.execs, s, o) <= sys.workers[s].handed[o]
    ensures Ordered(ExecsOf(sys.execs, s, o), sys.workers[s].calls, o)
  {
    hide ExecsOf; hide QueueOf; hide Pair; hide Shape; hide Climbs; hide Sound; hide Complete;
    hide NotYet; hide Nested; hide NestedIn; hide Owned;
    assert WorkerOk(sys.workers[s], s, |sys.workers|, sys.execs);
    assert StreamOk(sys, s, o);
    assert Ordered(sys.workers[s].handed[o], sys.workers[s].calls, o);
    assert ExecsOf(sys.execs, s, o) == sys.workers[s].handed[o][..|ExecsOf(sys.execs, s, o)|];
  }

  /** A new delivery of another worker's call comes after those of execs before it, which are in order already. */
  lemma ForeignPair(sys: System, w: nat, i: nat)
    requires Inv(sys) && w < |sys.workers| && i < |sys.log|
    requires sys.workers[w].stack != [] && Top(sys.workers[w].stack).Delivering?
    requires Top(sys.workers[w].stack).exec < |sys.execs|
    requires var x, f := sys.execs[sys.log[i].exec], Top(sys.workers[w].stack);
             x.worker == w && x.item.source == sys.execs[f.exec].item.source != w
    ensures var f := Top(sys.workers[w].stack); PairOk(sys, sys.log[i], Delivery(f.exec, f.next))
  {
    hide ExecsOf; hide Pends; hide Midway; hide WorkFor; hide Streams; hide Climbs; hide Sound;
    hide Complete; hide NotYet; hide AllOrdered; hide Nested; hide NestedIn; hide Owned;
    hide Fits; hide Pairs; hide KsOf;
    var stack := sys.workers[w].stack;
    var f := Top(stack);
    var e := sys.log[i].exec;
    assert WorkerOk(sys.workers[w], w, |sys.workers|, sys.execs);
    assert FrameOk(stack, |stack| - 1, sys.workers[w].calls, sys.execs, w);
    assert Latest(stack, sys.execs, w);
    assert ExecOk(sys, sys.execs[e]) && ExecOk(sys, sys.execs[f.exec]);
    if e != f.exec {
      var s := sys.execs[e].item.source;
      ServedInOrder(sys, s, w);
      ExecPair(sys.execs, sys.workers[s].calls, e, f.exec);
    }
  }

  /** A call in progress is not yet owed what the calls under it have been served. */
  lemma NothingOwed(sys: System, w: nat, i: nat)
    requires Inv(sys) && w < |sys.workers| && i < |sys.log|
    requires sys.workers[w].stack != [] && Top(sys.workers[w].stack).Delivering?
    requires Top(sys.workers[w].stack).exec < |sys.execs|
    requires var x, y := sys.execs[sys.log[i].exec], sys.execs[Top(sys.workers[w].stack).exec];
             x.worker == w && x.item.source == y.item.source == w && y.item.number < |sys.workers[w].calls|
    ensures var x, y := sys.execs[sys.log[i].exec], sys.execs[Top(sys.workers[w].stack).exec];
            !Owed(sys.workers[w].calls[y.item.number].under, x.item.number, w, w, sys.log[i].exec, sys.log[i].k)
  {
    hide ExecsOf; hide WorkFor; hide Streams; hide Climbs; hide Sound; hide Complete; hide AllOrdered;
    hide Nested; hide NestedIn; hide Owned; hide Fits; hide Pairs; hide KsOf;
    hide Ordered; hide Upto; hide Pends; hide Midway;
    var me := sys.workers[w];
    var e, k := sys.log[i].exec, sys.log[i].k;
    var a, c := sys.execs[e].item.number, sys.execs[Top(me.stack).exec].item.number;
    var below := me.calls[c].under;
    var last := |me.stack| - 1;
    assert WorkerOk(me, w, |sys.workers|, sys.execs);
    assert FrameOk(me.stack, last, me.calls, sys.execs, w);
    assert FrameOk(me.stack, last - 1, me.calls, sys.execs, w);
    assert below == me.stack[..last - 1];
    ServedInOrder(sys, w, w);
    ExecsOfHolds(sys.execs, e);
    var j :| 0 <= j < |ExecsOf(sys.execs, w, w)| && ExecsOf(sys.execs, w, w)[j] == sys.execs[e].item;
    assert me.handed[w][j].number == a;
    PendsNotHanded(me.stack, me.handed, w, j);
    PendsPrefix(me.stack, last - 1, a, w);
    assert Told(sys.log, me.stack);
    MidwayNotTold(sys.log, me.stack, i);
    MidwayPrefix(me.stack, last - 1, e, k);
  }

  lemma MidwayNotTold(log: seq<Delivery>, stack: seq<Frame>, i: nat)
    requires Told(log, stack) && i < |log|
    ensures !Midway(stack, log[i].exec, log[i].k)
  {
    hide KsOf; hide Upto;
    var e, k := log[i].exec, log[i].k;
    if Midway(stack, e, k) {
      var p :| 0 <= p < |stack| && stack[p].Delivering? && stack[p].exec == e && stack[p].next <= k;
      KsOfHolds(log, i);
      UptoBelow(stack[p].next, k);
    }
  }

  /** A new delivery of the worker's own call: earlier calls were served first, later ones were made under it. */
  lemma LocalPair(sys: System, w: nat, i: nat)
    requires Inv(sys) && w < |sys.workers| && i < |sys.log|
    requires sys.workers[w].stack != [] && Top(sys.workers[w].stack).Delivering?
    requires Top(sys.workers[w].stack).exec < |sys.execs|
    requires var x, y := sys.execs[sys.log[i].exec], sys.execs[Top(sys.workers[w].stack).exec];
             x.worker == w && x.item.source == y.item.source == w
    ensures var f := Top(sys.workers[w].stack); PairOk(sys, sys.log[i], Delivery(f.exec, f.next))
  {
    hide ExecsOf; hide Pends; hide Midway; hide WorkFor; hide Streams; hide Shape; hide Climbs;
    hide Sound; hide Complete; hide NotYet; hide AllOrdered; hide Nested; hide Owned;
    hide Fits; hide Pairs; hide KsOf;
    var me := sys.workers[w];
    var f := Top(me.stack);
    var e := sys.log[i].exec;
    var last := |me.stack| - 1;
    assert WorkerOk(me, w, |sys.workers|, sys.execs);
    assert ExecOk(sys, sys.execs[e]) && ExecOk(sys, sys.execs[f.exec]);
    var a, c := sys.execs[e].item.number, sys.execs[f.exec].item.number;
    if a < c {
      NothingOwed(sys, w, i);
    } else if c < a {
      assert LocalAfter(me.stack[last], a, sys.execs, w);
      assert MadeUnder(me.stack[last], me.calls[a].under, sys.execs, w);
    }
  }

  lemma DeliveredPairs(sys: System, w: nat)
    requires Inv(sys) && w < |sys.workers|
    requires sys.workers[w].stack != [] && Top(sys.workers[w].stack).Delivering?
    requires Top(sys.workers[w].stack).exec < |sys.execs|
    ensures Pairs(Delivered(sys, w))
  {
    hide PairOk; hide Streams; hide WorkerOk; hide ExecOk; hide AllTold; hide AllFinished;
    var sys' := Delivered(sys, w);
    var f := Top(sys.workers[w].stack);
    var d := Delivery(f.exec, f.next);
    forall i, j | 0 <= i < j < |sys'.log|
      ensures PairOk(sys', sys'.log[i], sys'.log[j])
    {
      if j < |sys.log| {
        PairStays(sys, sys', sys.log[i], sys.log[j]);
      } else {
        NewPair(sys, w, i);
        PairStays(sys, sys', sys.log[i], d);
      }
    }
  }

  lemma NewPair(sys: System, w: nat, i: nat)
    requires Inv(sys) && w < |sys.workers| && i < |sys.log|
    requires sys.workers[w].stack != [] && Top(sys.workers[w].stack).Delivering?
    requires Top(sys.workers[w].stack).exec < |sys.execs|
    ensures var f := Top(sys.workers[w].stack); PairOk(sys, sys.log[i], Delivery(f.exec, f.next))
  {
    hide Streams; hide WorkerOk; hide ExecOk; hide AllTold; hide AllFinished; hide Owed; hide Pairs;
    var x, y := sys.execs[sys.log[i].exec], sys.execs[Top(sys.workers[w].stack).exec];
    TopOnStack(sys, w);
    if x.worker == w && x.item.source == y.item.source {
      if x.item.source == w {
        LocalPair(sys, w, i);
      } else {
        ForeignPair(sys, w, i);
      }
    }
  }

  // ------------------------------------------------------------- every step keeps the invariant

  /** A step of a call's loop, or a registry change: no share is entered, served or left. */
  lemma QuietKeeps(sys: System, w: nat, me: Worker)
    requires Inv(sys) && w < |sys.workers| && WorkerOk(me, w, |sys.workers|, sys.execs)
    requires me.queue == sys.workers[w].queue && me.handed == sys.workers[w].handed && sys.workers[w].calls <= me.calls
    requires SameShares(sys.workers[w].stack, me.stack)
    ensures Inv(Update(sys, w, me))
  {
    hide WorkerOk; hide Streams; hide ExecOk; hide Pairs; hide Progress; hide Loops; hide Execs;
    var sys' := Update(sys, w, me);
    QuietUpdate(sys, w, me);
    ProgressSame(sys, sys');
    LoggedOf(sys);
    PairsStay(sys, sys');
  }

  lemma LoggedOf(sys: System)
    requires Progress(sys)
    ensures Logged(sys.log, sys.execs)
  {
  }

  lemma BeginKeeps(sys: System, w: nat, call: Call)
    requires Inv(sys) && w < |sys.workers|
    ensures Inv(Update(sys, w, BeginCall(sys.workers[w], call)))
  {
    hide WorkerOk; hide Inv;
    LoopsAt(sys, w);
    BeginWorker(sys.workers[w], w, |sys.workers|, sys.execs, call);
    QuietKeeps(sys, w, BeginCall(sys.workers[w], call));
  }

  lemma LoopsAt(sys: System, w: nat)
    requires Inv(sys) && w < |sys.workers|
    ensures WorkerOk(sys.workers[w], w, |sys.workers|, sys.execs)
  {
    hide WorkerOk; hide Streams; hide Execs; hide Progress; hide Pairs;
  }

  lemma RegistryKeeps(sys: System, w: nat, reg: Relation)
    requires Inv(sys) && w < |sys.workers| && Owned(reg, w)
    ensures Inv(Update(sys, w, sys.workers[w].(reg := reg)))
  {
    hide Inv; hide Shape; hide Climbs; hide Sound; hide Complete; hide NotYet; hide AllOrdered;
    hide Nested; hide NestedIn; hide Owned;
    LoopsAt(sys, w);
    QuietKeeps(sys, w, sys.workers[w].(reg := reg));
  }

  /** The share enters: own or foreign, with all invariants kept. */
  lemma EnterKeeps(sys: System, w: nat, me: Worker, stack: seq<Frame>, x: Exec)
    requires Inv(sys) && w < |sys.workers| && WorkerOk(me, w, |sys.workers|, sys.execs + [x])
    requires ExecOk(sys, x) && x.worker == w
    requires Streams(Served(sys, w, me, x)) && me.calls == sys.workers[w].calls
    requires SameShares(sys.workers[w].stack, stack) && me.stack == stack + [Delivering(|sys.execs|, 0)]
    requires stack == [] <==> x.item.source != w
    ensures Inv(Served(sys, w, me, x))
  {
    hide WorkerOk; hide Streams; hide ExecOk; hide Pairs; hide Progress; hide Loops; hide Execs; hide SameShares;
    ServedLoops(sys, w, me, x);
    ServedExecs(sys, w, me, x);
    ServedProgress(sys, w, me, stack, x);
    LoggedOf(sys);
    PairsStay(sys, Served(sys, w, me, x));
  }

  lemma HandLocalKeeps(sys: System, w: nat, x: Exec)
    requires Inv(sys) && w < |sys.workers|
    requires var me := sys.workers[w];
             && me.stack != [] && Top(me.stack).Handing? && Top(me.stack).next == w && w < |me.handed|
             && IssuedBy(me.calls, w, w, x.item) && x.item.number == Top(me.stack).number
             && x.worker == w && x.reg == me.reg && Fits(x.item.work, x.reg, x.targets)
    ensures Inv(Served(sys, w, Enter(Hand(sys.workers[w], w, x.item), |sys.execs|), x))
  {
    hide WorkFor; hide Fits; hide Streams; hide Pairs; hide Progress; hide Loops; hide Execs;
    hide Shape; hide Climbs; hide Sound; hide Complete; hide NotYet; hide AllOrdered; hide Nested;
    hide NestedIn; hide Owned;
    var me := sys.workers[w];
    var me' := Enter(Hand(me, w, x.item), |sys.execs|);
    LoopsAt(sys, w);
    HandEnterWorker(me, w, |sys.workers|, sys.execs, x);
    LocalStreams(sys, w, me', x);
    EnterKeeps(sys, w, me', Moved(me.stack), x);
  }

  lemma RunTaskKeeps(sys: System, w: nat, targets: seq<SessionId>)
    requires Inv(sys) && w < |sys.workers| && sys.workers[w].stack == [] && sys.workers[w].queue != []
    requires Fits(sys.workers[w].queue[0].work, sys.workers[w].reg, targets)
    ensures Inv(Next(sys, RunTask(w, targets)))
  {
    hide WorkFor; hide Fits; hide Streams; hide Pairs; hide Progress; hide Loops; hide Execs;
    hide Shape; hide Climbs; hide Sound; hide Complete; hide NotYet; hide AllOrdered; hide Nested;
    hide NestedIn; hide Owned;
    var me := sys.workers[w];
    var x := Exec(w, me.queue[0], me.reg, targets);
    var fewer := me.(queue := me.queue[1..]);
    LoopsAt(sys, w);
    HeadWasIssued(sys, w);
    EnterWorker(fewer, w, |sys.workers|, sys.execs, x);
    TaskStreams(sys, w, Enter(fewer, |sys.execs|), x);
    EnterKeeps(sys, w, Enter(fewer, |sys.execs|), [], x);
  }

  lemma PostKeeps(sys: System, w: nat, item: Item)
    requires Inv(sys) && w < |sys.workers|
    requires var me := sys.workers[w];
             && me.stack != [] && Top(me.stack).Handing? && Top(me.stack).next < |sys.workers|
                   && Top(me.stack).next != w
             && |me.handed| == |sys.workers|
             && IssuedBy(me.calls, w, Top(me.stack).next, item) && item.number == Top(me.stack).number
    ensures Inv(Posted(sys, w, Top(sys.workers[w].stack).next, item))
  {
    hide WorkFor; hide Streams; hide Pairs; hide Progress; hide Loops; hide Execs; hide WorkerOk;
    var sys' := Posted(sys, w, Top(sys.workers[w].stack).next, item);
    PostedKeeps(sys, w, item);
    ProgressSame(sys, sys');
    LoggedOf(sys);
    PairsStay(sys, sys');
  }

  lemma HandNextKeeps(sys: System, w: nat, targets: seq<SessionId>)
    requires Inv(sys) && w < |sys.workers| && sys.workers[w].stack != [] && Top(sys.workers[w].stack).Handing?
    requires Top(sys.workers[w].stack).number < |sys.workers[w].calls| && |sys.workers[w].handed| == |sys.workers|
    ensures Inv(HandNext(sys, w, targets))
  {
    hide Inv; hide WorkFor; hide Fits; hide WorkerOk;
    var me := sys.workers[w];
    var f := Top(me.stack);
    LoopsAt(sys, w);
    if f.next >= |sys.workers| {
      PopWorker(me, w, |sys.workers|, sys.execs);
      QuietKeeps(sys, w, Pop(me));
    } else {
      var work := WorkFor(me.calls[f.number].call, f.next);
      if work.None? {
        SkipWorker(me, w, |sys.workers|, sys.execs);
        QuietKeeps(sys, w, Skip(me));
      } else if f.next != w {
        PostKeeps(sys, w, Item(w, f.number, work.value));
      } else if Fits(work.value, me.reg, targets) {
        HandLocalKeeps(sys, w, Exec(w, Item(w, f.number, work.value), me.reg, targets));
      }
    }
  }

  lemma DeliverKeeps(sys: System, w: nat)
    requires Inv(sys) && w < |sys.workers| && sys.workers[w].stack != [] && Top(sys.workers[w].stack).Delivering?
    requires var f := Top(sys.workers[w].stack); f.exec < |sys.execs| && f.next < |sys.execs[f.exec].targets|
    ensures Inv(Delivered(sys, w))
  {
    hide Streams; hide Pairs; hide Progress; hide Loops; hide Execs; hide WorkerOk;
    var me := sys.workers[w];
    LoopsAt(sys, w);
    SkipWorker(me, w, |sys.workers|, sys.execs);
    QuietUpdate(sys, w, Skip(me));
    LogIrrelevant(Update(sys, w, Skip(me)), Delivered(sys, w));
    DeliveredProgress(sys, w);
    DeliveredPairs(sys, w);
  }

  lemma LogIrrelevant(sys: System, sys': System)
    requires sys'.workers == sys.workers && sys'.execs == sys.execs
    ensures Loops(sys) ==> Loops(sys')
    ensures Streams(sys) ==> Streams(sys')
    ensures Execs(sys) ==> Execs(sys')
  {
    hide WorkerOk; hide Streams; hide WorkFor; hide Owned; hide Fits;
    if Streams(sys) { StreamsSame(sys, sys'); }
    if Execs(sys) {
      forall e | 0 <= e < |sys'.execs|
        ensures ExecOk(sys', sys'.execs[e])
      {
        assert ExecOk(sys, sys.execs[e]);
      }
    }
  }

  lemma ReturnKeeps(sys: System, w: nat)
    requires Inv(sys) && w < |sys.workers| && sys.workers[w].stack != [] && Top(sys.workers[w].stack).Delivering?
    requires var f := Top(sys.workers[w].stack); f.exec < |sys.execs| && f.next >= |sys.execs[f.exec].targets|
    ensures Inv(Update(sys, w, Pop(sys.workers[w])))
  {
    hide Streams; hide Pairs; hide Progress; hide Loops; hide Execs; hide WorkerOk;
    var me := sys.workers[w];
    LoopsAt(sys, w);
    PopWorker(me, w, |sys.workers|, sys.execs);
    QuietUpdate(sys, w, Pop(me));
    FrameAtTop(me, w, |sys.workers|, sys.execs);
    ReturnProgress(sys, w);
    LoggedOf(sys);
    PairsStay(sys, Update(sys, w, Pop(me)));
  }

  lemma FrameAtTop(me: Worker, w: nat, n: nat, execs: seq<Exec>)
    requires WorkerOk(me, w, n, execs) && me.stack != []
    ensures FrameOk(me.stack, |me.stack| - 1, me.calls, execs, w)
  {
  }

  /** Every step of any worker keeps the invariant. */
  lemma NextKeeps(sys: System, step: Step)
    requires Inv(sys)
    ensures Inv(Next(sys, step))
  {
    hide Inv; hide HandNext; hide Fits; hide Owned;
    if step.w < |sys.workers| {
      var me := sys.workers[step.w];
      match step
      case Begin(w, call) =>
        if MayBegin(me.stack) { BeginKeeps(sys, w, call); }
      case HandOut(w, targets) =>
        if me.stack != [] && Top(me.stack).Handing? && Top(me.stack).number < |me.calls|
            && |me.handed| == |sys.workers| {
          HandNextKeeps(sys, w, targets);
        }
      case Deliver(w) =>
        if me.stack != [] && Top(me.stack).Delivering? && Top(me.stack).exec < |sys.execs|
           && Top(me.stack).next < |sys.execs[Top(me.stack).exec].targets| {
          DeliverKeeps(sys, w);
        }
      case Return(w) =>
        if me.stack != [] && Top(me.stack).Delivering? && Top(me.stack).exec < |sys.execs|
           && Top(me.stack).next >= |sys.execs[Top(me.stack).exec].targets| {
          ReturnKeeps(sys, w);
        }
      case RunTask(w, targets) =>
        if me.stack == [] && me.queue != []
            && Fits(me.queue[0].work, me.reg, targets) { RunTaskKeeps(sys, w, targets); }
      case ChangeRegistry(w, reg) =>
        if Owned(reg, w) { RegistryKeeps(sys, w, reg); }
    }
  }
}

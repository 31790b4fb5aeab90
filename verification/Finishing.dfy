/** Closing the unpacker can always be finished, with any number of workers but none. */
module Finishing {
  import opened Prelude
  import opened Bytes
  import opened Media
  import opened Codec
  import opened StreamCaches
  import opened Unpacking
  import opened EndToEnd
  import SingleWorker

  // ---- What holds on the way

  /** Workers notice the shutdown only after it, and leave only an empty queue. */
  ghost predicate Settled(s: State) {
    && (s.shutdown <==> s.closer == Draining || s.closer == Joining || s.closer == Closed)
    && forall w :: 0 <= w < |s.workers| ==>
      && (s.workers[w] == SawShutdown ==> s.shutdown)
      && (s.workers[w] == Exited ==> s.shutdown && s.queue == [])
  }

  lemma LoopSettled(s: State, w: nat)
    requires w < |s.workers| && Settled(s)
    ensures Settled(LoopStep(s, w))
  {
  }

  /** A worker with a segment neither leaves nor touches the queue. */
  lemma UnpackSettled(s: State, w: nat, now: int, ttl: int)
    requires w < |s.workers| && InHand(s.workers[w]) != [] && Settled(s)
    ensures Settled(UnpackStep(s, w, now, ttl))
  {
    hide Cache.Lookup, Cache.FindOrMake;
    var t := UnpackStep(s, w, now, ttl);
    assert t.queue == s.queue && t.shutdown == s.shutdown && t.closer == s.closer;
    assert t.workers == s.workers[w := t.workers[w]] && t.workers[w] != SawShutdown && t.workers[w] != Exited;
  }

  lemma StepSettled(s: State, a: Action)
    requires Enabled(s, a) && Settled(s)
    ensures Settled(Apply(s, a))
  {
    hide GetSegment, LoopStep, UnpackStep, InHand;
    match a
    case Step(w, now, ttl) =>
      if InHand(s.workers[w]) == [] {
        LoopSettled(s, w);
      } else {
        UnpackSettled(s, w, now, ttl);
      }
    case _ =>
  }

  lemma {:induction false} RunSettled(s: State, actions: seq<Action>)
    requires CanRun(s, actions) && Settled(s)
    ensures Settled(Exec(s, actions))
    decreases |actions|
  {
    hide Settled, Enabled, Apply;
    if actions != [] {
      StepSettled(s, actions[0]);
      RunSettled(Apply(s, actions[0]), actions[1..]);
    }
  }

  lemma {:induction false} BuffersJoin(a: seq<Action>, b: seq<Action>)
    ensures Buffers(a + b) == Buffers(a) + Buffers(b)
  {
    if a == [] {
      assert a + b == b;
    } else {
      assert (a + b)[0] == a[0] && (a + b)[1..] == a[1..] + b;
      BuffersJoin(a[1..], b);
      Assoc(if a[0].Receive? then [a[0].buffer] else [], Buffers(a[1..]), Buffers(b));
    }
  }

  lemma {:induction false} StepsJoin(s: State, a: seq<Action>, b: seq<Action>)
    requires CanRun(s, a) && CanRun(Exec(s, a), b)
    ensures CanRun(s, a + b) && Exec(s, a + b) == Exec(Exec(s, a), b)
    decreases |a|
  {
    hide Enabled, Apply;
    if a == [] {
      assert a + b == b;
    } else {
      assert (a + b)[0] == a[0] && (a + b)[1..] == a[1..] + b;
      StepsJoin(Apply(s, a[0]), a[1..], b);
    }
  }

  lemma RunJoin(s: State, a: seq<Action>, b: seq<Action>)
    requires CanRun(s, a) && CanRun(Exec(s, a), b)
    ensures CanRun(s, a + b) && Exec(s, a + b) == Exec(Exec(s, a), b)
    ensures Buffers(a + b) == Buffers(a) + Buffers(b)
  {
    hide CanRun, Exec, Buffers;
    StepsJoin(s, a, b);
    BuffersJoin(a, b);
  }

  lemma RunOne(s: State, a: Action)
    requires Enabled(s, a)
    ensures CanRun(s, [a]) && Exec(s, [a]) == Apply(s, a)
    ensures Buffers([a]) == if a.Receive? then [a.buffer] else []
  {
    hide Enabled, Apply;
    assert CanRun(Apply(s, a), [a][1..]) && Exec(Apply(s, a), [a][1..]) == Apply(s, a);
    assert Buffers([a][1..]) == [];
  }

  // ---- A worker on its own comes to an end

  /** How many steps a worker has before it takes a segment or leaves. */
  function Rank(worker: Worker, empty: bool): nat {
    match worker
    case Exited => 0
    case SawShutdown => if empty then 1 else 3
    case AtLoop => if empty then 2 else 4
    case InBody => if empty then 3 else 2
    case Claiming => if empty then 5 else 1
    case EmptyHanded => if empty then 4 else 5
    case Replaying(item, _, next) => 6 + if next < |item.seg.packets| then |item.seg.packets| - next else 0
    case Made(item, _) => 7 + |item.seg.packets|
    case Missed(item) => 8 + |item.seg.packets|
    case Holding(item) => 9 + |item.seg.packets|
  }

  lemma StepDescends(s: State, w: nat)
    requires w < |s.workers| && s.shutdown && s.workers[w] != Exited
    ensures var t := Apply(s, Step(w, 0, 0));
            && t.workers == s.workers[w := t.workers[w]]
            && t.shutdown && t.closer == s.closer
            && (|t.queue| < |s.queue| ||
                (t.queue == s.queue && Rank(t.workers[w], t.queue == []) < Rank(s.workers[w], s.queue == [])))
            && (t.workers[w] == Exited ==> t.queue == [])
  {
    hide Cache.Lookup, Cache.FindOrMake;
  }

  lemma {:induction false} FinishWorker(s: State, w: nat) returns (actions: seq<Action>)
    requires w < |s.workers| && s.shutdown && (s.workers[w] == Exited ==> s.queue == [])
    ensures CanRun(s, actions) && Buffers(actions) == []
    ensures var t := Exec(s, actions);
            t.workers == s.workers[w := Exited] && t.queue == [] && t.shutdown && t.closer == s.closer
    decreases |s.queue|, Rank(s.workers[w], s.queue == [])
  {
    hide Apply, Rank;
    if s.workers[w] == Exited {
      actions := [];
      assert s.workers[w := Exited] == s.workers;
    } else {
      var t := Apply(s, Step(w, 0, 0));
      StepDescends(s, w);
      RunOne(s, Step(w, 0, 0));
      var rest := FinishWorker(t, w);
      RunJoin(s, [Step(w, 0, 0)], rest);
      actions := [Step(w, 0, 0)] + rest;
    }
  }

  /** One worker after the other leaves. */
  lemma {:induction false} FinishFrom(s: State, w: nat) returns (actions: seq<Action>)
    requires w <= |s.workers| && s.shutdown && Settled(s)
    requires (w > 0 || s.workers == [] ==> s.queue == []) && AllExited(s.workers[..w])
    ensures CanRun(s, actions) && Buffers(actions) == []
    ensures var t := Exec(s, actions); AllExited(t.workers) && t.queue == [] && t.closer == s.closer
    decreases |s.workers| - w
  {
    hide Apply, Enabled;
    if w == |s.workers| {
      actions := [];
      assert s.workers[..w] == s.workers;
    } else {
      var first := FinishWorker(s, w);
      var t := Exec(s, first);
      RunSettled(s, first);
      assert forall v :: 0 <= v <= w ==> t.workers[v] == if v < w then s.workers[..w][v] else Exited;
      var rest := FinishFrom(t, w + 1);
      RunJoin(s, first, rest);
      actions := first + rest;
    }
  }

  lemma {:induction false} CloseFrom(s: State) returns (actions: seq<Action>)
    requires s.closer != Running && s.closer != Unsubscribed && AllExited(s.workers) && s.queue == []
    ensures CanRun(s, actions) && Buffers(actions) == [] && Exec(s, actions).closer == Closed
    decreases s.closer == Draining, s.closer == Joining
  {
    if s.closer == Closed {
      actions := [];
    } else {
      var rest := CloseFrom(Apply(s, Close));
      RunOne(s, Close);
      RunJoin(s, [Close], rest);
      actions := [Close] + rest;
    }
  }

  /** Close gets as far as waiting for the queue to drain. */
  lemma StartClosing(s: State) returns (actions: seq<Action>)
    requires Settled(s)
    ensures CanRun(s, actions) && Buffers(actions) == []
    ensures var t := Exec(s, actions);
            Settled(t) && t.shutdown && t.workers == s.workers && t.queue == s.queue
  {
    actions := [];
    if s.closer == Running {
      RunOne(s, Close);
      RunOne(Apply(s, Close), Close);
      RunJoin(s, [Close], [Close]);
      actions := [Close] + [Close];
    } else if s.closer == Unsubscribed {
      RunOne(s, Close);
      actions := [Close];
    }
    RunSettled(s, actions);
  }

  /** From any point on, without further segments, close can return. */
  lemma CloseReturns(s: State) returns (actions: seq<Action>)
    requires Settled(s) && (s.workers != [] || s.queue == [])
    ensures CanRun(s, actions) && Buffers(actions) == [] && Exec(s, actions).closer == Closed
  {
    hide Apply, Enabled;
    var start := StartClosing(s);
    var t := Exec(s, start);
    var drain := FinishFrom(t, 0);
    var end := CloseFrom(Exec(t, drain));
    RunJoin(t, drain, end);
    RunJoin(s, start, drain + end);
    actions := start + (drain + end);
  }

  // ---- Without workers it cannot

  lemma {:induction false} NothingDrains(s: State, actions: seq<Action>)
    requires CanRun(s, actions) && s.workers == [] && s.queue != [] && s.closer != Joining && s.closer != Closed
    ensures Exec(s, actions).closer != Closed
    decreases |actions|
  {
    hide GetSegment;
    if actions != [] {
      NothingDrains(Apply(s, actions[0]), actions[1..]);
    }
  }

  /** In every reachable state close can still return, exactly if there is a worker or
      nothing to unpack. */
  lemma CloseCanReturnExactly(nThreads: nat, earlier: seq<Action>)
    requires CanRun(Init(nThreads), earlier)
    ensures var s := Exec(Init(nThreads), earlier);
            (exists later :: CanRun(s, later) && Exec(s, later).closer == Closed) <==> nThreads > 0 || s.queue == []
  {
    hide Apply, Enabled;
    var s := Exec(Init(nThreads), earlier);
    RunSettled(Init(nThreads), earlier);
    RunDrains(Init(nThreads), earlier);
    SingleWorker.RunKeepsWorkers(Init(nThreads), earlier);
    if nThreads > 0 || s.queue == [] {
      var later := CloseReturns(s);
    } else if later :| CanRun(s, later) && Exec(s, later).closer == Closed {
      NothingDrains(s, later);
    }
  }

  // ---- A delivery can happen

  lemma {:induction false} ReceiveAll(s: State, wire: seq<Seg>) returns (actions: seq<Action>)
    requires s.closer == Running && Settled(s) && AllWireExact(wire)
    ensures CanRun(s, actions) && Buffers(actions) == SaveAll(wire)
    ensures Settled(Exec(s, actions)) && Exec(s, actions).workers == s.workers
    decreases |wire|
  {
    hide WireExact, Save;
    if wire == [] {
      actions := [];
    } else {
      var a := Receive(Save(wire[0]));
      RunOne(s, a);
      StepSettled(s, a);
      var rest := ReceiveAll(Apply(s, a), wire[1..]);
      RunJoin(s, [a], rest);
      actions := [a] + rest;
      assert SaveAll(wire) == [Save(wire[0])] + SaveAll(wire[1..]);
    }
  }

  /** Whatever is on the wire, there are runs that receive it and close. */
  lemma DeliveryHappens(wire: seq<Seg>) returns (actions: seq<Action>)
    requires AllWireExact(wire)
    ensures CanRun(Init(1), actions) && Buffers(actions) == SaveAll(wire)
    ensures Exec(Init(1), actions).closer == Closed
  {
    hide Apply, Enabled, SaveAll;
    var first := ReceiveAll(Init(1), wire);
    var rest := CloseReturns(Exec(Init(1), first));
    RunJoin(Init(1), first, rest);
    actions := first + rest;
    assert SaveAll(wire) + [] == SaveAll(wire);
  }
}

/** Several threads feeding one muxer. The size of the buffer is read without the lock and
    acted on under it, so each packet takes two steps. */
module MuxerThreads {
  import opened Prelude
  import opened Bytes
  import opened Media
  import opened Muxing

  /** What a thread has decided after reading the size of the buffer. */
  datatype Decision = Undecided | JustPush | PushAndWrite

  /** A thread and all the packets it is given, each with the index of its stream. */
  datatype Producer = Producer(input: seq<(StreamIndex, Packet)>, done: nat, decision: Decision)

  datatype State = State(mux: Mux, producers: seq<Producer>, accepted: seq<Packet>)

  datatype Action = Check(t: nat) | Commit(t: nat) | FlushBuffer

  function StampedItem(item: (StreamIndex, Packet)): Packet {
    Stamped(item.1, item.0)
  }

  predicate Enabled(s: State, a: Action) {
    match a
    case Check(t) =>
      t < |s.producers| && s.producers[t].decision == Undecided && s.producers[t].done < |s.producers[t].input|
    case Commit(t) =>
      t < |s.producers| && s.producers[t].decision != Undecided && s.producers[t].done < |s.producers[t].input|
    case FlushBuffer => true
  }

  function Apply(s: State, a: Action): State
    requires Enabled(s, a)
  {
    match a
    case Check(t) =>
      var decision := if |s.mux.buffer| < s.mux.limit then JustPush else PushAndWrite;
      s.(producers := s.producers[t := s.producers[t].(decision := decision)])
    case Commit(t) =>
      var p := s.producers[t];
      var packet := StampedItem(p.input[p.done]);
      var pushed := Push(s.mux, packet);
      State(if p.decision == JustPush then pushed else PopAndWrite(pushed),
            s.producers[t := p.(done := p.done + 1, decision := Undecided)],
            s.accepted + [packet])
    case FlushBuffer => s.(mux := Flush(s.mux))
  }

  predicate CanRun(s: State, actions: seq<Action>)
    decreases |actions|
  {
    actions == [] || (Enabled(s, actions[0]) && CanRun(Apply(s, actions[0]), actions[1..]))
  }

  function Exec(s: State, actions: seq<Action>): State
    requires CanRun(s, actions)
    decreases |actions|
  {
    if actions == [] then s else Exec(Apply(s, actions[0]), actions[1..])
  }

  /** A thread that is left alone between its two steps processes its packet as the muxer
      of one thread does. */
  lemma UndisturbedIsProcess(s: State, t: nat)
    requires Enabled(s, Check(t))
    ensures Enabled(Apply(s, Check(t)), Commit(t))
    ensures var p := s.producers[t];
            var (index, packet) := p.input[p.done];
            Apply(Apply(s, Check(t)), Commit(t))
            == State(Process(s.mux, packet, index),
                     s.producers[t := p.(done := p.done + 1)],
                     s.accepted + [packet.(streamIndex := index)])
  {
    var p := s.producers[t];
    var u := Apply(s, Check(t));
    assert u.producers[t := p.(done := p.done + 1)] == s.producers[t := p.(done := p.done + 1)];
  }

  /** Threads that have not begun, in front of an empty buffer. */
  function Start(mux: Mux, inputs: seq<seq<(StreamIndex, Packet)>>): State {
    State(mux, seq(|inputs|, t requires 0 <= t < |inputs| => Producer(inputs[t], 0, Undecided)), [])
  }

  // ---- How full the buffer gets

  /** Threads that are going to push without taking anything out. */
  function Committed(producers: seq<Producer>): nat {
    if producers == [] then 0
    else (if producers[0].decision == JustPush then 1 else 0) + Committed(producers[1..])
  }

  lemma {:induction false} CommittedUpdate(producers: seq<Producer>, t: nat, p: Producer)
    requires t < |producers|
    ensures Committed(producers[t := p]) + (if producers[t].decision == JustPush then 1 else 0)
            == Committed(producers) + if p.decision == JustPush then 1 else 0
    ensures Committed(producers[t := p]) <= |producers|
  {
    if t == 0 {
      assert producers[t := p][1..] == producers[1..];
      CommittedAtMost(producers[1..]);
    } else {
      CommittedUpdate(producers[1..], t - 1, p);
      assert producers[t := p][1..] == producers[1..][t - 1 := p];
    }
  }

  lemma {:induction false} CommittedAtMost(producers: seq<Producer>)
    ensures Committed(producers) <= |producers|
  {
    if producers != [] {
      CommittedAtMost(producers[1..]);
    }
  }

  /** The most packets the buffer can come to hold. */
  function Bound(limit: nat, threads: nat): nat {
    if limit == 0 || threads == 0 then 0 else limit + threads - 1
  }

  predicate Bounded(s: State) {
    && |s.mux.buffer| + Committed(s.producers) <= Bound(s.mux.limit, |s.producers|)
  }

  lemma StepBounded(s: State, a: Action)
    requires Enabled(s, a) && Bounded(s)
    ensures Bounded(Apply(s, a)) && Apply(s, a).mux.limit == s.mux.limit
    ensures |Apply(s, a).producers| == |s.producers|
  {
    match a
    case Check(t) => CommittedUpdate(s.producers, t, Apply(s, a).producers[t]);
    case Commit(t) => CommittedUpdate(s.producers, t, Apply(s, a).producers[t]);
    case FlushBuffer => FlushWritesAll(s.mux);
  }

  lemma {:induction false} RunBounded(s: State, actions: seq<Action>)
    requires CanRun(s, actions) && Bounded(s)
    ensures Bounded(Exec(s, actions)) && Exec(s, actions).mux.limit == s.mux.limit
    ensures |Exec(s, actions).producers| == |s.producers|
    decreases |actions|
  {
    if actions != [] {
      StepBounded(s, actions[0]);
      RunBounded(Apply(s, actions[0]), actions[1..]);
    }
  }

  lemma {:induction false} NoneCommitted(producers: seq<Producer>)
    requires forall t :: 0 <= t < |producers| ==> producers[t].decision != JustPush
    ensures Committed(producers) == 0
  {
    if producers != [] {
      NoneCommitted(producers[1..]);
    }
  }

  /** With T threads the buffer never holds more than bufferMax + T - 1 packets; with one it
      never exceeds bufferMax. */
  lemma BufferBound(mux: Mux, inputs: seq<seq<(StreamIndex, Packet)>>, actions: seq<Action>)
    requires mux.buffer == [] && CanRun(Start(mux, inputs), actions)
    ensures |Exec(Start(mux, inputs), actions).mux.buffer| <= Bound(mux.limit, |inputs|)
    ensures forall bufferMax: int64 :: mux.limit == Limit(bufferMax) && bufferMax > 0 && inputs != [] ==>
              |Exec(Start(mux, inputs), actions).mux.buffer| <= bufferMax + |inputs| - 1
  {
    var s := Start(mux, inputs);
    NoneCommitted(s.producers);
    RunBounded(s, actions);
  }

  // ---- The bound is reached

  ghost predicate Reaches(s: State, t: State) {
    exists actions :: CanRun(s, actions) && Exec(s, actions) == t
  }

  lemma ReachesSelf(s: State)
    ensures Reaches(s, s)
  {
    assert CanRun(s, []) && Exec(s, []) == s;
  }

  lemma {:induction false} RunSnoc(s: State, actions: seq<Action>, a: Action)
    requires CanRun(s, actions) && Enabled(Exec(s, actions), a)
    ensures CanRun(s, actions + [a]) && Exec(s, actions + [a]) == Apply(Exec(s, actions), a)
    decreases |actions|
  {
    hide Apply, Enabled;
    if actions != [] {
      RunSnoc(Apply(s, actions[0]), actions[1..], a);
      assert (actions + [a])[1..] == actions[1..] + [a];
    } else {
      assert CanRun(Apply(s, a), [a][1..]) && Exec(Apply(s, a), [a][1..]) == Apply(s, a);
    }
  }

  lemma ReachesStep(s: State, t: State, a: Action)
    requires Reaches(s, t) && Enabled(t, a)
    ensures Reaches(s, Apply(t, a))
  {
    hide Apply, Enabled;
    var actions :| CanRun(s, actions) && Exec(s, actions) == t;
    RunSnoc(s, actions, a);
  }

  /** The first `checked` threads are committed to a push, the rest are undecided, and every
      thread has a packet left. */
  ghost predicate Lined(s: State, checked: nat) {
    forall t :: 0 <= t < |s.producers| ==>
      && s.producers[t].decision == (if t < checked then JustPush else Undecided)
      && s.producers[t].done < |s.producers[t].input|
  }

  /** One thread alone fills the buffer up to one below the limit. */
  lemma {:induction false} FillAlone(start: State, s: State) returns (full: State)
    requires Reaches(start, s) && Lined(s, 0) && |s.producers| > 0
    requires s.producers[0].done == |s.mux.buffer| < s.mux.limit == |s.producers[0].input|
    ensures Reaches(start, full) && Lined(full, 0) && |full.producers| == |s.producers|
    ensures full.mux.limit == s.mux.limit && |full.mux.buffer| == s.mux.limit - 1
    decreases s.mux.limit - |s.mux.buffer|
  {
    hide Reaches;
    if |s.mux.buffer| == s.mux.limit - 1 {
      full := s;
    } else {
      ReachesStep(start, s, Check(0));
      var c := Apply(s, Check(0));
      ReachesStep(start, c, Commit(0));
      full := FillAlone(start, Apply(c, Commit(0)));
    }
  }

  /** Every thread sees room for one more. */
  lemma {:induction false} CheckAll(start: State, s: State, t: nat) returns (r: State)
    requires Reaches(start, s) && t <= |s.producers| && Lined(s, t) && |s.mux.buffer| < s.mux.limit
    ensures Reaches(start, r) && Lined(r, |r.producers|) && r.mux == s.mux && |r.producers| == |s.producers|
    decreases |s.producers| - t
  {
    hide Reaches;
    r := s;
    if t < |s.producers| {
      ReachesStep(start, s, Check(t));
      r := CheckAll(start, Apply(s, Check(t)), t + 1);
    }
  }

  /** Every committed thread pushes. */
  lemma {:induction false} CommitAll(start: State, s: State, t: nat) returns (r: State)
    requires Reaches(start, s) && t <= |s.producers|
    requires forall u :: 0 <= u < t ==> s.producers[u].decision == JustPush && s.producers[u].done < |s.producers[u].input|
    ensures Reaches(start, r) && |r.mux.buffer| == |s.mux.buffer| + t
    decreases t
  {
    hide Reaches;
    r := s;
    if t > 0 {
      ReachesStep(start, s, Commit(t - 1));
      r := CommitAll(start, Apply(s, Commit(t - 1)), t - 1);
    }
  }

  /** The bound is exact: for every limit and number of threads some run attains it. */
  lemma BoundReached(mux: Mux, threads: nat, item: (StreamIndex, Packet))
    returns (inputs: seq<seq<(StreamIndex, Packet)>>, s: State)
    requires mux.buffer == []
    ensures |inputs| == threads && Reaches(Start(mux, inputs), s)
    ensures |s.mux.buffer| == Bound(mux.limit, threads)
  {
    hide Reaches;
    inputs := seq(threads, _ => seq(mux.limit, _ => item));
    var start := Start(mux, inputs);
    ReachesSelf(start);
    s := start;
    if mux.limit > 0 && threads > 0 {
      s := FillAlone(start, start);
      s := CheckAll(start, s, 0);
      s := CommitAll(start, s, |s.producers|);
    }
  }

  // ---- Order

  /** The packets written to the output, in order. */
  function Written(trace: seq<Output>): seq<Packet> {
    if trace == [] then []
    else
      var last := trace[|trace| - 1];
      Written(trace[..|trace| - 1]) + if last.Write? then [last.packet] else []
  }

  lemma WrittenSnoc(trace: seq<Output>, out: Output)
    ensures Written(trace + [out]) == Written(trace) + if out.Write? then [out.packet] else []
  {
    assert (trace + [out])[..|trace|] == trace;
  }

  /** What has left the buffer and what is in it, oldest first. */
  function Passed(m: Mux): seq<Packet> {
    Written(m.trace) + m.buffer
  }

  lemma PopKeepsPassed(m: Mux)
    requires m.buffer != []
    ensures Passed(PopAndWrite(m)) == Passed(m)
  {
    hide Written;
    var front := m.buffer[0];
    var headed := if m.streamStart then m.trace + [Header(m.streams)] else m.trace;
    if m.streamStart {
      WrittenSnoc(m.trace, Header(m.streams));
      Assoc(m.trace, [Header(m.streams)], [Write(front)]);
    } else {
      assert [] + [Write(front)] == [Write(front)];
    }
    assert Written(headed) == Written(m.trace);
    WrittenSnoc(headed, Write(front));
    assert PopAndWrite(m).trace == headed + [Write(front)];
    assert m.buffer == [front] + m.buffer[1..];
  }

  lemma {:induction false} FlushKeepsPassed(m: Mux)
    ensures Passed(Flush(m)) == Passed(m)
    decreases |m.buffer|
  {
    if m.buffer != [] {
      PopKeepsPassed(m);
      FlushKeepsPassed(PopAndWrite(m));
    }
  }

  lemma StepKeepsPassed(s: State, a: Action, before: seq<Packet>)
    requires Enabled(s, a) && Passed(s.mux) == before + s.accepted
    ensures Passed(Apply(s, a).mux) == before + Apply(s, a).accepted
  {
    hide PopAndWrite, Flush, Written;
    match a
    case Check(_) =>
    case Commit(t) =>
      var p := s.producers[t];
      var packet := StampedItem(p.input[p.done]);
      Assoc(Written(s.mux.trace), s.mux.buffer, [packet]);
      Assoc(before, s.accepted, [packet]);
      PopKeepsPassed(Push(s.mux, packet));
    case FlushBuffer => FlushKeepsPassed(s.mux);
  }

  /** Under any interleaving of producers and flushes, what was written and what is still
      buffered are the packets accepted, in the order the lock was taken. */
  lemma {:induction false} FirstInFirstOut(s: State, actions: seq<Action>, before: seq<Packet>)
    requires CanRun(s, actions) && Passed(s.mux) == before + s.accepted
    ensures var t := Exec(s, actions); Written(t.mux.trace) + t.mux.buffer == before + t.accepted
    decreases |actions|
  {
    hide Apply, Enabled;
    if actions != [] {
      StepKeepsPassed(s, actions[0], before);
      FirstInFirstOut(Apply(s, actions[0]), actions[1..], before);
    }
  }

  // ---- Each stream on its own

  function Project(index: StreamIndex, packets: seq<Packet>): seq<Packet> {
    if packets == [] then []
    else
      var last := packets[|packets| - 1];
      Project(index, packets[..|packets| - 1]) + if last.streamIndex == index then [last] else []
  }

  lemma ProjectSnoc(index: StreamIndex, packets: seq<Packet>, p: Packet)
    ensures Project(index, packets + [p]) == Project(index, packets) + if p.streamIndex == index then [p] else []
  {
    assert (packets + [p])[..|packets|] == packets;
  }

  lemma {:induction false} ProjectAppend(index: StreamIndex, a: seq<Packet>, b: seq<Packet>)
    ensures Project(index, a + b) == Project(index, a) + Project(index, b)
  {
    if b == [] {
      assert a + b == a && Project(index, a) + [] == Project(index, a);
    } else {
      var n := |b| - 1;
      ProjectAppend(index, a, b[..n]);
      assert a + b == a + b[..n] + [b[n]];
      ProjectSnoc(index, a + b[..n], b[n]);
      Assoc(Project(index, a), Project(index, b[..n]), if b[n].streamIndex == index then [b[n]] else []);
    }
  }

  function StampedAll(items: seq<(StreamIndex, Packet)>): (r: seq<Packet>)
    ensures |r| == |items| && forall i :: 0 <= i < |r| ==> r[i] == StampedItem(items[i])
  {
    seq(|items|, i requires 0 <= i < |items| => StampedItem(items[i]))
  }

  /** Only thread t is given packets for this stream. */
  predicate FedBy(producers: seq<Producer>, index: StreamIndex, t: nat) {
    forall u, i :: 0 <= u < |producers| && u != t && 0 <= i < |producers[u].input| ==> producers[u].input[i].0 != index
  }

  /** What thread t has handed over for the stream. */
  function HandedOver(p: Producer, index: StreamIndex): seq<Packet>
    requires p.done <= |p.input|
  {
    Project(index, StampedAll(p.input[..p.done]))
  }

  ghost predicate Separated(s: State, index: StreamIndex, t: nat) {
    && t < |s.producers| && FedBy(s.producers, index, t)
    && s.producers[t].done <= |s.producers[t].input|
    && Project(index, s.accepted) == HandedOver(s.producers[t], index)
  }

  lemma StepSeparated(s: State, a: Action, index: StreamIndex, t: nat)
    requires Enabled(s, a) && Separated(s, index, t)
    ensures Separated(Apply(s, a), index, t) && Apply(s, a).producers[t].input == s.producers[t].input
  {
    hide PopAndWrite, Flush, Project;
    if a.Commit? {
      var p := s.producers[a.t];
      var packet := StampedItem(p.input[p.done]);
      ProjectSnoc(index, s.accepted, packet);
      if a.t == t {
        assert StampedAll(p.input[..p.done + 1]) == StampedAll(p.input[..p.done]) + [packet];
        ProjectSnoc(index, StampedAll(p.input[..p.done]), packet);
      } else {
        assert p.input[p.done].0 != index;
        assert Project(index, s.accepted) + [] == Project(index, s.accepted);
      }
    }
  }

  lemma {:induction false} RunSeparated(s: State, actions: seq<Action>, index: StreamIndex, t: nat)
    requires CanRun(s, actions) && Separated(s, index, t)
    ensures Separated(Exec(s, actions), index, t) && Exec(s, actions).producers[t].input == s.producers[t].input
    decreases |actions|
  {
    hide Apply, Enabled, Separated;
    if actions != [] {
      StepSeparated(s, actions[0], index, t);
      RunSeparated(Apply(s, actions[0]), actions[1..], index, t);
    }
  }

  /** The packets of a stream leave the muxer in the order its producer supplied them: what
      is written and buffered for it is the part of the input handed over so far, so what is
      written is a prefix of the input, and all of it once the producer has finished and
      the buffer has been flushed. */
  lemma StreamOrder(mux: Mux, inputs: seq<seq<(StreamIndex, Packet)>>, actions: seq<Action>, index: StreamIndex, t: nat)
    requires mux.buffer == [] && mux.trace == [] && t < |inputs|
    requires CanRun(Start(mux, inputs), actions)
    requires FedBy(Start(mux, inputs).producers, index, t)
    ensures var s := Exec(Start(mux, inputs), actions);
            var written := Project(index, Written(s.mux.trace));
            && t < |s.producers| && s.producers[t].done <= |inputs[t]|
            && written + Project(index, s.mux.buffer) == Project(index, StampedAll(inputs[t][..s.producers[t].done]))
            && written <= Project(index, StampedAll(inputs[t]))
            && (s.producers[t].done == |inputs[t]| && s.mux.buffer == [] ==>
                  written == Project(index, StampedAll(inputs[t])))
  {
    hide Project, Apply, Enabled, CanRun;
    var start := Start(mux, inputs);
    assert StampedAll(inputs[t][..0]) == [];
    RunSeparated(start, actions, index, t);
    FirstInFirstOut(start, actions, []);
    var s := Exec(start, actions);
    var done := s.producers[t].done;
    ProjectAppend(index, Written(s.mux.trace), s.mux.buffer);
    assert [] + s.accepted == s.accepted;
    var all := StampedAll(inputs[t]);
    assert all == StampedAll(inputs[t][..done]) + all[done..];
    ProjectAppend(index, StampedAll(inputs[t][..done]), all[done..]);
    assert done == |inputs[t]| ==> inputs[t][..done] == inputs[t];
  }

  /** Once a producer has finished, a flush leaves nothing of its stream behind. */
  lemma StreamFlushed(mux: Mux, inputs: seq<seq<(StreamIndex, Packet)>>, actions: seq<Action>, index: StreamIndex, t: nat)
    requires mux.buffer == [] && mux.trace == [] && t < |inputs|
    requires CanRun(Start(mux, inputs), actions)
    requires FedBy(Start(mux, inputs).producers, index, t)
    ensures var s := Exec(Start(mux, inputs), actions);
            t < |s.producers| &&
            (s.producers[t].done == |inputs[t]| ==>
               Project(index, Written(Apply(s, FlushBuffer).mux.trace)) == Project(index, StampedAll(inputs[t])))
  {
    hide Project, Written, FedBy;
    var start := Start(mux, inputs);
    StreamOrder(mux, inputs, actions, index, t);
    RunSnoc(start, actions, FlushBuffer);
    StreamOrder(mux, inputs, actions + [FlushBuffer], index, t);
    FlushWritesAll(Exec(start, actions).mux);
  }
}

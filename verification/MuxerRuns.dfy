/** What the muxer holds and what it has written after any sequence of operations. */
module MuxerRuns {
  import opened Prelude
  import opened Bytes
  import opened Media
  import opened Muxing
  import opened MuxerThreads

  /** The packets given, with the index of their output stream. */
  function Given(ops: seq<Op>): seq<Packet> {
    if ops == [] then []
    else
      var last := ops[|ops| - 1];
      Given(ops[..|ops| - 1]) + if last.ProcessOp? then [last.packet.(streamIndex := last.index)] else []
  }

  /** Those given since the buffer was last emptied. */
  function Waiting(ops: seq<Op>): seq<Packet> {
    if ops == [] then []
    else
      match ops[|ops| - 1]
      case ProcessOp(packet, index) => Waiting(ops[..|ops| - 1]) + [packet.(streamIndex := index)]
      case FlushOp => []
      case CloseOp => []
      case _ => Waiting(ops[..|ops| - 1])
  }

  function LastOf(packets: seq<Packet>, n: nat): seq<Packet> {
    if |packets| <= n then packets else packets[|packets| - n..]
  }

  lemma {:induction false} ApplyAllSnoc(m: Mux, ops: seq<Op>, op: Op)
    ensures ApplyAll(m, ops + [op]) == Muxing.Apply(ApplyAll(m, ops), op)
    decreases |ops|
  {
    hide Muxing.Apply;
    if ops == [] {
      assert ApplyAll(Muxing.Apply(m, op), [op][1..]) == Muxing.Apply(m, op);
    } else {
      assert (ops + [op])[1..] == ops[1..] + [op];
      ApplyAllSnoc(Muxing.Apply(m, ops[0]), ops[1..], op);
    }
  }

  lemma ProcessHolds(m: Mux, packet: Packet, index: StreamIndex, waiting: seq<Packet>)
    requires m.buffer == LastOf(waiting, m.limit)
    ensures var t, given := Process(m, packet, index), [packet.(streamIndex := index)];
            t.limit == m.limit && t.buffer == LastOf(waiting + given, m.limit) && Passed(t) == Passed(m) + given
  {
    hide Written;
    var given := [packet.(streamIndex := index)];
    Assoc(Written(m.trace), m.buffer, given);
    PopKeepsPassed(Push(m, Stamped(packet, index)));
  }

  lemma CloseHolds(m: Mux)
    ensures Close(m).limit == m.limit && Close(m).buffer == [] && Passed(Close(m)) == Passed(m)
  {
    hide Written, Flush;
    FlushKeepsPassed(m);
    FlushWritesAll(m);
    var t := Flush(m).trace;
    WrittenSnoc(t, CloseFile);
    WrittenSnoc(t, FlushInterleaver);
    WrittenSnoc(t + [FlushInterleaver], Trailer);
    WrittenSnoc(t + [FlushInterleaver] + [Trailer], CloseFile);
    assert t + ([FlushInterleaver, Trailer] + [CloseFile]) == t + [FlushInterleaver] + [Trailer] + [CloseFile];
    assert t + ([FlushInterleaver, Trailer] + []) == t + [FlushInterleaver] + [Trailer];
    assert t + ([] + [CloseFile]) == t + [CloseFile];
    assert t + ([] + []) == t;
    assert forall s: seq<Packet> :: s + [] == s;
  }

  ghost predicate Holds(m: Mux, limit: nat, ops: seq<Op>) {
    m.limit == limit && m.buffer == LastOf(Waiting(ops), limit) && Passed(m) == Given(ops)
  }

  lemma StepHolds(m: Mux, limit: nat, ops: seq<Op>, op: Op)
    requires Holds(m, limit, ops)
    ensures Holds(Muxing.Apply(m, op), limit, ops + [op])
  {
    hide Written, Close, Flush, Process;
    assert (ops + [op])[..|ops|] == ops;
    assert Given(ops) + [] == Given(ops);
    match op
    case SubscribeOp =>
    case OpenOp(_) => WrittenSnoc(m.trace, OpenFile); assert Written(m.trace) + [] == Written(m.trace);
    case ProcessOp(packet, index) => ProcessHolds(m, packet, index, Waiting(ops));
    case FlushOp => FlushKeepsPassed(m); FlushWritesAll(m);
    case CloseOp => CloseHolds(m);
  }

  lemma {:induction false} RunHolds(bufferMax: int64, noFile: bool, ops: seq<Op>)
    ensures Holds(ApplyAll(Muxing.Init(bufferMax, noFile), ops), Limit(bufferMax), ops)
    decreases |ops|
  {
    hide Holds, Muxing.Apply;
    var start := Muxing.Init(bufferMax, noFile);
    if ops == [] {
      StartHolds(bufferMax, noFile);
    } else {
      var n := |ops| - 1;
      assert ops == ops[..n] + [ops[n]];
      RunHolds(bufferMax, noFile, ops[..n]);
      ApplyAllSnoc(start, ops[..n], ops[n]);
      StepHolds(ApplyAll(start, ops[..n]), Limit(bufferMax), ops[..n], ops[n]);
    }
  }

  lemma StartHolds(bufferMax: int64, noFile: bool)
    ensures Holds(Muxing.Init(bufferMax, noFile), Limit(bufferMax), [])
  {
  }

  /** After any sequence of operations the packets written and the packets buffered are
      those given, in order; and exactly the newest `bufferMax` of those given since the
      last flush or close are in the buffer. A negative `bufferMax` keeps them all, up to
      2^63 of them. */
  lemma BufferExactly(bufferMax: int64, noFile: bool, ops: seq<Op>)
    ensures var m := ApplyAll(Muxing.Init(bufferMax, noFile), ops);
            && Written(m.trace) + m.buffer == Given(ops)
            && (bufferMax >= 0 ==> m.buffer == LastOf(Waiting(ops), bufferMax) && |m.buffer| <= bufferMax)
            && (bufferMax < 0 && |Waiting(ops)| <= TWO63 ==> m.buffer == Waiting(ops))
  {
    RunHolds(bufferMax, noFile, ops);
  }

  // ---- Subscriptions

  /** A header has been written and no trailer since. */
  predicate Headed(trace: seq<Output>) {
    trace != [] &&
    match trace[|trace| - 1]
    case Header(_) => true
    case Trailer => false
    case _ => Headed(trace[..|trace| - 1])
  }

  lemma HeadedSnoc(trace: seq<Output>, out: Output)
    ensures Headed(trace + [out]) == (out.Header? || (Headed(trace) && !out.Trailer?))
  {
    assert (trace + [out])[..|trace|] == trace;
  }

  /** How many of the subscriptions come while no header is written. */
  function Admitted(m: Mux, ops: seq<Op>): nat
    decreases |ops|
  {
    if ops == [] then 0
    else
      (if ops[0].SubscribeOp? && !Headed(m.trace) then 1 else 0) + Admitted(Muxing.Apply(m, ops[0]), ops[1..])
  }

  lemma WriteHeaded(m: Mux, packet: Packet)
    requires m.streamStart == !Headed(m.trace)
    ensures var t := WritePacket(m, packet);
            t.streamStart == !Headed(t.trace) && t.streams == m.streams && t.phase == m.phase && t.noFile == m.noFile
  {
    hide Headed;
    HeadedSnoc(m.trace, Write(packet));
    HeadedSnoc(m.trace, Header(m.streams));
    HeadedSnoc(m.trace + [Header(m.streams)], Write(packet));
    Assoc(m.trace, [Header(m.streams)], [Write(packet)]);
    assert [] + [Write(packet)] == [Write(packet)];
  }

  lemma {:induction false} FlushHeaded(m: Mux)
    requires m.streamStart == !Headed(m.trace)
    ensures var t := Flush(m);
            t.streamStart == !Headed(t.trace) && t.streams == m.streams && t.phase == m.phase && t.noFile == m.noFile
    decreases |m.buffer|
  {
    hide Headed;
    if m.buffer != [] {
      WriteHeaded(m.(buffer := m.buffer[1..]), m.buffer[0]);
      FlushHeaded(PopAndWrite(m));
    }
  }

  lemma CloseHeaded(m: Mux)
    requires m.streamStart == !Headed(m.trace)
    ensures Close(m).streamStart == !Headed(Close(m).trace) && Close(m).streams == m.streams
  {
    hide Headed, Flush;
    FlushHeaded(m);
    var t := Flush(m).trace;
    HeadedSnoc(t, CloseFile);
    HeadedSnoc(t, FlushInterleaver);
    HeadedSnoc(t + [FlushInterleaver], Trailer);
    HeadedSnoc(t + [FlushInterleaver] + [Trailer], CloseFile);
    assert t + ([FlushInterleaver, Trailer] + [CloseFile]) == t + [FlushInterleaver] + [Trailer] + [CloseFile];
    assert t + ([FlushInterleaver, Trailer] + []) == t + [FlushInterleaver] + [Trailer];
    assert t + ([] + [CloseFile]) == t + [CloseFile];
    assert t + ([] + []) == t;
  }

  lemma StepHeaded(m: Mux, op: Op)
    requires m.streamStart == !Headed(m.trace)
    ensures var t := Muxing.Apply(m, op);
            && t.streamStart == !Headed(t.trace)
            && t.streams == m.streams + if op.SubscribeOp? && !Headed(m.trace) then 1 else 0
  {
    hide Headed, Flush, Close, WritePacket;
    match op
    case SubscribeOp =>
    case OpenOp(_) => HeadedSnoc(m.trace, OpenFile);
    case ProcessOp(packet, index) =>
      var pushed := Push(m, Stamped(packet, index));
      WriteHeaded(pushed.(buffer := pushed.buffer[1..]), pushed.buffer[0]);
    case FlushOp => FlushHeaded(m);
    case CloseOp => CloseHeaded(m);
  }

  /** Over any sequence of operations the number of streams, which is the index handed out
      next, is the number of subscriptions that found no header without a trailer; and a
      subscription is refused exactly when there is one. */
  lemma {:induction false} StreamsCounted(m: Mux, ops: seq<Op>)
    requires Subscribe(m).Some? <==> !Headed(m.trace)
    ensures var t := ApplyAll(m, ops);
            t.streams == m.streams + Admitted(m, ops) && (Subscribe(t).Some? <==> !Headed(t.trace))
    decreases |ops|
  {
    hide Muxing.Apply, Headed;
    if ops != [] {
      StepHeaded(m, ops[0]);
      StreamsCounted(Muxing.Apply(m, ops[0]), ops[1..]);
    }
  }
}

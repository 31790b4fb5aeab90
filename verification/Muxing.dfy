/** The muxer's buffer and its header and trailer protocol, as a state machine that records
    what reaches the output, and the grammar of that output. */
module Muxing {
  import opened Prelude
  import opened Bytes
  import opened Media

  datatype Phase = Ready | Open | Closed | Failed

  /** Calls on the output context. `Header` carries the number of streams at that time. */
  datatype Output = OpenFile | Header(streams: nat) | Write(packet: Packet) | FlushInterleaver | Trailer | CloseFile

  type StreamIndex = i: int | 0 <= i < TWO31

  /** `noFile` is the AVFMT_NOFILE flag of the output context. */
  datatype Mux = Mux(
    limit: nat,
    noFile: bool,
    phase: Phase,
    streamStart: bool,
    streams: nat,
    buffer: seq<Packet>,
    trace: seq<Output>)

  /** The size of the buffer is compared as an unsigned number with the limit, so a
      negative limit is a very large one. */
  function Limit(bufferMax: int64): nat {
    if bufferMax < 0 then bufferMax + TWO64 else bufferMax
  }

  function Init(bufferMax: int64, noFile: bool): Mux {
    Mux(Limit(bufferMax), noFile, Ready, true, 0, [], [])
  }

  // ---- The operations

  function Emit(m: Mux, out: seq<Output>): Mux {
    m.(trace := m.trace + out)
  }

  function WritePacket(m: Mux, packet: Packet): Mux {
    Emit(m, (if m.streamStart then [Header(m.streams)] else []) + [Write(packet)]).(streamStart := false)
  }

  /** Writes the oldest buffered packet. */
  function PopAndWrite(m: Mux): Mux
    requires m.buffer != []
  {
    WritePacket(m.(buffer := m.buffer[1..]), m.buffer[0])
  }

  function Flush(m: Mux): Mux
    decreases |m.buffer|
  {
    if m.buffer == [] then m else Flush(PopAndWrite(m))
  }

  function Push(m: Mux, packet: Packet): Mux {
    m.(buffer := m.buffer + [packet])
  }

  /** The packet as it is stored: with the index of its output stream. */
  function Stamped(packet: Packet, index: StreamIndex): Packet {
    packet.(streamIndex := index)
  }

  function Process(m: Mux, packet: Packet, index: StreamIndex): Mux {
    var pushed := Push(m, Stamped(packet, index));
    if |m.buffer| < m.limit then pushed else PopAndWrite(pushed)
  }

  /** None is the exception for a stream that comes after the header. */
  function Subscribe(m: Mux): Option<Mux> {
    if m.streamStart then Some(m.(streams := m.streams + 1)) else None
  }

  /** `opens` is whether the file can be opened. */
  function OpenOutput(m: Mux, opens: bool): Mux {
    if m.phase == Open then m
    else if m.noFile then m.(phase := Open)
    else if opens then Emit(m, [OpenFile]).(phase := Open)
    else m.(phase := Failed)
  }

  function Close(m: Mux): Mux {
    var m := Flush(m);
    if m.phase == Open then
      Emit(m, (if m.streamStart then [] else [FlushInterleaver, Trailer])
              + if m.noFile then [] else [CloseFile]).(phase := Closed, streamStart := true)
    else m
  }

  // ---- What flushing does

  function Writes(packets: seq<Packet>): (r: seq<Output>)
    ensures |r| == |packets| && forall i :: 0 <= i < |r| ==> r[i] == Write(packets[i])
  {
    seq(|packets|, i requires 0 <= i < |packets| => Write(packets[i]))
  }

  /** A flush writes the whole buffer in order, after a header if none has been written. */
  lemma {:induction false} FlushWritesAll(m: Mux)
    ensures Flush(m) ==
            if m.buffer == [] then m
            else Emit(m, (if m.streamStart then [Header(m.streams)] else []) + Writes(m.buffer))
                 .(buffer := [], streamStart := false)
    decreases |m.buffer|
  {
    hide Writes;
    if m.buffer != [] {
      var next := PopAndWrite(m);
      FlushWritesAll(next);
      var head := if m.streamStart then [Header(m.streams)] else [];
      WritesCons(m.buffer);
      FourParts(m.trace, head, [Write(m.buffer[0])], Writes(m.buffer[1..]));
      assert m.buffer[1..] == [] ==> Writes(m.buffer) == [Write(m.buffer[0])];
      assert [] + Writes(next.buffer) == Writes(next.buffer);
    }
  }

  lemma WritesCons(packets: seq<Packet>)
    requires packets != []
    ensures Writes(packets) == [Write(packets[0])] + Writes(packets[1..])
  {
  }

  lemma FourParts<T>(a: seq<T>, b: seq<T>, c: seq<T>, d: seq<T>)
    ensures a + (b + c) + d == a + (b + (c + d))
    ensures a + b + (c + d) == a + (b + c + d)
  {
  }

  /** Closing twice is closing once. */
  lemma CloseIdempotent(m: Mux)
    ensures Close(Close(m)) == Close(m)
  {
    FlushWritesAll(m);
    FlushWritesAll(Close(m));
  }

  // ---- The grammar of the output

  /** What one opening of the file amounts to: the packets written, and how many streams
      the header announced for them. */
  datatype Session = Session(streams: nat, packets: seq<Packet>)

  function Began(s: Session, noFile: bool): seq<Output> {
    (if noFile then [] else [OpenFile])
    + if s.packets == [] then [] else [Header(s.streams)] + Writes(s.packets)
  }

  function Ending(s: Session, noFile: bool): seq<Output> {
    (if s.packets == [] then [] else [FlushInterleaver, Trailer]) + if noFile then [] else [CloseFile]
  }

  function EndedAll(sessions: seq<Session>, noFile: bool): seq<Output> {
    if sessions == [] then []
    else
      var last := sessions[|sessions| - 1];
      EndedAll(sessions[..|sessions| - 1], noFile) + (Began(last, noFile) + Ending(last, noFile))
  }

  /** Every packet written goes to a stream the header knew of. */
  predicate Known(s: Session) {
    forall i :: 0 <= i < |s.packets| ==> 0 <= s.packets[i].streamIndex < s.streams
  }

  ghost predicate AllKnown(sessions: seq<Session>) {
    forall i :: 0 <= i < |sessions| ==> Known(sessions[i])
  }

  /** The trace is a repetition of whole sessions and, while the output is open, the
      beginning of one more. */
  ghost predicate Explains(m: Mux, sessions: seq<Session>, current: Session) {
    && AllKnown(sessions) && Known(current)
    && m.trace == EndedAll(sessions, m.noFile) + (if m.phase == Open then Began(current, m.noFile) else [])
    && (m.phase == Open ==> (m.streamStart <==> current.packets == []))
    && (m.phase == Open && !m.streamStart ==> current.streams == m.streams)
    && (m.phase != Open ==> m.streamStart && m.buffer == [])
    && forall i :: 0 <= i < |m.buffer| ==> 0 <= m.buffer[i].streamIndex < m.streams
  }

  datatype Op =
    | SubscribeOp
    | OpenOp(opens: bool)
    | ProcessOp(packet: Packet, index: StreamIndex)
    | FlushOp
    | CloseOp

  /** Packets arrive only between open and close, each from a subscribed stream. */
  predicate Proper(m: Mux, op: Op) {
    op.ProcessOp? ==> m.phase == Open && op.index < m.streams
  }

  function Apply(m: Mux, op: Op): Mux {
    match op
    case SubscribeOp => if Subscribe(m).Some? then Subscribe(m).value else m
    case OpenOp(opens) => OpenOutput(m, opens)
    case ProcessOp(packet, index) => Process(m, packet, index)
    case FlushOp => Flush(m)
    case CloseOp => Close(m)
  }

  predicate AllProper(m: Mux, ops: seq<Op>)
    decreases |ops|
  {
    ops == [] || (Proper(m, ops[0]) && AllProper(Apply(m, ops[0]), ops[1..]))
  }

  function ApplyAll(m: Mux, ops: seq<Op>): Mux
    decreases |ops|
  {
    if ops == [] then m else ApplyAll(Apply(m, ops[0]), ops[1..])
  }

  // ---- What went in, opening by opening

  /** The packets given between an opening that succeeded and the closing after it: of all
      such openings that are over, and of the present one. */
  datatype Ledger = Ledger(ended: seq<seq<Packet>>, phase: Phase, given: seq<Packet>)

  function Enter(l: Ledger, op: Op, noFile: bool): Ledger {
    match op
    case SubscribeOp => l
    case OpenOp(opens) =>
      if l.phase == Open then l
      else if opens || noFile then l.(phase := Open, given := [])
      else l.(phase := Failed)
    case ProcessOp(packet, index) => l.(given := l.given + [packet.(streamIndex := index)])
    case FlushOp => l
    case CloseOp => if l.phase == Open then Ledger(l.ended + [l.given], Closed, []) else l
  }

  function EnterAll(l: Ledger, ops: seq<Op>, noFile: bool): Ledger
    decreases |ops|
  {
    if ops == [] then l else EnterAll(Enter(l, ops[0], noFile), ops[1..], noFile)
  }

  function Contents(sessions: seq<Session>): (r: seq<seq<Packet>>)
    ensures |r| == |sessions| && forall i :: 0 <= i < |r| ==> r[i] == sessions[i].packets
  {
    seq(|sessions|, i requires 0 <= i < |sessions| => sessions[i].packets)
  }

  /** Every session that is over holds what was given for it, and the present one holds it
      as far as it has left the buffer. */
  ghost predicate Accounts(m: Mux, sessions: seq<Session>, current: Session, l: Ledger) {
    && m.phase == l.phase
    && Contents(sessions) == l.ended
    && (m.phase == Open ==> current.packets + m.buffer == l.given)
  }

  lemma WriteExplained(m: Mux, packet: Packet, sessions: seq<Session>, current: Session) returns (now: Session)
    requires Explains(m, sessions, current) && m.phase == Open
    requires 0 <= packet.streamIndex < m.streams
    ensures Explains(WritePacket(m, packet), sessions, now)
    ensures now.packets == current.packets + [packet]
  {
    hide EndedAll;
    now := Session(m.streams, current.packets + [packet]);
    var open, head := if m.noFile then [] else [OpenFile], [Header(m.streams)];
    assert Writes(now.packets) == Writes(current.packets) + [Write(packet)];
    if current.packets == [] {
      assert Began(current, m.noFile) == open;
      assert Writes(now.packets) == [Write(packet)];
      assert Began(current, m.noFile) + (head + [Write(packet)]) == Began(now, m.noFile);
    } else {
      assert [] + [Write(packet)] == [Write(packet)];
      FourParts(open, head, Writes(current.packets), [Write(packet)]);
      assert Began(current, m.noFile) + [Write(packet)] == Began(now, m.noFile);
    }
    Assoc(EndedAll(sessions, m.noFile), Began(current, m.noFile),
          (if m.streamStart then head else []) + [Write(packet)]);
  }

  lemma PopExplained(m: Mux, sessions: seq<Session>, current: Session)
    requires Explains(m, sessions, current) && m.buffer != []
    ensures Explains(m.(buffer := m.buffer[1..]), sessions, current)
    ensures m.phase == Open && 0 <= m.buffer[0].streamIndex < m.streams
  {
    hide Began, Known, EndedAll;
  }

  lemma FlushKeeps(m: Mux)
    ensures Flush(m).buffer == [] && Flush(m).phase == m.phase && Flush(m).noFile == m.noFile
  {
    FlushWritesAll(m);
  }

  lemma {:induction false} FlushExplained(m: Mux, sessions: seq<Session>, current: Session) returns (now: Session)
    requires Explains(m, sessions, current)
    ensures Explains(Flush(m), sessions, now)
    ensures now.packets == current.packets + m.buffer
    decreases |m.buffer|
  {
    hide Explains, WritePacket;
    now := current;
    if m.buffer != [] {
      PopExplained(m, sessions, current);
      now := WriteExplained(m.(buffer := m.buffer[1..]), m.buffer[0], sessions, current);
      assert |PopAndWrite(m).buffer| < |m.buffer| && PopAndWrite(m).buffer == m.buffer[1..] by {
        PopShortens(m);
      }
      now := FlushExplained(PopAndWrite(m), sessions, now);
      assert m.buffer == [m.buffer[0]] + m.buffer[1..];
    } else {
      assert current.packets + [] == current.packets;
    }
  }

  lemma PopShortens(m: Mux)
    requires m.buffer != []
    ensures PopAndWrite(m).buffer == m.buffer[1..]
  {
  }

  lemma CloseExplained(m: Mux, sessions: seq<Session>, current: Session)
    returns (ended: seq<Session>, now: Session)
    requires Explains(m, sessions, current)
    ensures Explains(Close(m), ended, now)
    ensures Close(m).phase != Open && Close(m).noFile == m.noFile
    ensures Close(m).phase == if m.phase == Open then Closed else m.phase
    ensures Contents(ended) == Contents(sessions) + if m.phase == Open then [current.packets + m.buffer] else []
  {
    hide Flush, Began, Known, EndedAll;
    FlushKeeps(m);
    now := FlushExplained(m, sessions, current);
    ended := sessions;
    assert Contents(sessions) + [] == Contents(sessions);
    if m.phase == Open {
      ended := sessions + [now];
      EndedAllSnoc(sessions, now, m.noFile);
      Assoc(EndedAll(sessions, m.noFile), Began(now, m.noFile), Ending(now, m.noFile));
      assert Close(m).trace == EndedAll(ended, m.noFile) + [];
    }
  }

  lemma EndedAllSnoc(sessions: seq<Session>, s: Session, noFile: bool)
    ensures EndedAll(sessions + [s], noFile) == EndedAll(sessions, noFile) + (Began(s, noFile) + Ending(s, noFile))
  {
    assert (sessions + [s])[..|sessions|] == sessions;
  }

  lemma ProcessExplained(m: Mux, packet: Packet, index: StreamIndex, sessions: seq<Session>, current: Session)
    returns (now: Session)
    requires Explains(m, sessions, current) && m.phase == Open && index < m.streams
    ensures Explains(Process(m, packet, index), sessions, now)
    ensures now.packets + Process(m, packet, index).buffer
            == current.packets + m.buffer + [packet.(streamIndex := index)]
  {
    hide Began, Known, EndedAll;
    var pushed := Push(m, Stamped(packet, index));
    now := current;
    Assoc(current.packets, m.buffer, [Stamped(packet, index)]);
    assert Explains(pushed, sessions, current);
    if |m.buffer| >= m.limit {
      var popped := pushed.(buffer := pushed.buffer[1..]);
      assert Explains(popped, sessions, current);
      now := WriteExplained(popped, pushed.buffer[0], sessions, current);
      assert pushed.buffer == [pushed.buffer[0]] + pushed.buffer[1..];
      Assoc(current.packets, [pushed.buffer[0]], pushed.buffer[1..]);
    }
  }

  lemma StepExplained(m: Mux, op: Op, sessions: seq<Session>, current: Session, l: Ledger)
    returns (ended: seq<Session>, now: Session)
    requires Explains(m, sessions, current) && Accounts(m, sessions, current, l) && Proper(m, op)
    ensures Explains(Apply(m, op), ended, now) && Apply(m, op).noFile == m.noFile
    ensures Accounts(Apply(m, op), ended, now, Enter(l, op, m.noFile))
  {
    hide Flush, Close, Process, EndedAll, Contents;
    ended, now := sessions, current;
    match op {
      case SubscribeOp =>
      case OpenOp(opens) =>
        if m.phase != Open {
          now := Session(0, []);
          assert Began(now, m.noFile) == if m.noFile then [] else [OpenFile];
          assert m.trace + [] == m.trace;
        }
      case ProcessOp(packet, index) =>
        now := ProcessExplained(m, packet, index, sessions, current);
        ProcessKeeps(m, packet, index);
      case FlushOp =>
        FlushKeeps(m);
        now := FlushExplained(m, sessions, current);
      case CloseOp => ended, now := CloseExplained(m, sessions, current);
    }
  }

  lemma ProcessKeeps(m: Mux, packet: Packet, index: StreamIndex)
    ensures var t := Process(m, packet, index);
            t.phase == m.phase && t.noFile == m.noFile && t.limit == m.limit && t.streams == m.streams
  {
  }

  lemma {:induction false} RunExplained(m: Mux, ops: seq<Op>, sessions: seq<Session>, current: Session, l: Ledger)
    returns (ended: seq<Session>, now: Session)
    requires Explains(m, sessions, current) && Accounts(m, sessions, current, l) && AllProper(m, ops)
    ensures Explains(ApplyAll(m, ops), ended, now) && ApplyAll(m, ops).noFile == m.noFile
    ensures Accounts(ApplyAll(m, ops), ended, now, EnterAll(l, ops, m.noFile))
    decreases |ops|
  {
    hide Explains, Accounts, Apply, Enter, Proper;
    ended, now := sessions, current;
    if ops != [] {
      ended, now := StepExplained(m, ops[0], sessions, current, l);
      ended, now := RunExplained(Apply(m, ops[0]), ops[1..], ended, now, Enter(l, ops[0], m.noFile));
    }
  }

  const EMPTY_LEDGER := Ledger([], Ready, [])

  /** Over any sequence of subscriptions, packets, flushes, closings and openings, the
      output is a repetition of: open; then, if there were packets, header, packets in
      known streams, flush, trailer; then close. While open, the last repetition may be
      unfinished. The repetitions are those of the openings that succeeded, and each holds
      the packets given for it, in order; only of the unfinished one some may be in the
      buffer still. */
  lemma OutputGrammar(bufferMax: int64, noFile: bool, ops: seq<Op>)
    returns (sessions: seq<Session>, current: Session)
    requires AllProper(Init(bufferMax, noFile), ops)
    ensures var m := ApplyAll(Init(bufferMax, noFile), ops);
            var l := EnterAll(EMPTY_LEDGER, ops, noFile);
            && m.trace == EndedAll(sessions, noFile) + (if m.phase == Open then Began(current, noFile) else [])
            && AllKnown(sessions) && Known(current)
            && (m.phase == Open && current.packets != [] ==> current.streams == m.streams && Subscribe(m).None?)
            && m.phase == l.phase && Contents(sessions) == l.ended
            && (m.phase == Open ==> current.packets + m.buffer == l.given)
            && (m.phase != Open ==> m.buffer == [])
  {
    InitExplained(bufferMax, noFile);
    sessions, current := RunExplained(Init(bufferMax, noFile), ops, [], Session(0, []), EMPTY_LEDGER);
  }

  lemma InitExplained(bufferMax: int64, noFile: bool)
    ensures Explains(Init(bufferMax, noFile), [], Session(0, []))
    ensures Accounts(Init(bufferMax, noFile), [], Session(0, []), EMPTY_LEDGER)
  {
  }

  /** After a run and a close the output is not open, the buffer is empty, and the trace is
      that of whole sessions: one for each successful opening, with all the packets given
      between it and its closing. */
  lemma CloseEnds(bufferMax: int64, noFile: bool, ops: seq<Op>) returns (sessions: seq<Session>)
    requires AllProper(Init(bufferMax, noFile), ops)
    ensures var m := Close(ApplyAll(Init(bufferMax, noFile), ops));
            var l := EnterAll(EMPTY_LEDGER, ops, noFile);
            && m.phase == (if l.phase == Open then Closed else l.phase)
            && m.phase != Open && m.buffer == [] && Subscribe(m).Some?
            && m.trace == EndedAll(sessions, noFile) && AllKnown(sessions)
            && Contents(sessions) == l.ended + if l.phase == Open then [l.given] else []
  {
    hide Close, Apply, Began, EndedAll, Known, AllProper, Contents;
    var current := Session(0, []);
    InitExplained(bufferMax, noFile);
    sessions, current := RunExplained(Init(bufferMax, noFile), ops, [], current, EMPTY_LEDGER);
    var m := ApplyAll(Init(bufferMax, noFile), ops);
    sessions, current := CloseExplained(m, sessions, current);
    assert EndedAll(sessions, noFile) + [] == EndedAll(sessions, noFile);
  }

  // ---- Packets while the output is not open

  ghost predicate Grammatical(m: Mux) {
    exists sessions, current :: AllKnown(sessions) && Known(current) &&
      m.trace == EndedAll(sessions, m.noFile) + (if m.phase == Open then Began(current, m.noFile) else [])
  }

  lemma EndsInNoWrite(sessions: seq<Session>, noFile: bool)
    ensures var trace := EndedAll(sessions, noFile); trace != [] ==> !trace[|trace| - 1].Write?
  {
    if sessions != [] {
      EndsInNoWrite(sessions[..|sessions| - 1], noFile);
    }
  }

  /** A packet and a flush keep to the grammar exactly while the output is open: otherwise
      they write a header and the packet to no file. */
  lemma OnlyWhileOpen(m: Mux, packet: Packet, index: StreamIndex, sessions: seq<Session>, current: Session)
    requires Explains(m, sessions, current) && index < m.streams
    ensures Grammatical(Flush(Process(m, packet, index))) <==> m.phase == Open
  {
    hide EndedAll, Began, Flush;
    var pushed := Process(m, packet, index);
    if m.phase == Open {
      var now := ProcessExplained(m, packet, index, sessions, current);
      now := FlushExplained(pushed, sessions, now);
      assert AllKnown(sessions) && Known(now);
    } else {
      LatePacket(m, packet, index);
      var t := Flush(pushed);
      assert t.trace[|t.trace| - 1] == Write(Stamped(packet, index));
      if Grammatical(t) {
        var ended, now :| AllKnown(ended) && Known(now) && t.trace == EndedAll(ended, t.noFile) + [];
        assert t.trace == EndedAll(ended, t.noFile);
        EndsInNoWrite(ended, t.noFile);
        assert false;
      }
    }
  }

  lemma LatePacket(m: Mux, packet: Packet, index: StreamIndex)
    requires m.streamStart && m.buffer == []
    ensures Flush(Process(m, packet, index))
            == Emit(m, [Header(m.streams), Write(Stamped(packet, index))]).(streamStart := false)
  {
    hide Flush;
    var pushed, write := Process(m, packet, index), [Write(Stamped(packet, index))];
    FlushWritesAll(pushed);
    assert [Header(m.streams)] + write == [Header(m.streams), Write(Stamped(packet, index))];
    if |m.buffer| < m.limit {
      assert Writes(pushed.buffer) == write;
    }
  }
}

/** From the packets of many jobs, through their segmenters, the wire and one unpacker, to
    the packets forwarded for each job. */
module EndToEnd {
  import opened Prelude
  import opened Bytes
  import opened Media
  import opened Codec
  import opened StreamCaches
  import opened Unpacking
  import opened SingleWorker
  import opened Unpackers
  import Splitting

  /** A publishing side: one stream, cut by one segmenter that is flushed `flushes` times,
      counting the flush in its destructor. */
  datatype Job = Job(
    jobId: Uuid,
    nframes: uint64,
    packets: seq<Packet>,
    stream: Splitting.StreamData,
    raw: Splitting.Raw,
    flushes: nat)
  {
    /** The packets are ones a segmenter accepts and the wire carries. */
    ghost predicate Sound() {
      && packets != [] && stream.parameters.Some? && flushes >= 1
      && (stream.mediaType == VIDEO ==> IsKey(packets[0]))
      && |packets| < TWO31
      && forall p <- packets :: SideDataExact(p)
    }

    function Filled(): Splitting.State {
      Splitting.Run(Splitting.Fresh(jobId, nframes), packets, stream, raw)
    }

    function Finished(): Splitting.State {
      Splitting.FlushTimes(Filled(), flushes)
    }

    /** The packets of the segment that every flush sends. */
    function LastPiece(): seq<Packet> {
      Splitting.PacketsOf(Filled().current)
    }

    /** The segments published. */
    ghost function Published(): (segs: seq<Seg>)
      requires Sound()
    {
      Splitting.FlushLaw(jobId, nframes, packets, stream, raw, flushes);
      Splitting.Sent(Finished())
    }
  }

  function SegsOf(jobId: Uuid, segs: seq<Seg>): seq<Seg> {
    if segs == [] then []
    else (if segs[0].jobId == jobId then [segs[0]] else []) + SegsOf(jobId, segs[1..])
  }

  /** The packets forwarded to streams of a job, in order. */
  function PacketsFor(jobId: Uuid, forwards: seq<(Uuid, Packet)>): seq<Packet> {
    if forwards == [] then []
    else (if forwards[0].0 == jobId then [forwards[0].1] else []) + PacketsFor(jobId, forwards[1..])
  }

  function Buffers(actions: seq<Action>): seq<seq<byte>> {
    if actions == [] then []
    else (if actions[0].Receive? then [actions[0].buffer] else []) + Buffers(actions[1..])
  }

  function Save(seg: Seg): seq<byte> {
    PutSegment(seg, [])
  }

  function SaveAll(segs: seq<Seg>): (r: seq<seq<byte>>)
    ensures |r| == |segs| && forall i :: 0 <= i < |r| ==> r[i] == Save(segs[i])
  {
    seq(|segs|, i requires 0 <= i < |segs| => Save(segs[i]))
  }

  // ---- Off the wire

  predicate AllWireExact(segs: seq<Seg>) {
    forall i :: 0 <= i < |segs| ==> WireExact(segs[i])
  }

  lemma ReceiveOne(s: State, seg: Seg)
    requires WireExact(seg)
    ensures ReceiveStep(s, Save(seg)).received == s.received + [seg]
  {
    hide GetSegment, PutSegment, WireExact;
    SegmentRoundTripExactly(seg, []);
  }

  lemma OthersReceiveNothing(s: State, a: Action)
    requires Enabled(s, a) && !a.Receive?
    ensures Apply(s, a).received == s.received
  {
    hide Cache.Lookup, Cache.FindOrMake;
  }

  /** What was saved on the wire is what the unpacker has received. */
  lemma {:induction false} ReceivedIsSent(s: State, actions: seq<Action>, wire: seq<Seg>)
    requires CanRun(s, actions) && Buffers(actions) == SaveAll(wire)
    requires AllWireExact(wire)
    ensures Exec(s, actions).received == s.received + wire
    decreases |actions|
  {
    hide WireExact, Enabled, Apply, SaveAll, Save, ReceiveStep;
    if actions == [] {
      assert |SaveAll(wire)| == 0;
      assert s.received + wire == s.received;
    } else if actions[0].Receive? {
      BuffersOfReceive(actions, wire);
      ReceivedIsSent(Apply(s, actions[0]), actions[1..], wire[1..]);
      ReceiveOne(s, wire[0]);
      ReceiveApplies(s, actions[0]);
      assert s.received + [wire[0]] + wire[1..] == s.received + wire;
    } else {
      OthersReceiveNothing(s, actions[0]);
      assert [] + Buffers(actions[1..]) == Buffers(actions[1..]);
      ReceivedIsSent(Apply(s, actions[0]), actions[1..], wire);
    }
  }

  lemma ReceiveApplies(s: State, a: Action)
    requires a.Receive? && Enabled(s, a)
    ensures Apply(s, a) == ReceiveStep(s, a.buffer)
  {
  }

  lemma BuffersOfReceive(actions: seq<Action>, wire: seq<Seg>)
    requires actions != [] && actions[0].Receive? && Buffers(actions) == SaveAll(wire)
    ensures wire != [] && actions[0].buffer == Save(wire[0]) && Buffers(actions[1..]) == SaveAll(wire[1..])
  {
    hide Save;
    assert Buffers(actions)[0] == actions[0].buffer;
    assert SaveAll(wire)[1..] == SaveAll(wire[1..]);
    assert Buffers(actions)[1..] == Buffers(actions[1..]);
  }

  // ---- Through the unpacker

  lemma {:induction false} ExpectedIsTagged(segs: seq<Seg>)
    ensures Expected(Items(segs)) == TaggedAll(segs)
  {
    if segs != [] {
      var n := |segs| - 1;
      ExpectedIsTagged(segs[..n]);
      assert Items(segs)[..n] == Items(segs[..n]);
      assert segs == segs[..n] + [segs[n]];
      TaggedAllSnoc(segs[..n], segs[n]);
    }
  }

  /** When close returns, the packets of every received segment have been forwarded. */
  lemma ClosedForwards(actions: seq<Action>)
    requires CanRun(Init(1), actions) && Exec(Init(1), actions).closer == Closed
    ensures var s := Exec(Init(1), actions);
            s.unpacked == Items(s.received) && Forwards(s.log) == TaggedAll(s.received)
  {
    var s := Exec(Init(1), actions);
    InOrder(actions);
    RunDrains(Init(1), actions);
    assert s.workers[0] == Exited;
    assert s.unpacked + [] + [] == s.unpacked;
    ExpectedIsTagged(s.received);
    assert Expected(s.unpacked) + [] == Expected(s.unpacked);
  }

  lemma {:induction false} PacketsForAppend(jobId: Uuid, a: seq<(Uuid, Packet)>, b: seq<(Uuid, Packet)>)
    ensures PacketsFor(jobId, a + b) == PacketsFor(jobId, a) + PacketsFor(jobId, b)
  {
    if a == [] {
      assert a + b == b;
    } else {
      PacketsForAppend(jobId, a[1..], b);
      assert (a + b)[1..] == a[1..] + b;
      Assoc(if a[0].0 == jobId then [a[0].1] else [], PacketsFor(jobId, a[1..]), PacketsFor(jobId, b));
    }
  }

  lemma {:induction false} PacketsForTagged(jobId: Uuid, tag: Uuid, packets: seq<Packet>)
    ensures PacketsFor(jobId, Tagged(tag, packets)) == if tag == jobId then packets else []
  {
    if packets != [] {
      PacketsForTagged(jobId, tag, packets[1..]);
      assert Tagged(tag, packets)[1..] == Tagged(tag, packets[1..]);
      assert [packets[0]] + packets[1..] == packets;
    }
  }

  function Bodies(segs: seq<Seg>): (r: seq<seq<Packet>>)
    ensures |r| == |segs| && forall i :: 0 <= i < |r| ==> r[i] == segs[i].packets
  {
    seq(|segs|, i requires 0 <= i < |segs| => segs[i].packets)
  }

  /** A job's share of the traffic is the packets of its own segments. */
  lemma {:induction false} ShareOfJob(jobId: Uuid, segs: seq<Seg>)
    ensures PacketsFor(jobId, TaggedAll(segs)) == Flatten(Bodies(SegsOf(jobId, segs)))
  {
    if segs != [] {
      var first, rest := segs[0], segs[1..];
      ShareOfJob(jobId, rest);
      PacketsForAppend(jobId, Tagged(first.jobId, first.packets), TaggedAll(rest));
      PacketsForTagged(jobId, first.jobId, first.packets);
      BodiesCons(first, SegsOf(jobId, rest));
      assert [] + SegsOf(jobId, rest) == SegsOf(jobId, rest);
    }
  }

  lemma BodiesCons(first: Seg, rest: seq<Seg>)
    ensures Flatten(Bodies([first] + rest)) == first.packets + Flatten(Bodies(rest))
  {
    assert Bodies([first] + rest)[1..] == Bodies(rest);
  }

  // ---- What a job publishes

  lemma {:induction false} PieceMembers(pieces: seq<seq<Packet>>, i: nat)
    requires i < |pieces|
    ensures |pieces[i]| <= |Flatten(pieces)| && forall p <- pieces[i] :: p in Flatten(pieces)
  {
    if i > 0 {
      PieceMembers(pieces[1..], i - 1);
    }
  }

  /** The segments a sound job publishes belong to it and survive the wire, and together
      they are its packets followed by further copies of the last segment. */
  lemma PublishedSegments(job: Job)
    requires job.Sound()
    ensures forall seg <- job.Published() :: seg.jobId == job.jobId && WireExact(seg) && seg.packets != []
    ensures Flatten(Bodies(job.Published())) == job.packets + Flatten(seq(job.flushes - 1, _ => job.LastPiece()))
    ensures job.LastPiece() != []
  {
    var s, t := job.Filled(), job.Finished();
    Splitting.FlushLaw(job.jobId, job.nframes, job.packets, job.stream, job.raw, job.flushes);
    Splitting.RunPartitions(job.jobId, job.nframes, job.packets, job.stream, job.raw);
    Splitting.PiecesNotEmpty(job.jobId, job.nframes, job.packets, job.stream, job.raw);
    Splitting.FlushTimesKeeps(s, job.flushes);
    assert Bodies(job.Published()) == Splitting.EmittedPieces(t);
    var pieces := Splitting.Pieces(s);
    assert pieces[|s.emitted|] == job.LastPiece();
    forall i | 0 <= i < |t.emitted|
      ensures var seg := job.Published()[i];
              seg.jobId == job.jobId && WireExact(seg) && seg.packets != []
    {
      var seg := job.Published()[i];
      assert t.emitted[i] in t.emitted;
      var k := if i < |s.emitted| then i else |s.emitted|;
      assert seg.packets == pieces[k];
      PieceMembers(pieces, k);
    }
  }

  // ---- The whole way

  /** For any number of jobs whose segments are interleaved on the wire in any way that
      keeps each job's own order, and with one worker, once close has returned the packets
      forwarded for a job are those its segmenter processed, followed by one copy of its
      last segment for every flush after the first. */
  lemma Delivery(job: Job, wire: seq<Seg>, actions: seq<Action>)
    requires job.Sound()
    requires SegsOf(job.jobId, wire) == job.Published()
    requires AllWireExact(wire)
    requires CanRun(Init(1), actions) && Buffers(actions) == SaveAll(wire)
    requires Exec(Init(1), actions).closer == Closed
    ensures PacketsFor(job.jobId, Forwards(Exec(Init(1), actions).log))
            == job.packets + Flatten(seq(job.flushes - 1, _ => job.LastPiece()))
  {
    ReceivedIsSent(Init(1), actions, wire);
    assert [] + wire == wire;
    ClosedForwards(actions);
    ShareOfJob(job.jobId, wire);
    PublishedSegments(job);
  }

  /** What comes out for a job is exactly what went in if and only if its segmenter was
      flushed once. */
  lemma DeliveryIsExact(job: Job, wire: seq<Seg>, actions: seq<Action>)
    requires job.Sound()
    requires SegsOf(job.jobId, wire) == job.Published()
    requires AllWireExact(wire)
    requires CanRun(Init(1), actions) && Buffers(actions) == SaveAll(wire)
    requires Exec(Init(1), actions).closer == Closed
    ensures PacketsFor(job.jobId, Forwards(Exec(Init(1), actions).log)) == job.packets <==> job.flushes == 1
  {
    hide Exec, CanRun, TaggedAll, Forwards;
    Delivery(job, wire, actions);
    PublishedSegments(job);
    Splitting.FlattenRepeat(job.LastPiece(), job.flushes);
    var again := Flatten(seq(job.flushes - 1, _ => job.LastPiece()));
    assert |job.packets + again| == |job.packets| + |again|;
    assert again == [] ==> job.packets + again == job.packets;
  }
}

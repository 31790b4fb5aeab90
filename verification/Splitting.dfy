/** How a Segmenter cuts a packet stream: the state machine, and what its runs amount to. */
module Splitting {
  import opened Prelude
  import opened Bytes
  import opened Media

  /** The parts of a StreamData the segmenter looks at. `avTimeBase` is the time base of
      the AVStream, if there is one. */
  datatype StreamData = StreamData(parameters: Option<CodecParameters>, avTimeBase: Option<Rational>, mediaType: int32)

  /** One call of the `segments` signal; None is a null segment or stream. */
  datatype Emission = Emission(segment: Option<Seg>, stream: Option<StreamData>)

  /** What the uninitialised fields of a new Segment happen to hold. */
  datatype Raw = Raw(pts: int64, dts: int64, timeBase: Rational)

  datatype Outcome = Accepted | MissingParameters | NotAKeyFrame

  datatype State = State(
    jobId: Uuid,
    nframes: uint64,
    frames: nat,
    current: Option<Seg>,
    stream: Option<StreamData>,
    emitted: seq<Emission>)

  function Fresh(jobId: Uuid, nframes: uint64): State {
    State(jobId, nframes, 0, None, None, [])
  }

  // ---- The state machine

  /** A video segment ends at a key frame, any other at the frame limit. */
  predicate CutsBefore(s: State, packet: Packet, mediaType: int32) {
    if mediaType == VIDEO then IsKey(packet) else s.frames >= s.nframes
  }

  function FirstSegment(s: State, stream: StreamData, raw: Raw): Seg
    requires stream.parameters.Some?
  {
    var timeBase := if stream.avTimeBase.Some? then stream.avTimeBase.value else raw.timeBase;
    Seg(s.jobId, raw.pts, raw.dts, timeBase, stream.parameters.value, 0, [])
  }

  function Process(s: State, packet: Packet, stream: Option<StreamData>, raw: Raw): (State, Outcome)
    requires s.current.Some? ==> stream.Some?
  {
    var s := if s.stream.None? then s.(stream := stream) else s;
    match s.current
    case None =>
      if stream.None? || stream.value.parameters.None? then (s, MissingParameters)
      else
        var first := FirstSegment(s, stream.value, raw);
        if stream.value.mediaType == VIDEO && !IsKey(packet) then
          (s.(current := Some(first)), NotAKeyFrame)
        else
          (s.(current := Some(first.Appended(packet)), frames := s.frames + 1), Accepted)
    case Some(seg) =>
      if CutsBefore(s, packet, stream.value.mediaType) then
        var next := seg.(npackets := 0, packets := []);
        (s.(emitted := s.emitted + [Emission(Some(seg), stream)],
            current := Some(next.Appended(packet)), frames := 1), Accepted)
      else
        (s.(current := Some(seg.Appended(packet)), frames := s.frames + 1), Accepted)
  }

  /** The current segment is sent, and kept. */
  function Flush(s: State): State {
    s.(emitted := s.emitted + [Emission(s.current, s.stream)])
  }

  function FlushTimes(s: State, k: nat): State {
    if k == 0 then s else Flush(FlushTimes(s, k - 1))
  }

  /** A whole stream, first packet to last, an exception only skipping its packet. */
  function Run(s: State, packets: seq<Packet>, stream: StreamData, raw: Raw): State {
    if packets == [] then s
    else
      var n := |packets| - 1;
      Process(Run(s, packets[..n], stream, raw), packets[n], Some(stream), raw).0
  }

  // ---- What is cut

  function PacketsOf(segment: Option<Seg>): seq<Packet> {
    if segment.Some? then segment.value.packets else []
  }

  function EmittedPieces(s: State): seq<seq<Packet>> {
    Map((e: Emission) => PacketsOf(e.segment), s.emitted)
  }

  /** The packets of every segment sent so far and of the one being filled. */
  function Pieces(s: State): seq<seq<Packet>> {
    EmittedPieces(s) + if s.current.Some? then [s.current.value.packets] else []
  }

  /** The packets of a stream that are not refused. */
  function Kept(packets: seq<Packet>, stream: StreamData): seq<Packet> {
    if stream.parameters.None? || packets == [] then []
    else if stream.mediaType == VIDEO && !IsKey(packets[0]) then packets[1..]
    else packets
  }

  /** A segment of this job and stream whose header agrees with its packets. */
  predicate Belongs(seg: Seg, jobId: Uuid, stream: StreamData, raw: Raw) {
    && stream.parameters.Some?
    && seg.jobId == jobId
    && seg.parameters == stream.parameters.value
    && seg.timeBase == (if stream.avTimeBase.Some? then stream.avTimeBase.value else raw.timeBase)
    && seg.Consistent()
  }

  ghost predicate AllBelong(s: State, jobId: Uuid, stream: StreamData, raw: Raw) {
    && (s.current.Some? ==> Belongs(s.current.value, jobId, stream, raw))
    && forall e <- s.emitted ::
      e.segment.Some? && e.stream == Some(stream) && Belongs(e.segment.value, jobId, stream, raw)
  }

  lemma RunKeepsConstants(s: State, packets: seq<Packet>, stream: StreamData, raw: Raw)
    ensures Run(s, packets, stream, raw).jobId == s.jobId
    ensures Run(s, packets, stream, raw).nframes == s.nframes
  {
  }

  /** What one accepted packet does to the pieces once a segment is open. */
  lemma ProcessPieces(s: State, packet: Packet, stream: StreamData, raw: Raw)
    requires s.current.Some?
    ensures var t := Process(s, packet, Some(stream), raw).0;
            var cur := s.current.value.packets;
            && Pieces(s) == EmittedPieces(s) + [cur]
            && (CutsBefore(s, packet, stream.mediaType) ==>
                  Pieces(t) == Pieces(s) + [[packet]] && EmittedPieces(t) == Pieces(s))
            && (!CutsBefore(s, packet, stream.mediaType) ==>
                  Pieces(t) == EmittedPieces(s) + [cur + [packet]] && EmittedPieces(t) == EmittedPieces(s))
  {
    var t := Process(s, packet, Some(stream), raw).0;
    var cur := s.current.value.packets;
    if CutsBefore(s, packet, stream.mediaType) {
      assert EmittedPieces(t) == EmittedPieces(s) + [cur];
      assert t.current.value.packets == [packet];
    }
  }

  /** What a packet does while no segment is open. */
  lemma ProcessOpens(s: State, packet: Packet, stream: StreamData, raw: Raw)
    requires s.current.None?
    ensures var t := Process(s, packet, Some(stream), raw).0;
            && EmittedPieces(t) == EmittedPieces(s)
            && (t.current.Some? <==> stream.parameters.Some?)
            && PacketsOf(t.current) == Kept([packet], stream)
            && t.frames == s.frames + |Kept([packet], stream)|
  {
  }

  lemma ProcessBelongs(s: State, packet: Packet, stream: StreamData, raw: Raw)
    requires AllBelong(s, s.jobId, stream, raw)
    ensures AllBelong(Process(s, packet, Some(stream), raw).0, s.jobId, stream, raw)
  {
    var t := Process(s, packet, Some(stream), raw).0;
    if s.current.None? && t.current.Some? {
      assert FirstSegment(s, stream, raw).Consistent();
    } else if s.current.Some? {
      assert s.current.value.(npackets := 0, packets := []).Consistent();
    }
  }

  lemma KeptSnoc(front: seq<Packet>, last: Packet, stream: StreamData)
    ensures Kept(front + [last], stream)
            == if front == [] then Kept([last], stream)
               else if stream.parameters.None? then [] else Kept(front, stream) + [last]
  {
    var all := front + [last];
    if front != [] {
      assert all[0] == front[0] && all[1..] == front[1..] + [last];
    } else {
      assert all == [last];
    }
  }

  ghost predicate Partitions(s: State, packets: seq<Packet>, stream: StreamData) {
    && (s.current.Some? <==> packets != [] && stream.parameters.Some?)
    && (packets != [] ==> s.stream == Some(stream))
    && (s.current.None? ==> s.emitted == [])
    && Flatten(Pieces(s)) == Kept(packets, stream)
  }

  lemma ProcessPartitions(s: State, front: seq<Packet>, last: Packet, stream: StreamData, raw: Raw)
    requires Partitions(s, front, stream) && (s.stream.None? || front != [])
    ensures Partitions(Process(s, last, Some(stream), raw).0, front + [last], stream)
  {
    var t := Process(s, last, Some(stream), raw).0;
    KeptSnoc(front, last, stream);
    if s.current.Some? {
      var cur := s.current.value.packets;
      ProcessPieces(s, last, stream, raw);
      FlattenSnoc(EmittedPieces(s), cur);
      FlattenSnoc(Pieces(s), [last]);
      FlattenSnoc(EmittedPieces(s), cur + [last]);
      Assoc(Flatten(EmittedPieces(s)), cur, [last]);
    } else {
      ProcessOpens(s, last, stream, raw);
      assert EmittedPieces(t) == [];
      FlattenSnoc([], PacketsOf(t.current));
    }
  }

  /** Nothing is lost, repeated or reordered, and every segment belongs to the stream. */
  lemma {:induction false} RunPartitions(jobId: Uuid, nframes: uint64, packets: seq<Packet>, stream: StreamData, raw: Raw)
    ensures var s := Run(Fresh(jobId, nframes), packets, stream, raw);
            Partitions(s, packets, stream) && AllBelong(s, jobId, stream, raw)
  {
    hide Process, AllBelong, Partitions;
    var start := Fresh(jobId, nframes);
    if packets == [] {
      StartsEmpty(jobId, nframes, stream, raw);
    } else {
      var n := |packets| - 1;
      var front, last := packets[..n], packets[n];
      RunPartitions(jobId, nframes, front, stream, raw);
      RunKeepsConstants(start, front, stream, raw);
      var s := Run(start, front, stream, raw);
      ProcessBelongs(s, last, stream, raw);
      assert s.stream.None? || front != [];
      ProcessPartitions(s, front, last, stream, raw);
      assert packets == front + [last];
    }
  }

  lemma StartsEmpty(jobId: Uuid, nframes: uint64, stream: StreamData, raw: Raw)
    ensures Partitions(Fresh(jobId, nframes), [], stream) && AllBelong(Fresh(jobId, nframes), jobId, stream, raw)
  {
    assert Pieces(Fresh(jobId, nframes)) == [];
  }

  /** The segments concatenate to the stream exactly if nothing is refused: the codec
      parameters are there, and a video stream starts with a key frame. */
  lemma RunIsLossless(jobId: Uuid, nframes: uint64, packets: seq<Packet>, stream: StreamData, raw: Raw)
    requires packets != []
    ensures Flatten(Pieces(Run(Fresh(jobId, nframes), packets, stream, raw))) == packets
            <==> stream.parameters.Some? && (stream.mediaType == VIDEO ==> IsKey(packets[0]))
  {
    RunPartitions(jobId, nframes, packets, stream, raw);
    assert |packets[1..]| < |packets|;
  }

  // ---- What the caller is told

  /** A call returns normally exactly if the packet has been added behind all others, and
      throws exactly if no segment is open and the stream cannot begin with it. For want of
      parameters it then leaves no segment; for want of a key frame it leaves an empty one,
      which lets any packet pass the next time. */
  lemma OutcomeExactly(s: State, packet: Packet, stream: Option<StreamData>, raw: Raw)
    requires s.current.Some? ==> stream.Some?
    ensures var (t, outcome) := Process(s, packet, stream, raw);
            && (outcome == Accepted <==> Flatten(Pieces(t)) == Flatten(Pieces(s)) + [packet])
            && (outcome != Accepted <==> Flatten(Pieces(t)) == Flatten(Pieces(s)))
            && (outcome == MissingParameters <==>
                  s.current.None? && (stream.None? || stream.value.parameters.None?))
            && (outcome == MissingParameters ==> t.current.None?)
            && (outcome == NotAKeyFrame <==>
                  && s.current.None? && stream.Some? && stream.value.parameters.Some?
                  && stream.value.mediaType == VIDEO && !IsKey(packet))
            && (outcome == NotAKeyFrame ==> t.current.Some? && t.current.value.packets == [])
            && (outcome != Accepted ==> t.emitted == s.emitted)
  {
    hide IsKey;
    var t := Process(s, packet, stream, raw).0;
    var done := EmittedPieces(s);
    if s.current.Some? {
      var cur := s.current.value.packets;
      ProcessPieces(s, packet, stream.value, raw);
      FlattenSnoc(done, cur);
      FlattenSnoc(Pieces(s), [packet]);
      FlattenSnoc(done, cur + [packet]);
      Assoc(Flatten(done), cur, [packet]);
    } else {
      assert EmittedPieces(t) == done && Pieces(s) == done;
      FlattenSnoc(done, PacketsOf(t.current));
      assert Flatten(done) + [] == Flatten(done);
    }
  }

  /** The packets of a stream for which the call returns normally. */
  function AcceptedOf(s: State, packets: seq<Packet>, stream: StreamData, raw: Raw): seq<Packet> {
    if packets == [] then []
    else
      var n := |packets| - 1;
      var outcome := Process(Run(s, packets[..n], stream, raw), packets[n], Some(stream), raw).1;
      AcceptedOf(s, packets[..n], stream, raw) + if outcome == Accepted then [packets[n]] else []
  }

  /** They are all but a first video packet without a key frame, if the stream has
      parameters, and none if it has not; and they are what the segments hold. */
  lemma {:induction false} AcceptedAreKept(jobId: Uuid, nframes: uint64, packets: seq<Packet>, stream: StreamData, raw: Raw)
    ensures AcceptedOf(Fresh(jobId, nframes), packets, stream, raw) == Kept(packets, stream)
    ensures Flatten(Pieces(Run(Fresh(jobId, nframes), packets, stream, raw)))
            == AcceptedOf(Fresh(jobId, nframes), packets, stream, raw)
  {
    hide Process, Pieces, IsKey;
    RunPartitions(jobId, nframes, packets, stream, raw);
    if packets != [] {
      var n := |packets| - 1;
      var s := Run(Fresh(jobId, nframes), packets[..n], stream, raw);
      AcceptedAreKept(jobId, nframes, packets[..n], stream, raw);
      RunPartitions(jobId, nframes, packets[..n], stream, raw);
      OutcomeExactly(s, packets[n], Some(stream), raw);
      assert Kept(packets[..n], stream) + [] == Kept(packets[..n], stream);
    }
  }

  // ---- Video: one key frame per segment

  predicate KeyLed(piece: seq<Packet>) {
    && piece != []
    && IsKey(piece[0])
    && forall i :: 1 <= i < |piece| ==> !IsKey(piece[i])
  }

  predicate AllKeyLed(pieces: seq<seq<Packet>>) {
    forall i :: 0 <= i < |pieces| ==> KeyLed(pieces[i])
  }

  /** A division of the stream into segments that start at each key frame. */
  predicate KeyDivision(pieces: seq<seq<Packet>>, packets: seq<Packet>) {
    Flatten(pieces) == packets && AllKeyLed(pieces)
  }

  /** If the stream starts with a key frame, every segment holds exactly one key frame,
      in front; if it does not, the first segment is wrong. */
  lemma {:induction false} VideoPieces(jobId: Uuid, nframes: uint64, packets: seq<Packet>, stream: StreamData, raw: Raw)
    requires stream.mediaType == VIDEO && stream.parameters.Some? && packets != []
    ensures var pieces := Pieces(Run(Fresh(jobId, nframes), packets, stream, raw));
            && pieces != []
            && (IsKey(packets[0]) ==> AllKeyLed(pieces))
            && (!IsKey(packets[0]) ==> !KeyLed(pieces[0]))
  {
    hide Process, AllBelong;
    var n := |packets| - 1;
    var front, last := packets[..n], packets[n];
    var s := Run(Fresh(jobId, nframes), front, stream, raw);
    var t := Process(s, last, Some(stream), raw).0;
    RunPartitions(jobId, nframes, front, stream, raw);
    if n == 0 {
      ProcessOpens(s, last, stream, raw);
      assert Pieces(t) == [PacketsOf(t.current)];
    } else {
      VideoPieces(jobId, nframes, front, stream, raw);
      ProcessPieces(s, last, stream, raw);
      GrowPieces(EmittedPieces(s), s.current.value.packets, last);
    }
  }

  /** Adding a packet that is not a key frame to the last piece, or one that is as a piece
      of its own. */
  lemma GrowPieces(done: seq<seq<Packet>>, cur: seq<Packet>, packet: Packet)
    ensures var before := done + [cur];
            var after := if IsKey(packet) then before + [[packet]] else done + [cur + [packet]];
            && (AllKeyLed(before) ==> AllKeyLed(after))
            && (!KeyLed(before[0]) ==> !KeyLed(after[0]))
  {
    var before := done + [cur];
    if IsKey(packet) {
      assert AllKeyLed(before) ==> AllKeyLed(before + [[packet]]);
    } else {
      var grown := cur + [packet];
      assert forall i :: 0 <= i < |cur| ==> grown[i] == cur[i];
      assert KeyLed(grown) <==> KeyLed(cur) by {
        if KeyLed(grown) {
          assert cur != [] && forall i :: 1 <= i < |cur| ==> !IsKey(grown[i]);
        }
      }
      assert forall i :: 0 <= i < |done| ==> before[i] == (done + [grown])[i];
      assert before[|done|] == cur;
    }
  }

  lemma {:induction false} KeyDivisionUnique(a: seq<seq<Packet>>, b: seq<seq<Packet>>)
    requires Flatten(a) == Flatten(b) && AllKeyLed(a) && AllKeyLed(b)
    ensures a == b
  {
    if a != [] && b != [] {
      var x, y, f := a[0], b[0], Flatten(a);
      SeamIsLast(a, b);
      SeamIsLast(b, a);
      assert x == f[..|x|] == y;
      assert Flatten(a[1..]) == f[|x|..] == Flatten(b[1..]);
      KeyDivisionUnique(a[1..], b[1..]);
      assert a == [x] + a[1..] && b == [y] + b[1..];
    }
  }

  /** The first piece ends where the next key frame is, so it cannot end any earlier. */
  lemma SeamIsLast(a: seq<seq<Packet>>, b: seq<seq<Packet>>)
    requires a != [] && b != [] && Flatten(a) == Flatten(b) && AllKeyLed(a) && AllKeyLed(b)
    ensures |a[0]| >= |b[0]|
  {
    var rest := a[1..];
    if rest != [] {
      assert rest[0] == a[1];
      assert Flatten(rest) == rest[0] + Flatten(rest[1..]);
      assert IsKey(Flatten(a)[|a[0]|]);
    }
    assert KeyLed(b[0]);
  }

  /** A video stream is cut into the one and only division at its key frames, exactly if
      its first packet is a key frame. */
  lemma VideoDivision(jobId: Uuid, nframes: uint64, packets: seq<Packet>, stream: StreamData, raw: Raw,
                      pieces: seq<seq<Packet>>)
    requires stream.mediaType == VIDEO && stream.parameters.Some? && packets != []
    ensures var cut := Pieces(Run(Fresh(jobId, nframes), packets, stream, raw));
            && (KeyDivision(cut, packets) <==> IsKey(packets[0]))
            && (KeyDivision(pieces, packets) ==> pieces == cut)
  {
    var cut := Pieces(Run(Fresh(jobId, nframes), packets, stream, raw));
    RunPartitions(jobId, nframes, packets, stream, raw);
    VideoPieces(jobId, nframes, packets, stream, raw);
    if KeyDivision(pieces, packets) {
      assert KeyLed(pieces[0]) && packets[0] == pieces[0][0];
      KeyDivisionUnique(pieces, cut);
    }
  }

  // ---- Other media: a fixed number of packets per segment

  /** How many packets a segment takes: the limit is tested after the first packet. */
  function ChunkSize(nframes: uint64): (m: nat)
    ensures m >= 1
  {
    if nframes == 0 then 1 else nframes
  }

  /** Piece i is the packets from i * m to (i + 1) * m. */
  predicate ChunkAt(pieces: seq<seq<Packet>>, packets: seq<Packet>, m: nat, i: nat)
    requires i < |pieces|
  {
    i * m + m <= |packets| && pieces[i] == packets[i * m..i * m + m]
  }

  lemma DivUnique(a: nat, m: nat, q: nat)
    requires m >= 1 && q * m <= a < q * m + m
    ensures a / m == q
  {
    var d, r := a / m, a % m;
    assert a == m * d + r;
    MulMono(q + 1, d, m);
    MulMono(d + 1, q, m);
  }

  lemma MulMono(x: int, y: int, m: nat)
    ensures x <= y ==> x * m <= y * m
    ensures (x + 1) * m == x * m + m && (y + 1) * m == y * m + m
  {
    if x <= y {
      assert (y - x) * m >= 0;
    }
  }

  /** Every segment sent holds m packets, and the frame counter counts the current one. */
  lemma {:induction false} AudioSizes(jobId: Uuid, nframes: uint64, packets: seq<Packet>, stream: StreamData, raw: Raw)
    requires stream.mediaType != VIDEO && stream.parameters.Some? && packets != []
    ensures var s := Run(Fresh(jobId, nframes), packets, stream, raw);
            && (forall i :: 0 <= i < |s.emitted| ==> |EmittedPieces(s)[i]| == ChunkSize(nframes))
            && 1 <= |PacketsOf(s.current)| == s.frames <= ChunkSize(nframes)
  {
    var n := |packets| - 1;
    var front := packets[..n];
    if n > 0 {
      AudioSizes(jobId, nframes, front, stream, raw);
      RunKeepsConstants(Fresh(jobId, nframes), front, stream, raw);
      RunPartitions(jobId, nframes, front, stream, raw);
      var s := Run(Fresh(jobId, nframes), front, stream, raw);
      ProcessPieces(s, packets[n], stream, raw);
    }
  }

  lemma {:induction false} UniformLength(pieces: seq<seq<Packet>>, m: nat)
    requires forall i :: 0 <= i < |pieces| ==> |pieces[i]| == m
    ensures |Flatten(pieces)| == |pieces| * m
  {
    if pieces != [] {
      UniformLength(pieces[1..], m);
      MulMono(|pieces| - 1, |pieces|, m);
    }
  }

  /** Pieces of equal length are the chunks of what they concatenate to. */
  lemma {:induction false} UniformChunk(pieces: seq<seq<Packet>>, m: nat, tail: seq<Packet>, i: nat)
    requires i < |pieces| && forall i :: 0 <= i < |pieces| ==> |pieces[i]| == m
    ensures ChunkAt(pieces, Flatten(pieces) + tail, m, i)
  {
    var rest, all := pieces[1..], Flatten(pieces) + tail;
    var below := Flatten(rest) + tail;
    assert all == pieces[0] + below;
    if i == 0 {
      assert all[0..m] == pieces[0];
    } else {
      UniformChunk(rest, m, tail, i - 1);
      var offset := (i - 1) * m;
      MulMono(i - 1, i, m);
      assert all[offset + m..offset + m + m] == below[offset..offset + m];
    }
  }

  /** The boundary emissions after n packets are the first (n - 1) / m chunks of m, and the
      current segment holds the remaining 1 to m packets. */
  lemma AudioPieces(jobId: Uuid, nframes: uint64, packets: seq<Packet>, stream: StreamData, raw: Raw)
    requires stream.mediaType != VIDEO && stream.parameters.Some? && packets != []
    ensures var s := Run(Fresh(jobId, nframes), packets, stream, raw);
            var m := ChunkSize(nframes);
            var q := (|packets| - 1) / m;
            && |s.emitted| == q
            && (forall i :: 0 <= i < q ==> ChunkAt(EmittedPieces(s), packets, m, i))
            && q * m < |packets| <= q * m + m
            && PacketsOf(s.current) == packets[q * m..]
  {
    var s := Run(Fresh(jobId, nframes), packets, stream, raw);
    hide Run, ChunkAt, ChunkSize;
    var m, cur, done := ChunkSize(nframes), PacketsOf(s.current), EmittedPieces(s);
    AudioSizes(jobId, nframes, packets, stream, raw);
    RunPartitions(jobId, nframes, packets, stream, raw);
    FlattenSnoc(done, cur);
    UniformLength(done, m);
    forall i | 0 <= i < |done|
      ensures ChunkAt(done, packets, m, i)
    {
      UniformChunk(done, m, cur, i);
    }
    DivUnique(|packets| - 1, m, |done|);
    assert packets == Flatten(done) + cur;
  }

  // ---- Flushing

  lemma {:induction false} FlushTimesKeeps(s: State, k: nat)
    ensures FlushTimes(s, k).(emitted := s.emitted) == s
    ensures FlushTimes(s, k).emitted == s.emitted + seq(k, _ => Emission(s.current, s.stream))
  {
    if k > 0 {
      FlushTimesKeeps(s, k - 1);
      var e := Emission(s.current, s.stream);
      assert seq(k - 1, _ => e) + [e] == seq(k, _ => e);
    }
  }

  lemma {:induction false} FlattenRepeat(piece: seq<Packet>, k: nat)
    requires k >= 1
    ensures Flatten(seq(k, _ => piece)) == piece + Flatten(seq(k - 1, _ => piece))
    ensures piece != [] && k >= 2 ==> Flatten(seq(k - 1, _ => piece)) != []
  {
    assert seq(k, _ => piece)[1..] == seq(k - 1, _ => piece);
    if k >= 2 {
      assert seq(k - 1, _ => piece)[0] == piece;
    }
  }

  /** After k flushes, the destructor's included, the segments sent are the stream followed
      by k - 1 further copies of the last segment, all for the same job and stream. */
  lemma FlushLaw(jobId: Uuid, nframes: uint64, packets: seq<Packet>, stream: StreamData, raw: Raw, k: nat)
    requires k >= 1 && packets != [] && stream.parameters.Some?
    ensures var s := Run(Fresh(jobId, nframes), packets, stream, raw);
            var t := FlushTimes(s, k);
            && Flatten(EmittedPieces(t)) == Kept(packets, stream) + Flatten(seq(k - 1, _ => s.current.value.packets))
            && AllBelong(t, jobId, stream, raw)
  {
    var s := Run(Fresh(jobId, nframes), packets, stream, raw);
    var t := FlushTimes(s, k);
    RunPartitions(jobId, nframes, packets, stream, raw);
    FlushTimesKeeps(s, k);
    var cur := s.current.value.packets;
    assert EmittedPieces(t) == EmittedPieces(s) + seq(k, _ => cur);
    FlattenAppend(EmittedPieces(s), seq(k, _ => cur));
    FlattenSnoc(EmittedPieces(s), cur);
    FlattenRepeat(cur, k);
    Assoc(Flatten(EmittedPieces(s)), cur, Flatten(seq(k - 1, _ => cur)));
  }

  /** The segments sent are the stream itself exactly if there was one flush. */
  lemma FlushOnce(jobId: Uuid, nframes: uint64, packets: seq<Packet>, stream: StreamData, raw: Raw, k: nat)
    requires k >= 1 && packets != [] && stream.parameters.Some?
    requires stream.mediaType == VIDEO ==> IsKey(packets[0])
    ensures Flatten(EmittedPieces(FlushTimes(Run(Fresh(jobId, nframes), packets, stream, raw), k))) == packets
            <==> k == 1
  {
    FlushLaw(jobId, nframes, packets, stream, raw, k);
    CurrentNotEmpty(jobId, nframes, packets, stream, raw);
    FlattenRepeat(PacketsOf(Run(Fresh(jobId, nframes), packets, stream, raw).current), k);
  }

  lemma CurrentNotEmpty(jobId: Uuid, nframes: uint64, packets: seq<Packet>, stream: StreamData, raw: Raw)
    requires packets != [] && stream.parameters.Some?
    requires stream.mediaType == VIDEO ==> IsKey(packets[0])
    ensures PacketsOf(Run(Fresh(jobId, nframes), packets, stream, raw).current) != []
  {
    var s := Run(Fresh(jobId, nframes), packets, stream, raw);
    RunPartitions(jobId, nframes, packets, stream, raw);
    assert Pieces(s)[|EmittedPieces(s)|] == PacketsOf(s.current);
    if stream.mediaType == VIDEO {
      VideoPieces(jobId, nframes, packets, stream, raw);
      assert KeyLed(PacketsOf(s.current));
    } else {
      AudioPieces(jobId, nframes, packets, stream, raw);
    }
  }

  // ---- Flushes in between

  datatype Call = Feed(packet: Packet, stream: StreamData) | FlushCall

  function CallAll(s: State, calls: seq<Call>, raw: Raw): State
    decreases |calls|
  {
    if calls == [] then s else CallAll(CallOne(s, calls[0], raw), calls[1..], raw)
  }

  function CallOne(s: State, call: Call, raw: Raw): State {
    match call
    case Feed(packet, stream) => Process(s, packet, Some(stream), raw).0
    case FlushCall => Flush(s)
  }

  function Feeds(calls: seq<Call>): (r: seq<Call>)
    ensures forall i :: 0 <= i < |r| ==> r[i].Feed?
  {
    if calls == [] then [] else (if calls[0].Feed? then [calls[0]] else []) + Feeds(calls[1..])
  }

  /** The segments that are sent because another one begins are the same whatever flushes
      come in between; a flush only adds a copy of what there is at the time, under the
      first stream of all. */
  lemma {:induction false} FlushesDoNotDisturb(s: State, t: State, calls: seq<Call>, raw: Raw)
    requires s.(emitted := []) == t.(emitted := [])
    ensures CallAll(s, calls, raw).(emitted := []) == CallAll(t, Feeds(calls), raw).(emitted := [])
    ensures CutEmissions(s, calls, raw) == CutEmissions(t, Feeds(calls), raw)
    ensures CallAll(t, Feeds(calls), raw).emitted == t.emitted + CutEmissions(s, calls, raw)
    decreases |calls|
  {
    hide Process;
    if calls == [] {
      assert t.emitted + [] == t.emitted;
    } else if calls[0].Feed? {
      var packet, stream := calls[0].packet, calls[0].stream;
      var next, u := CallOne(s, calls[0], raw), CallOne(t, calls[0], raw);
      ProcessSends(s, packet, stream, raw, t.emitted);
      ProcessSends(t, packet, stream, raw, []);
      FlushesDoNotDisturb(next, u, calls[1..], raw);
      assert Feeds(calls) == [calls[0]] + Feeds(calls[1..]);
      assert Feeds(calls)[1..] == Feeds(calls[1..]);
      Assoc(t.emitted, CutEmission(s, packet, stream), CutEmissions(next, calls[1..], raw));
    } else {
      assert [] + Feeds(calls[1..]) == Feeds(calls[1..]);
      assert [] + CutEmissions(Flush(s), calls[1..], raw) == CutEmissions(Flush(s), calls[1..], raw);
      FlushesDoNotDisturb(Flush(s), t, calls[1..], raw);
    }
  }

  /** What a packet that begins a new segment sends: the finished one, with the packet's
      own stream. */
  function CutEmission(s: State, packet: Packet, stream: StreamData): seq<Emission> {
    if s.current.Some? && CutsBefore(s, packet, stream.mediaType) then [Emission(s.current, Some(stream))] else []
  }

  function CutEmissions(s: State, calls: seq<Call>, raw: Raw): seq<Emission>
    decreases |calls|
  {
    if calls == [] then []
    else
      (if calls[0].Feed? then CutEmission(s, calls[0].packet, calls[0].stream) else [])
      + CutEmissions(CallOne(s, calls[0], raw), calls[1..], raw)
  }

  lemma ProcessSends(s: State, packet: Packet, stream: StreamData, raw: Raw, emitted: seq<Emission>)
    ensures var t := Process(s, packet, Some(stream), raw).0;
            && t.emitted == s.emitted + CutEmission(s, packet, stream)
            && Process(s.(emitted := emitted), packet, Some(stream), raw).0
               == t.(emitted := emitted + CutEmission(s, packet, stream))
  {
    assert s.emitted + [] == s.emitted && emitted + [] == emitted;
  }

  /** The stream that flushes report is the one of the first packet. */
  lemma {:induction false} FirstStreamKept(s: State, calls: seq<Call>, raw: Raw)
    ensures CallAll(s, calls, raw).stream ==
            if s.stream.Some? || Feeds(calls) == [] then s.stream else Some(Feeds(calls)[0].stream)
    decreases |calls|
  {
    if calls != [] {
      FirstStreamKept(CallOne(s, calls[0], raw), calls[1..], raw);
    }
  }

  // ---- Timestamps

  predicate IncreasingDts(packets: seq<Packet>) {
    forall i, j :: 0 <= i < j < |packets| ==> packets[i].dts < packets[j].dts
  }

  predicate NoneEmpty(pieces: seq<seq<Packet>>) {
    forall i :: 0 <= i < |pieces| ==> pieces[i] != []
  }

  lemma PiecesNotEmpty(jobId: Uuid, nframes: uint64, packets: seq<Packet>, stream: StreamData, raw: Raw)
    requires packets != [] && stream.parameters.Some?
    requires stream.mediaType == VIDEO ==> IsKey(packets[0])
    ensures NoneEmpty(Pieces(Run(Fresh(jobId, nframes), packets, stream, raw)))
  {
    var s := Run(Fresh(jobId, nframes), packets, stream, raw);
    RunPartitions(jobId, nframes, packets, stream, raw);
    if stream.mediaType == VIDEO {
      VideoPieces(jobId, nframes, packets, stream, raw);
      assert forall i :: 0 <= i < |Pieces(s)| ==> KeyLed(Pieces(s)[i]);
    } else {
      AudioSizes(jobId, nframes, packets, stream, raw);
    }
  }

  /** The first packets of later pieces come later in the stream. */
  lemma {:induction false} FirstsIncrease(pieces: seq<seq<Packet>>)
    requires NoneEmpty(pieces) && IncreasingDts(Flatten(pieces))
    ensures forall i, j :: 0 <= i < j < |pieces| ==> pieces[i][0].dts < pieces[j][0].dts
  {
    if pieces != [] {
      var rest := pieces[1..];
      var all := Flatten(pieces);
      assert forall k :: 0 <= k < |Flatten(rest)| ==> Flatten(rest)[k] == all[|pieces[0]| + k];
      FirstsIncrease(rest);
      forall j | 1 <= j < |pieces|
        ensures pieces[0][0].dts < pieces[j][0].dts
      {
        assert pieces[j] == rest[j - 1];
        PieceInside(rest, j - 1);
        assert all[0] == pieces[0][0];
      }
      assert forall j :: 1 <= j < |pieces| ==> pieces[j] == rest[j - 1];
    }
  }

  lemma {:induction false} PieceInside(pieces: seq<seq<Packet>>, j: nat)
    requires j < |pieces| && pieces[j] != []
    ensures exists k :: 0 <= k < |Flatten(pieces)| && Flatten(pieces)[k] == pieces[j][0]
  {
    if j == 0 {
      assert Flatten(pieces)[0] == pieces[0][0];
    } else {
      PieceInside(pieces[1..], j - 1);
      var k :| 0 <= k < |Flatten(pieces[1..])| && Flatten(pieces[1..])[k] == pieces[j][0];
      assert Flatten(pieces)[|pieces[0]| + k] == pieces[j][0];
    }
  }

  /** The segments sent so far. */
  function Sent(s: State): (r: seq<Seg>)
    requires forall e <- s.emitted :: e.segment.Some?
    ensures |r| == |s.emitted| && forall i :: 0 <= i < |r| ==> r[i] == s.emitted[i].segment.value
  {
    seq(|s.emitted|, i requires 0 <= i < |s.emitted| => s.emitted[i].segment.value)
  }

  /** If the packets' decoding times increase, so do those of the segments sent at
      boundaries and by the first flush. */
  lemma SegmentDtsIncrease(jobId: Uuid, nframes: uint64, packets: seq<Packet>, stream: StreamData, raw: Raw)
    requires packets != [] && stream.parameters.Some?
    requires stream.mediaType == VIDEO ==> IsKey(packets[0])
    requires IncreasingDts(packets)
    ensures var t := Flush(Run(Fresh(jobId, nframes), packets, stream, raw));
            && AllBelong(t, jobId, stream, raw)
            && forall i, j :: 0 <= i < j < |t.emitted| ==> Sent(t)[i].dts < Sent(t)[j].dts
  {
    var s := Run(Fresh(jobId, nframes), packets, stream, raw);
    var t := Flush(s);
    RunPartitions(jobId, nframes, packets, stream, raw);
    PiecesNotEmpty(jobId, nframes, packets, stream, raw);
    FirstsIncrease(Pieces(s));
    assert EmittedPieces(t) == Pieces(s);
    forall i | 0 <= i < |t.emitted|
      ensures Sent(t)[i].packets == Pieces(s)[i] && Sent(t)[i].dts == Pieces(s)[i][0].dts
    {
      assert t.emitted[i] in t.emitted;
      assert EmittedPieces(t)[i] == PacketsOf(t.emitted[i].segment);
    }
  }
}

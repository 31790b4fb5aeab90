/** The wire form of segments: what save writes and what load makes of it.

    `PutX(x, tail)` is the bytes of x followed by `tail`; `GetX(b)` reads an x from
    the front of b and returns it with the bytes left over, or None where the archive
    runs out. */
module Codec {
  import opened Prelude
  import opened Bytes
  import opened Media

  // ---- Side data

  const SIDE_DATA: seq<Kind> := [U64, I32]

  function SideDataFields(d: SideData): seq<Field> {
    [(U64, |d.data|), (I32, d.kind)]
  }

  function PutSideData(d: SideData, tail: seq<byte>): seq<byte> {
    PutFields(SideDataFields(d), PutBlob(d.data, tail))
  }

  function GetSideData(b: seq<byte>): Option<(SideData, seq<byte>)> {
    var (v, b) :- GetFields(SIDE_DATA, b);
    assert FitsAt(SIDE_DATA, v, 0) && FitsAt(SIDE_DATA, v, 1);
    var (data, b) :- GetBlob(v[0], b);
    Some((SideData(v[1], data), b))
  }

  // ---- Packets

  const PACKET_HEAD: seq<Kind> := [I64, I64, I32]
  const PACKET_FLAGS: seq<Kind> := [I32, I32, I32]
  const PACKET_TAIL: seq<Kind> := [I64, I64]

  function HeadFields(p: Packet): seq<Field> {
    [(I64, p.pts), (I64, p.dts), (I32, |p.data|)]
  }

  function FlagFields(p: Packet): seq<Field> {
    [(I32, p.streamIndex), (I32, p.flags), (I32, p.sideDataElems)]
  }

  function TailFields(p: Packet): seq<Field> {
    [(I64, p.duration), (I64, p.pos)]
  }

  /** Only the first entry is written, and only if the count is not zero. */
  function PutFirstSideData(p: Packet, tail: seq<byte>): seq<byte> {
    if p.sideDataElems != 0 && p.sideData != [] then PutSideData(p.sideData[0], tail) else tail
  }

  /** One entry is read if the count is positive. */
  function GetFirstSideData(elems: int32, b: seq<byte>): Option<(seq<SideData>, seq<byte>)> {
    if elems > 0 then
      var (d, b) :- GetSideData(b);
      Some(([d], b))
    else
      Some(([], b))
  }

  function PutPacket(p: Packet, tail: seq<byte>): seq<byte> {
    PutFields(HeadFields(p), PutBlob(p.data,
      PutFields(FlagFields(p), PutFirstSideData(p, PutFields(TailFields(p), tail)))))
  }

  /** Stream index, flags, side-data count and the side data itself. */
  function GetMarks(b: seq<byte>): Option<((int32, int32, int32, seq<SideData>), seq<byte>)> {
    var (f, b) :- GetFields(PACKET_FLAGS, b);
    assert FitsAt(PACKET_FLAGS, f, 0) && FitsAt(PACKET_FLAGS, f, 1) && FitsAt(PACKET_FLAGS, f, 2);
    var (sideData, b) :- GetFirstSideData(f[2], b);
    Some(((f[0], f[1], f[2], sideData), b))
  }

  function GetPacket(b: seq<byte>): Option<(Packet, seq<byte>)> {
    var (head, b) :- GetFields(PACKET_HEAD, b);
    assert FitsAt(PACKET_HEAD, head, 0) && FitsAt(PACKET_HEAD, head, 1) && FitsAt(PACKET_HEAD, head, 2);
    var (data, b) :- GetBlob(head[2], b);
    var ((streamIndex, flags, elems, sideData), b) :- GetMarks(b);
    var (t, b) :- GetFields(PACKET_TAIL, b);
    assert FitsAt(PACKET_TAIL, t, 0) && FitsAt(PACKET_TAIL, t, 1);
    Some((Packet(head[0], head[1], data, streamIndex, flags, elems, sideData, t[0], t[1]), b))
  }

  function PutPackets(ps: seq<Packet>, tail: seq<byte>): seq<byte> {
    if ps == [] then tail else PutPacket(ps[0], PutPackets(ps[1..], tail))
  }

  function GetPackets(n: nat, b: seq<byte>): (r: Option<(seq<Packet>, seq<byte>)>)
    ensures r.Some? ==> |r.value.0| == n
  {
    if n == 0 then Some(([], b))
    else
      var (p, b) :- GetPacket(b);
      var (ps, b) :- GetPackets(n - 1, b);
      Some(([p] + ps, b))
  }

  // ---- Codec parameters

  const CODEC: seq<Kind> := [I32, I32, U32, I32]
  const FORMAT: seq<Kind> := [I32, I64, I32, I32]
  const PICTURE: seq<Kind> := [I32, I32, I32, I32, I32, I32]
  const COLOR: seq<Kind> := [I32, I32, I32, I32, I32, I32, I32]
  const AUDIO: seq<Kind> := [U64, I32, I32, I32, I32, I32, I32, I32]

  function CodecFields(c: CodecParameters): seq<Field> {
    [(I32, c.codecType), (I32, c.codecId), (U32, c.codecTag), (I32, |c.extradata|)]
  }

  function FormatFields(c: CodecParameters): seq<Field> {
    [(I32, c.format), (I64, c.bitRate), (I32, c.bitsPerCodedSample), (I32, c.bitsPerRawSample)]
  }

  function PictureFields(c: CodecParameters): seq<Field> {
    [(I32, c.profile), (I32, c.level), (I32, c.width), (I32, c.height),
     (I32, c.sampleAspectRatio.num), (I32, c.sampleAspectRatio.den)]
  }

  function ColorFields(c: CodecParameters): seq<Field> {
    [(I32, c.fieldOrder), (I32, c.colorRange), (I32, c.colorPrimaries), (I32, c.colorTrc),
     (I32, c.colorSpace), (I32, c.chromaLocation), (I32, c.videoDelay)]
  }

  function AudioFields(c: CodecParameters): seq<Field> {
    [(U64, c.channelLayout), (I32, c.channels), (I32, c.sampleRate), (I32, c.blockAlign),
     (I32, c.frameSize), (I32, c.initialPadding), (I32, c.trailingPadding), (I32, c.seekPreroll)]
  }

  /** The parameters that the five runs of fields and the extradata stand for. */
  function ParametersFrom(h: seq<int>, extradata: Blob, f: seq<int>, p: seq<int>, c: seq<int>, a: seq<int>)
    : CodecParameters
    requires AllFit(CODEC, h) && AllFit(FORMAT, f) && AllFit(PICTURE, p) && AllFit(COLOR, c) && AllFit(AUDIO, a)
  {
    assert FitsAt(CODEC, h, 0) && FitsAt(CODEC, h, 1) && FitsAt(CODEC, h, 2);
    assert FitsAt(FORMAT, f, 0) && FitsAt(FORMAT, f, 1) && FitsAt(FORMAT, f, 2) && FitsAt(FORMAT, f, 3);
    assert FitsAt(PICTURE, p, 0) && FitsAt(PICTURE, p, 1) && FitsAt(PICTURE, p, 2) && FitsAt(PICTURE, p, 3);
    assert FitsAt(PICTURE, p, 4) && FitsAt(PICTURE, p, 5);
    assert FitsAt(COLOR, c, 0) && FitsAt(COLOR, c, 1) && FitsAt(COLOR, c, 2) && FitsAt(COLOR, c, 3);
    assert FitsAt(COLOR, c, 4) && FitsAt(COLOR, c, 5) && FitsAt(COLOR, c, 6);
    assert FitsAt(AUDIO, a, 0) && FitsAt(AUDIO, a, 1) && FitsAt(AUDIO, a, 2) && FitsAt(AUDIO, a, 3);
    assert FitsAt(AUDIO, a, 4) && FitsAt(AUDIO, a, 5) && FitsAt(AUDIO, a, 6) && FitsAt(AUDIO, a, 7);
    CodecParameters(
      h[0], h[1], h[2], extradata,
      f[0], f[1], f[2], f[3],
      p[0], p[1], p[2], p[3], Rational(p[4], p[5]),
      c[0], c[1], c[2], c[3], c[4], c[5], c[6],
      a[0], a[1], a[2], a[3], a[4], a[5], a[6], a[7])
  }

  function PutParameters(c: CodecParameters, tail: seq<byte>): seq<byte> {
    PutFields(CodecFields(c), PutBlob(c.extradata,
      PutFields(FormatFields(c), PutFields(PictureFields(c),
        PutFields(ColorFields(c), PutFields(AudioFields(c), tail))))))
  }

  function GetParameters(b: seq<byte>): Option<(CodecParameters, seq<byte>)> {
    var (h, b) :- GetFields(CODEC, b);
    assert FitsAt(CODEC, h, 3);
    var (extradata, b) :- GetBlob(h[3], b);
    var (f, b) :- GetFields(FORMAT, b);
    var (p, b) :- GetFields(PICTURE, b);
    var (c, b) :- GetFields(COLOR, b);
    var (a, b) :- GetFields(AUDIO, b);
    Some((ParametersFrom(h, extradata, f, p, c, a), b))
  }

  // ---- Segments

  const STAMP: seq<Kind> := [I64, I64, I32, I32]

  function StampFields(s: Seg): seq<Field> {
    [(I64, s.pts), (I64, s.dts), (I32, s.timeBase.num), (I32, s.timeBase.den)]
  }

  /** Job id, timestamps and time base: everything in front of the codec parameters. */
  function PutStamp(s: Seg, tail: seq<byte>): seq<byte> {
    PutBlob(s.jobId, PutFields(StampFields(s), tail))
  }

  function GetStamp(b: seq<byte>): Option<((Uuid, int64, int64, Rational), seq<byte>)> {
    var (jobId, b) :- GetBlob(16, b);
    var (v, b) :- GetFields(STAMP, b);
    assert FitsAt(STAMP, v, 0) && FitsAt(STAMP, v, 1) && FitsAt(STAMP, v, 2) && FitsAt(STAMP, v, 3);
    Some(((jobId, v[0], v[1], Rational(v[2], v[3])), b))
  }

  const COUNT: seq<Kind> := [U64]

  function CountFields(s: Seg): seq<Field> {
    [(U64, s.npackets)]
  }

  function PutSegment(s: Seg, tail: seq<byte>): seq<byte> {
    PutStamp(s, PutParameters(s.parameters, PutFields(CountFields(s), PutPackets(s.packets, tail))))
  }

  /** What load makes of a stream when its target already holds packets. The packet loop
      counts in an int, so a count beyond its range has no defined meaning and is
      treated as an archive error. */
  function GetSegmentInto(held: seq<Packet>, heldCount: uint64, b: seq<byte>): Option<(Seg, seq<byte>)> {
    var ((jobId, pts, dts, timeBase), b) :- GetStamp(b);
    var (parameters, b) :- GetParameters(b);
    var (count, b) :- GetFields(COUNT, b);
    assert FitsAt(COUNT, count, 0);
    if count[0] >= TWO31 then None
    else
      var (packets, b) :- GetPackets(count[0], b);
      Some((Seg(jobId, pts, dts, timeBase, parameters, heldCount, held).AppendedAll(packets), b))
  }

  /** Loading into a freshly constructed segment. */
  function GetSegment(b: seq<byte>): Option<(Seg, seq<byte>)> {
    GetSegmentInto([], 0, b)
  }

  // ---- Round trips

  lemma SideDataRoundTrip(d: SideData, rest: seq<byte>)
    ensures GetSideData(PutSideData(d, rest)) == Some((d, rest))
  {
    FieldsRoundTrip(SIDE_DATA, SideDataFields(d), [|d.data|, d.kind], PutBlob(d.data, rest));
  }

  /** The second components of a run of fields. */
  function ValuesOf(fields: seq<Field>): (v: seq<int>)
    ensures |v| == |fields| && forall i :: 0 <= i < |v| ==> v[i] == fields[i].1
  {
    seq(|fields|, i requires 0 <= i < |fields| => fields[i].1)
  }

  /** Every codec parameter comes back, with whatever followed them. */
  lemma ParametersRoundTrip(c: CodecParameters, rest: seq<byte>)
    ensures GetParameters(PutParameters(c, rest)) == Some((c, rest))
  {
    hide PutFields, GetFields;
    var audio := PutFields(AudioFields(c), rest);
    var color := PutFields(ColorFields(c), audio);
    var picture := PutFields(PictureFields(c), color);
    var format := PutFields(FormatFields(c), picture);
    FieldsRoundTrip(CODEC, CodecFields(c), ValuesOf(CodecFields(c)), PutBlob(c.extradata, format));
    FieldsRoundTrip(FORMAT, FormatFields(c), ValuesOf(FormatFields(c)), picture);
    FieldsRoundTrip(PICTURE, PictureFields(c), ValuesOf(PictureFields(c)), color);
    FieldsRoundTrip(COLOR, ColorFields(c), ValuesOf(ColorFields(c)), audio);
    FieldsRoundTrip(AUDIO, AudioFields(c), ValuesOf(AudioFields(c)), rest);
  }

  /** The packets that survive the wire unchanged: one side-data entry and a positive
      count, or no entry and a count that is not positive. */
  predicate SideDataExact(p: Packet) {
    if p.sideDataElems > 0 then |p.sideData| == 1 else p.sideData == []
  }

  lemma FirstSideDataRoundTrip(p: Packet, tail: seq<byte>)
    requires p.sideData != [] <==> p.sideDataElems > 0
    ensures GetFirstSideData(p.sideDataElems, PutFirstSideData(p, tail)) == Some((FirstOnly(p).sideData, tail))
  {
    if p.sideData != [] {
      SideDataRoundTrip(p.sideData[0], tail);
    }
  }

  /** The packet without any side data after the first entry. */
  function FirstOnly(p: Packet): Packet {
    if p.sideData == [] then p else p.(sideData := [p.sideData[0]])
  }

  /** A packet comes back unchanged, and leaves whatever followed it, exactly if it has
      one side-data entry and a positive count, or no entry and no positive count. */
  lemma PacketRoundTripExactly(p: Packet, rest: seq<byte>)
    ensures GetPacket(PutPacket(p, rest)) == Some((p, rest)) <==> SideDataExact(p)
  {
    var b := PutPacket(p, rest);
    if SideDataExact(p) {
      PacketKeepsFirstSideData(p, rest);
      assert FirstOnly(p) == p;
    } else if GetPacket(b) == Some((p, rest)) {
      LoadedSideDataExact(b);
      assert false;
    }
  }

  /** With several entries the first one and every other field survive. */
  lemma PacketKeepsFirstSideData(p: Packet, rest: seq<byte>)
    requires p.sideData != [] <==> p.sideDataElems > 0
    ensures GetPacket(PutPacket(p, rest)) == Some((FirstOnly(p), rest))
  {
    var tail := PutFields(TailFields(p), rest);
    var side := PutFirstSideData(p, tail);
    FieldsRoundTrip(PACKET_HEAD, HeadFields(p), [p.pts, p.dts, |p.data|], PutBlob(p.data, PutFields(FlagFields(p), side)));
    FieldsRoundTrip(PACKET_FLAGS, FlagFields(p), [p.streamIndex, p.flags, p.sideDataElems], side);
    FirstSideDataRoundTrip(p, tail);
    FieldsRoundTrip(PACKET_TAIL, TailFields(p), [p.duration, p.pos], rest);
  }

  lemma LoadedSideDataExact(b: seq<byte>)
    requires GetPacket(b).Some?
    ensures SideDataExact(GetPacket(b).value.0)
  {
  }

  lemma {:induction false} PacketsRoundTrip(ps: seq<Packet>, rest: seq<byte>)
    requires forall p <- ps :: SideDataExact(p)
    ensures GetPackets(|ps|, PutPackets(ps, rest)) == Some((ps, rest))
  {
    if ps != [] {
      PacketRoundTripExactly(ps[0], PutPackets(ps[1..], rest));
      PacketsRoundTrip(ps[1..], rest);
      assert [ps[0]] + ps[1..] == ps;
    }
  }

  lemma {:induction false} LoadedPacketsExact(n: nat, b: seq<byte>)
    requires GetPackets(n, b).Some?
    ensures forall p <- GetPackets(n, b).value.0 :: SideDataExact(p)
  {
    if n > 0 {
      LoadedSideDataExact(b);
      LoadedPacketsExact(n - 1, GetPacket(b).value.1);
    }
  }

  /** The segments that survive the wire unchanged. */
  predicate WireExact(s: Seg) {
    && s.Consistent()
    && |s.packets| < TWO31
    && forall p <- s.packets :: SideDataExact(p)
  }

  lemma StampRoundTrip(s: Seg, tail: seq<byte>)
    ensures GetStamp(PutStamp(s, tail)) == Some(((s.jobId, s.pts, s.dts, s.timeBase), tail))
  {
    FieldsRoundTrip(STAMP, StampFields(s), [s.pts, s.dts, s.timeBase.num, s.timeBase.den], tail);
  }

  lemma WireExactRoundTrip(s: Seg, rest: seq<byte>)
    requires WireExact(s)
    ensures GetSegment(PutSegment(s, rest)) == Some((s, rest))
  {
    hide GetStamp, PutStamp, GetParameters, PutParameters, GetPackets, PutPackets, GetFields, PutFields;
    var counted := PutFields(CountFields(s), PutPackets(s.packets, rest));
    FieldsRoundTrip(COUNT, CountFields(s), [s.npackets], PutPackets(s.packets, rest));
    StampRoundTrip(s, PutParameters(s.parameters, counted));
    ParametersRoundTrip(s.parameters, counted);
    PacketsRoundTrip(s.packets, rest);
    var header := s.(npackets := 0, packets := []);
    assert header.AppendedAll(s.packets) == s by {
      if s.packets != [] {
        AppendedAllRebuilds(s, header);
      }
    }
  }

  /** Saving and loading gives a segment back, and leaves whatever followed it, exactly
      if its header agrees with its packets, the packet loop can count them, and no
      packet loses side data. */
  lemma SegmentRoundTripExactly(s: Seg, rest: seq<byte>)
    ensures GetSegment(PutSegment(s, rest)) == Some((s, rest)) <==> WireExact(s)
  {
    if WireExact(s) {
      WireExactRoundTrip(s, rest);
    } else if GetSegment(PutSegment(s, rest)).Some? {
      LoadedSegmentExact(PutSegment(s, rest));
    }
  }

  /** Whatever bytes are loaded, the segment that results survives the wire. */
  lemma LoadedSegmentExact(b: seq<byte>)
    requires GetSegment(b).Some?
    ensures WireExact(GetSegment(b).value.0)
  {
    var ((jobId, pts, dts, timeBase), b1) := GetStamp(b).value;
    var (parameters, b2) := GetParameters(b1).value;
    var (count, b3) := GetFields(COUNT, b2).value;
    assert FitsAt(COUNT, count, 0);
    LoadedPacketsExact(count[0], b3);
    var packets := GetPackets(count[0], b3).value.0;
    var header := Seg(jobId, pts, dts, timeBase, parameters, 0, []);
    AppendedAllKeeps(header, packets);
    assert header.packets + packets == packets;
  }

  /** The bytes of a record do not depend on what follows them. */
  lemma {:induction false} PacketsAppend(ps: seq<Packet>, tail: seq<byte>, more: seq<byte>)
    ensures PutPackets(ps, tail) + more == PutPackets(ps, tail + more)
  {
    if ps != [] {
      PacketAppend(ps[0], PutPackets(ps[1..], tail), more);
      PacketsAppend(ps[1..], tail, more);
    }
  }

  lemma PacketAppend(p: Packet, tail: seq<byte>, more: seq<byte>)
    ensures PutPacket(p, tail) + more == PutPacket(p, tail + more)
  {
    var end := PutFields(TailFields(p), tail);
    var side := PutFirstSideData(p, end);
    var flags := PutFields(FlagFields(p), side);
    FieldsAppend(TailFields(p), tail, more);
    assert side + more == PutFirstSideData(p, end + more) by {
      if p.sideData != [] {
        FieldsAppend(SideDataFields(p.sideData[0]), PutBlob(p.sideData[0].data, end), more);
      }
    }
    FieldsAppend(FlagFields(p), side, more);
    FieldsAppend(HeadFields(p), PutBlob(p.data, flags), more);
  }

  /** Saving is a prefix code: what follows a segment does not change its bytes. */
  lemma SegmentAppend(s: Seg, tail: seq<byte>, more: seq<byte>)
    ensures PutSegment(s, tail) + more == PutSegment(s, tail + more)
  {
    var packets := PutPackets(s.packets, tail);
    var counted := PutFields(CountFields(s), packets);
    PacketsAppend(s.packets, tail, more);
    FieldsAppend(CountFields(s), packets, more);
    ParametersAppend(s.parameters, counted, more);
    FieldsAppend(StampFields(s), PutParameters(s.parameters, counted), more);
  }

  lemma ParametersAppend(c: CodecParameters, tail: seq<byte>, more: seq<byte>)
    ensures PutParameters(c, tail) + more == PutParameters(c, tail + more)
  {
    var audio := PutFields(AudioFields(c), tail);
    var color := PutFields(ColorFields(c), audio);
    var picture := PutFields(PictureFields(c), color);
    FieldsAppend(AudioFields(c), tail, more);
    FieldsAppend(ColorFields(c), audio, more);
    FieldsAppend(PictureFields(c), color, more);
    FieldsAppend(FormatFields(c), picture, more);
    FieldsAppend(CodecFields(c), PutBlob(c.extradata, PutFields(FormatFields(c), picture)), more);
  }
}

/** The values that travel through the pipeline: packets, codec parameters and segments. */
module Media {
  import opened Prelude
  import opened Bytes

  type Blob = s: seq<byte> | |s| < TWO31
  type LargeBlob = s: seq<byte> | |s| < TWO64

  type Uuid = s: seq<byte> | |s| == 16 witness seq(16, _ => 0)

  datatype Rational = Rational(num: int32, den: int32)

  datatype SideData = SideData(kind: int32, data: LargeBlob)

  /** An AVPacket. `sideDataElems` is the count field and `sideData` what the
      side_data pointer refers to; the empty sequence is a null pointer. */
  datatype Packet = Packet(
    pts: int64,
    dts: int64,
    data: Blob,
    streamIndex: int32,
    flags: int32,
    sideDataElems: int32,
    sideData: seq<SideData>,
    duration: int64,
    pos: int64)

  const VIDEO: int32 := 0

  /** AV_PKT_FLAG_KEY is the lowest bit of the flags. */
  predicate IsKey(packet: Packet) {
    packet.flags % 2 == 1
  }

  /** AVCodecParameters; `extradata_size` is the length of `extradata`. */
  datatype CodecParameters = CodecParameters(
    codecType: int32,
    codecId: int32,
    codecTag: uint32,
    extradata: Blob,
    format: int32,
    bitRate: int64,
    bitsPerCodedSample: int32,
    bitsPerRawSample: int32,
    profile: int32,
    level: int32,
    width: int32,
    height: int32,
    sampleAspectRatio: Rational,
    fieldOrder: int32,
    colorRange: int32,
    colorPrimaries: int32,
    colorTrc: int32,
    colorSpace: int32,
    chromaLocation: int32,
    videoDelay: int32,
    channelLayout: uint64,
    channels: int32,
    sampleRate: int32,
    blockAlign: int32,
    frameSize: int32,
    initialPadding: int32,
    trailingPadding: int32,
    seekPreroll: int32)

  /** The fields of a Segment object. */
  datatype Seg = Seg(
    jobId: Uuid,
    pts: int64,
    dts: int64,
    timeBase: Rational,
    parameters: CodecParameters,
    npackets: uint64,
    packets: seq<Packet>)
  {
    /** The header agrees with the packets: what every append keeps. */
    predicate Consistent() {
      && npackets == |packets| % 0x1_0000_0000_0000_0000
      && (packets != [] ==> pts == packets[0].pts && dts == packets[0].dts)
    }

    /** What appending one packet makes of the segment. */
    function Appended(packet: Packet): (s: Seg)
      ensures s.packets == packets + [packet]
      ensures Consistent() ==> s.Consistent()
    {
      var headed := if packets == [] then this.(pts := packet.pts, dts := packet.dts) else this;
      headed.(packets := packets + [packet], npackets := if npackets + 1 == TWO64 then 0 else npackets + 1)
    }

    /** Appending several packets, first to last. */
    function AppendedAll(more: seq<Packet>): Seg
      decreases |more|
    {
      if more == [] then this else Appended(more[0]).AppendedAll(more[1..])
    }
  }

  /** Appending a list keeps consistency and identity, and concatenates the packets. */
  lemma {:induction false} AppendedAllKeeps(s: Seg, more: seq<Packet>)
    ensures s.AppendedAll(more).packets == s.packets + more
    ensures s.Consistent() ==> s.AppendedAll(more).Consistent()
    ensures s.AppendedAll(more).(pts := 0, dts := 0, npackets := 0, packets := [])
            == s.(pts := 0, dts := 0, npackets := 0, packets := [])
    decreases |more|
  {
    if more != [] {
      AppendedAllKeeps(s.Appended(more[0]), more[1..]);
      assert s.packets + [more[0]] + more[1..] == s.packets + more;
    } else {
      assert s.packets + more == s.packets;
    }
  }

  lemma {:induction false} AppendedAllSnoc(s: Seg, more: seq<Packet>, last: Packet)
    ensures s.AppendedAll(more + [last]) == s.AppendedAll(more).Appended(last)
    decreases |more|
  {
    if more != [] {
      AppendedAllSnoc(s.Appended(more[0]), more[1..], last);
      assert (more + [last])[1..] == more[1..] + [last];
    }
  }

  /** A consistent segment is determined by its identity and its packets. */
  lemma AppendedAllRebuilds(s: Seg, base: Seg)
    requires s.Consistent() && s.packets != []
    requires base.packets == [] && base.npackets == 0
    requires base.jobId == s.jobId && base.timeBase == s.timeBase && base.parameters == s.parameters
    ensures base.AppendedAll(s.packets) == s
  {
    assert base.Consistent();
    AppendedAllKeeps(base, s.packets);
    var r := base.AppendedAll(s.packets);
    assert r.packets == [] + s.packets == s.packets;
    assert r.jobId == r.(pts := 0, dts := 0, npackets := 0, packets := []).jobId == s.jobId;
    assert r.timeBase == r.(pts := 0, dts := 0, npackets := 0, packets := []).timeBase == s.timeBase;
    assert r.parameters == r.(pts := 0, dts := 0, npackets := 0, packets := []).parameters == s.parameters;
  }
}

/** The bytes on the wire, spelled out: what stands where, and which bytes it is. */
module Layouts {
  import opened Prelude
  import opened Bytes
  import opened Media
  import opened Codec

  // ---- Integers

  /** The lowest bytes of the two's complement of v, least significant first. Division
      rounds down, so this holds of negative numbers too. */
  function Digits(v: int, width: nat): (b: seq<byte>)
    ensures |b| == width
  {
    seq(width, i requires 0 <= i < width => DigitAt(v, i))
  }

  function DigitAt(v: int, i: nat): byte {
    CapacityPositive(i);
    v / Capacity(i) % 256
  }

  lemma {:induction false} CapacityPositive(i: nat)
    ensures Capacity(i) > 0
  {
    if i > 0 {
      CapacityPositive(i - 1);
    }
  }

  lemma DivideTwice(v: int, c: int)
    requires c > 0
    ensures 256 * c > 0 && v / 256 / c == v / (256 * c)
  {
    var q := v / 256 / c;
    var r, s := v / 256 % c, v % 256;
    assert v / 256 == c * q + r && v == 256 * (v / 256) + s;
    assert v == 256 * c * q + (256 * r + s);
    assert 256 * r + s < 256 * c;
    QuotientUnique(v, 256 * c, q, 256 * r + s);
  }

  lemma QuotientUnique(v: int, d: int, q: int, r: int)
    requires d > 0 && v == d * q + r && 0 <= r < d
    ensures v / d == q
  {
    var p, t := v / d, v % d;
    assert v == d * p + t;
    TimesOrdered(d, q + 1, p);
    TimesOrdered(d, p + 1, q);
  }

  lemma TimesOrdered(d: int, a: int, b: int)
    requires d > 0
    ensures a <= b ==> d * a <= d * b
  {
    if a <= b {
      assert d * (b - a) >= 0;
    }
  }

  lemma {:induction false} LittleEndianAt(n: nat, v: int, k: int, width: nat, i: nat)
    requires i < width && n == v + k * Capacity(width)
    ensures LittleEndian(n, width)[i] == DigitAt(v, i)
    decreases i
  {
    var c := Capacity(width - 1);
    assert k * Capacity(width) == 256 * (k * c);
    if i > 0 {
      assert n / 256 == v / 256 + k * c;
      LittleEndianAt(n / 256, v / 256, k, width - 1, i - 1);
      CapacityPositive(i - 1);
      DivideTwice(v, Capacity(i - 1));
    }
  }

  function Word(v: int): seq<byte> {
    Digits(v, WORD)
  }

  function Long(v: int): seq<byte> {
    Digits(v, LONG)
  }

  lemma IntegerBytes(v: int, tail: seq<byte>)
    ensures -TWO31 <= v < TWO32 ==> Put32(v, tail) == Word(v) + tail
    ensures -TWO63 <= v < TWO64 ==> Put64(v, tail) == Long(v) + tail
  {
    Capacities();
    if -TWO31 <= v < TWO32 {
      forall i | 0 <= i < WORD ensures LittleEndian(Unsigned(v, TWO32), WORD)[i] == Word(v)[i] {
        LittleEndianAt(Unsigned(v, TWO32), v, if v < 0 then 1 else 0, WORD, i);
      }
    }
    if -TWO63 <= v < TWO64 {
      forall i | 0 <= i < LONG ensures LittleEndian(Unsigned(v, TWO64), LONG)[i] == Long(v)[i] {
        LittleEndianAt(Unsigned(v, TWO64), v, if v < 0 then 1 else 0, LONG, i);
      }
    }
  }

  // ---- Runs of fields

  /** The pieces one after the other, and then the tail. */
  function Joined(pieces: seq<seq<byte>>, tail: seq<byte>): seq<byte> {
    if pieces == [] then tail else pieces[0] + Joined(pieces[1..], tail)
  }

  lemma {:induction false} JoinedAppend(a: seq<seq<byte>>, b: seq<seq<byte>>, tail: seq<byte>)
    ensures Joined(a + b, tail) == Joined(a, Joined(b, tail))
  {
    if a == [] {
      assert a + b == b;
    } else {
      assert (a + b)[1..] == a[1..] + b;
      JoinedAppend(a[1..], b, tail);
    }
  }

  function FieldBytes(f: Field): seq<byte> {
    match f.0
    case I32 | U32 => Word(f.1)
    case I64 | U64 => Long(f.1)
  }

  function AllBytes(fields: seq<Field>): (r: seq<seq<byte>>)
    ensures |r| == |fields| && forall i :: 0 <= i < |r| ==> r[i] == FieldBytes(fields[i])
  {
    seq(|fields|, i requires 0 <= i < |fields| => FieldBytes(fields[i]))
  }

  lemma {:induction false} FieldsJoined(fields: seq<Field>, tail: seq<byte>)
    ensures PutFields(fields, tail) == Joined(AllBytes(fields), tail)
  {
    hide FieldBytes;
    if fields != [] {
      FieldsJoined(fields[1..], tail);
      assert AllBytes(fields)[1..] == AllBytes(fields[1..]);
      FieldJoined(fields[0], PutFields(fields[1..], tail));
    }
  }

  lemma FieldJoined(f: Field, tail: seq<byte>)
    ensures PutField(f, tail) == FieldBytes(f) + tail
  {
    IntegerBytes(f.1, tail);
  }

  lemma BlobJoined(data: seq<byte>, tail: seq<byte>)
    ensures PutBlob(data, tail) == Joined([data], tail)
  {
    assert Joined([data][1..], tail) == tail;
  }

  // ---- Records

  function SideDataBytes(d: SideData): seq<seq<byte>> {
    [Long(|d.data|), Word(d.kind), d.data]
  }

  function PacketBytes(p: Packet): seq<seq<byte>> {
    [Long(p.pts), Long(p.dts), Word(|p.data|), p.data, Word(p.streamIndex), Word(p.flags), Word(p.sideDataElems)]
    + (if p.sideDataElems != 0 && p.sideData != [] then SideDataBytes(p.sideData[0]) else [])
    + [Long(p.duration), Long(p.pos)]
  }

  function ParametersBytes(c: CodecParameters): seq<seq<byte>> {
    [Word(c.codecType), Word(c.codecId), Word(c.codecTag), Word(|c.extradata|)]
    + ([c.extradata]
       + ([Word(c.format), Long(c.bitRate), Word(c.bitsPerCodedSample), Word(c.bitsPerRawSample)]
          + ([Word(c.profile), Word(c.level), Word(c.width), Word(c.height),
              Word(c.sampleAspectRatio.num), Word(c.sampleAspectRatio.den)]
             + ([Word(c.fieldOrder), Word(c.colorRange), Word(c.colorPrimaries), Word(c.colorTrc),
                 Word(c.colorSpace), Word(c.chromaLocation), Word(c.videoDelay)]
                + [Long(c.channelLayout), Word(c.channels), Word(c.sampleRate), Word(c.blockAlign),
                   Word(c.frameSize), Word(c.initialPadding), Word(c.trailingPadding), Word(c.seekPreroll)]))))
  }

  function HeaderBytes(s: Seg): seq<seq<byte>> {
    [s.jobId, Long(s.pts), Long(s.dts), Word(s.timeBase.num), Word(s.timeBase.den)]
    + ParametersBytes(s.parameters) + [Long(s.npackets)]
  }

  function PacketsBytes(ps: seq<Packet>): seq<seq<byte>> {
    if ps == [] then [] else PacketBytes(ps[0]) + PacketsBytes(ps[1..])
  }

  lemma SideDataLayout(d: SideData, tail: seq<byte>)
    ensures PutSideData(d, tail) == Joined(SideDataBytes(d), tail)
  {
    hide PutFields, Digits;
    FieldsJoined(SideDataFields(d), PutBlob(d.data, tail));
    BlobJoined(d.data, tail);
    JoinedAppend(AllBytes(SideDataFields(d)), [d.data], tail);
    assert SideDataBytes(d) == AllBytes(SideDataFields(d)) + [d.data];
  }

  lemma PacketLayout(p: Packet, tail: seq<byte>)
    ensures PutPacket(p, tail) == Joined(PacketBytes(p), tail)
  {
    hide PutFields, Digits, PutSideData, SideDataBytes, Joined;
    var side := if p.sideDataElems != 0 && p.sideData != [] then SideDataBytes(p.sideData[0]) else [];
    var head, flags, end := AllBytes(HeadFields(p)), AllBytes(FlagFields(p)), AllBytes(TailFields(p));
    var t1 := PutFields(TailFields(p), tail);
    var t2 := PutFirstSideData(p, t1);
    var t3 := PutFields(FlagFields(p), t2);
    FieldsJoined(TailFields(p), tail);
    assert t2 == Joined(side, t1) by {
      if side != [] {
        SideDataLayout(p.sideData[0], t1);
      } else {
        NothingJoined(p, t1);
      }
    }
    FieldsJoined(FlagFields(p), t2);
    BlobJoined(p.data, t3);
    FieldsJoined(HeadFields(p), PutBlob(p.data, t3));
    JoinedAppend(side, end, tail);
    JoinedAppend(flags, side + end, tail);
    JoinedAppend([p.data], flags + (side + end), tail);
    JoinedAppend(head, [p.data] + (flags + (side + end)), tail);
    assert PacketBytes(p) == head + ([p.data] + (flags + (side + end)));
  }

  lemma NothingJoined(p: Packet, tail: seq<byte>)
    ensures Joined([], tail) == tail
    ensures p.sideDataElems != 0 && p.sideData != [] ==> SideDataBytes(p.sideData[0]) != []
  {
  }

  lemma ParametersLayout(c: CodecParameters, tail: seq<byte>)
    ensures PutParameters(c, tail) == Joined(ParametersBytes(c), tail)
  {
    hide PutFields, Digits, Joined;
    var codec, format, picture := AllBytes(CodecFields(c)), AllBytes(FormatFields(c)), AllBytes(PictureFields(c));
    var color, audio := AllBytes(ColorFields(c)), AllBytes(AudioFields(c));
    var t1 := PutFields(AudioFields(c), tail);
    var t2 := PutFields(ColorFields(c), t1);
    var t3 := PutFields(PictureFields(c), t2);
    var t4 := PutFields(FormatFields(c), t3);
    FieldsJoined(AudioFields(c), tail);
    FieldsJoined(ColorFields(c), t1);
    FieldsJoined(PictureFields(c), t2);
    FieldsJoined(FormatFields(c), t3);
    BlobJoined(c.extradata, t4);
    FieldsJoined(CodecFields(c), PutBlob(c.extradata, t4));
    JoinedAppend(color, audio, tail);
    JoinedAppend(picture, color + audio, tail);
    JoinedAppend(format, picture + (color + audio), tail);
    JoinedAppend([c.extradata], format + (picture + (color + audio)), tail);
    JoinedAppend(codec, [c.extradata] + (format + (picture + (color + audio))), tail);
    ParametersInOrder(c);
  }

  lemma ParametersInOrder(c: CodecParameters)
    ensures ParametersBytes(c) ==
            AllBytes(CodecFields(c)) + ([c.extradata] + (AllBytes(FormatFields(c))
              + (AllBytes(PictureFields(c)) + (AllBytes(ColorFields(c)) + AllBytes(AudioFields(c))))))
  {
    hide Word, Long;
    CodecInOrder(c);
    assert AllBytes(FormatFields(c))
        == [Word(c.format), Long(c.bitRate), Word(c.bitsPerCodedSample), Word(c.bitsPerRawSample)];
    assert AllBytes(PictureFields(c))
        == [Word(c.profile), Word(c.level), Word(c.width), Word(c.height),
            Word(c.sampleAspectRatio.num), Word(c.sampleAspectRatio.den)];
    ColorAndAudioInOrder(c);
  }

  lemma CodecInOrder(c: CodecParameters)
    ensures AllBytes(CodecFields(c)) == [Word(c.codecType), Word(c.codecId), Word(c.codecTag), Word(|c.extradata|)]
  {
    hide Word, Long;
  }

  lemma ColorAndAudioInOrder(c: CodecParameters)
    ensures AllBytes(ColorFields(c)) ==
            [Word(c.fieldOrder), Word(c.colorRange), Word(c.colorPrimaries), Word(c.colorTrc), Word(c.colorSpace),
             Word(c.chromaLocation), Word(c.videoDelay)]
    ensures AllBytes(AudioFields(c)) ==
            [Long(c.channelLayout), Word(c.channels), Word(c.sampleRate), Word(c.blockAlign), Word(c.frameSize),
             Word(c.initialPadding), Word(c.trailingPadding), Word(c.seekPreroll)]
  {
    hide Word, Long;
  }

  lemma {:induction false} PacketsLayout(ps: seq<Packet>, tail: seq<byte>)
    ensures PutPackets(ps, tail) == Joined(PacketsBytes(ps), tail)
  {
    hide PutPacket, PacketBytes;
    if ps != [] {
      PacketsLayout(ps[1..], tail);
      PacketLayout(ps[0], PutPackets(ps[1..], tail));
      JoinedAppend(PacketBytes(ps[0]), PacketsBytes(ps[1..]), tail);
    }
  }

  /** A saved segment is exactly: job id, timestamps, time base, codec parameters, packet
      count and packets, each integer in its width and lowest byte first. */
  lemma SegmentLayout(s: Seg, tail: seq<byte>)
    ensures PutSegment(s, tail) == Joined(HeaderBytes(s) + PacketsBytes(s.packets), tail)
  {
    hide PutFields, Digits, Joined, PutParameters, ParametersBytes, PutPackets, PacketsBytes;
    var stamp, count := AllBytes(StampFields(s)), AllBytes(CountFields(s));
    var parameters, packets := ParametersBytes(s.parameters), PacketsBytes(s.packets);
    var t1 := PutPackets(s.packets, tail);
    var t2 := PutFields(CountFields(s), t1);
    var t3 := PutParameters(s.parameters, t2);
    PacketsLayout(s.packets, tail);
    FieldsJoined(CountFields(s), t1);
    ParametersLayout(s.parameters, t2);
    FieldsJoined(StampFields(s), t3);
    BlobJoined(s.jobId, PutFields(StampFields(s), t3));
    JoinedAppend(count, packets, tail);
    JoinedAppend(parameters, count + packets, tail);
    JoinedAppend(stamp, parameters + (count + packets), tail);
    JoinedAppend([s.jobId], stamp + (parameters + (count + packets)), tail);
    assert stamp == [Long(s.pts), Long(s.dts), Word(s.timeBase.num), Word(s.timeBase.den)];
    assert count == [Long(s.npackets)];
    assert HeaderBytes(s) + packets == [s.jobId] + (stamp + (parameters + (count + packets)));
  }
}

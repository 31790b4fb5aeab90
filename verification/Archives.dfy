/** The two archives and the save and load routines that drive them field by field. */
module Archives {
  import opened Prelude
  import opened Bytes
  import opened Media
  import opened Codec

  /** A growing byte string. `run` lists the fields written since `mark`. */
  class OutputArchive {
    var bytes: seq<byte>
    ghost var mark: seq<byte>
    ghost var run: seq<Field>

    ghost predicate Valid()
      reads this
    {
      forall tail {:trigger bytes + tail} :: bytes + tail == mark + PutFields(run, tail)
    }

    constructor ()
      ensures Valid() && bytes == []
    {
      bytes, mark, run := [], [], [];
    }

    ghost method Begin()
      modifies this`mark, this`run
      ensures Valid() && mark == bytes && run == []
    {
      mark, run := bytes, [];
    }

    method Write(field: Field)
      requires Valid()
      modifies this
      ensures Valid() && mark == old(mark) && run == old(run) + [field]
    {
      bytes := bytes + PutField(field, []);
      run := run + [field];
      forall tail
        ensures bytes + tail == mark + PutFields(run, tail)
      {
        FieldsSnoc(old(run), field, tail);
        PutFieldThen(field, tail);
        Assoc(old(bytes), PutField(field, []), tail);
      }
    }

    method WriteBlob(data: seq<byte>)
      modifies this
      ensures forall tail {:trigger bytes + tail} :: bytes + tail == old(bytes) + PutBlob(data, tail)
    {
      bytes := bytes + data;
      forall tail
        ensures bytes + tail == old(bytes) + PutBlob(data, tail)
      {
        assert bytes + tail == old(bytes) + (data + tail);
      }
    }
  }

  lemma PutFieldThen(field: Field, tail: seq<byte>)
    ensures PutField(field, []) + tail == PutField(field, tail)
  {
    FieldsAppend([field], [], tail);
    assert [] + tail == tail;
    assert PutFields([field], []) == PutField(field, []);
    assert PutFields([field], tail) == PutField(field, tail);
  }

  /** The bytes still to be read. `values` are what has been read since `mark` of the
      run of fields in `plan`. */
  class InputArchive {
    var rest: seq<byte>
    ghost var mark: seq<byte>
    ghost var plan: seq<Kind>
    ghost var values: seq<int>

    ghost predicate Valid()
      reads this
    {
      && |values| <= |plan|
      && GetFields(plan[..|values|], mark) == Some((values, rest))
    }

    constructor (bytes: seq<byte>)
      ensures Valid() && rest == bytes
    {
      rest, mark, plan, values := bytes, bytes, [], [];
    }

    ghost method Begin(plan: seq<Kind>)
      modifies this`mark, this`plan, this`values
      ensures Valid() && mark == rest && this.plan == plan && values == []
    {
      mark, this.plan, values := rest, plan, [];
    }

    /** None stands for the exception that ends the whole load. */
    method Read(kind: Kind) returns (v: Option<int>)
      requires Valid() && |values| < |plan| && plan[|values|] == kind
      modifies this
      ensures v.Some? ==> kind.Fits(v.value)
      ensures v.Some? ==> Valid() && mark == old(mark) && plan == old(plan) && values == old(values) + [v.value]
      ensures v.Some? && |values| == |plan| ==> GetFields(plan, mark) == Some((values, rest))
      ensures v.None? ==> GetFields(old(plan), old(mark)) == None
    {
      ghost var before, n := rest, |values|;
      var got := GetField(kind, rest);
      assert plan[..n + 1] == plan[..n] + [kind];
      FieldsSplit(plan[..n], [kind], mark);
      assert GetFields([kind], before) == if got.None? then None else Some(([got.value.0], got.value.1)) by {
        if got.Some? {
          assert GetFields([], got.value.1) == Some(([], got.value.1));
          assert [got.value.0] + [] == [got.value.0];
        }
      }
      if got.None? {
        FieldsSplit(plan[..n + 1], plan[n + 1..], mark);
        assert plan == plan[..n + 1] + plan[n + 1..];
        return None;
      }
      rest := got.value.1;
      values := values + [got.value.0];
      assert n + 1 == |plan| ==> plan[..n + 1] == plan;
      return Some(got.value.0);
    }

    method ReadBlob(n: int) returns (data: Option<seq<byte>>)
      modifies this
      ensures data.Some? ==> GetBlob(n, old(rest)) == Some((data.value, rest)) && |data.value| == n
      ensures data.None? ==> GetBlob(n, old(rest)) == None
    {
      var got := GetBlob(n, rest);
      if got.None? {
        return None;
      }
      rest := got.value.1;
      return Some(got.value.0);
    }
  }

  // ---- Side data

  method SaveSideData(ar: OutputArchive, d: SideData)
    modifies ar
    ensures forall tail {:trigger ar.bytes + tail} :: ar.bytes + tail == old(ar.bytes) + PutSideData(d, tail)
  {
    ar.Begin();
    ar.Write((U64, |d.data|));
    ar.Write((I32, d.kind));
    assert ar.run == SideDataFields(d);
    ar.WriteBlob(d.data);
  }

  method LoadSideData(ar: InputArchive) returns (d: Option<SideData>)
    modifies ar
    ensures d.Some? ==> GetSideData(old(ar.rest)) == Some((d.value, ar.rest))
    ensures d.None? ==> GetSideData(old(ar.rest)) == None
  {
    ar.Begin(SIDE_DATA);
    var size :- ar.Read(U64);
    var kind :- ar.Read(I32);
    var data :- ar.ReadBlob(size);
    return Some(SideData(kind, data));
  }

  // ---- Packets

  method SavePacket(ar: OutputArchive, p: Packet)
    modifies ar
    ensures forall tail {:trigger ar.bytes + tail} :: ar.bytes + tail == old(ar.bytes) + PutPacket(p, tail)
  {
    ar.Begin();
    ar.Write((I64, p.pts));
    ar.Write((I64, p.dts));
    ar.Write((I32, |p.data|));
    assert ar.run == HeadFields(p);
    ar.WriteBlob(p.data);
    ar.Begin();
    ar.Write((I32, p.streamIndex));
    ar.Write((I32, p.flags));
    ar.Write((I32, p.sideDataElems));
    assert ar.run == FlagFields(p);
    if p.sideDataElems != 0 && p.sideData != [] {
      SaveSideData(ar, p.sideData[0]);
    }
    ar.Begin();
    ar.Write((I64, p.duration));
    ar.Write((I64, p.pos));
    assert ar.run == TailFields(p);
  }

  method LoadMarks(ar: InputArchive) returns (m: Option<(int32, int32, int32, seq<SideData>)>)
    modifies ar
    ensures m.Some? ==> GetMarks(old(ar.rest)) == Some((m.value, ar.rest))
    ensures m.None? ==> GetMarks(old(ar.rest)) == None
  {
    hide GetFields, GetSideData, InputArchive.Valid;
    ar.Begin(PACKET_FLAGS);
    var streamIndex :- ar.Read(I32);
    var flags :- ar.Read(I32);
    var elems :- ar.Read(I32);
    assert ar.values == [streamIndex, flags, elems];
    var sideData := [];
    if elems > 0 {
      var d :- LoadSideData(ar);
      sideData := [d];
    }
    return Some((streamIndex, flags, elems, sideData));
  }

  method LoadPacket(ar: InputArchive) returns (p: Option<Packet>)
    modifies ar
    ensures p.Some? ==> GetPacket(old(ar.rest)) == Some((p.value, ar.rest))
    ensures p.None? ==> GetPacket(old(ar.rest)) == None
  {
    hide GetFields, GetMarks, InputArchive.Valid;
    ar.Begin(PACKET_HEAD);
    var pts :- ar.Read(I64);
    var dts :- ar.Read(I64);
    var size :- ar.Read(I32);
    assert ar.values == [pts, dts, size];
    var data :- ar.ReadBlob(size);
    var marks :- LoadMarks(ar);
    ar.Begin(PACKET_TAIL);
    var duration :- ar.Read(I64);
    var pos :- ar.Read(I64);
    assert ar.values == [duration, pos];
    return Some(Packet(pts, dts, data, marks.0, marks.1, marks.2, marks.3, duration, pos));
  }

  // ---- Codec parameters

  method SaveParameters(ar: OutputArchive, c: CodecParameters)
    modifies ar
    ensures forall tail {:trigger ar.bytes + tail} :: ar.bytes + tail == old(ar.bytes) + PutParameters(c, tail)
  {
    ar.Begin();
    ar.Write((I32, c.codecType));
    ar.Write((I32, c.codecId));
    ar.Write((U32, c.codecTag));
    ar.Write((I32, |c.extradata|));
    assert ar.run == CodecFields(c);
    if |c.extradata| != 0 {
      ar.WriteBlob(c.extradata);
    }
    SaveFormat(ar, c);
    SavePicture(ar, c);
    SaveColor(ar, c);
    SaveAudio(ar, c);
  }

  method SaveFormat(ar: OutputArchive, c: CodecParameters)
    modifies ar
    ensures forall t {:trigger ar.bytes + t} :: ar.bytes + t == old(ar.bytes) + PutFields(FormatFields(c), t)
  {
    ar.Begin();
    ar.Write((I32, c.format));
    ar.Write((I64, c.bitRate));
    ar.Write((I32, c.bitsPerCodedSample));
    ar.Write((I32, c.bitsPerRawSample));
    assert ar.run == FormatFields(c);
  }

  method SavePicture(ar: OutputArchive, c: CodecParameters)
    modifies ar
    ensures forall t {:trigger ar.bytes + t} :: ar.bytes + t == old(ar.bytes) + PutFields(PictureFields(c), t)
  {
    ar.Begin();
    ar.Write((I32, c.profile));
    ar.Write((I32, c.level));
    ar.Write((I32, c.width));
    ar.Write((I32, c.height));
    ar.Write((I32, c.sampleAspectRatio.num));
    ar.Write((I32, c.sampleAspectRatio.den));
    assert ar.run == PictureFields(c);
  }

  method SaveColor(ar: OutputArchive, c: CodecParameters)
    modifies ar
    ensures forall t {:trigger ar.bytes + t} :: ar.bytes + t == old(ar.bytes) + PutFields(ColorFields(c), t)
  {
    ar.Begin();
    ar.Write((I32, c.fieldOrder));
    ar.Write((I32, c.colorRange));
    ar.Write((I32, c.colorPrimaries));
    ar.Write((I32, c.colorTrc));
    ar.Write((I32, c.colorSpace));
    ar.Write((I32, c.chromaLocation));
    ar.Write((I32, c.videoDelay));
    assert ar.run == ColorFields(c);
  }

  method SaveAudio(ar: OutputArchive, c: CodecParameters)
    modifies ar
    ensures forall t {:trigger ar.bytes + t} :: ar.bytes + t == old(ar.bytes) + PutFields(AudioFields(c), t)
  {
    ar.Begin();
    ar.Write((U64, c.channelLayout));
    ar.Write((I32, c.channels));
    ar.Write((I32, c.sampleRate));
    ar.Write((I32, c.blockAlign));
    ar.Write((I32, c.frameSize));
    ar.Write((I32, c.initialPadding));
    ar.Write((I32, c.trailingPadding));
    ar.Write((I32, c.seekPreroll));
    assert ar.run == AudioFields(c);
  }

  method LoadParameters(ar: InputArchive) returns (c: Option<CodecParameters>)
    modifies ar
    ensures c.Some? ==> GetParameters(old(ar.rest)) == Some((c.value, ar.rest))
    ensures c.None? ==> GetParameters(old(ar.rest)) == None
  {
    hide GetFields, InputArchive.Valid, ParametersFrom;
    ar.Begin(CODEC);
    var codecType :- ar.Read(I32);
    var codecId :- ar.Read(I32);
    var codecTag :- ar.Read(U32);
    var extradataSize :- ar.Read(I32);
    assert ar.values == [codecType, codecId, codecTag, extradataSize];
    var extradata := [];
    if extradataSize != 0 {
      extradata :- ar.ReadBlob(extradataSize);
    }
    var format :- LoadFormat(ar);
    var picture :- LoadPicture(ar);
    var color :- LoadColor(ar);
    var audio :- LoadAudio(ar);
    return Some(ParametersFrom([codecType, codecId, codecTag, extradataSize], extradata,
                               format, picture, color, audio));
  }

  method LoadFormat(ar: InputArchive) returns (v: Option<seq<int>>)
    modifies ar
    ensures v.Some? ==> GetFields(FORMAT, old(ar.rest)) == Some((v.value, ar.rest))
    ensures v.None? ==> GetFields(FORMAT, old(ar.rest)) == None
  {
    hide GetFields, InputArchive.Valid;
    ar.Begin(FORMAT);
    var format :- ar.Read(I32);
    var bitRate :- ar.Read(I64);
    var bitsPerCodedSample :- ar.Read(I32);
    var bitsPerRawSample :- ar.Read(I32);
    v := Some([format, bitRate, bitsPerCodedSample, bitsPerRawSample]);
    assert v.value == ar.values;
  }

  method LoadPicture(ar: InputArchive) returns (v: Option<seq<int>>)
    modifies ar
    ensures v.Some? ==> GetFields(PICTURE, old(ar.rest)) == Some((v.value, ar.rest))
    ensures v.None? ==> GetFields(PICTURE, old(ar.rest)) == None
  {
    hide GetFields, InputArchive.Valid;
    ar.Begin(PICTURE);
    var profile :- ar.Read(I32);
    var level :- ar.Read(I32);
    var width :- ar.Read(I32);
    var height :- ar.Read(I32);
    var num :- ar.Read(I32);
    var den :- ar.Read(I32);
    v := Some([profile, level, width, height, num, den]);
    assert v.value == ar.values;
  }

  method LoadColor(ar: InputArchive) returns (v: Option<seq<int>>)
    modifies ar
    ensures v.Some? ==> GetFields(COLOR, old(ar.rest)) == Some((v.value, ar.rest))
    ensures v.None? ==> GetFields(COLOR, old(ar.rest)) == None
  {
    hide GetFields, InputArchive.Valid;
    ar.Begin(COLOR);
    var fieldOrder :- ar.Read(I32);
    var colorRange :- ar.Read(I32);
    var colorPrimaries :- ar.Read(I32);
    var colorTrc :- ar.Read(I32);
    var colorSpace :- ar.Read(I32);
    var chromaLocation :- ar.Read(I32);
    var videoDelay :- ar.Read(I32);
    v := Some([fieldOrder, colorRange, colorPrimaries, colorTrc, colorSpace, chromaLocation, videoDelay]);
    assert v.value == ar.values;
  }

  method LoadAudio(ar: InputArchive) returns (v: Option<seq<int>>)
    modifies ar
    ensures v.Some? ==> GetFields(AUDIO, old(ar.rest)) == Some((v.value, ar.rest))
    ensures v.None? ==> GetFields(AUDIO, old(ar.rest)) == None
  {
    hide GetFields, InputArchive.Valid;
    ar.Begin(AUDIO);
    var channelLayout :- ar.Read(U64);
    var channels :- ar.Read(I32);
    var sampleRate :- ar.Read(I32);
    var blockAlign :- ar.Read(I32);
    var frameSize :- ar.Read(I32);
    var initialPadding :- ar.Read(I32);
    var trailingPadding :- ar.Read(I32);
    var seekPreroll :- ar.Read(I32);
    v := Some([channelLayout, channels, sampleRate, blockAlign, frameSize,
                 initialPadding, trailingPadding, seekPreroll]);
    assert v.value == ar.values;
  }
}

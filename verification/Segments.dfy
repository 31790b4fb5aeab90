/** The Segment object: a header and the packets appended to it. */
module Segments {
  import opened Prelude
  import opened Bytes
  import opened Media
  import opened Codec
  import opened Archives

  const NULL_UUID: Uuid := seq(16, _ => 0)

  class Segment {
    var jobId: Uuid
    var pts: int64
    var dts: int64
    var timeBase: Rational
    var parameters: CodecParameters
    var npackets: uint64
    var packets: seq<Packet>

    /** The object's fields as a value. */
    ghost function Content(): Seg
      reads this
    {
      Seg(jobId, pts, dts, timeBase, parameters, npackets, packets)
    }

    /** The timestamps and the time base are left as the storage happened to hold them. */
    constructor Create(jobId: Uuid, parameters: CodecParameters)
      ensures Content() == Seg(jobId, pts, dts, timeBase, parameters, 0, [])
      ensures Content().Consistent()
    {
      this.jobId, this.parameters := jobId, parameters;
      npackets, packets := 0, [];
    }

    /** The default constructor, the target that a load needs. */
    constructor ()
      ensures jobId == NULL_UUID && npackets == 0 && packets == []
    {
      jobId := NULL_UUID;
      npackets, packets := 0, [];
    }

    method Append(packet: Packet)
      modifies this
      ensures Content() == old(Content()).Appended(packet)
    {
      if |packets| == 0 {
        pts := packet.pts;
        dts := packet.dts;
      }
      packets := packets + [packet];
      npackets := if npackets + 1 == TWO64 then 0 else npackets + 1;
    }

    /** An empty segment for the same job, ready for the next packets. */
    method Next() returns (n: Segment)
      ensures fresh(n)
      ensures n.Content() == Seg(jobId, n.pts, n.dts, timeBase, parameters, 0, [])
    {
      n := new Segment.Create(jobId, parameters);
      n.timeBase := timeBase;
    }

    /** A copy is equal whenever the header agreed with the packets. */
    method Copy() returns (c: Segment)
      ensures fresh(c) && c.packets == packets && c.Content().Consistent()
      ensures Content().Consistent() ==> c.Content() == Content()
    {
      c := new Segment.Create(jobId, parameters);
      c.pts, c.dts, c.timeBase := pts, dts, timeBase;
      for i := 0 to |packets|
        invariant c.packets == packets[..i]
        invariant c.Content().Consistent()
        invariant c.jobId == jobId && c.timeBase == timeBase && c.parameters == parameters
        invariant i == 0 ==> c.pts == pts && c.dts == dts
      {
        c.Append(packets[i]);
      }
      assert packets[..|packets|] == packets;
    }

    method Empty() returns (b: bool)
      ensures b <==> packets == []
    {
      b := |packets| == 0;
    }

    method SaveStamp(ar: OutputArchive)
      modifies ar
      ensures forall t {:trigger ar.bytes + t} :: ar.bytes + t == old(ar.bytes) + PutStamp(Content(), t)
    {
      hide PutFields;
      var pts, dts, num, den := pts, dts, timeBase.num, timeBase.den;
      ar.WriteBlob(jobId);
      ar.Begin();
      ar.Write((I64, pts));
      ar.Write((I64, dts));
      ar.Write((I32, num));
      ar.Write((I32, den));
      assert ar.run == StampFields(Content());
    }

    /** Writes the wire form and nothing else. */
    method Save(ar: OutputArchive)
      modifies ar
      ensures forall t {:trigger ar.bytes + t} :: ar.bytes + t == old(ar.bytes) + PutSegment(Content(), t)
    {
      hide PutStamp, PutParameters, PutFields, PutPackets;
      var count := npackets;
      SaveStamp(ar);
      SaveParameters(ar, parameters);
      ar.Begin();
      ar.Write((U64, count));
      assert ar.run == CountFields(Content());
      SavePackets(ar);
    }

    method SavePackets(ar: OutputArchive)
      modifies ar
      ensures forall t {:trigger ar.bytes + t} :: ar.bytes + t == old(ar.bytes) + PutPackets(packets, t)
    {
      hide PutPacket;
      for i := 0 to |packets|
        invariant forall t {:trigger PutPackets(packets[i..], t)} ::
            ar.bytes + PutPackets(packets[i..], t) == old(ar.bytes) + PutPackets(packets, t)
      {
        label before:
        ghost var todo := packets[i..];
        SavePacket(ar, packets[i]);
        assert todo[0] == packets[i] && todo[1..] == packets[i + 1..];
        forall t
          ensures ar.bytes + PutPackets(packets[i + 1..], t) == old(ar.bytes) + PutPackets(packets, t)
        {
          assert old@before(ar.bytes) + PutPackets(todo, t) == old(ar.bytes) + PutPackets(packets, t);
        }
      }
      forall t
        ensures ar.bytes + t == old(ar.bytes) + PutPackets(packets, t)
      {
        assert PutPackets(packets[|packets|..], t) == t;
      }
    }

    method LoadStamp(ar: InputArchive) returns (ok: bool)
      modifies this, ar
      ensures npackets == old(npackets) && packets == old(packets)
      ensures ok ==> GetStamp(old(ar.rest)) == Some(((jobId, pts, dts, timeBase), ar.rest))
      ensures !ok ==> GetStamp(old(ar.rest)) == None
    {
      hide GetFields, InputArchive.Valid;
      var id := ar.ReadBlob(16);
      if id.None? { return false; }
      ar.Begin(STAMP);
      var p := ar.Read(I64);
      if p.None? { return false; }
      var d := ar.Read(I64);
      if d.None? { return false; }
      var num := ar.Read(I32);
      if num.None? { return false; }
      var den := ar.Read(I32);
      if den.None? { return false; }
      assert ar.values == [p.value, d.value, num.value, den.value];
      jobId, pts, dts, timeBase := id.value, p.value, d.value, Rational(num.value, den.value);
      return true;
    }

    /** Reads the header and appends the packets to those already held; on an archive
        error the fields read so far stay changed. */
    method Load(ar: InputArchive) returns (ok: bool)
      modifies this, ar
      ensures ok ==> GetSegmentInto(old(packets), old(npackets), old(ar.rest)) == Some((Content(), ar.rest))
      ensures !ok ==> GetSegmentInto(old(packets), old(npackets), old(ar.rest)) == None
    {
      hide GetStamp, GetParameters, GetFields, GetPackets, InputArchive.Valid;
      ok := LoadStamp(ar);
      if !ok { return false; }
      var c := LoadParameters(ar);
      if c.None? { return false; }
      parameters := c.value;
      ar.Begin(COUNT);
      var count := ar.Read(U64);
      if count.None? { return false; }
      assert ar.values == [count.value];
      if count.value >= TWO31 { return false; }
      ok := LoadPackets(ar, count.value);
    }

    method LoadPackets(ar: InputArchive, count: nat) returns (ok: bool)
      modifies this, ar
      ensures ok ==> GetPackets(count, old(ar.rest)).Some?
      ensures ok ==> var (ps, rest) := GetPackets(count, old(ar.rest)).value;
                     Content() == old(Content()).AppendedAll(ps) && ar.rest == rest
      ensures !ok ==> GetPackets(count, old(ar.rest)) == None
    {
      hide GetPacket, Seg.Appended;
      ghost var done: seq<Packet> := [];
      PacketsAfter([], GetPackets(count, ar.rest));
      for i := 0 to count
        invariant Content() == old(Content()).AppendedAll(done)
        invariant GetPackets(count, old(ar.rest)) == After(done, GetPackets(count - i, ar.rest))
      {
        var p := LoadPacket(ar);
        if p.None? { return false; }
        Append(p.value);
        AppendedAllSnoc(old(Content()), done, p.value);
        assert (done + [p.value])[..|done|] == done;
        PacketsAfter(done + [p.value], GetPackets(count - i - 1, ar.rest));
        done := done + [p.value];
      }
      PacketsAfter(done, Some(([], ar.rest)));
      return true;
    }
  }

  /** A parse result with packets read earlier put in front. */
  function After(done: seq<Packet>, r: Option<(seq<Packet>, seq<byte>)>): Option<(seq<Packet>, seq<byte>)> {
    match r
    case None => None
    case Some((ps, rest)) => Some((done + ps, rest))
  }

  lemma PacketsAfter(done: seq<Packet>, r: Option<(seq<Packet>, seq<byte>)>)
    ensures done == [] ==> After(done, r) == r
    ensures r.Some? && r.value.0 == [] ==> After(done, r) == Some((done, r.value.1))
    ensures done != [] && r.Some? ==>
              After(done, r) == After(done[..|done| - 1], Some(([done[|done| - 1]] + r.value.0, r.value.1)))
  {
    if r.Some? {
      var ps := r.value.0;
      if done == [] {
        assert done + ps == ps;
      } else {
        assert done + ps == done[..|done| - 1] + ([done[|done| - 1]] + ps);
      }
      assert ps == [] ==> done + ps == done;
    }
  }
}

/** The SegmentUnpacker object. Each method body is what one thread does; `Take` and the
    push in `Receive` are the critical sections. */
module Unpackers {
  import opened Prelude
  import opened Bytes
  import opened Media
  import opened Codec
  import opened Archives
  import opened Segments
  import opened StreamCaches
  import opened Unpacking
  import opened SingleWorker

  class SegmentUnpacker {
    const cache: StreamCache
    var shutdownFlag: bool
    var work: seq<Seg>
    /** The calls of setupStream and of Stream::forward so far. */
    ghost var log: seq<LogEntry>

    constructor (cache: StreamCache)
      ensures this.cache == cache && work == [] && log == [] && !shutdownFlag
    {
      this.cache, shutdownFlag, work, log := cache, false, [], [];
    }

    /** Queues the segment that was saved in the buffer; a buffer that does not load is an
        exception and leaves the queue alone. */
    method Receive(buffer: seq<byte>) returns (ok: bool)
      modifies this`work
      ensures ok <==> GetSegment(buffer).Some?
      ensures work == old(work) + if ok then [GetSegment(buffer).value.0] else []
    {
      var ar := new InputArchive(buffer);
      var seg := new Segment();
      ok := seg.Load(ar);
      if ok {
        work := work + [Seg(seg.jobId, seg.pts, seg.dts, seg.timeBase, seg.parameters, seg.npackets, seg.packets)];
      }
    }

    /** The oldest segment, or a null pointer if another worker was faster. */
    method Take() returns (seg: Option<Seg>)
      modifies this`work
      ensures old(work) == [] ==> seg == None && work == []
      ensures old(work) != [] ==> seg == Some(old(work)[0]) && work == old(work)[1..]
    {
      seg := None;
      if |work| > 0 {
        seg, work := Some(work[0]), work[1..];
      }
    }

    /** `now` and `later` are the clock at the two lookups. */
    method Unpack(seg: Seg, now: int, later: int)
      modifies this`log, cache
      ensures cache.Content() == UnpackEffect(old(cache.Content()), seg, now, later, cache.ttl).0
      ensures log == old(log) + UnpackEffect(old(cache.Content()), seg, now, later, cache.ttl).1
    {
      var stream: Stream;
      var found := cache.GetByJobId(seg.jobId, now);
      if found.Some? {
        stream := found.value;
      } else {
        stream := cache.GetBySegment(seg.jobId, later);
        log := log + [SetUp(stream)];
      }
      ghost var before := log;
      for i := 0 to |seg.packets|
        invariant log == before + Replay(stream, seg.packets[..i])
      {
        log := log + [Forwarded(stream, seg.packets[i])];
        assert Replay(stream, seg.packets[..i + 1]) == Replay(stream, seg.packets[..i]) + [Forwarded(stream, seg.packets[i])];
      }
      assert seg.packets[..|seg.packets|] == seg.packets;
    }

    /** The worker loop once shutdown has been requested, with no other worker: it empties
        the queue and forwards every packet, oldest segment first. */
    method DoSomeWork(clock: seq<(int, int)>)
      requires shutdownFlag && |clock| >= |work| && cache.Content().Keyed()
      modifies this`work, this`log, cache
      ensures work == []
      ensures (cache.Content(), log) == UnpackAll(old(cache.Content()), old(log), old(work), clock, cache.ttl)
      ensures Forwards(log) == Forwards(old(log)) + TaggedAll(old(work))
    {
      hide UnpackEffect, Tagged, Forwards;
      var i := 0;
      assert work[..0] == [];
      while !shutdownFlag || |work| > 0
        invariant i <= |old(work)| && work == old(work)[i..]
        invariant (cache.Content(), log) == UnpackAll(old(cache.Content()), old(log), old(work)[..i], clock, cache.ttl)
        decreases |work|
      {
        var seg := Take();
        assert seg == Some(old(work)[i]);
        Unpack(seg.value, clock[i].0, clock[i].1);
        assert old(work)[..i + 1] == old(work)[..i] + [seg.value];
        UnpackAllSnoc(old(cache.Content()), old(log), old(work)[..i], seg.value, clock, cache.ttl);
        i := i + 1;
      }
      assert old(work)[..i] == old(work);
      UnpackAllForwards(old(cache.Content()), old(log), old(work), clock, cache.ttl);
    }
  }

  /** The cache and the log once the segments have been unpacked, first to last, at the
      times on the clock. */
  function UnpackAll(cache: Cache, log: seq<LogEntry>, segs: seq<Seg>, clock: seq<(int, int)>, ttl: int): (Cache, seq<LogEntry>)
    requires |clock| >= |segs|
  {
    if segs == [] then (cache, log)
    else
      var n := |segs| - 1;
      var (before, entries) := UnpackAll(cache, log, segs[..n], clock, ttl);
      var (after, more) := UnpackEffect(before, segs[n], clock[n].0, clock[n].1, ttl);
      (after, entries + more)
  }

  lemma UnpackAllSnoc(cache: Cache, log: seq<LogEntry>, segs: seq<Seg>, last: Seg, clock: seq<(int, int)>, ttl: int)
    requires |clock| > |segs|
    ensures var (before, entries) := UnpackAll(cache, log, segs, clock, ttl);
            var (after, more) := UnpackEffect(before, last, clock[|segs|].0, clock[|segs|].1, ttl);
            UnpackAll(cache, log, segs + [last], clock, ttl) == (after, entries + more)
  {
    assert (segs + [last])[..|segs|] == segs;
  }

  lemma {:induction false} UnpackAllForwards(cache: Cache, log: seq<LogEntry>, segs: seq<Seg>, clock: seq<(int, int)>, ttl: int)
    requires |clock| >= |segs| && cache.Keyed()
    ensures var (after, entries) := UnpackAll(cache, log, segs, clock, ttl);
            after.Keyed() && Forwards(entries) == Forwards(log) + TaggedAll(segs)
  {
    hide UnpackEffect, Forwards, Tagged, Cache.Keyed;
    if segs == [] {
      assert Forwards(log) + [] == Forwards(log);
    } else {
      var n := |segs| - 1;
      var last := segs[n];
      UnpackAllForwards(cache, log, segs[..n], clock, ttl);
      var (before, entries) := UnpackAll(cache, log, segs[..n], clock, ttl);
      UnpackForwards(entries, before, last, clock[n].0, clock[n].1, ttl);
      assert segs == segs[..n] + [last];
      TaggedAllSnoc(segs[..n], last);
      Assoc(Forwards(log), TaggedAll(segs[..n]), Tagged(last.jobId, last.packets));
    }
  }

  /** The packets of some segments in order, each with its segment's job. */
  function TaggedAll(segs: seq<Seg>): seq<(Uuid, Packet)> {
    if segs == [] then [] else Tagged(segs[0].jobId, segs[0].packets) + TaggedAll(segs[1..])
  }

  lemma {:induction false} TaggedAllSnoc(segs: seq<Seg>, last: Seg)
    ensures TaggedAll(segs + [last]) == TaggedAll(segs) + Tagged(last.jobId, last.packets)
  {
    if segs == [] {
      assert TaggedAll([last][1..]) == [];
      assert TaggedAll([last]) == Tagged(last.jobId, last.packets) + [];
    } else {
      TaggedAllSnoc(segs[1..], last);
      assert (segs + [last])[1..] == segs[1..] + [last];
      Assoc(Tagged(segs[0].jobId, segs[0].packets), TaggedAll(segs[1..]), Tagged(last.jobId, last.packets));
    }
  }

  /** Unpacking a segment forwards its packets to a stream of its own job. */
  lemma UnpackForwards(log: seq<LogEntry>, cache: Cache, seg: Seg, now: int, later: int, ttl: int)
    requires cache.Keyed()
    ensures var (after, entries) := UnpackEffect(cache, seg, now, later, ttl);
            after.Keyed() && Forwards(log + entries) == Forwards(log) + Tagged(seg.jobId, seg.packets)
  {
    var (found, hit) := cache.Lookup(seg.jobId, now, ttl);
    if hit.Some? {
      ReplayForwards(log, hit.value, seg.packets);
    } else {
      var stream := found.FindOrMake(seg.jobId, later, ttl).1;
      LogSnoc(log, SetUp(stream));
      ReplayForwards(log + [SetUp(stream)], stream, seg.packets);
      Assoc(log, [SetUp(stream)], Replay(stream, seg.packets));
      assert Forwards(log) + [] == Forwards(log);
    }
  }

  lemma {:induction false} ReplayForwards(log: seq<LogEntry>, stream: Stream, packets: seq<Packet>)
    ensures Forwards(log + Replay(stream, packets)) == Forwards(log) + Tagged(stream.jobId, packets)
  {
    if packets == [] {
      assert log + [] == log && Forwards(log) + [] == Forwards(log);
    } else {
      var n := |packets| - 1;
      var e := Forwarded(stream, packets[n]);
      ReplayForwards(log, stream, packets[..n]);
      assert Replay(stream, packets) == Replay(stream, packets[..n]) + [e];
      Assoc(log, Replay(stream, packets[..n]), [e]);
      LogSnoc(log + Replay(stream, packets[..n]), e);
      assert Tagged(stream.jobId, packets) == Tagged(stream.jobId, packets[..n]) + [(stream.jobId, packets[n])];
      Assoc(Forwards(log), Tagged(stream.jobId, packets[..n]), [(stream.jobId, packets[n])]);
    }
  }
}

/** What the unpacker guarantees with one worker, and what it does not with more. */
module SingleWorker {
  import opened Prelude
  import opened Bytes
  import opened Media
  import opened Codec
  import opened StreamCaches
  import opened Unpacking
  import Text

  // ---- Observations on the log

  /** The streams set up, in order. */
  function SetUps(log: seq<LogEntry>): seq<Stream> {
    if log == [] then []
    else
      var last := log[|log| - 1];
      SetUps(log[..|log| - 1]) + if last.SetUp? then [last.stream] else []
  }

  /** The packets forwarded, in order, each with the job of the stream it went to. */
  function Forwards(log: seq<LogEntry>): seq<(Uuid, Packet)> {
    if log == [] then []
    else
      var last := log[|log| - 1];
      Forwards(log[..|log| - 1]) + if last.Forwarded? then [(last.stream.jobId, last.packet)] else []
  }

  /** No packet goes to a stream that has not been set up. */
  predicate SetUpFirst(log: seq<LogEntry>) {
    log == [] ||
    (var last := log[|log| - 1];
     SetUpFirst(log[..|log| - 1]) && (last.Forwarded? ==> last.stream in SetUps(log[..|log| - 1])))
  }

  lemma LogSnoc(log: seq<LogEntry>, e: LogEntry)
    ensures SetUps(log + [e]) == SetUps(log) + if e.SetUp? then [e.stream] else []
    ensures Forwards(log + [e]) == Forwards(log) + if e.Forwarded? then [(e.stream.jobId, e.packet)] else []
    ensures SetUpFirst(log + [e]) <==> SetUpFirst(log) && (e.Forwarded? ==> e.stream in SetUps(log))
  {
    assert (log + [e])[..|log|] == log;
  }

  /** The packets of some segments, each with the segment's job. */
  function Tagged(jobId: Uuid, packets: seq<Packet>): (r: seq<(Uuid, Packet)>)
    ensures |r| == |packets| && forall i :: 0 <= i < |r| ==> r[i] == (jobId, packets[i])
  {
    seq(|packets|, i requires 0 <= i < |packets| => (jobId, packets[i]))
  }

  function Expected(items: seq<Item>): seq<(Uuid, Packet)> {
    if items == [] then []
    else
      var last := items[|items| - 1].seg;
      Expected(items[..|items| - 1]) + Tagged(last.jobId, last.packets)
  }

  // ---- The invariant of a single worker

  function Pending(worker: Worker): seq<Stream> {
    if worker.Made? then [worker.stream] else []
  }

  function Partial(worker: Worker): seq<(Uuid, Packet)> {
    if worker.Replaying? && worker.next <= |worker.item.seg.packets|
    then Tagged(worker.item.seg.jobId, worker.item.seg.packets[..worker.next])
    else []
  }

  /** The streams made so far are numbered in the order of their creation, and the cache
      holds no others. */
  ghost predicate Numbered(made: seq<Stream>, cache: Cache) {
    && cache.Keyed()
    && |made| == cache.created
    && (forall i :: 0 <= i < |made| ==> made[i].id == i)
    && (forall k <- cache.records :: cache.records[k].stream in made)
  }

  ghost predicate WorkerOk(s: State, worker: Worker) {
    match worker
    case Claiming => s.queue != []
    case EmptyHanded => false
    case Missed(item) => Text.Unparse(item.seg.jobId) !in s.cache.records
    case Made(item, stream) => stream.jobId == item.seg.jobId
    case Replaying(item, stream, next) =>
      stream.jobId == item.seg.jobId && next <= |item.seg.packets| && stream in SetUps(s.log)
    case _ => true
  }

  ghost predicate Orderly(s: State) {
    && |s.workers| == 1
    && s.unpacked + InHand(s.workers[0]) + s.queue == Items(s.received)
    && WorkerOk(s, s.workers[0])
    && Numbered(SetUps(s.log) + Pending(s.workers[0]), s.cache)
    && SetUpFirst(s.log)
    && Forwards(s.log) == Expected(s.unpacked) + Partial(s.workers[0])
  }

  lemma LookupNumbered(made: seq<Stream>, cache: Cache, jobId: Uuid, now: int, ttl: int)
    requires Numbered(made, cache)
    ensures var (after, stream) := cache.Lookup(jobId, now, ttl);
            && Numbered(made, after)
            && (stream.Some? ==> stream.value in made && stream.value.jobId == jobId)
            && (stream.None? ==> Text.Unparse(jobId) !in after.records)
  {
    hide Text.Unparse;
  }

  lemma MakeNumbered(made: seq<Stream>, cache: Cache, jobId: Uuid, now: int, ttl: int)
    requires Numbered(made, cache) && Text.Unparse(jobId) !in cache.records
    ensures var (after, stream) := cache.FindOrMake(jobId, now, ttl);
            Numbered(made + [stream], after) && stream.jobId == jobId
  {
    hide Text.Unparse;
    var (after, stream) := cache.FindOrMake(jobId, now, ttl);
    assert stream == Stream(|made|, jobId);
    assert stream in made + [stream];
    forall k | k in after.records
      ensures after.records[k].stream in made + [stream]
    {
      if k != Text.Unparse(jobId) {
        assert cache.records[k].stream in made;
      }
    }
  }

  lemma ReceiveOrderly(s: State, buffer: seq<byte>)
    requires Orderly(s)
    ensures Orderly(ReceiveStep(s, buffer))
  {
    hide GetSegment, SetUps, Forwards, Expected, Numbered, SetUpFirst, Partial, Pending;
    if GetSegment(buffer).Some? {
      var item := Item(|s.received|, GetSegment(buffer).value.0);
      assert Items(ReceiveStep(s, buffer).received) == Items(s.received) + [item];
      Assoc(s.unpacked + InHand(s.workers[0]), s.queue, [item]);
    }
  }

  lemma LoopOrderly(s: State)
    requires Orderly(s) && InHand(s.workers[0]) == []
    ensures Orderly(LoopStep(s, 0))
  {
    hide Numbered, Items, SetUps, Forwards, Expected;
    var t := LoopStep(s, 0);
    assert s.queue != [] ==> s.queue == [s.queue[0]] + s.queue[1..];
    assert t.unpacked + InHand(t.workers[0]) + t.queue == s.unpacked + InHand(s.workers[0]) + s.queue;
  }

  lemma HoldingOrderly(s: State, now: int, ttl: int)
    requires Orderly(s) && s.workers[0].Holding?
    ensures Orderly(UnpackStep(s, 0, now, ttl))
  {
    hide Numbered, Cache.Lookup, Items, Text.Unparse, SetUps, Forwards, Expected, SetUpFirst;
    LookupNumbered(SetUps(s.log) + [], s.cache, s.workers[0].item.seg.jobId, now, ttl);
    assert SetUps(s.log) + [] == SetUps(s.log);
  }

  lemma MissedOrderly(s: State, now: int, ttl: int)
    requires Orderly(s) && s.workers[0].Missed?
    ensures Orderly(UnpackStep(s, 0, now, ttl))
  {
    hide Numbered, Cache.FindOrMake, Items, Text.Unparse;
    assert SetUps(s.log) + [] == SetUps(s.log);
    MakeNumbered(SetUps(s.log), s.cache, s.workers[0].item.seg.jobId, now, ttl);
  }

  lemma MadeOrderly(s: State, now: int, ttl: int)
    requires Orderly(s) && s.workers[0].Made?
    ensures Orderly(UnpackStep(s, 0, now, ttl))
  {
    hide Numbered, Items, SetUps, Forwards, Expected, SetUpFirst;
    var stream := s.workers[0].stream;
    LogSnoc(s.log, SetUp(stream));
    assert SetUps(s.log) + [stream] + [] == SetUps(s.log) + [stream];
  }

  lemma ForwardOrderly(s: State, now: int, ttl: int)
    requires Orderly(s) && s.workers[0].Replaying? && s.workers[0].next < |s.workers[0].item.seg.packets|
    ensures Orderly(UnpackStep(s, 0, now, ttl))
  {
    hide Numbered, Items, Expected;
    var item, stream, next := s.workers[0].item, s.workers[0].stream, s.workers[0].next;
    var jobId, packets := item.seg.jobId, item.seg.packets;
    LogSnoc(s.log, Forwarded(stream, packets[next]));
    assert Tagged(jobId, packets[..next + 1]) == Tagged(jobId, packets[..next]) + [(jobId, packets[next])];
    Assoc(Expected(s.unpacked), Tagged(jobId, packets[..next]), [(jobId, packets[next])]);
    assert SetUps(s.log) + [] == SetUps(s.log);
  }

  lemma FinishOrderly(s: State, now: int, ttl: int)
    requires Orderly(s) && s.workers[0].Replaying? && s.workers[0].next >= |s.workers[0].item.seg.packets|
    ensures Orderly(UnpackStep(s, 0, now, ttl))
  {
    hide Numbered, Items, SetUps, Forwards;
    var item, next := s.workers[0].item, s.workers[0].next;
    assert item.seg.packets[..next] == item.seg.packets;
    assert (s.unpacked + [item])[..|s.unpacked|] == s.unpacked;
    assert s.unpacked + [item] + [] + s.queue == s.unpacked + [item] + s.queue;
  }

  lemma ExpireOrderly(s: State, keys: set<string>)
    requires Orderly(s)
    ensures Orderly(s.(cache := s.cache.Without(keys)))
  {
    hide Items, SetUps, Forwards, Expected;
  }

  lemma CloseOrderly(s: State)
    requires Orderly(s)
    ensures Orderly(CloseStep(s))
  {
    hide Items, SetUps, Forwards, Expected, Numbered, SetUpFirst, Partial;
  }

  lemma StepOrderly(s: State, a: Action)
    requires Enabled(s, a) && Orderly(s)
    ensures Orderly(Apply(s, a))
  {
    hide LoopStep, UnpackStep, ReceiveStep, CloseStep, Items, SetUps, Forwards, Expected, Numbered, WorkerOk;
    match a
    case Receive(buffer) => ReceiveOrderly(s, buffer);
    case Step(_, now, ttl) =>
      match s.workers[0] {
        case Holding(_) => HoldingOrderly(s, now, ttl);
        case Missed(_) => MissedOrderly(s, now, ttl);
        case Made(_, _) => MadeOrderly(s, now, ttl);
        case Replaying(item, _, next) =>
          if next < |item.seg.packets| {
            ForwardOrderly(s, now, ttl);
          } else {
            FinishOrderly(s, now, ttl);
          }
        case _ => LoopOrderly(s);
      }
    case Close => CloseOrderly(s);
    case Expire(keys) => ExpireOrderly(s, keys);
  }

  lemma {:induction false} RunOrderly(s: State, actions: seq<Action>)
    requires CanRun(s, actions) && Orderly(s)
    ensures Orderly(Exec(s, actions))
    decreases |actions|
  {
    hide Orderly;
    if actions != [] {
      StepOrderly(s, actions[0]);
      RunOrderly(Apply(s, actions[0]), actions[1..]);
    }
  }

  /** With one worker segments are unpacked in the order they arrived, the worker never
      finds the queue empty under the lock, and packets are forwarded in order, each to a
      stream of its own job. */
  lemma InOrder(actions: seq<Action>)
    requires CanRun(Init(1), actions)
    ensures var s := Exec(Init(1), actions);
            && |s.workers| == 1
            && !s.workers[0].EmptyHanded?
            && s.unpacked + InHand(s.workers[0]) + s.queue == Items(s.received)
            && Forwards(s.log) == Expected(s.unpacked) + Partial(s.workers[0])
  {
    RunOrderly(Init(1), actions);
  }

  /** With one worker every stream the cache makes is set up exactly once, in the order of
      creation and before its first packet, however often entries expire in between; only
      the newest may still be waiting for its set-up. */
  lemma SetUpExactlyOnce(actions: seq<Action>)
    requires CanRun(Init(1), actions)
    ensures var s := Exec(Init(1), actions);
            && |s.workers| == 1
            && |SetUps(s.log)| == s.cache.created - |Pending(s.workers[0])|
            && (forall i :: 0 <= i < |SetUps(s.log)| ==> SetUps(s.log)[i].id == i)
            && SetUpFirst(s.log)
  {
    RunOrderly(Init(1), actions);
    var s := Exec(Init(1), actions);
    var made := SetUps(s.log) + Pending(s.workers[0]);
    assert forall i :: 0 <= i < |SetUps(s.log)| ==> made[i] == SetUps(s.log)[i];
  }

  // ---- Why one worker

  ghost predicate Reaches(s: State, t: State) {
    exists actions :: CanRun(s, actions) && Exec(s, actions) == t
  }

  lemma {:induction false} RunSnoc(s: State, actions: seq<Action>, a: Action)
    requires CanRun(s, actions) && Enabled(Exec(s, actions), a)
    ensures CanRun(s, actions + [a]) && Exec(s, actions + [a]) == Apply(Exec(s, actions), a)
    decreases |actions|
  {
    hide Apply, Enabled;
    if actions != [] {
      RunSnoc(Apply(s, actions[0]), actions[1..], a);
      assert (actions + [a])[1..] == actions[1..] + [a];
    } else {
      assert CanRun(Apply(s, a), [a][1..]) && Exec(Apply(s, a), [a][1..]) == Apply(s, a);
    }
  }

  lemma ReachesStep(s: State, t: State, a: Action)
    requires Reaches(s, t) && Enabled(t, a)
    ensures Reaches(s, Apply(t, a))
  {
    hide Apply, Enabled;
    var actions :| CanRun(s, actions) && Exec(s, actions) == t;
    RunSnoc(s, actions, a);
  }

  lemma {:induction false} ReplayAll(s: State, t: State, w: nat, item: Item, stream: Stream, next: nat)
    requires Reaches(s, t) && w < |t.workers| && t.workers[w] == Replaying(item, stream, next)
    requires next <= |item.seg.packets|
    ensures Reaches(s, Move(t, w, AtLoop).(log := t.log + Replay(stream, item.seg.packets[next..]),
                                           unpacked := t.unpacked + [item]))
    decreases |item.seg.packets| - next
  {
    hide Reaches;
    var packets := item.seg.packets;
    var u := Apply(t, Step(w, 0, 0));
    ReachesStep(s, t, Step(w, 0, 0));
    if next < |packets| {
      ReplayAll(s, u, w, item, stream, next + 1);
      assert [Forwarded(stream, packets[next])] + Replay(stream, packets[next + 1..]) == Replay(stream, packets[next..]);
      Assoc(t.log, [Forwarded(stream, packets[next])], Replay(stream, packets[next + 1..]));
      assert Move(u, w, AtLoop).workers == Move(t, w, AtLoop).workers;
    } else {
      assert t.log + Replay(stream, packets[next..]) == t.log;
    }
  }

  /** A worker left alone with a segment has the effect of one uninterrupted unpack. */
  lemma UnpackWhole(s: State, t: State, w: nat, item: Item, now: int, later: int, ttl: int)
    requires Reaches(s, t) && w < |t.workers| && t.workers[w] == Holding(item)
    ensures var (cache, entries) := UnpackEffect(t.cache, item.seg, now, later, ttl);
            Reaches(s, Move(t, w, AtLoop).(cache := cache, log := t.log + entries, unpacked := t.unpacked + [item]))
  {
    hide Reaches, Cache.Lookup, Cache.FindOrMake;
    var (found, hit) := t.cache.Lookup(item.seg.jobId, now, ttl);
    ReachesStep(s, t, Step(w, now, ttl));
    var u := Apply(t, Step(w, now, ttl));
    if hit.None? {
      ReachesStep(s, u, Step(w, later, ttl));
      u := Apply(u, Step(w, later, ttl));
      ReachesStep(s, u, Step(w, later, ttl));
      u := Apply(u, Step(w, later, ttl));
    }
    assert u.workers[w].Replaying? && u.workers[w].next == 0;
    var stream := u.workers[w].stream;
    ReplayAll(s, u, w, item, stream, 0);
    assert item.seg.packets[0..] == item.seg.packets;
    Assoc(t.log, [SetUp(stream)], Replay(stream, item.seg.packets));
    assert Move(u, w, AtLoop).workers == Move(t, w, AtLoop).workers;
  }

  /** When the stream of a job has expired, its next segment is given a new one, which is set
      up before the segment is replayed on it. */
  lemma RecreatedAfterExpiry(s: State, t: State, w: nat, item: Item, now: int, later: int, ttl: int)
    requires Reaches(s, t) && w < |t.workers| && t.workers[w] == Holding(item)
    ensures var key, stream := Text.Unparse(item.seg.jobId), Stream(t.cache.created, item.seg.jobId);
            exists u :: Reaches(s, u)
              && u.log == t.log + ([SetUp(stream)] + Replay(stream, item.seg.packets))
              && u.cache.records == t.cache.records[key := Record(stream, later + ttl)]
  {
    hide Reaches, Text.Unparse;
    var key := Text.Unparse(item.seg.jobId);
    ReachesStep(s, t, Expire({key}));
    var u := Apply(t, Expire({key}));
    UnpackWhole(s, u, w, item, now, later, ttl);
    var (cache, entries) := UnpackEffect(u.cache, item.seg, now, later, ttl);
    assert cache.records == t.cache.records[key := cache.records[key]];
  }

  /** A worker at the top of its loop can take the oldest segment. */
  lemma Claim(s: State, t: State, w: nat)
    requires Reaches(s, t) && w < |t.workers| && t.workers[w] == AtLoop && t.queue != [] && !t.shutdown
    ensures Reaches(s, Move(t, w, Holding(t.queue[0])).(queue := t.queue[1..]))
  {
    hide Reaches;
    ReachesStep(s, t, Step(w, 0, 0));
    ReachesStep(s, Move(t, w, InBody), Step(w, 0, 0));
    assert Apply(Move(t, w, InBody), Step(w, 0, 0)) == Move(t, w, Claiming);
    ReachesStep(s, Move(t, w, Claiming), Step(w, 0, 0));
    assert Apply(Move(t, w, Claiming), Step(w, 0, 0)) == Move(t, w, Holding(t.queue[0])).(queue := t.queue[1..]);
  }

  /** A segment with one packet, for the runs below. */
  function Sample(): Seg {
    var zero := Rational(0, 0);
    var parameters := CodecParameters(
                        0, 0, 0, [], 0, 0, 0, 0, 0, 0, 0, 0, zero, 0, 0, 0, 0, 0, 0, 0, 0, 0, 0, 0, 0, 0, 0, 0);
    Seg(seq(16, _ => 0), 0, 0, zero, parameters, 1, [Packet(0, 0, [], 0, 0, 0, [], 0, 0)])
  }

  lemma ReceiveSample(s: State, t: State)
    requires Reaches(s, t) && t.closer == Running
    ensures Reaches(s, t.(received := t.received + [Sample()], queue := t.queue + [Item(|t.received|, Sample())]))
  {
    hide Reaches, PutSegment, GetSegment;
    var buffer := PutSegment(Sample(), []);
    SegmentRoundTripExactly(Sample(), []);
    ReachesStep(s, t, Receive(buffer));
  }

  ghost predicate SomeoneEmptyHanded(s: State) {
    exists w :: 0 <= w < |s.workers| && s.workers[w] == EmptyHanded
  }

  lemma {:induction false} RunKeepsWorkers(s: State, actions: seq<Action>)
    requires CanRun(s, actions)
    ensures |Exec(s, actions).workers| == |s.workers|
    ensures s.workers == [] ==> Exec(s, actions).log == s.log
    decreases |actions|
  {
    hide Cache.Lookup, Cache.FindOrMake, GetSegment;
    if actions != [] {
      RunKeepsWorkers(Apply(s, actions[0]), actions[1..]);
    }
  }

  /** A worker can come to unpack nothing exactly if it has company. */
  lemma EmptyHandedExactly(nThreads: nat)
    ensures (exists s :: Reaches(Init(nThreads), s) && SomeoneEmptyHanded(s)) <==> nThreads >= 2
  {
    var init := Init(nThreads);
    if nThreads >= 2 {
      EmptyHandedRun(nThreads);
    } else if s :| Reaches(init, s) && SomeoneEmptyHanded(s) {
      var actions :| CanRun(init, actions) && Exec(init, actions) == s;
      RunKeepsWorkers(init, actions);
      if nThreads == 1 {
        InOrder(actions);
      }
      assert false;
    }
  }

  lemma EmptyHandedRun(nThreads: nat)
    requires nThreads >= 2
    ensures exists s :: Reaches(Init(nThreads), s) && SomeoneEmptyHanded(s)
  {
    var init := Init(nThreads);
    assert CanRun(init, []) && Exec(init, []) == init;
    ReceiveSample(init, init);
    var s := init.(received := init.received + [Sample()], queue := init.queue + [Item(0, Sample())]);
    ReachesStep(init, s, Step(1, 0, 0));
    ReachesStep(init, Move(s, 1, InBody), Step(1, 0, 0));
    var t := Move(s, 1, Claiming);
    assert Apply(Move(s, 1, InBody), Step(1, 0, 0)) == t;
    Claim(init, t, 0);
    var u := Move(t, 0, Holding(t.queue[0])).(queue := t.queue[1..]);
    ReachesStep(init, u, Step(1, 0, 0));
    assert Apply(u, Step(1, 0, 0)).workers[1] == EmptyHanded;
  }

  /** No stream is set up twice, and none is sent a packet before it is set up. */
  predicate SetUpProperly(log: seq<LogEntry>) {
    && SetUpFirst(log)
    && forall i, j :: 0 <= i < j < |SetUps(log)| ==> SetUps(log)[i] != SetUps(log)[j]
  }

  /** Streams are set up properly in every run exactly if there is at most one worker. */
  lemma SetUpProperlyExactly(nThreads: nat)
    ensures (forall s :: Reaches(Init(nThreads), s) ==> SetUpProperly(s.log)) <==> nThreads <= 1
  {
    var init := Init(nThreads);
    if nThreads >= 2 {
      var s := SetUpTwice(nThreads);
      assert Reaches(init, s) && !SetUpProperly(s.log);
    } else {
      forall s | Reaches(init, s)
        ensures SetUpProperly(s.log)
      {
        var actions :| CanRun(init, actions) && Exec(init, actions) == s;
        RunKeepsWorkers(init, actions);
        if nThreads == 1 {
          SetUpExactlyOnce(actions);
        }
      }
    }
  }

  lemma ReachesSelf(s: State)
    ensures Reaches(s, s)
  {
    assert CanRun(s, []) && Exec(s, []) == s;
  }

  /** Two workers can hold two segments of a job that is not cached. */
  lemma BothHold(nThreads: nat) returns (s: State)
    requires nThreads >= 2
    ensures Reaches(Init(nThreads), s) && |s.workers| == nThreads
    ensures s.workers[0] == Holding(Item(0, Sample())) && s.workers[1] == Holding(Item(1, Sample()))
    ensures s.cache == Cache(map[], 0) && s.log == []
  {
    hide Reaches;
    var init := Init(nThreads);
    ReachesSelf(init);
    s := init;
    ReceiveSample(init, s);
    s := s.(received := s.received + [Sample()], queue := s.queue + [Item(0, Sample())]);
    ReceiveSample(init, s);
    s := s.(received := s.received + [Sample()], queue := s.queue + [Item(1, Sample())]);
    Claim(init, s, 0);
    s := Move(s, 0, Holding(s.queue[0])).(queue := s.queue[1..]);
    Claim(init, s, 1);
    s := Move(s, 1, Holding(s.queue[0])).(queue := s.queue[1..]);
  }

  /** ... and then both miss and both get the stream made. */
  lemma BothMake(nThreads: nat) returns (s: State)
    requires nThreads >= 2
    ensures Reaches(Init(nThreads), s) && |s.workers| == nThreads && s.log == []
    ensures var stream := Stream(0, Sample().jobId);
            s.workers[0] == Made(Item(0, Sample()), stream) && s.workers[1] == Made(Item(1, Sample()), stream)
  {
    hide Reaches, Text.Unparse, Sample;
    var init := Init(nThreads);
    s := BothHold(nThreads);
    ReachesStep(init, s, Step(0, 0, 0));
    s := Apply(s, Step(0, 0, 0));
    ReachesStep(init, s, Step(1, 0, 0));
    s := Apply(s, Step(1, 0, 0));
    ReachesStep(init, s, Step(0, 0, 0));
    s := Apply(s, Step(0, 0, 0));
    ReachesStep(init, s, Step(1, 0, 0));
    s := Apply(s, Step(1, 0, 0));
  }

  /** Both workers set the stream up. */
  lemma SetUpTwice(nThreads: nat) returns (s: State)
    requires nThreads >= 2
    ensures Reaches(Init(nThreads), s) && !SetUpProperly(s.log)
  {
    hide Reaches, Text.Unparse, Sample;
    var init, stream := Init(nThreads), Stream(0, Sample().jobId);
    s := BothMake(nThreads);
    ReachesStep(init, s, Step(0, 0, 0));
    s := Apply(s, Step(0, 0, 0));
    ReachesStep(init, s, Step(1, 0, 0));
    s := Apply(s, Step(1, 0, 0));
    LogSnoc([], SetUp(stream));
    LogSnoc([SetUp(stream)], SetUp(stream));
    assert s.log == [] + [SetUp(stream)] + [SetUp(stream)];
    assert SetUps(s.log) == [stream, stream];
    assert SetUps(s.log)[0] == SetUps(s.log)[1];
  }
}

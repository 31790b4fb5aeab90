/** The segment unpacker as a transition system: any number of workers on one locked
    queue, the closing thread, and the thread that expires cached streams. Each action is
    one unlocked read or one critical section. */
module Unpacking {
  import opened Prelude
  import opened Bytes
  import opened Media
  import opened Codec
  import opened StreamCaches

  /** A segment on its way through the unpacker; tickets number the arrivals. */
  datatype Item = Item(ticket: nat, seg: Seg)

  /** Where a worker is in its loop. */
  datatype Worker =
    | AtLoop                     // about to read the shutdown flag
    | SawShutdown                // the flag was set; about to read the size of the queue
    | InBody                     // about to test the queue for work
    | Claiming                   // saw work; about to take the lock
    | EmptyHanded                // took the lock but lost the race for the last segment
    | Holding(item: Item)        // about to look the stream up
    | Missed(item: Item)         // not cached; about to look it up again by segment
    | Made(item: Item, stream: Stream)  // about to have the stream set up
    | Replaying(item: Item, stream: Stream, next: nat)
    | Exited

  datatype Closer = Running | Unsubscribed | Draining | Joining | Closed

  datatype LogEntry = SetUp(stream: Stream) | Forwarded(stream: Stream, packet: Packet)

  datatype State = State(
    received: seq<Seg>,
    queue: seq<Item>,
    shutdown: bool,
    closer: Closer,
    workers: seq<Worker>,
    cache: Cache,
    unpacked: seq<Item>,
    log: seq<LogEntry>)

  function Init(nThreads: nat): State {
    State([], [], false, Running, seq(nThreads, _ => AtLoop), Cache(map[], 0), [], [])
  }

  /** `now` is the clock at the step and `ttl` the cache's time to live. */
  datatype Action =
    | Receive(buffer: seq<byte>)
    | Step(w: nat, now: int, ttl: int)
    | Close
    | Expire(keys: set<string>)

  // ---- The steps

  predicate AllExited(workers: seq<Worker>) {
    forall w :: 0 <= w < |workers| ==> workers[w] == Exited
  }

  /** Nothing is received once closing has begun. */
  predicate Enabled(s: State, a: Action) {
    match a
    case Receive(_) => s.closer == Running
    case Step(w, _, _) => w < |s.workers|
    case Close => s.closer != Closed && (s.closer == Joining ==> AllExited(s.workers))
    case Expire(_) => true
  }

  /** A buffer that does not load is an exception in the receiving thread: nothing is queued. */
  function ReceiveStep(s: State, buffer: seq<byte>): State {
    match GetSegment(buffer)
    case None => s
    case Some((seg, _)) =>
      s.(received := s.received + [seg], queue := s.queue + [Item(|s.received|, seg)])
  }

  function CloseStep(s: State): State {
    match s.closer
    case Running => s.(closer := Unsubscribed)
    case Unsubscribed => s.(closer := Draining, shutdown := true)
    case Draining => if s.queue == [] then s.(closer := Joining) else s
    case _ => s.(closer := Closed)
  }

  function Move(s: State, w: nat, to: Worker): State
    requires w < |s.workers|
  {
    s.(workers := s.workers[w := to])
  }

  /** A worker without a segment: the loop around the queue. Without the null check the
      program means to make, an empty-handed worker goes round again. */
  function LoopStep(s: State, w: nat): State
    requires w < |s.workers|
  {
    match s.workers[w]
    case AtLoop => Move(s, w, if s.shutdown then SawShutdown else InBody)
    case SawShutdown => Move(s, w, if s.queue == [] then Exited else InBody)
    case InBody => Move(s, w, if s.queue == [] then AtLoop else Claiming)
    case Claiming =>
      if s.queue == [] then Move(s, w, EmptyHanded)
      else Move(s, w, Holding(s.queue[0])).(queue := s.queue[1..])
    case EmptyHanded => Move(s, w, AtLoop)
    case _ => s
  }

  /** A worker with a segment: finding the stream and replaying the packets. */
  function UnpackStep(s: State, w: nat, now: int, ttl: int): State
    requires w < |s.workers|
  {
    match s.workers[w]
    case Holding(item) =>
      var (cache, stream) := s.cache.Lookup(item.seg.jobId, now, ttl);
      Move(s, w, if stream.Some? then Replaying(item, stream.value, 0) else Missed(item)).(cache := cache)
    case Missed(item) =>
      var (cache, stream) := s.cache.FindOrMake(item.seg.jobId, now, ttl);
      Move(s, w, Made(item, stream)).(cache := cache)
    case Made(item, stream) =>
      Move(s, w, Replaying(item, stream, 0)).(log := s.log + [SetUp(stream)])
    case Replaying(item, stream, next) =>
      if next < |item.seg.packets| then
        Move(s, w, Replaying(item, stream, next + 1)).(log := s.log + [Forwarded(stream, item.seg.packets[next])])
      else
        Move(s, w, AtLoop).(unpacked := s.unpacked + [item])
    case _ => s
  }

  function WorkerStep(s: State, w: nat, now: int, ttl: int): State
    requires w < |s.workers|
  {
    if InHand(s.workers[w]) == [] then LoopStep(s, w) else UnpackStep(s, w, now, ttl)
  }

  function Apply(s: State, a: Action): State
    requires Enabled(s, a)
  {
    match a
    case Receive(buffer) => ReceiveStep(s, buffer)
    case Step(w, now, ttl) => WorkerStep(s, w, now, ttl)
    case Close => CloseStep(s)
    case Expire(keys) => s.(cache := s.cache.Without(keys))
  }

  predicate CanRun(s: State, actions: seq<Action>)
    decreases |actions|
  {
    actions == [] || (Enabled(s, actions[0]) && CanRun(Apply(s, actions[0]), actions[1..]))
  }

  function Exec(s: State, actions: seq<Action>): State
    requires CanRun(s, actions)
    decreases |actions|
  {
    if actions == [] then s else Exec(Apply(s, actions[0]), actions[1..])
  }

  /** Replaying a segment on its stream. */
  function Replay(stream: Stream, packets: seq<Packet>): (r: seq<LogEntry>)
    ensures |r| == |packets| && forall i :: 0 <= i < |r| ==> r[i] == Forwarded(stream, packets[i])
  {
    seq(|packets|, i requires 0 <= i < |packets| => Forwarded(stream, packets[i]))
  }

  /** What unpacking a segment does to the cache and the log if nothing interferes. */
  function UnpackEffect(cache: Cache, seg: Seg, now: int, later: int, ttl: int): (Cache, seq<LogEntry>) {
    var (found, hit) := cache.Lookup(seg.jobId, now, ttl);
    if hit.Some? then (found, Replay(hit.value, seg.packets))
    else
      var (made, stream) := found.FindOrMake(seg.jobId, later, ttl);
      (made, [SetUp(stream)] + Replay(stream, seg.packets))
  }

  // ---- Conservation

  function InHand(worker: Worker): seq<Item> {
    match worker
    case Holding(item) => [item]
    case Missed(item) => [item]
    case Made(item, _) => [item]
    case Replaying(item, _, _) => [item]
    case _ => []
  }

  function Count(x: Item, items: seq<Item>): nat {
    if items == [] then 0 else (if items[0] == x then 1 else 0) + Count(x, items[1..])
  }

  function CountInHand(x: Item, workers: seq<Worker>): nat {
    if workers == [] then 0 else Count(x, InHand(workers[0])) + CountInHand(x, workers[1..])
  }

  /** Every segment received, with its ticket. */
  function Items(received: seq<Seg>): (r: seq<Item>)
    ensures |r| == |received| && forall i :: 0 <= i < |r| ==> r[i] == Item(i, received[i])
  {
    seq(|received|, i requires 0 <= i < |received| => Item(i, received[i]))
  }

  /** Received is queued plus in hand plus unpacked. */
  predicate ConservedItem(s: State, x: Item) {
    Count(x, Items(s.received)) == Count(x, s.queue) + CountInHand(x, s.workers) + Count(x, s.unpacked)
  }

  lemma {:induction false} CountSnoc(x: Item, items: seq<Item>, y: Item)
    ensures Count(x, items + [y]) == Count(x, items) + if x == y then 1 else 0
  {
    if items != [] {
      CountSnoc(x, items[1..], y);
      assert (items + [y])[1..] == items[1..] + [y];
    } else {
      assert Count(x, [y][1..]) == 0;
    }
  }

  lemma {:induction false} CountInHandUpdate(x: Item, workers: seq<Worker>, w: nat, to: Worker)
    requires w < |workers|
    ensures CountInHand(x, workers[w := to]) + Count(x, InHand(workers[w]))
            == CountInHand(x, workers) + Count(x, InHand(to))
  {
    if w == 0 {
      assert workers[w := to][1..] == workers[1..];
    } else {
      CountInHandUpdate(x, workers[1..], w - 1, to);
      assert workers[w := to][1..] == workers[1..][w - 1 := to];
    }
  }

  lemma LoopConserves(s: State, w: nat, x: Item)
    requires w < |s.workers| && InHand(s.workers[w]) == [] && ConservedItem(s, x)
    ensures ConservedItem(LoopStep(s, w), x)
  {
    hide Items, CountInHand;
    CountInHandUpdate(x, s.workers, w, LoopStep(s, w).workers[w]);
  }

  lemma UnpackConserves(s: State, w: nat, now: int, ttl: int, x: Item)
    requires w < |s.workers| && InHand(s.workers[w]) != [] && ConservedItem(s, x)
    ensures ConservedItem(UnpackStep(s, w, now, ttl), x)
  {
    hide Cache.Lookup, Cache.FindOrMake, Items, CountInHand, Count;
    var t, item := UnpackStep(s, w, now, ttl), s.workers[w].item;
    CountInHandUpdate(x, s.workers, w, t.workers[w]);
    assert InHand(s.workers[w]) == [item];
    if t.workers[w] == AtLoop {
      CountSnoc(x, s.unpacked, item);
      CountSnoc(x, [], item);
      assert [] + [item] == [item];
    }
  }

  lemma StepConserves(s: State, a: Action, x: Item)
    requires Enabled(s, a) && ConservedItem(s, x)
    ensures ConservedItem(Apply(s, a), x)
  {
    hide GetSegment, LoopStep, UnpackStep, CountInHand;
    match a
    case Receive(buffer) =>
      if GetSegment(buffer).Some? {
        var item := Item(|s.received|, GetSegment(buffer).value.0);
        assert Items(Apply(s, a).received) == Items(s.received) + [item];
        CountSnoc(x, Items(s.received), item);
        CountSnoc(x, s.queue, item);
      }
    case Step(w, now, ttl) =>
      if InHand(s.workers[w]) == [] {
        LoopConserves(s, w, x);
      } else {
        UnpackConserves(s, w, now, ttl, x);
      }
    case Close =>
    case Expire(_) =>
  }

  lemma {:induction false} RunConserves(s: State, actions: seq<Action>, x: Item)
    requires CanRun(s, actions) && ConservedItem(s, x)
    ensures ConservedItem(Exec(s, actions), x)
    decreases |actions|
  {
    if actions != [] {
      StepConserves(s, actions[0], x);
      RunConserves(Apply(s, actions[0]), actions[1..], x);
    }
  }

  lemma {:induction false} IdleHands(n: nat, x: Item)
    ensures CountInHand(x, seq(n, _ => AtLoop)) == 0
  {
    if n > 0 {
      IdleHands(n - 1, x);
      assert seq(n, _ => AtLoop)[1..] == seq(n - 1, _ => AtLoop);
    }
  }

  lemma {:induction false} TicketsDiffer(received: seq<Seg>, x: Item)
    ensures Count(x, Items(received)) == if x.ticket < |received| && received[x.ticket] == x.seg then 1 else 0
  {
    if received != [] {
      var n := |received| - 1;
      TicketsDiffer(received[..n], x);
      assert Items(received) == Items(received[..n]) + [Item(n, received[n])];
      CountSnoc(x, Items(received[..n]), Item(n, received[n]));
    }
  }

  /** In every reachable state each received segment is exactly once on the queue, in a
      worker's hand or unpacked; in particular none is unpacked twice. */
  lemma Conservation(nThreads: nat, actions: seq<Action>, x: Item)
    requires CanRun(Init(nThreads), actions)
    ensures var s := Exec(Init(nThreads), actions);
            Count(x, s.queue) + CountInHand(x, s.workers) + Count(x, s.unpacked)
            == if x.ticket < |s.received| && s.received[x.ticket] == x.seg then 1 else 0
  {
    IdleHands(nThreads, x);
    RunConserves(Init(nThreads), actions, x);
    TicketsDiffer(Exec(Init(nThreads), actions).received, x);
  }

  // ---- Draining

  ghost predicate DrainedBy(s: State) {
    && (s.closer == Joining || s.closer == Closed ==> s.queue == [])
    && (s.closer == Closed ==> AllExited(s.workers))
  }

  lemma StepDrains(s: State, a: Action)
    requires Enabled(s, a) && DrainedBy(s)
    ensures DrainedBy(Apply(s, a))
  {
    hide GetSegment, Cache.Lookup, Cache.FindOrMake;
    if a.Step? && s.closer == Closed {
      assert Apply(s, a) == s;
    }
  }

  lemma {:induction false} RunDrains(s: State, actions: seq<Action>)
    requires CanRun(s, actions) && DrainedBy(s)
    ensures DrainedBy(Exec(s, actions))
    decreases |actions|
  {
    if actions != [] {
      StepDrains(s, actions[0]);
      RunDrains(Apply(s, actions[0]), actions[1..]);
    }
  }

  lemma {:induction false} ExitedHands(workers: seq<Worker>, x: Item)
    requires AllExited(workers)
    ensures CountInHand(x, workers) == 0
  {
    if workers != [] {
      ExitedHands(workers[1..], x);
    }
  }

  /** When close returns, every segment that was received has been unpacked, once. */
  lemma CloseDrains(nThreads: nat, actions: seq<Action>, x: Item)
    requires CanRun(Init(nThreads), actions)
    requires Exec(Init(nThreads), actions).closer == Closed
    ensures var s := Exec(Init(nThreads), actions);
            Count(x, s.unpacked) == if x.ticket < |s.received| && s.received[x.ticket] == x.seg then 1 else 0
  {
    Conservation(nThreads, actions, x);
    RunDrains(Init(nThreads), actions);
    ExitedHands(Exec(Init(nThreads), actions).workers, x);
  }
}

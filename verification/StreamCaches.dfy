/** The expiring cache of streams, and which stream a job sees over time. Times are clock
    ticks, and the time to live is added in the same unit. */
module StreamCaches {
  import opened Prelude
  import opened Media
  import Text

  /** A Stream object: the `id` tells objects apart, the job is the one it was made for. */
  datatype Stream = Stream(id: nat, jobId: Uuid)

  datatype Record = Record(stream: Stream, expires: int)

  /** The records by printed job id, and how many streams have been made. */
  datatype Cache = Cache(records: map<string, Record>, created: nat)
  {
    /** Every record is found under the job its stream was made for. */
    ghost predicate Keyed() {
      forall k <- records :: k == Text.Unparse(records[k].stream.jobId) && records[k].stream.id < created
    }

    /** A hit refreshes the record; a miss finds nothing. */
    function Lookup(jobId: Uuid, now: int, ttl: int): (r: (Cache, Option<Stream>))
      ensures Keyed() ==> r.0.Keyed() && (r.1.Some? ==> r.1.value.jobId == jobId && r.1.value.id < created)
      ensures r.0.records.Keys == records.Keys && r.0.created == created
    {
      var key := Text.Unparse(jobId);
      if key in records then
        var stream := records[key].stream;
        assert Keyed() ==> stream.jobId == jobId by {
          if Keyed() { Text.UnparseInjective(stream.jobId, jobId); }
        }
        (this.(records := records[key := Record(stream, now + ttl)]), Some(stream))
      else
        (this, None)
    }

    /** A miss makes a new stream for the job. */
    function FindOrMake(jobId: Uuid, now: int, ttl: int): (r: (Cache, Stream))
      ensures Keyed() ==> r.0.Keyed() && r.1.jobId == jobId
    {
      var (found, stream) := Lookup(jobId, now, ttl);
      if stream.Some? then (found, stream.value)
      else
        var made := Stream(created, jobId);
        (Cache(records[Text.Unparse(jobId) := Record(made, now + ttl)], created + 1), made)
    }

    function Without(keys: set<string>): Cache {
      this.(records := records - keys)
    }
  }

  class StreamCache {
    const ttl: int
    var cache: map<string, Record>
    /** How many Stream objects have been allocated; it stands for their addresses. */
    var created: nat

    ghost function Content(): Cache
      reads this
    {
      Cache(cache, created)
    }

    constructor (ttl: int)
      ensures Content() == Cache(map[], 0) && this.ttl == ttl
    {
      this.ttl, cache, created := ttl, map[], 0;
    }

    method GetByJobId(jobId: Uuid, now: int) returns (stream: Option<Stream>)
      modifies this
      ensures (Content(), stream) == old(Content()).Lookup(jobId, now, ttl)
    {
      var key := Text.Unparse(jobId);
      stream := None;
      if key in cache {
        cache := cache[key := cache[key].(expires := now + ttl)];
        stream := Some(cache[key].stream);
      }
    }

    method GetBySegment(jobId: Uuid, now: int) returns (stream: Stream)
      modifies this
      ensures (Content(), stream) == old(Content()).FindOrMake(jobId, now, ttl)
    {
      var key := Text.Unparse(jobId);
      if key in cache {
        cache := cache[key := cache[key].(expires := now + ttl)];
        return cache[key].stream;
      }
      stream := Stream(created, jobId);
      cache := cache[key := Record(stream, now + ttl)];
      created := created + 1;
    }

    /** One pass over the entries, in no particular order, reading the clock at each.
        `stop` is the number of entries after which shutdown is noticed. An entry goes
        only if it has expired by the end, and a pass that is not stopped leaves none
        that had expired at the start. */
    method ExpireEntries(clock: seq<int>, stop: nat)
      requires |clock| > |cache|
      requires forall i, j :: 0 <= i < j < |clock| ==> clock[i] <= clock[j]
      modifies this
      ensures created == old(created)
      ensures cache == old(cache) - (old(cache.Keys) - cache.Keys)
      ensures forall k <- old(cache) :: k !in cache ==> old(cache)[k].expires < clock[|clock| - 1]
      ensures stop >= |old(cache)| ==> forall k <- cache :: clock[0] <= cache[k].expires
      ensures var sweep := Sweep(clock[0], clock[|clock| - 1], stop >= |old(cache)|, old(cache.Keys) - cache.Keys);
              SweepOk(old(Content()), sweep) && Content() == After(old(Content()), sweep, ttl)
    {
      hide SweepOk, After;
      var pending := cache.Keys;
      var i := 0;
      while pending != {}
        invariant pending <= old(cache).Keys && cache.Keys <= old(cache).Keys && i + |pending| == |old(cache)|
        invariant pending <= cache.Keys && i <= stop && created == old(created)
        invariant forall k <- cache :: cache[k] == old(cache)[k]
        invariant forall k <- old(cache) :: k !in cache ==> old(cache)[k].expires < clock[|clock| - 1]
        invariant forall k <- cache :: k !in pending ==> clock[0] <= cache[k].expires
        decreases |pending|
      {
        if i == stop {
          SweepIsEvent(old(Content()), Content(), clock[0], clock[|clock| - 1], stop >= |old(cache)|, ttl);
          return;
        }
        var key :| key in pending;
        pending := pending - {key};
        if clock[i] > cache[key].expires {
          cache := cache - {key};
        }
        i := i + 1;
      }
      SweepIsEvent(old(Content()), Content(), clock[0], clock[|clock| - 1], stop >= |old(cache)|, ttl);
    }
  }

  lemma SweepIsEvent(before: Cache, after: Cache, start: int, end: int, completed: bool, ttl: int)
    requires start <= end && after.created == before.created
    requires after.records.Keys <= before.records.Keys
    requires forall k <- after.records :: after.records[k] == before.records[k]
    requires forall k <- before.records :: k !in after.records ==> before.records[k].expires < end
    requires completed ==> forall k <- after.records :: start <= after.records[k].expires
    ensures var sweep := Sweep(start, end, completed, before.records.Keys - after.records.Keys);
            SweepOk(before, sweep) && after == After(before, sweep, ttl)
  {
    var removed := before.records.Keys - after.records.Keys;
    assert after.records == before.records - removed;
  }

  // ---- Which stream a job sees over a run

  /** One critical section on the cache. A sweep lasts from `start` to `end`. */
  datatype Event =
    | Get(jobId: Uuid, now: int)
    | GetOrMake(jobId: Uuid, now: int)
    | Sweep(start: int, end: int, completed: bool, removed: set<string>)

  function Answer(c: Cache, e: Event, ttl: int): Option<Stream> {
    match e
    case Get(j, now) => c.Lookup(j, now, ttl).1
    case GetOrMake(j, now) => Some(c.FindOrMake(j, now, ttl).1)
    case Sweep(_, _, _, _) => None
  }

  function After(c: Cache, e: Event, ttl: int): Cache {
    match e
    case Get(j, now) => c.Lookup(j, now, ttl).0
    case GetOrMake(j, now) => c.FindOrMake(j, now, ttl).0
    case Sweep(_, _, _, removed) => c.Without(removed)
  }

  /** What ExpireEntries promises of a pass. */
  ghost predicate SweepOk(c: Cache, e: Event)
    requires e.Sweep?
  {
    && e.start <= e.end
    && e.removed <= c.records.Keys
    && (forall k <- e.removed :: c.records[k].expires < e.end)
    && (e.completed ==> forall k <- c.records.Keys - e.removed :: e.start <= c.records[k].expires)
  }

  function Begins(e: Event): int {
    if e.Sweep? then e.start else e.now
  }

  function Ends(e: Event): int {
    if e.Sweep? then e.end else e.now
  }

  /** The critical sections follow one another while the clock does not go back. */
  ghost predicate Happens(c: Cache, clock: int, events: seq<Event>, ttl: int)
    decreases |events|
  {
    events == [] ||
    (&& clock <= Begins(events[0])
     && (events[0].Sweep? ==> SweepOk(c, events[0]))
     && Happens(After(c, events[0], ttl), Ends(events[0]), events[1..], ttl))
  }

  function CacheAfter(c: Cache, events: seq<Event>, ttl: int): Cache
    decreases |events|
  {
    if events == [] then c else CacheAfter(After(c, events[0], ttl), events[1..], ttl)
  }

  predicate Accesses(e: Event, jobId: Uuid) {
    !e.Sweep? && e.jobId == jobId
  }

  /** No two successive accesses of the job are further apart than the time to live. */
  predicate KeptAlive(events: seq<Event>, jobId: Uuid, last: int, ttl: int)
    decreases |events|
  {
    events == [] ||
    (if Accesses(events[0], jobId) then
       events[0].now - last <= ttl && KeptAlive(events[1..], jobId, events[0].now, ttl)
     else
       KeptAlive(events[1..], jobId, last, ttl))
  }

  ghost predicate Holds(c: Cache, jobId: Uuid, stream: Stream, last: int, ttl: int) {
    var key := Text.Unparse(jobId);
    key in c.records && c.records[key] == Record(stream, last + ttl)
  }

  /** While a job is accessed again, at least once, its record outlives every sweep. */
  lemma {:induction false} NextAccessInTime(c: Cache, clock: int, events: seq<Event>, jobId: Uuid,
                                            last: int, ttl: int, i: nat)
    requires Happens(c, clock, events, ttl) && KeptAlive(events, jobId, last, ttl)
    requires i < |events| && Accesses(events[i], jobId)
    requires forall k :: 0 <= k < |events| && events[k].Sweep? ==> events[k].start <= events[k].end
    ensures clock <= last + ttl
    decreases |events|
  {
    if !Accesses(events[0], jobId) {
      NextAccessInTime(After(c, events[0], ttl), Ends(events[0]), events[1..], jobId, last, ttl, i - 1);
    }
  }

  lemma {:induction false} SweepsGoForward(c: Cache, clock: int, events: seq<Event>, ttl: int)
    requires Happens(c, clock, events, ttl)
    ensures forall k :: 0 <= k < |events| && events[k].Sweep? ==> events[k].start <= events[k].end
    decreases |events|
  {
    if events != [] {
      SweepsGoForward(After(c, events[0], ttl), Ends(events[0]), events[1..], ttl);
      assert forall k :: 1 <= k < |events| ==> events[k] == events[1..][k - 1];
    }
  }

  /** If successive accesses of a job are at most the time to live apart, they all see the
      same stream, whatever sweeps and accesses of other jobs come between. */
  lemma {:induction false} SameStream(c: Cache, clock: int, events: seq<Event>, jobId: Uuid,
                                      stream: Stream, last: int, ttl: int, i: nat)
    requires c.Keyed() && Holds(c, jobId, stream, last, ttl)
    requires Happens(c, clock, events, ttl) && KeptAlive(events, jobId, last, ttl)
    requires i < |events| && Accesses(events[i], jobId)
    ensures Answer(CacheAfter(c, events[..i], ttl), events[i], ttl) == Some(stream)
    decreases |events|
  {
    var e, rest := events[0], events[1..];
    var next := After(c, e, ttl);
    if i > 0 {
      assert events[i] == rest[i - 1];
      assert events[..i][1..] == rest[..i - 1];
      if Accesses(e, jobId) {
        SameStream(next, Ends(e), rest, jobId, stream, e.now, ttl, i - 1);
      } else {
        if e.Sweep? {
          SweepsGoForward(next, e.end, rest, ttl);
          NextAccessInTime(next, e.end, rest, jobId, last, ttl, i - 1);
          assert Text.Unparse(jobId) !in e.removed;
        } else if Text.Unparse(e.jobId) == Text.Unparse(jobId) {
          Text.UnparseInjective(e.jobId, jobId);
        }
        SameStream(next, Ends(e), rest, jobId, stream, last, ttl, i - 1);
      }
    }
  }

  /** From the first access that finds or makes a stream, a job keeps that stream for as
      long as its accesses are at most the time to live apart. */
  lemma JobKeepsStream(c: Cache, clock: int, events: seq<Event>, jobId: Uuid, ttl: int, i: nat)
    requires c.Keyed() && Happens(c, clock, events, ttl)
    requires 0 < i < |events| && Accesses(events[0], jobId) && Accesses(events[i], jobId)
    requires Answer(c, events[0], ttl).Some? && KeptAlive(events[1..], jobId, events[0].now, ttl)
    ensures Answer(CacheAfter(c, events[..i], ttl), events[i], ttl) == Answer(c, events[0], ttl)
  {
    var stream := Answer(c, events[0], ttl).value;
    var next := After(c, events[0], ttl);
    assert events[..i][1..] == events[1..][..i - 1] && events[i] == events[1..][i - 1];
    SameStream(next, events[0].now, events[1..], jobId, stream, events[0].now, ttl, i - 1);
  }

  /** The time of the latest access under a key, if any. */
  function LastAccess(events: seq<Event>, key: string): Option<int> {
    if events == [] then None
    else
      var e := events[|events| - 1];
      if !e.Sweep? && Text.Unparse(e.jobId) == key then Some(e.now)
      else LastAccess(events[..|events| - 1], key)
  }

  /** In a cache that started empty every record expires one time to live after the
      latest access of its job, so a sweep removes only what has not been accessed for
      longer than that. */
  lemma {:induction false} SweptOnlyWhenIdle(events: seq<Event>, ttl: int, sweep: Event)
    requires sweep.Sweep? && SweepOk(CacheAfter(Cache(map[], 0), events, ttl), sweep)
    ensures forall k <- sweep.removed ::
              LastAccess(events, k).Some? && sweep.end - LastAccess(events, k).value > ttl
  {
    forall k | k in sweep.removed
      ensures LastAccess(events, k).Some? && sweep.end - LastAccess(events, k).value > ttl
    {
      ExpiryFollowsAccess(events, ttl, k);
    }
  }

  lemma AccessSetsExpiry(c: Cache, e: Event, ttl: int, key: string)
    requires key in After(c, e, ttl).records
    ensures if !e.Sweep? && Text.Unparse(e.jobId) == key then After(c, e, ttl).records[key].expires == e.now + ttl
            else key in c.records && After(c, e, ttl).records[key] == c.records[key]
  {
  }

  lemma {:induction false} ExpiryFollowsAccess(events: seq<Event>, ttl: int, key: string)
    requires key in CacheAfter(Cache(map[], 0), events, ttl).records
    ensures LastAccess(events, key) == Some(CacheAfter(Cache(map[], 0), events, ttl).records[key].expires - ttl)
  {
    hide After, Text.Unparse;
    if events != [] {
      var n := |events| - 1;
      CacheAfterSnoc(Cache(map[], 0), events[..n], events[n], ttl);
      assert events[..n] + [events[n]] == events;
      var c := CacheAfter(Cache(map[], 0), events[..n], ttl);
      AccessSetsExpiry(c, events[n], ttl, key);
      if key in c.records {
        ExpiryFollowsAccess(events[..n], ttl, key);
      }
    }
  }

  lemma {:induction false} CacheAfterSnoc(c: Cache, events: seq<Event>, e: Event, ttl: int)
    ensures CacheAfter(c, events + [e], ttl) == After(CacheAfter(c, events, ttl), e, ttl)
    decreases |events|
  {
    if events != [] {
      CacheAfterSnoc(After(c, events[0], ttl), events[1..], e, ttl);
      assert (events + [e])[1..] == events[1..] + [e];
    } else {
      assert CacheAfter(c, [e], ttl) == CacheAfter(After(c, e, ttl), [], ttl);
    }
  }
}

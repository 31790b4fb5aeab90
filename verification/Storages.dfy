/** The storage service: its pool of tasks, its cache of job lookups and its worker. */
module Storages {
  import opened Prelude
  import opened Bytes
  import opened Media
  import opened Codec
  import opened Registries
  import opened Routers
  import opened Archiving
  import Text

  // ---- What a worker does to the cache and the disk

  /** The job storage takes a stream to belong to. */
  function Answer(cache: map<string, Job>, registry: Registry, stream: string): Job {
    if stream in cache then cache[stream] else Served(registry, stream)
  }

  function Asked(cache: map<string, Job>, registry: Registry, stream: string): map<string, Job> {
    cache[stream := Answer(cache, registry, stream)]
  }

  function JobOf(cache: map<string, Job>, registry: Registry, m: Message): Job {
    Answer(cache, registry, StreamKey(m))
  }

  /** The worker can put the segment away: its stream has no job, or it loads. */
  predicate Storable(cache: map<string, Job>, registry: Registry, m: Message) {
    JobOf(cache, registry, m).jobId == "" || FileFor(m, JobOf(cache, registry, m)).Some?
  }

  predicate AllStorable(cache: map<string, Job>, registry: Registry, tasks: seq<Message>) {
    forall i :: 0 <= i < |tasks| ==> Storable(cache, registry, tasks[i])
  }

  datatype Disk = Disk(cache: map<string, Job>, files: map<File, seq<byte>>)

  function PutAway(disk: Disk, registry: Registry, m: Message): Disk
    requires Storable(disk.cache, registry, m)
  {
    var job := JobOf(disk.cache, registry, m);
    Disk(Asked(disk.cache, registry, StreamKey(m)),
         if job.jobId == "" then disk.files else disk.files[FileFor(m, job).value := m.body])
  }

  /** What a worker leaves of a pool of tasks: an exception from a segment that does not
      load ends it. */
  datatype Handled = Handled(disk: Disk, tasks: seq<Message>, threw: bool)

  function Handle(disk: Disk, registry: Registry, tasks: seq<Message>): Handled
    decreases |tasks|
  {
    hide GetSegment, Text.ToString, Text.Unparse;
    if tasks == [] then Handled(disk, [], false)
    else if Storable(disk.cache, registry, tasks[0]) then
      Handle(PutAway(disk, registry, tasks[0]), registry, tasks[1..])
    else
      Handled(disk.(cache := Asked(disk.cache, registry, StreamKey(tasks[0]))), tasks[1..], true)
  }

  // ---- The service

  datatype Outcome = Waiting | Finished | Threw

  class Storage {
    var tasks: seq<Message>
    var jobCache: map<string, Job>
    var moreWork: bool
    var shutdownRequest: bool
    var files: map<File, seq<byte>>

    ghost function OnDisk(): Disk
      reads this
    {
      Disk(jobCache, files)
    }

    constructor (files: map<File, seq<byte>>)
      ensures tasks == [] && OnDisk() == Disk(map[], files) && !shutdownRequest && !moreWork
    {
      tasks, jobCache, moreWork, shutdownRequest, this.files := [], map[], false, false, files;
    }

    method Shutdown()
      modifies this`shutdownRequest
      ensures shutdownRequest
    {
      shutdownRequest := true;
    }

    method Add(buffer: seq<byte>, streamId: Uuid)
      modifies this`tasks, this`moreWork
      ensures tasks == old(tasks) + [Message(streamId, buffer)] && moreWork
    {
      tasks := tasks + [Message(streamId, buffer)];
      moreWork := true;
    }

    /** Asks the registry at most once for each stream. */
    method QueryJob(registry: Registry, uuid: Uuid) returns (job: Job)
      modifies this`jobCache
      ensures job == Answer(old(jobCache), registry, Text.Unparse(uuid))
      ensures jobCache == Asked(old(jobCache), registry, Text.Unparse(uuid))
    {
      hide Text.Unparse, Served;
      var id := Text.Unparse(uuid);
      if id in jobCache {
        job := jobCache[id];
      } else {
        job := Served(registry, id);
        jobCache := jobCache[id := job];
      }
    }

    /** One worker, until it waits for more, is done, or ends in an exception. */
    method Process(registry: Registry) returns (outcome: Outcome)
      modifies this
      ensures Handled(OnDisk(), tasks, outcome == Threw) == Handle(old(OnDisk()), registry, old(tasks))
      ensures outcome != Threw ==> outcome == (if shutdownRequest then Finished else Waiting)
      ensures shutdownRequest == old(shutdownRequest)
      ensures moreWork == (old(moreWork) && outcome != Waiting)
    {
      hide Text.Unparse, Text.ToString, GetSegment, Asked;
      while !shutdownRequest || tasks != []
        invariant Handle(OnDisk(), registry, tasks) == Handle(old(OnDisk()), registry, old(tasks))
        invariant shutdownRequest == old(shutdownRequest) && moreWork == old(moreWork)
        decreases |tasks|
      {
        if tasks != [] {
          var task := tasks[0];
          tasks := tasks[1..];
          var job := QueryJob(registry, task.id);
          if job.jobId != "" {
            var loaded := GetSegment(task.body);
            if loaded.None? {
              return Threw;
            }
            var name := Text.ToString(loaded.value.0.dts);
            files := files[File(job.jobId, Text.Unparse(task.id), name) := task.body];
          }
        } else {
          moreWork := false;
          return Waiting;
        }
      }
      return Finished;
    }
  }

  // ---- What is left of a pool

  /** Asking for one stream changes no answer. */
  lemma AnswersKept(cache: map<string, Job>, registry: Registry, asked: string)
    ensures forall k :: Answer(Asked(cache, registry, asked), registry, k) == Answer(cache, registry, k)
  {
  }

  lemma StorableKept(disk: Disk, registry: Registry, m: Message, n: Message)
    requires Storable(disk.cache, registry, m)
    ensures JobOf(PutAway(disk, registry, m).cache, registry, n) == JobOf(disk.cache, registry, n)
    ensures Storable(PutAway(disk, registry, m).cache, registry, n) == Storable(disk.cache, registry, n)
  {
    hide FileFor, StreamKey;
    AnswersKept(disk.cache, registry, StreamKey(m));
  }

  lemma RestStorable(disk: Disk, registry: Registry, tasks: seq<Message>)
    requires tasks != [] && Storable(disk.cache, registry, tasks[0])
    ensures AllStorable(PutAway(disk, registry, tasks[0]).cache, registry, tasks[1..])
            <==> AllStorable(disk.cache, registry, tasks)
  {
    hide Storable, PutAway;
    var next := PutAway(disk, registry, tasks[0]);
    forall i | 0 <= i < |tasks|
      ensures Storable(next.cache, registry, tasks[i]) == Storable(disk.cache, registry, tasks[i])
    {
      StorableKept(disk, registry, tasks[0], tasks[i]);
    }
    if AllStorable(next.cache, registry, tasks[1..]) {
      forall i | 1 <= i < |tasks|
        ensures Storable(disk.cache, registry, tasks[i])
      {
        assert tasks[i] == tasks[1..][i - 1];
      }
    }
  }

  /** The worker gets through the pool exactly when every segment is storable. */
  lemma {:induction false} HandlesAllExactly(disk: Disk, registry: Registry, tasks: seq<Message>)
    ensures AllStorable(disk.cache, registry, tasks) <==> !Handle(disk, registry, tasks).threw
    ensures AllStorable(disk.cache, registry, tasks) ==> Handle(disk, registry, tasks).tasks == []
    decreases |tasks|
  {
    hide Storable, PutAway;
    if tasks != [] && Storable(disk.cache, registry, tasks[0]) {
      RestStorable(disk, registry, tasks);
      HandlesAllExactly(PutAway(disk, registry, tasks[0]), registry, tasks[1..]);
    }
  }

  /** The segment goes to this file. */
  predicate Lands(cache: map<string, Job>, registry: Registry, m: Message, file: File) {
    JobOf(cache, registry, m).jobId != "" && FileFor(m, JobOf(cache, registry, m)) == Some(file)
  }

  /** The last segment that goes to this file; -1 if none does. */
  ghost predicate IsLast(cache: map<string, Job>, registry: Registry, tasks: seq<Message>, file: File, last: int) {
    && -1 <= last < |tasks|
    && (last >= 0 ==> Lands(cache, registry, tasks[last], file))
    && forall i :: last < i < |tasks| ==> !Lands(cache, registry, tasks[i], file)
  }

  lemma LandsKept(disk: Disk, registry: Registry, m: Message, n: Message, file: File)
    requires Storable(disk.cache, registry, m)
    ensures Lands(PutAway(disk, registry, m).cache, registry, n, file) == Lands(disk.cache, registry, n, file)
  {
    hide FileFor, StreamKey, PutAway;
    StorableKept(disk, registry, m, n);
  }

  lemma PutAwayFile(disk: Disk, registry: Registry, m: Message, file: File)
    requires Storable(disk.cache, registry, m)
    ensures var after := PutAway(disk, registry, m).files;
            if Lands(disk.cache, registry, m, file) then file in after && after[file] == m.body
            else SameFile(after, disk.files, file)
  {
    hide FileFor, StreamKey, Asked, Answer;
  }

  predicate SameFile(a: map<File, seq<byte>>, b: map<File, seq<byte>>, file: File) {
    (file in a <==> file in b) && (file in a ==> a[file] == b[file])
  }

  /** A file holds the last segment that goes to it; if none does it is what it was. */
  lemma {:induction false} FilesExactly(disk: Disk, registry: Registry, tasks: seq<Message>, file: File, last: int)
    requires AllStorable(disk.cache, registry, tasks) && IsLast(disk.cache, registry, tasks, file, last)
    ensures var after := Handle(disk, registry, tasks).disk.files;
            if last >= 0 then file in after && after[file] == tasks[last].body
            else SameFile(after, disk.files, file)
    decreases |tasks|
  {
    hide Storable, PutAway, Lands;
    if tasks != [] {
      var next, rest := PutAway(disk, registry, tasks[0]), tasks[1..];
      RestStorable(disk, registry, tasks);
      PutAwayFile(disk, registry, tasks[0], file);
      forall i | 0 <= i < |rest|
        ensures Lands(next.cache, registry, rest[i], file) == Lands(disk.cache, registry, tasks[i + 1], file)
      {
        LandsKept(disk, registry, tasks[0], rest[i], file);
      }
      FilesExactly(next, registry, rest, file, if last > 0 then last - 1 else -1);
    }
  }

  lemma {:induction false} CacheExactly(disk: Disk, registry: Registry, tasks: seq<Message>)
    requires AllStorable(disk.cache, registry, tasks)
    ensures var after := Handle(disk, registry, tasks).disk.cache;
            && (forall k :: k in after <==> k in disk.cache || exists i :: 0 <= i < |tasks| && StreamKey(tasks[i]) == k)
            && (forall k <- after :: after[k] == Answer(disk.cache, registry, k))
    decreases |tasks|
  {
    hide StreamKey, FileFor;
    if tasks != [] {
      var next, rest := PutAway(disk, registry, tasks[0]), tasks[1..];
      RestStorable(disk, registry, tasks);
      CacheExactly(next, registry, rest);
      AnswersKept(disk.cache, registry, StreamKey(tasks[0]));
      assert forall i :: 1 <= i < |tasks| ==> tasks[i] == rest[i - 1];
      assert forall i :: 0 <= i < |rest| ==> rest[i] == tasks[i + 1];
    }
  }

  /** Segments that go to the same file are the same segment. */
  ghost predicate NoClash(cache: map<string, Job>, registry: Registry, tasks: seq<Message>) {
    forall m <- tasks, n <- tasks, file | Lands(cache, registry, m, file) && Lands(cache, registry, n, file) ::
      m.body == n.body
  }

  lemma {:induction false} LastLanding(cache: map<string, Job>, registry: Registry, tasks: seq<Message>, file: File)
    returns (last: int)
    ensures IsLast(cache, registry, tasks, file, last)
  {
    hide Lands;
    if tasks == [] {
      last := -1;
    } else {
      last := LastLanding(cache, registry, tasks[1..], file);
      last := if last >= 0 || Lands(cache, registry, tasks[0], file) then last + 1 else -1;
    }
  }

  /** The disk depends neither on the order in which segments are stored nor on how often
      each is, as long as different ones have different files. */
  lemma OrderDoesNotMatter(disk: Disk, registry: Registry, a: seq<Message>, b: seq<Message>)
    requires AllStorable(disk.cache, registry, a) && NoClash(disk.cache, registry, a)
    requires (forall m <- a :: m in b) && (forall m <- b :: m in a)
    ensures AllStorable(disk.cache, registry, b)
    ensures Handle(disk, registry, a).disk == Handle(disk, registry, b).disk
  {
    hide Storable, Lands, Handle, StreamKey, Answer;
    forall i | 0 <= i < |b|
      ensures Storable(disk.cache, registry, b[i])
    {
      assert b[i] in a;
      var j :| 0 <= j < |a| && a[j] == b[i];
    }
    var x, y := Handle(disk, registry, a).disk, Handle(disk, registry, b).disk;
    forall file
      ensures SameFile(x.files, y.files, file)
    {
      var i := LastLanding(disk.cache, registry, a, file);
      var j := LastLanding(disk.cache, registry, b, file);
      FilesExactly(disk, registry, a, file, i);
      FilesExactly(disk, registry, b, file, j);
      if i >= 0 {
        assert a[i] in b;
      }
      if j >= 0 {
        assert b[j] in a;
      }
    }
    SameCache(disk, registry, a, b);
    forall file
      ensures file in x.files <==> file in y.files
    {
      assert SameFile(x.files, y.files, file);
    }
    assert forall file <- x.files :: SameFile(x.files, y.files, file);
    assert x.files == y.files;
  }

  lemma SameCache(disk: Disk, registry: Registry, a: seq<Message>, b: seq<Message>)
    requires AllStorable(disk.cache, registry, a) && AllStorable(disk.cache, registry, b)
    requires (forall m <- a :: m in b) && (forall m <- b :: m in a)
    ensures Handle(disk, registry, a).disk.cache == Handle(disk, registry, b).disk.cache
  {
    hide StreamKey, Storable, Answer, Handle;
    CacheExactly(disk, registry, a);
    CacheExactly(disk, registry, b);
    var x, y := Handle(disk, registry, a).disk.cache, Handle(disk, registry, b).disk.cache;
    forall k
      ensures k in x <==> k in y
    {
      if k in x && k !in disk.cache {
        var i :| 0 <= i < |a| && StreamKey(a[i]) == k;
        assert a[i] in b;
      }
      if k in y && k !in disk.cache {
        var j :| 0 <= j < |b| && StreamKey(b[j]) == k;
        assert b[j] in a;
      }
    }
  }

  // ---- The worker as part of the protocol

  lemma {:induction false} RunJoin(s: State, a: seq<Action>, b: seq<Action>)
    requires CanRun(s, a) && CanRun(Exec(s, a), b)
    ensures CanRun(s, a + b) && Exec(s, a + b) == Exec(Exec(s, a), b)
    decreases |a|
  {
    hide Enabled, Apply;
    if a == [] {
      assert a + b == b;
    } else {
      assert (a + b)[0] == a[0] && (a + b)[1..] == a[1..] + b;
      RunJoin(Apply(s, a[0]), a[1..], b);
    }
  }

  /** A free worker, the lock of the cache and a task that can be stored. */
  ghost predicate CanStore(s: State, w: nat) {
    && w < |s.workers| && s.workers[w] == Free && s.cacheOwner == None
    && AllStorable(s.cache, s.registry, s.tasks)
  }

  lemma RunStep(s: State, a: Action, rest: seq<Action>)
    requires Enabled(s, a) && CanRun(Apply(s, a), rest)
    ensures CanRun(s, [a] + rest) && Exec(s, [a] + rest) == Exec(Apply(s, a), rest)
  {
    hide Enabled, Apply;
    assert ([a] + rest)[1..] == rest;
  }

  /** From the answer on. */
  lemma WriteRun(s: State, w: nat, m: Message, job: Job) returns (actions: seq<Action>)
    requires w < |s.workers| && s.workers[w] == Prepared(m, job)
    requires job.jobId == "" || FileFor(m, job).Some?
    ensures CanRun(s, actions)
    ensures Exec(s, actions) == Move(s, w, Free).(files :=
              if job.jobId == "" then s.files else s.files[FileFor(m, job).value := m.body])
  {
    hide FileFor;
    actions := [Write(w)];
    assert actions[1..] == [];
  }

  /** From the question on. */
  lemma QueryRun(s: State, w: nat, m: Message) returns (actions: seq<Action>)
    requires w < |s.workers| && s.workers[w] == Got(m) && s.cacheOwner == None
    requires Storable(s.cache, s.registry, m)
    ensures CanRun(s, actions)
    ensures var disk := PutAway(Disk(s.cache, s.files), s.registry, m);
            Exec(s, actions) == Move(s, w, Free).(cache := disk.cache, files := disk.files)
  {
    hide FileFor, StreamKey, Served, CanRun, Exec;
    var job := JobOf(s.cache, s.registry, m);
    var cached := s.(cache := Asked(s.cache, s.registry, StreamKey(m)));
    var prepared := Move(cached, w, Prepared(m, job));
    var last := WriteRun(prepared, w, m, job);
    assert Move(prepared, w, Free) == Move(cached, w, Free);
    if StreamKey(m) in s.cache {
      assert cached.cache == s.cache;
      assert Apply(s, Query(w)) == prepared;
      RunStep(s, Query(w), last);
      actions := [Query(w)] + last;
    } else {
      var s1 := Apply(s, Query(w));
      var s2 := Apply(s1, Reply(w));
      assert Apply(s2, Remember(w)) == prepared;
      RunStep(s2, Remember(w), last);
      RunStep(s1, Reply(w), [Remember(w)] + last);
      RunStep(s, Query(w), [Reply(w)] + ([Remember(w)] + last));
      actions := [Query(w)] + ([Reply(w)] + ([Remember(w)] + last));
    }
  }

  lemma OneTask(s: State, w: nat) returns (actions: seq<Action>)
    requires CanStore(s, w) && s.tasks != []
    ensures CanRun(s, actions)
    ensures var disk := PutAway(Disk(s.cache, s.files), s.registry, s.tasks[0]);
            Exec(s, actions) == s.(tasks := s.tasks[1..], cache := disk.cache, files := disk.files)
  {
    hide Storable, PutAway, CanRun, Exec;
    var next := Apply(s, Take(w));
    var rest := QueryRun(next, w, s.tasks[0]);
    RunStep(s, Take(w), rest);
    assert Move(next, w, Free).workers == s.workers;
    actions := [Take(w)] + rest;
  }

  /** A worker left to itself makes a run of the protocol: what its loop leaves on disk is
      a state the protocol reaches. */
  lemma {:induction false} WorkerIsARun(s: State, w: nat) returns (actions: seq<Action>)
    requires CanStore(s, w)
    ensures CanRun(s, actions)
    ensures var after := Handle(Disk(s.cache, s.files), s.registry, s.tasks);
            Exec(s, actions) == s.(tasks := after.tasks, cache := after.disk.cache, files := after.disk.files)
    decreases |s.tasks|
  {
    hide Enabled, Apply, PutAway, Storable;
    if s.tasks == [] {
      actions := [];
    } else {
      var first := OneTask(s, w);
      RestStorable(Disk(s.cache, s.files), s.registry, s.tasks);
      var rest := WorkerIsARun(Exec(s, first), w);
      RunJoin(s, first, rest);
      actions := first + rest;
    }
  }

  // ---- Why the router has to hold segments back

  /** Once storage has handled anything of a stream, a later segment of it goes to the file
      the registry would give it exactly when the stream was registered by then, whatever
      the registry has learnt since. */
  lemma AskedTooEarlyExactly(disk: Disk, early: Registry, late: Registry, before: seq<Message>, m: Message, file: File)
    requires late.ExtendsStreams(early) && AllStorable(disk.cache, early, before)
    requires StreamKey(m) !in disk.cache
    requires exists i :: 0 <= i < |before| && StreamKey(before[i]) == StreamKey(m)
    requires StreamKey(m) in late.streamIds && late.streamIds[StreamKey(m)].jobId != ""
    requires FileFor(m, late.streamIds[StreamKey(m)]) == Some(file)
    ensures Lands(Handle(disk, early, before).disk.cache, late, m, file) <==> StreamKey(m) in early.streamIds
  {
    hide StreamKey, Handle, FileFor;
    CacheExactly(disk, early, before);
  }
}

/** How the state of router, registry and storage follows from what has happened in a run. */
module Histories {
  import opened Prelude
  import opened Bytes
  import opened Media
  import opened Codec
  import opened Registries
  import opened Routers
  import opened Archiving
  import opened Filing
  import Text

  // ---- The router's gate

  /** The segment arrives at a moment at which its stream is registered. */
  ghost predicate ArrivesKnown(s: State, actions: seq<Action>, m: Message)
    requires CanRun(s, actions)
    decreases |actions|
  {
    actions != [] &&
    ((actions[0] == Arrive(m) && Known(s.registry, m)) || ArrivesKnown(Apply(s, actions[0]), actions[1..], m))
  }

  lemma StepPublishes(s: State, a: Action, m: Message)
    requires Enabled(s, a)
    ensures m in Apply(s, a).published <==> m in s.published || (a == Arrive(m) && Known(s.registry, m))
  {
    hide FileFor, StreamKey, Chosen;
  }

  /** The router has let through exactly the segments that arrived while their stream was
      registered. */
  lemma {:induction false} PublishedExactly(s: State, actions: seq<Action>, m: Message)
    requires CanRun(s, actions)
    ensures m in Exec(s, actions).published <==> m in s.published || ArrivesKnown(s, actions, m)
    decreases |actions|
  {
    hide Enabled, Apply, Known;
    if actions != [] {
      StepPublishes(s, actions[0], m);
      PublishedExactly(Apply(s, actions[0]), actions[1..], m);
    }
  }

  function Deliveries(actions: seq<Action>): seq<Message> {
    if actions == [] then []
    else (if actions[0].Deliver? then [actions[0].m] else []) + Deliveries(actions[1..])
  }

  /** Storage has been handed every delivery, in order. */
  lemma {:induction false} DeliveredExactly(s: State, actions: seq<Action>)
    requires CanRun(s, actions)
    ensures Exec(s, actions).delivered == s.delivered + Deliveries(actions)
    decreases |actions|
  {
    hide Enabled;
    if actions == [] {
      assert s.delivered + [] == s.delivered;
    } else {
      DeliveredExactly(Apply(s, actions[0]), actions[1..]);
      StepDelivers(s, actions[0]);
      Assoc(s.delivered, if actions[0].Deliver? then [actions[0].m] else [], Deliveries(actions[1..]));
    }
  }

  lemma StepDelivers(s: State, a: Action)
    requires Enabled(s, a)
    ensures Apply(s, a).delivered == s.delivered + if a.Deliver? then [a.m] else []
  {
    hide FileFor, StreamKey, Chosen;
    assert s.delivered + [] == s.delivered;
  }

  // ---- Registration

  /** Registered, or about to be indexed. */
  predicate Promised(s: State, stream: string) {
    stream in s.registry.streamIds || (s.adding.Some? && stream in s.adding.value.streamIds)
  }

  predicate Requested(actions: seq<Action>, stream: string) {
    exists i :: 0 <= i < |actions| && actions[i].Register? && stream in actions[i].job.streamIds
  }

  lemma StepPromises(s: State, a: Action, stream: string)
    requires Enabled(s, a)
    ensures Promised(Apply(s, a), stream) <==> Promised(s, stream) || (a.Register? && stream in a.job.streamIds)
  {
    hide FileFor, StreamKey, Chosen;
  }

  /** The streams registered, or about to be, are those of the jobs the handler settled on. */
  lemma {:induction false} PromisedExactly(s: State, actions: seq<Action>, stream: string)
    requires CanRun(s, actions)
    ensures Promised(Exec(s, actions), stream) <==> Promised(s, stream) || Requested(actions, stream)
    decreases |actions|
  {
    hide Enabled, Apply, Promised;
    if actions != [] {
      var rest := actions[1..];
      StepPromises(s, actions[0], stream);
      PromisedExactly(Apply(s, actions[0]), rest, stream);
      if Requested(rest, stream) {
        var i :| 0 <= i < |rest| && rest[i].Register? && stream in rest[i].job.streamIds;
        assert actions[i + 1] == rest[i];
      }
      if Requested(actions, stream) && !(actions[0].Register? && stream in actions[0].job.streamIds) {
        var i :| 0 <= i < |actions| && actions[i].Register? && stream in actions[i].job.streamIds;
        assert rest[i - 1] == actions[i];
      }
    }
  }

  // ---- The lock of the lookup cache

  predicate AtRegistry(worker: Worker) {
    worker.Asking? || worker.Answered?
  }

  /** Only the worker that has the lock is asking the registry, and only for a stream that
      is not cached. */
  ghost predicate Locked(s: State) {
    && (s.cacheOwner.Some? ==>
          && s.cacheOwner.value < |s.workers| && AtRegistry(s.workers[s.cacheOwner.value])
          && StreamKey(s.workers[s.cacheOwner.value].m) !in s.cache)
    && forall w :: 0 <= w < |s.workers| && AtRegistry(s.workers[w]) ==> s.cacheOwner == Some(w)
  }

  /** How often the registry is asked for a stream. */
  ghost function Asks(s: State, actions: seq<Action>, stream: string): nat
    requires CanRun(s, actions)
    decreases |actions|
  {
    if actions == [] then 0
    else
      var a := actions[0];
      (if a.Reply? && StreamKey(s.workers[a.w].m) == stream then 1 else 0) + Asks(Apply(s, a), actions[1..], stream)
  }

  /** Whether an answer for the stream has come, cached or on its way to the cache. */
  ghost predicate Told(s: State, stream: string) {
    stream in s.cache ||
    exists w :: 0 <= w < |s.workers| && s.workers[w].Answered? && StreamKey(s.workers[w].m) == stream
  }

  lemma WorkerStepLocked(s: State, w: nat)
    requires w < |s.workers| && (s.workers[w] == Free ==> s.tasks != []) && Locked(s)
    requires s.workers[w].Got? ==> s.cacheOwner == None
    ensures Locked(WorkerStep(s, w))
  {
    hide StreamKey, FileFor;
  }

  /** A worker's step makes an answer known exactly when the registry gives it. */
  lemma WorkerStepTells(s: State, w: nat, stream: string)
    requires w < |s.workers| && (s.workers[w] == Free ==> s.tasks != []) && Locked(s)
    ensures var asks := s.workers[w].Asking? && StreamKey(s.workers[w].m) == stream;
            (Told(WorkerStep(s, w), stream) <==> Told(s, stream) || asks) && !(Told(s, stream) && asks)
  {
    hide StreamKey, FileFor, Served;
    var t := WorkerStep(s, w);
    if Told(s, stream) && stream !in s.cache {
      var v :| 0 <= v < |s.workers| && s.workers[v].Answered? && StreamKey(s.workers[v].m) == stream;
      assert v != w ==> t.workers[v] == s.workers[v];
    }
    if Told(t, stream) && stream !in t.cache {
      var v :| 0 <= v < |t.workers| && t.workers[v].Answered? && StreamKey(t.workers[v].m) == stream;
      assert v != w ==> t.workers[v] == s.workers[v];
    }
    if s.workers[w].Asking? {
      assert t.workers[w].Answered?;
    }
  }

  lemma StepTells(s: State, a: Action, stream: string)
    requires Enabled(s, a) && Locked(s)
    ensures Locked(Apply(s, a))
    ensures var asks := a.Reply? && StreamKey(s.workers[a.w].m) == stream;
            (Told(Apply(s, a), stream) <==> Told(s, stream) || asks) && !(Told(s, stream) && asks)
  {
    hide StreamKey, FileFor, Chosen, WorkerStep;
    match a
    case Register(_, _) => SameTold(s, Apply(s, a), stream);
    case IndexStreams => SameTold(s, Apply(s, a), stream);
    case Arrive(_) => SameTold(s, Apply(s, a), stream);
    case Deliver(_) => SameTold(s, Apply(s, a), stream);
    case Take(w) => WorkerStepLocked(s, w); WorkerStepTells(s, w, stream);
    case Query(w) => WorkerStepLocked(s, w); WorkerStepTells(s, w, stream);
    case Reply(w) => WorkerStepLocked(s, w); WorkerStepTells(s, w, stream);
    case Remember(w) => WorkerStepLocked(s, w); WorkerStepTells(s, w, stream);
    case Write(w) => WorkerStepLocked(s, w); WorkerStepTells(s, w, stream);
  }

  lemma SameTold(s: State, t: State, stream: string)
    requires t.workers == s.workers && t.cache == s.cache
    ensures Told(t, stream) == Told(s, stream)
  {
  }

  lemma {:induction false} RunTells(s: State, actions: seq<Action>, stream: string)
    requires CanRun(s, actions) && Locked(s)
    ensures Locked(Exec(s, actions))
    ensures Asks(s, actions, stream) + (if Told(s, stream) then 1 else 0)
            == if Told(Exec(s, actions), stream) then 1 else 0
    decreases |actions|
  {
    hide Enabled, Apply, Told, Locked;
    if actions != [] {
      StepTells(s, actions[0], stream);
      RunTells(Apply(s, actions[0]), actions[1..], stream);
    }
  }

  /** However many workers look a stream up, the registry is asked for it at most once in a
      run, and once for every stream in the cache; no two workers are ever asking at the
      same time. */
  lemma AskedOnce(host: Host, nThreads: nat, actions: seq<Action>, stream: string)
    requires CanRun(Init(host, nThreads), actions)
    ensures var s, asks := Exec(Init(host, nThreads), actions), Asks(Init(host, nThreads), actions, stream);
            && asks <= 1 && (stream in s.cache ==> asks == 1)
            && forall v, w | 0 <= v < |s.workers| && 0 <= w < |s.workers| ::
                 AtRegistry(s.workers[v]) && AtRegistry(s.workers[w]) ==> v == w
  {
    RunTells(Init(host, nThreads), actions, stream);
  }

  // ---- Directories

  /** The directory of a job is there, and its description in it. */
  predicate HasDirectory(host: Host, jobId: string) {
    Entry(TempDir, jobId) in host.disk && Inside(jobId, "metadata.json") in host.disk
  }

  /** The directories of a job and of its stream are there. */
  predicate HasPlace(host: Host, jobId: string, stream: string) {
    HasDirectory(host, jobId) && Inside(jobId, stream) in host.disk
  }

  ghost predicate Housed(s: State) {
    && (forall id <- s.registry.jobs :: HasDirectory(s.host, id))
    && (forall k <- s.registry.streamIds :: HasPlace(s.host, s.registry.streamIds[k].jobId, k))
    && (s.adding.Some? ==>
          forall i :: 0 <= i < |s.adding.value.streamIds| ==>
            HasPlace(s.host, s.adding.value.jobId, s.adding.value.streamIds[i]))
  }

  lemma StepHoused(s: State, a: Action)
    requires Enabled(s, a) && Housed(s)
    ensures Housed(Apply(s, a))
  {
    hide FileFor, StreamKey, Chosen, WorkerStep;
    match a
    case Register(_, job) =>
      var t := Apply(s, a);
      assert forall i :: 0 <= i < |job.streamIds| ==> HasPlace(t.host, job.jobId, job.streamIds[i]);
    case IndexStreams =>
    case Arrive(_) =>
    case Deliver(_) =>
    case Take(w) => WorkersLeaveRegistry(s, w);
    case Query(w) => WorkersLeaveRegistry(s, w);
    case Reply(w) => WorkersLeaveRegistry(s, w);
    case Remember(w) => WorkersLeaveRegistry(s, w);
    case Write(w) => WorkersLeaveRegistry(s, w);
  }

  lemma {:induction false} RunHoused(s: State, actions: seq<Action>)
    requires CanRun(s, actions) && Housed(s)
    ensures Housed(Exec(s, actions))
    decreases |actions|
  {
    hide Housed, Enabled, Apply;
    if actions != [] {
      StepHoused(s, actions[0]);
      RunHoused(Apply(s, actions[0]), actions[1..]);
    }
  }

  /** In every run each job that is found has its directory with its description, and each
      stream that is found has one in that of its job. */
  lemma RegisteredHavePlaces(host: Host, nThreads: nat, actions: seq<Action>)
    requires CanRun(Init(host, nThreads), actions)
    ensures var s := Exec(Init(host, nThreads), actions);
            && (forall id <- s.registry.jobs :: HasDirectory(s.host, id))
            && (forall k <- s.registry.streamIds :: HasPlace(s.host, s.registry.streamIds[k].jobId, k))
  {
    RunHoused(Init(host, nThreads), actions);
  }

  /** Storage writes only where the router's job handler has made the directories. */
  lemma FilesHavePlaces(host: Host, nThreads: nat, actions: seq<Action>, file: File)
    requires CanRun(Init(host, nThreads), actions)
    requires file in Exec(Init(host, nThreads), actions).files
    ensures HasPlace(Exec(Init(host, nThreads), actions).host, file.jobId, file.stream)
  {
    hide StreamKey, GetSegment;
    var s := Exec(Init(host, nThreads), actions);
    RunHoused(Init(host, nThreads), actions);
    EverythingIsFiled(host, nThreads, actions);
    var m :| Origin(s, file, m);
  }
}

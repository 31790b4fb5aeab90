/** Runs that bring a registered stream to disk exist, so that reading it back says
    something about every stream. */
module Storing {
  import opened Prelude
  import opened Bytes
  import opened Media
  import opened Codec
  import opened Registries
  import opened Routers
  import opened Archiving
  import opened Filing
  import opened Histories
  import opened EndToEnd
  import Splitting
  import Storages
  import Text

  // ---- Through the router

  function Messages(id: Uuid, segs: seq<Seg>): (r: seq<Message>)
    ensures |r| == |segs| && forall i :: 0 <= i < |r| ==> r[i] == Message(id, Save(segs[i]))
  {
    seq(|segs|, i requires 0 <= i < |segs| => Message(id, Save(segs[i])))
  }

  /** A segment of a registered stream passes the router and reaches storage. */
  lemma SendOne(s: State, m: Message) returns (actions: seq<Action>)
    requires Known(s.registry, m)
    ensures CanRun(s, actions)
    ensures Exec(s, actions)
            == s.(published := s.published + {m}, delivered := s.delivered + [m], tasks := s.tasks + [m])
  {
    hide StreamKey, CanRun, Exec;
    var t := Apply(s, Arrive(m));
    RunNothing(Apply(t, Deliver(m)));
    Storages.RunStep(t, Deliver(m), []);
    Storages.RunStep(s, Arrive(m), [Deliver(m)] + []);
    actions := [Arrive(m)] + ([Deliver(m)] + []);
  }

  lemma RunNothing(s: State)
    ensures CanRun(s, []) && Exec(s, []) == s
  {
  }

  /** The state once the segments have been let through and handed over. */
  function Handed(s: State, ms: seq<Message>): State {
    s.(published := s.published + (set m | m in ms), delivered := s.delivered + ms, tasks := s.tasks + ms)
  }

  lemma {:induction false} SendAll(s: State, ms: seq<Message>) returns (actions: seq<Action>)
    requires forall m <- ms :: Known(s.registry, m)
    ensures CanRun(s, actions) && Exec(s, actions) == Handed(s, ms)
    decreases |ms|
  {
    hide StreamKey, Known, CanRun, Exec;
    if ms == [] {
      RunNothing(s);
      assert Handed(s, ms) == s;
      actions := [];
    } else {
      var first := SendOne(s, ms[0]);
      var t := Exec(s, first);
      var rest := SendAll(t, ms[1..]);
      Storages.RunJoin(s, first, rest);
      assert ms == [ms[0]] + ms[1..];
      Assoc(s.delivered, [ms[0]], ms[1..]);
      Assoc(s.tasks, [ms[0]], ms[1..]);
      assert s.published + {ms[0]} + (set m | m in ms[1..]) == s.published + (set m | m in ms);
      actions := first + rest;
    }
  }

  // ---- Storage comes to rest

  predicate Loads(m: Message) {
    GetSegment(m.body).Some?
  }

  /** Everything storage has been handed loads, and what it is at work on was handed to it. */
  ghost predicate Loadable(s: State) {
    && (forall m <- s.delivered :: Loads(m))
    && Traced(s) && Locked(s)
  }

  /** What stays the same while storage works. */
  ghost predicate Beside(s: State, t: State) {
    t.registry == s.registry && t.delivered == s.delivered && t.adding == s.adding && |t.workers| == |s.workers|
  }

  lemma LoadedStorable(s: State, m: Message)
    requires Loads(m)
    ensures Storages.Storable(s.cache, s.registry, m)
    ensures forall job :: FileFor(m, job).Some?
  {
  }

  /** Whoever has the lock can finish with it. */
  lemma Unlock(s: State) returns (actions: seq<Action>)
    requires Loadable(s)
    ensures CanRun(s, actions)
    ensures var t := Exec(s, actions);
            Loadable(t) && t.cacheOwner == None && Beside(s, t)
  {
    hide StreamKey, GetSegment, Served, CanRun, Exec, Loads;
    if s.cacheOwner == None {
      RunNothing(s);
      actions := [];
    } else {
      var w := s.cacheOwner.value;
      var t, first := s, [];
      RunNothing(s);
      if s.workers[w].Asking? {
        t, first := Apply(s, Reply(w)), [Reply(w)];
        RunNothing(t);
        Storages.RunStep(s, Reply(w), []);
        assert [Reply(w)] + [] == [Reply(w)];
        WorkerStepLocked(s, w);
      }
      var u := Apply(t, Remember(w));
      WorkerStepLocked(t, w);
      RunNothing(u);
      Storages.RunStep(t, Remember(w), []);
      assert [Remember(w)] + [] == [Remember(w)];
      Storages.RunJoin(s, first, [Remember(w)]);
      actions := first + [Remember(w)];
    }
  }

  /** With the lock free, a worker can finish what it has in hand. */
  lemma FreeOne(s: State, w: nat) returns (actions: seq<Action>)
    requires w < |s.workers| && Loadable(s) && s.cacheOwner == None
    ensures CanRun(s, actions)
    ensures var t := Exec(s, actions);
            Loadable(t) && t.cacheOwner == None && Beside(s, t) && t.workers == s.workers[w := Free]
  {
    hide StreamKey, GetSegment, CanRun, Exec, FileFor, Loads;
    match s.workers[w]
    case Free =>
      RunNothing(s);
      actions := [];
    case Got(m) =>
      LoadedStorable(s, m);
      actions := Storages.QueryRun(s, w, m);
    case Prepared(m, job) =>
      LoadedStorable(s, m);
      actions := Storages.WriteRun(s, w, m, job);
    case Asking(_) => assert false;
    case Answered(_, _) => assert false;
  }

  lemma {:induction false} FreeFrom(s: State, w: nat) returns (actions: seq<Action>)
    requires w <= |s.workers| && Loadable(s) && s.cacheOwner == None
    requires forall v :: 0 <= v < w ==> s.workers[v] == Free
    ensures CanRun(s, actions)
    ensures var t := Exec(s, actions);
            && Loadable(t) && t.cacheOwner == None && Beside(s, t)
            && forall v :: 0 <= v < |t.workers| ==> t.workers[v] == Free
    decreases |s.workers| - w
  {
    hide Loadable, CanRun, Exec;
    if w == |s.workers| {
      RunNothing(s);
      actions := [];
    } else {
      var first := FreeOne(s, w);
      var rest := FreeFrom(Exec(s, first), w + 1);
      Storages.RunJoin(s, first, rest);
      actions := first + rest;
    }
  }

  /** A free worker stores everything that is left. */
  lemma StoreRest(s: State) returns (actions: seq<Action>)
    requires Loadable(s) && s.cacheOwner == None && s.workers != []
    requires forall v :: 0 <= v < |s.workers| ==> s.workers[v] == Free
    ensures CanRun(s, actions)
    ensures var t := Exec(s, actions); t.tasks == [] && t.workers == s.workers && Beside(s, t)
  {
    hide CanRun, Exec, Storages.Storable, Loads, Storages.Handle;
    forall i | 0 <= i < |s.tasks|
      ensures Storages.Storable(s.cache, s.registry, s.tasks[i])
    {
      LoadedStorable(s, s.tasks[i]);
    }
    Storages.HandlesAllExactly(Storages.Disk(s.cache, s.files), s.registry, s.tasks);
    actions := Storages.WorkerIsARun(s, 0);
  }

  ghost predicate AtRest(s: State) {
    s.tasks == [] && forall v :: 0 <= v < |s.workers| ==> s.workers[v] == Free
  }

  /** If there is a worker, storage can come to rest. */
  lemma ComesToRest(s: State) returns (actions: seq<Action>)
    requires Loadable(s) && s.workers != []
    ensures CanRun(s, actions) && AtRest(Exec(s, actions)) && Beside(s, Exec(s, actions))
  {
    hide Loadable, CanRun, Exec;
    var a := Unlock(s);
    var t := Exec(s, a);
    var b := FreeFrom(t, 0);
    var u := Exec(t, b);
    var c := StoreRest(u);
    Storages.RunJoin(t, b, c);
    Storages.RunJoin(s, a, b + c);
    actions := a + (b + c);
  }

  // ---- A stream comes to disk

  /** What has been delivered so far under the stream's identifier is of this job, and
      everything delivered loads. */
  ghost predicate Undisturbed(s: State, id: Uuid, job: EndToEnd.Job)
    requires job.Sound()
  {
    && (forall m <- s.delivered :: Loads(m))
    && (forall m <- s.delivered | m.id == id :: exists seg :: seg in job.Published() && m.body == Save(seg))
  }

  lemma MessagesLoad(id: Uuid, job: EndToEnd.Job)
    requires job.Sound()
    ensures forall m <- Messages(id, job.Published()) :: Loads(m) && m.id == id
    ensures job.Published() != []
  {
    hide GetSegment, PutSegment, WireExact;
    PublishedSegments(job);
    var segs := job.Published();
    forall i | 0 <= i < |segs|
      ensures Loads(Messages(id, segs)[i])
    {
      SegmentRoundTripExactly(segs[i], []);
    }
    Splitting.FlushTimesKeeps(job.Filled(), job.flushes);
  }

  lemma HandedDelivers(s: State, id: Uuid, job: EndToEnd.Job)
    requires job.Sound() && Undisturbed(s, id, job)
    ensures var t := Handed(s, Messages(id, job.Published()));
            Undisturbed(t, id, job) && DeliversJob(t, id, job)
  {
    hide Loads, Save;
    var segs := job.Published();
    var ms := Messages(id, segs);
    MessagesLoad(id, job);
    forall m | m in ms
      ensures exists seg :: seg in segs && m.body == Save(seg)
    {
      var i :| 0 <= i < |ms| && ms[i] == m;
      assert segs[i] in segs;
    }
    forall seg | seg in segs
      ensures Message(id, Save(seg)) in ms
    {
      var i :| 0 <= i < |segs| && segs[i] == seg;
      assert ms[i] == Message(id, Save(seg));
    }
  }

  /** From any point of a run at which the stream is registered, its segments can be sent,
      delivered and stored. */
  lemma StreamIsStored(host: Host, nThreads: nat, earlier: seq<Action>, id: Uuid, job: EndToEnd.Job)
    returns (later: seq<Action>)
    requires CanRun(Init(host, nThreads), earlier) && nThreads > 0 && job.Sound()
    requires var s := Exec(Init(host, nThreads), earlier);
             Text.Unparse(id) in s.registry.streamIds && Undisturbed(s, id, job)
    ensures var s := Exec(Init(host, nThreads), earlier);
            && CanRun(s, later) && Exec(s, later).registry == s.registry
            && DeliversJob(Exec(s, later), id, job) && Quiet(Exec(s, later), id)
  {
    hide CanRun, Exec, Loads, Save, Coherent, Accounted, Sourced, Text.Unparse, Undisturbed, Messages;
    var s := Exec(Init(host, nThreads), earlier);
    var ms := Messages(id, job.Published());
    MessagesLoad(id, job);
    assert forall m <- ms :: Known(s.registry, m);
    var send := SendAll(s, ms);
    var t := Exec(s, send);
    HandedDelivers(s, id, job);
    ReachedLoadable(host, nThreads, earlier, send, id, job);
    var rest := ComesToRest(t);
    Storages.RunJoin(s, send, rest);
    later := send + rest;
  }

  lemma ReachedLoadable(host: Host, nThreads: nat, earlier: seq<Action>, send: seq<Action>, id: Uuid, job: EndToEnd.Job)
    requires CanRun(Init(host, nThreads), earlier) && CanRun(Exec(Init(host, nThreads), earlier), send)
    requires job.Sound() && Undisturbed(Exec(Exec(Init(host, nThreads), earlier), send), id, job)
    ensures var t := Exec(Exec(Init(host, nThreads), earlier), send);
            Loadable(t) && |t.workers| == nThreads
  {
    hide CanRun, Exec, Loads, Coherent, Accounted, Sourced;
    var start := Init(host, nThreads);
    Storages.RunJoin(start, earlier, send);
    RunOrderlyFromInit(host, nThreads, earlier + send);
    RunTells(start, earlier + send, "");
    SameWorkers(start, earlier + send);
  }

  lemma {:induction false} SameWorkers(s: State, actions: seq<Action>)
    requires CanRun(s, actions)
    ensures |Exec(s, actions).workers| == |s.workers|
    ensures s.workers == [] && s.tasks == s.delivered ==>
              Exec(s, actions).tasks == Exec(s, actions).delivered
    decreases |actions|
  {
    hide StreamKey, FileFor, Chosen;
    if actions != [] {
      SameWorkers(Apply(s, actions[0]), actions[1..]);
    }
  }

  lemma NeverQuiet(s: State, id: Uuid, job: EndToEnd.Job)
    requires job.Sound() && s.tasks == s.delivered && DeliversJob(s, id, job)
    ensures !Quiet(s, id)
  {
    hide Save;
    MessagesLoad(id, job);
    var m := Message(id, Save(job.Published()[0]));
    assert m in s.tasks && Pending(s, m);
  }

  /** A registered stream can still be brought to disk, with nothing of it waiting, exactly
      if storage has a worker. */
  lemma StreamCanBeStoredExactly(host: Host, nThreads: nat, earlier: seq<Action>, id: Uuid, job: EndToEnd.Job)
    requires CanRun(Init(host, nThreads), earlier) && job.Sound()
    requires var s := Exec(Init(host, nThreads), earlier);
             Text.Unparse(id) in s.registry.streamIds && Undisturbed(s, id, job)
    ensures var s := Exec(Init(host, nThreads), earlier);
            (exists later :: CanRun(s, later)
               && DeliversJob(Exec(s, later), id, job) && Quiet(Exec(s, later), id)) <==> nThreads > 0
  {
    hide CanRun, Exec, Save, Undisturbed, Text.Unparse;
    var s := Exec(Init(host, nThreads), earlier);
    if nThreads > 0 {
      var later := StreamIsStored(host, nThreads, earlier, id, job);
    } else if later :| CanRun(s, later) && DeliversJob(Exec(s, later), id, job) && Quiet(Exec(s, later), id) {
      SameWorkers(Init(host, nThreads), earlier);
      SameWorkers(s, later);
      NeverQuiet(Exec(s, later), id, job);
      assert false;
    }
  }

  /** For any request with a job id that is not in use, there are runs after which its
      streams are registered, and any one of them is on disk and can be read back. */
  lemma ReassemblyHappens(host: Host, nThreads: nat, request: Registries.Job, id: Uuid, job: EndToEnd.Job)
    returns (actions: seq<Action>, names: seq<string>, segs: seq<Seg>)
    requires nThreads > 0 && request.jobId != "" && !host.Exists(request.jobId)
    requires Text.Unparse(id) in request.streamIds
    requires job.Sound() && Splitting.IncreasingDts(job.packets)
    ensures CanRun(Init(host, nThreads), actions)
    ensures var s := Exec(Init(host, nThreads), actions);
            && Text.Unparse(id) in s.registry.streamIds && s.registry.streamIds[Text.Unparse(id)] == request
            && DeliversJob(s, id, job) && Quiet(s, id)
            && ReadBack(s.files, request.jobId, Text.Unparse(id), names, segs)
            && Flatten(Bodies(segs)) == job.packets
  {
    hide CanRun, Exec, Loads, Text.Unparse, DeliversJob, Quiet, ReadBack, Splitting.IncreasingDts;
    var start, key := Init(host, nThreads), Text.Unparse(id);
    var r := Register(request, request);
    var t := Apply(start, r);
    var u := Apply(t, IndexStreams);
    RunNothing(u);
    Storages.RunStep(t, IndexStreams, []);
    Storages.RunStep(start, r, [IndexStreams] + []);
    var first := [r] + ([IndexStreams] + []);
    assert u.delivered == [] && u.registry.streamIds[key] == request;
    var later := StreamIsStored(host, nThreads, first, id, job);
    Storages.RunJoin(start, first, later);
    actions := first + later;
    names, segs := OnDisk(host, nThreads, actions, id, job);
    Reassembly(host, nThreads, actions, id, job, names, segs);
  }
}

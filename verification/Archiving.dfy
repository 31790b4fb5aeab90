/** Router, registry and storage together: a transition system in which requests are
    registered, segments pass the router's gate, and storage workers look their streams up
    and file them. Each action is one critical section, one message or one write. */
module Archiving {
  import opened Prelude
  import opened Bytes
  import opened Media
  import opened Codec
  import opened Registries
  import opened Routers
  import Text

  /** A segment on the wire, with the identifier of its stream. */
  datatype Message = Message(id: Uuid, body: seq<byte>)

  function StreamKey(m: Message): string {
    Text.Unparse(m.id)
  }

  /** Where a storage worker is with its task. */
  datatype Worker =
    | Free
    | Got(m: Message)
    | Asking(m: Message)               // holds the lock of the lookup cache
    | Answered(m: Message, job: Job)   // still holds it
    | Prepared(m: Message, job: Job)

  /** A file: the job's directory, the stream's directory in it, and the name. */
  datatype File = File(jobId: string, stream: string, name: string)

  datatype State = State(
    host: Host,
    registry: Registry,
    adding: Option<Job>,             // in the index by job, not yet in the one by stream
    published: set<Message>,         // let through by the router
    delivered: seq<Message>,         // handed to storage
    tasks: seq<Message>,
    workers: seq<Worker>,
    cache: map<string, Job>,
    cacheOwner: Option<nat>,
    files: map<File, seq<byte>>)

  function Init(host: Host, nThreads: nat): State {
    State(host, Registry(map[], map[]), None, {}, [], [], seq(nThreads, _ => Free), map[], None, map[])
  }

  datatype Action =
    | Register(request: Job, job: Job)  // the handler settles on `job` and indexes it by id
    | IndexStreams                      // ... and then by its streams
    | Arrive(m: Message)                // a segment reaches the router
    | Deliver(m: Message)               // a published segment reaches storage, perhaps again
    | Take(w: nat)
    | Query(w: nat)
    | Reply(w: nat)
    | Remember(w: nat)
    | Write(w: nat)

  /** What the registry answers to a query for a stream it does not know. */
  const DEFAULT_JOB := Job("", "", "", [])

  function Served(registry: Registry, stream: string): Job {
    if stream in registry.streamIds then registry.streamIds[stream] else DEFAULT_JOB
  }

  /** The file a segment belongs in, if its body loads. */
  function FileFor(m: Message, job: Job): Option<File> {
    match GetSegment(m.body)
    case None => None
    case Some((seg, _)) => Some(File(job.jobId, StreamKey(m), Text.ToString(seg.dts)))
  }

  // ---- The steps

  ghost predicate Enabled(s: State, a: Action) {
    match a
    case Register(request, job) => s.adding.None? && Chosen(s.host, s.registry, request, job)
    case IndexStreams => s.adding.Some?
    case Arrive(_) => true
    case Deliver(m) => m in s.published
    case Take(w) => w < |s.workers| && s.workers[w] == Free && s.tasks != []
    case Query(w) => w < |s.workers| && s.workers[w].Got? && s.cacheOwner == None
    case Reply(w) => w < |s.workers| && s.workers[w].Asking?
    case Remember(w) => w < |s.workers| && s.workers[w].Answered?
    case Write(w) =>
      && w < |s.workers| && s.workers[w].Prepared?
      && (s.workers[w].job.jobId == "" || FileFor(s.workers[w].m, s.workers[w].job).Some?)
  }

  function Move(s: State, w: nat, to: Worker): State
    requires w < |s.workers|
  {
    s.(workers := s.workers[w := to])
  }

  function WorkerStep(s: State, w: nat): State
    requires w < |s.workers|
    requires s.workers[w] == Free ==> s.tasks != []
  {
    match s.workers[w]
    case Free => Move(s, w, Got(s.tasks[0])).(tasks := s.tasks[1..])
    case Got(m) =>
      if StreamKey(m) in s.cache then Move(s, w, Prepared(m, s.cache[StreamKey(m)]))
      else Move(s, w, Asking(m)).(cacheOwner := Some(w))
    case Asking(m) => Move(s, w, Answered(m, Served(s.registry, StreamKey(m))))
    case Answered(m, job) => Move(s, w, Prepared(m, job)).(cache := s.cache[StreamKey(m) := job], cacheOwner := None)
    case Prepared(m, job) =>
      var freed := Move(s, w, Free);
      if job.jobId == "" then freed
      else
        match FileFor(m, job)
        case None => s
        case Some(file) => freed.(files := s.files[file := m.body])
  }

  function Apply(s: State, a: Action): State
    requires Enabled(s, a)
  {
    match a
    case Register(_, job) =>
      s.(host := s.host.Holding(job), registry := s.registry.WithJob(job), adding := Some(job))
    case IndexStreams => s.(registry := s.registry.WithStreams(s.adding.value), adding := None)
    case Arrive(m) => if StreamKey(m) in s.registry.streamIds then s.(published := s.published + {m}) else s
    case Deliver(m) => s.(delivered := s.delivered + [m], tasks := s.tasks + [m])
    case Take(w) => WorkerStep(s, w)
    case Query(w) => WorkerStep(s, w)
    case Reply(w) => WorkerStep(s, w)
    case Remember(w) => WorkerStep(s, w)
    case Write(w) => WorkerStep(s, w)
  }

  ghost predicate CanRun(s: State, actions: seq<Action>)
    decreases |actions|
  {
    actions == [] || (Enabled(s, actions[0]) && CanRun(Apply(s, actions[0]), actions[1..]))
  }

  ghost function Exec(s: State, actions: seq<Action>): State
    requires CanRun(s, actions)
    decreases |actions|
  {
    if actions == [] then s else Exec(Apply(s, actions[0]), actions[1..])
  }

  // ---- The registry over a run

  /** Every request proposes a job id. */
  predicate Named(actions: seq<Action>) {
    forall i :: 0 <= i < |actions| && actions[i].Register? ==> actions[i].request.jobId != ""
  }

  /** A job found by stream is the one found by its own id, also half-way through a
      registration; the job being added is found by id, and none of its streams are taken. */
  ghost predicate Indexed(s: State) {
    && s.registry.IndexesAgree() && Rooted(s.host, s.registry)
    && (s.adding.Some? ==>
          && var job := s.adding.value;
          && job.jobId in s.registry.jobs && s.registry.jobs[job.jobId] == job
          && forall i :: 0 <= i < |job.streamIds| ==> job.streamIds[i] !in s.registry.streamIds)
  }

  lemma WorkersLeaveRegistry(s: State, w: nat)
    requires w < |s.workers| && (s.workers[w] == Free ==> s.tasks != [])
    ensures var t := WorkerStep(s, w);
            && t.registry == s.registry && t.host == s.host && t.adding == s.adding
            && t.published == s.published && t.delivered == s.delivered
  {
  }

  lemma NewJobId(host: Host, registry: Registry, request: Job, job: Job)
    requires Rooted(host, registry) && Chosen(host, registry, request, job) && request.jobId != ""
    ensures job.jobId !in registry.jobs
    ensures forall i :: 0 <= i < |job.streamIds| ==> job.streamIds[i] !in registry.streamIds
    ensures Rooted(host.Holding(job), registry.WithJob(job))
    ensures var after := registry.WithJob(job);
            job.jobId in after.jobs && after.jobs[job.jobId] == job && after.streamIds == registry.streamIds
  {
    TakesOverExactly(host, registry, request, job);
  }

  lemma RegisterIndexed(s: State, request: Job, job: Job)
    requires s.adding.None? && Chosen(s.host, s.registry, request, job) && request.jobId != "" && Indexed(s)
    ensures Indexed(s.(host := s.host.Holding(job), registry := s.registry.WithJob(job), adding := Some(job)))
    ensures s.registry.WithJob(job).Extends(s.registry)
  {
    hide Registry.IndexesAgree, Registry.Extends, Chosen, Registry.WithJob, Host.Holding, Rooted;
    NewJobId(s.host, s.registry, request, job);
    NewIdsExtend(s.registry, job);
  }

  lemma StepIndexed(s: State, a: Action)
    requires Enabled(s, a) && Indexed(s) && (a.Register? ==> a.request.jobId != "")
    ensures Indexed(Apply(s, a)) && Apply(s, a).registry.Extends(s.registry)
  {
    hide FileFor, StreamKey, Chosen, Rooted, Registry.IndexesAgree, WorkerStep;
    match a
    case Register(request, job) => RegisterIndexed(s, request, job);
    case IndexStreams =>
      StreamsExtend(s.registry, s.adding.value);
      StreamsRooted(s.host, s.registry, s.adding.value);
    case Arrive(_) =>
    case Deliver(_) =>
    case Take(w) => WorkersLeaveRegistry(s, w);
    case Query(w) => WorkersLeaveRegistry(s, w);
    case Reply(w) => WorkersLeaveRegistry(s, w);
    case Remember(w) => WorkersLeaveRegistry(s, w);
    case Write(w) => WorkersLeaveRegistry(s, w);
  }

  lemma StreamsRooted(host: Host, registry: Registry, job: Job)
    requires Rooted(host, registry)
    ensures Rooted(host, registry.WithStreams(job))
  {
  }

  lemma StreamsExtend(registry: Registry, job: Job)
    requires registry.IndexesAgree() && job.jobId in registry.jobs && registry.jobs[job.jobId] == job
    requires forall i :: 0 <= i < |job.streamIds| ==> job.streamIds[i] !in registry.streamIds
    ensures registry.WithStreams(job).Extends(registry) && registry.WithStreams(job).IndexesAgree()
  {
    var after := registry.WithStreams(job);
    forall k | k in after.streamIds
      ensures var j := after.streamIds[k]; k in j.streamIds && j.jobId in after.jobs && after.jobs[j.jobId] == j
    {
      if k !in job.streamIds {
        assert registry.streamIds[k].jobId in registry.jobs;
      }
    }
  }

  lemma {:induction false} RunIndexed(s: State, actions: seq<Action>)
    requires CanRun(s, actions) && Indexed(s) && Named(actions)
    ensures Indexed(Exec(s, actions)) && Exec(s, actions).registry.Extends(s.registry)
    decreases |actions|
  {
    hide Indexed, Enabled, Apply;
    if actions != [] {
      var next := Apply(s, actions[0]);
      StepIndexed(s, actions[0]);
      RunIndexed(next, actions[1..]);
      ExtendsTransitive(Exec(s, actions).registry, next.registry, s.registry);
    }
  }

  lemma ExtendsTransitive(c: Registry, b: Registry, a: Registry)
    requires c.ExtendsStreams(b) && b.ExtendsStreams(a)
    ensures c.ExtendsStreams(a)
    ensures c.Extends(b) && b.Extends(a) ==> c.Extends(a)
  {
  }

  /** In every state of a run, half-way through a registration included, whatever is found
      by stream is found by job id too; and no id, once registered, is ever found
      differently. */
  lemma RegistryOnlyGrows(host: Host, nThreads: nat, earlier: seq<Action>, later: seq<Action>)
    requires CanRun(Init(host, nThreads), earlier) && CanRun(Exec(Init(host, nThreads), earlier), later)
    requires Named(earlier) && Named(later)
    ensures var s := Exec(Init(host, nThreads), earlier);
            var t := Exec(s, later);
            s.registry.IndexesAgree() && t.registry.IndexesAgree() && t.registry.Extends(s.registry)
  {
    RunIndexed(Init(host, nThreads), earlier);
    RunIndexed(Exec(Init(host, nThreads), earlier), later);
  }

  // ---- Cache coherence

  predicate Known(registry: Registry, m: Message) {
    StreamKey(m) in registry.streamIds
  }

  function Hand(worker: Worker): Option<Message> {
    match worker
    case Free => None
    case _ => Some(worker.m)
  }

  /** A worker's message is for a registered stream, and the job it was told is the job
      the registry has for it. */
  ghost predicate WorkerCoherent(registry: Registry, worker: Worker) {
    && (worker != Free ==> Known(registry, worker.m))
    && (worker.Answered? || worker.Prepared? ==> worker.job == registry.streamIds[StreamKey(worker.m)])
  }

  ghost predicate Coherent(s: State) {
    && (s.adding.Some? ==>
          forall i :: 0 <= i < |s.adding.value.streamIds| ==> s.adding.value.streamIds[i] !in s.registry.streamIds)
    && (forall m <- s.published :: Known(s.registry, m))
    && (forall m <- s.delivered :: Known(s.registry, m))
    && (forall i :: 0 <= i < |s.tasks| ==> Known(s.registry, s.tasks[i]))
    && (forall w :: 0 <= w < |s.workers| ==> WorkerCoherent(s.registry, s.workers[w]))
    && CacheCoherent(s)
  }

  /** Every cached answer is a registered job, the one the registry has now. */
  ghost predicate CacheCoherent(s: State) {
    forall k <- s.cache :: k in s.registry.streamIds && s.cache[k] == s.registry.streamIds[k]
  }

  lemma StepperCoherent(s: State, w: nat)
    requires w < |s.workers| && (s.workers[w] == Free ==> s.tasks != []) && Coherent(s)
    ensures WorkerCoherent(s.registry, WorkerStep(s, w).workers[w])
  {
    hide StreamKey, FileFor;
    assert WorkerCoherent(s.registry, s.workers[w]);
  }

  lemma StepCached(s: State, w: nat)
    requires w < |s.workers| && (s.workers[w] == Free ==> s.tasks != []) && Coherent(s)
    ensures var t := WorkerStep(s, w);
            && t.registry == s.registry && CacheCoherent(t)
            && t.tasks == if s.workers[w] == Free then s.tasks[1..] else s.tasks
  {
    hide StreamKey, FileFor;
    assert WorkerCoherent(s.registry, s.workers[w]);
  }

  lemma WorkerStepCoherent(s: State, w: nat)
    requires w < |s.workers| && (s.workers[w] == Free ==> s.tasks != []) && Coherent(s)
    ensures Coherent(WorkerStep(s, w))
  {
    hide StreamKey, FileFor, WorkerCoherent;
    var t := WorkerStep(s, w);
    assert t.registry == s.registry && t.adding == s.adding;
    forall v | 0 <= v < |t.workers|
      ensures WorkerCoherent(t.registry, t.workers[v])
    {
      if v == w {
        StepperCoherent(s, w);
      } else {
        assert t.workers[v] == s.workers[v];
      }
    }
    StepCached(s, w);
  }

  lemma RegistryStepCoherent(s: State, a: Action)
    requires Enabled(s, a) && Coherent(s) && (a.Register? || a.IndexStreams?)
    ensures Coherent(Apply(s, a)) && Apply(s, a).registry.ExtendsStreams(s.registry)
  {
    hide StreamKey;
    var t := Apply(s, a);
    forall w | 0 <= w < |t.workers|
      ensures WorkerCoherent(t.registry, t.workers[w])
    {
      assert WorkerCoherent(s.registry, s.workers[w]);
    }
    assert forall i :: 0 <= i < |s.tasks| ==> Known(s.registry, s.tasks[i]);
  }

  lemma StepCoherent(s: State, a: Action)
    requires Enabled(s, a) && Coherent(s)
    ensures Coherent(Apply(s, a)) && Apply(s, a).registry.ExtendsStreams(s.registry)
  {
    hide StreamKey, FileFor, Chosen, WorkerStep, WorkerCoherent;
    match a
    case Register(_, _) => RegistryStepCoherent(s, a);
    case IndexStreams => RegistryStepCoherent(s, a);
    case Arrive(_) =>
    case Deliver(_) =>
    case Take(w) => WorkersLeaveRegistry(s, w); WorkerStepCoherent(s, w);
    case Query(w) => WorkersLeaveRegistry(s, w); WorkerStepCoherent(s, w);
    case Reply(w) => WorkersLeaveRegistry(s, w); WorkerStepCoherent(s, w);
    case Remember(w) => WorkersLeaveRegistry(s, w); WorkerStepCoherent(s, w);
    case Write(w) => WorkersLeaveRegistry(s, w); WorkerStepCoherent(s, w);
  }

  lemma {:induction false} RunCoherent(s: State, actions: seq<Action>)
    requires CanRun(s, actions) && Coherent(s)
    ensures Coherent(Exec(s, actions)) && Exec(s, actions).registry.ExtendsStreams(s.registry)
    decreases |actions|
  {
    hide Coherent, Enabled, Apply;
    if actions != [] {
      var next := Apply(s, actions[0]);
      StepCoherent(s, actions[0]);
      RunCoherent(next, actions[1..]);
      ExtendsTransitive(Exec(s, actions).registry, next.registry, s.registry);
    }
  }

  /** In every run every segment that reaches storage belongs to a registered stream, and
      every answer storage has cached is the job the registry gives for that stream, then
      and forever after. */
  lemma CacheStaysCoherent(host: Host, nThreads: nat, earlier: seq<Action>, later: seq<Action>)
    requires CanRun(Init(host, nThreads), earlier) && CanRun(Exec(Init(host, nThreads), earlier), later)
    ensures var s := Exec(Init(host, nThreads), earlier);
            var t := Exec(s, later);
            && (forall m <- s.delivered :: Known(s.registry, m))
            && CacheCoherent(s)
            && forall k <- s.cache :: k in t.registry.streamIds && s.cache[k] == t.registry.streamIds[k]
  {
    RunCoherent(Init(host, nThreads), earlier);
    RunCoherent(Exec(Init(host, nThreads), earlier), later);
  }
}

/** The router's job handler: it makes job and stream ids unique, creates their directories
    and registers the job. */
module Routers {
  import opened Prelude
  import opened Registries

  /** The directories that names are resolved in. If the process was started in the temp
      directory, its working directory is TempDir from the beginning. */
  datatype Dir = StartDir | TempDir

  /** Entries of a directory, and entries of the directory of a job in the temp root. */
  datatype Path = Entry(dir: Dir, name: string) | Inside(jobId: string, name: string)

  datatype Host = Host(cwd: Dir, disk: set<Path>)
  {
    /** Whether a name refers to something; the empty path never does. */
    predicate Exists(name: string) {
      name != "" && Entry(cwd, name) in disk
    }

    function Names(): (names: set<string>)
      ensures forall name :: name in names <==> Exists(name)
    {
      set p | p in disk && p.Entry? && p.dir == cwd && p.name != "" :: p.name
    }

    /** The directories and the metadata file made for a job. */
    function Holding(job: Job): Host {
      Host(TempDir, disk + {Entry(TempDir, job.jobId), Inside(job.jobId, "metadata.json")}
                    + set s | s in job.streamIds :: Inside(job.jobId, s))
    }
  }

  // ---- A generator of identifiers

  /** Generated ids are never empty and never repeat. */
  ghost predicate Generates(ids: nat -> string) {
    && (forall i: nat :: ids(i) != "")
    && forall i: nat, j: nat :: i != j ==> ids(i) != ids(j)
  }

  /** The names that will still be generated from position `next` on. */
  ghost function Ahead(names: set<string>, ids: nat -> string, next: nat): set<string> {
    set x | x in names && exists i: nat :: i >= next && ids(i) == x
  }

  /** Drawing an id that is taken uses it up. */
  lemma DrawingShrinks(names: set<string>, ids: nat -> string, next: nat)
    requires Generates(ids)
    ensures ids(next) in names ==> |Ahead(names, ids, next + 1)| == |Ahead(names, ids, next)| - 1
    ensures |Ahead(names, ids, next + 1)| <= |Ahead(names, ids, next)|
  {
    var before, after := Ahead(names, ids, next), Ahead(names, ids, next + 1);
    assert after == before - {ids(next)} by {
      forall x | x in before && x != ids(next)
        ensures x in after
      {
        var i: nat :| i >= next && ids(i) == x;
        assert i >= next + 1;
      }
    }
    assert ids(next) in names ==> ids(next) in before;
  }

  lemma AheadAtMost(names: set<string>, ids: nat -> string, next: nat, x: string)
    requires x in names
    ensures |Ahead(names, ids, next)| <= |names|
    ensures x !in Ahead(names, ids, next) ==> |Ahead(names, ids, next)| <= |names| - 1
  {
    SubsetSize(Ahead(names, ids, next), names);
    SubsetSize(Ahead(names, ids, next) - {x}, names - {x});
  }

  lemma {:induction false} SubsetSize(a: set<string>, b: set<string>)
    requires a <= b
    ensures |a| <= |b|
  {
    if a != {} {
      var x :| x in a;
      SubsetSize(a - {x}, b - {x});
    }
  }

  // ---- Replacing ids

  /** A free id is kept; one that is taken is replaced by the first free id the generator
      has from `from` on, and the ids up to that one are used up. */
  ghost predicate Settled(ids: nat -> string, taken: set<string>, proposed: string, from: nat, id: string, to: nat) {
    if proposed !in taken then id == proposed && to == from
    else from < to && id == ids(to - 1) && id !in taken && forall k :: from <= k < to - 1 ==> ids(k) in taken
  }

  /** The ids are settled one after the other; `marks` is where the generator stands before
      each, and after the last. */
  ghost predicate AllSettled(ids: nat -> string, taken: set<string>, proposed: seq<string>, result: seq<string>, marks: seq<nat>) {
    && |result| == |proposed| && |marks| == |proposed| + 1
    && forall i :: 0 <= i < |result| ==> Settled(ids, taken, proposed[i], marks[i], result[i], marks[i + 1])
  }

  lemma NoneAheadLater(ids: nat -> string, from: nat, to: nat, proposed: seq<string>)
    requires from <= to
    ensures NoneAhead(ids, from, proposed) ==> NoneAhead(ids, to, proposed)
  {
  }

  predicate Distinct(ids: seq<string>) {
    forall i, j :: 0 <= i < j < |ids| ==> ids[i] != ids[j]
  }

  /** No id occurs twice among those proposed that are free. */
  predicate FreeDistinct(taken: set<string>, proposed: seq<string>) {
    forall i, j :: 0 <= i < j < |proposed| && proposed[i] !in taken && proposed[j] !in taken ==> proposed[i] != proposed[j]
  }

  /** Nothing proposed is still to be generated. */
  ghost predicate NoneAhead(ids: nat -> string, next: nat, proposed: seq<string>) {
    forall i, k: nat :: 0 <= i < |proposed| && k >= next ==> ids(k) != proposed[i]
  }

  lemma {:induction false} MarksAscend(ids: nat -> string, taken: set<string>, proposed: seq<string>,
                                       result: seq<string>, marks: seq<nat>, i: nat, j: nat)
    requires AllSettled(ids, taken, proposed, result, marks) && i <= j < |marks|
    ensures marks[i] <= marks[j]
    decreases j
  {
    if i < j {
      MarksAscend(ids, taken, proposed, result, marks, i, j - 1);
      assert Settled(ids, taken, proposed[j - 1], marks[j - 1], result[j - 1], marks[j]);
    }
  }

  /** Unless the request itself names ids that are still to be generated, the ids settled
      for it differ from each other exactly if the free ones among those proposed do. */
  lemma SettledDistinctExactly(ids: nat -> string, taken: set<string>, proposed: seq<string>,
                               result: seq<string>, marks: seq<nat>)
    requires Generates(ids) && AllSettled(ids, taken, proposed, result, marks)
    requires NoneAhead(ids, marks[0], proposed)
    ensures Distinct(result) <==> FreeDistinct(taken, proposed)
  {
    forall i: nat, j: nat | i < j < |result| && result[i] == result[j]
      ensures proposed[i] !in taken && proposed[j] !in taken && proposed[i] == proposed[j]
    {
      MarksAscend(ids, taken, proposed, result, marks, 0, i);
      MarksAscend(ids, taken, proposed, result, marks, i + 1, j);
      MarksAscend(ids, taken, proposed, result, marks, 0, j);
      assert Settled(ids, taken, proposed[i], marks[i], result[i], marks[i + 1]);
      assert Settled(ids, taken, proposed[j], marks[j], result[j], marks[j + 1]);
    }
    forall i, j | 0 <= i < j < |proposed| && proposed[i] !in taken && proposed[j] !in taken
      ensures result[i] == proposed[i] && result[j] == proposed[j]
    {
      assert Settled(ids, taken, proposed[i], marks[i], result[i], marks[i + 1]);
      assert Settled(ids, taken, proposed[j], marks[j], result[j], marks[j + 1]);
    }
  }

  // ---- What a request may be turned into

  /** Ids in use are replaced by generated ones that are not; all others are kept. */
  ghost predicate Chosen(host: Host, registry: Registry, request: Job, job: Job) {
    && job.filename == request.filename && job.resolution == request.resolution
    && !host.Exists(job.jobId)
    && (if host.Exists(request.jobId) then job.jobId != "" else job.jobId == request.jobId)
    && |job.streamIds| == |request.streamIds|
    && forall i :: 0 <= i < |job.streamIds| ==>
      && job.streamIds[i] !in registry.streamIds
      && (request.streamIds[i] !in registry.streamIds ==> job.streamIds[i] == request.streamIds[i])
  }

  class RouterJobHandler {
    const registry: JobRegistry
    const ids: nat -> string
    var next: nat
    var cwd: Dir
    var disk: set<Path>

    ghost function Content(): Host
      reads this
    {
      Host(cwd, disk)
    }

    constructor (registry: JobRegistry, ids: nat -> string, cwd: Dir, disk: set<Path>)
      ensures this.registry == registry && this.ids == ids && next == 0 && Content() == Host(cwd, disk)
    {
      this.registry, this.ids, next, this.cwd, this.disk := registry, ids, 0, cwd, disk;
    }

    /** Replaces a job id while something of that name exists; `tests` counts the tests. */
    method UnusedJobId(proposed: string) returns (jobId: string, ghost tests: nat)
      requires Generates(ids)
      modifies this`next
      ensures !Content().Exists(jobId) && next >= old(next)
      ensures !old(Content()).Exists(proposed) ==> jobId == proposed && tests == 1
      ensures Settled(ids, Content().Names(), proposed, old(next), jobId, next)
      ensures old(Content()).Exists(proposed) ==> jobId != ""
      ensures tests <= |Content().Names()| + 2
      ensures proposed !in Ahead(Content().Names(), ids, old(next)) ==> tests <= |Content().Names()| + 1
    {
      ghost var names := Content().Names();
      jobId, tests := proposed, 1;
      if Content().Exists(proposed) {
        assert Entry(cwd, proposed) in disk && proposed in names;
        AheadAtMost(names, ids, next, proposed);
      }
      while jobId != "" && Entry(cwd, jobId) in disk
        invariant next >= old(next)
        invariant tests == next - old(next) + 1
        invariant tests == 1 ==> jobId == proposed
        invariant tests > 1 ==> old(Content()).Exists(proposed) && jobId == ids(next - 1)
        invariant forall k :: old(next) <= k < next - 1 ==> ids(k) in names
        invariant Content().Exists(jobId) ==> |Ahead(names, ids, next)| + tests <= |Ahead(names, ids, old(next))| + 1
        invariant !Content().Exists(jobId) && tests > 1 ==> tests <= |Ahead(names, ids, old(next))| + 2
        decreases |Ahead(names, ids, next)| + if Content().Exists(jobId) then 1 else 0
      {
        DrawingShrinks(names, ids, next);
        assert Content().Exists(ids(next)) ==> Entry(cwd, ids(next)) in disk && ids(next) in names;
        jobId, next, tests := ids(next), next + 1, tests + 1;
      }
    }

    /** Replaces a stream id while it is registered; `lookups` counts the lookups. */
    method UnusedStreamId(proposed: string) returns (stream: string, ghost lookups: nat)
      requires Generates(ids)
      modifies this`next
      ensures stream !in registry.streamIds && next >= old(next)
      ensures Settled(ids, registry.streamIds.Keys, proposed, old(next), stream, next)
      ensures proposed !in registry.streamIds ==> stream == proposed && lookups == 1
      ensures lookups <= |registry.streamIds| + 2
      ensures proposed !in Ahead(registry.streamIds.Keys, ids, old(next)) ==> lookups <= |registry.streamIds| + 1
    {
      ghost var names := registry.streamIds.Keys;
      stream, lookups := proposed, 1;
      if proposed in names {
        AheadAtMost(names, ids, next, proposed);
      }
      var lookup := registry.ByStreamId(stream);
      while lookup.Some?
        invariant lookup.Some? <==> stream in names
        invariant next >= old(next)
        invariant lookups == next - old(next) + 1
        invariant lookups == 1 ==> stream == proposed
        invariant lookups > 1 ==> proposed in names && stream == ids(next - 1)
        invariant forall k :: old(next) <= k < next - 1 ==> ids(k) in names
        invariant lookup.Some? ==> |Ahead(names, ids, next)| + lookups <= |Ahead(names, ids, old(next))| + 1
        invariant lookup.None? && lookups > 1 ==> lookups <= |Ahead(names, ids, old(next))| + 2
        decreases |Ahead(names, ids, next)| + if lookup.Some? then 1 else 0
      {
        DrawingShrinks(names, ids, next);
        stream, next, lookups := ids(next), next + 1, lookups + 1;
        lookup := registry.ByStreamId(stream);
      }
    }

    /** Replaces registered stream ids, each by an id of its own, and creates a directory
        for each stream. */
    method PlaceStreams(jobId: string, proposed: seq<string>) returns (streams: seq<string>, ghost marks: seq<nat>)
      requires Generates(ids)
      modifies this`next, this`disk
      ensures |streams| == |proposed|
      ensures forall i :: 0 <= i < |streams| ==>
          && streams[i] !in registry.streamIds
          && (proposed[i] !in registry.streamIds ==> streams[i] == proposed[i])
      ensures AllSettled(ids, registry.streamIds.Keys, proposed, streams, marks)
      ensures marks[0] == old(next) && marks[|proposed|] == next
      ensures NoneAhead(ids, old(next), proposed) ==>
                (Distinct(streams) <==> FreeDistinct(registry.streamIds.Keys, proposed))
      ensures disk == old(disk) + set s | s in streams :: Inside(jobId, s)
    {
      streams := proposed;
      marks := [next];
      for i := 0 to |streams|
        invariant |streams| == |proposed| && |marks| == i + 1
        invariant marks[0] == old(next) && marks[i] == next
        invariant AllSettled(ids, registry.streamIds.Keys, proposed[..i], streams[..i], marks)
        invariant disk == old(disk) + set s | s in streams[..i] :: Inside(jobId, s)
        invariant forall j :: i <= j < |streams| ==> streams[j] == proposed[j]
        invariant forall j :: 0 <= j < i ==>
            && streams[j] !in registry.streamIds
            && (proposed[j] !in registry.streamIds ==> streams[j] == proposed[j])
      {
        var stream, _ := UnusedStreamId(streams[i]);
        ghost var before := streams[..i];
        streams := streams[i := stream];
        assert streams[..i + 1] == before + [stream];
        assert proposed[..i + 1] == proposed[..i] + [proposed[i]];
        SettledSnoc(ids, registry.streamIds.Keys, proposed[..i], before, marks, proposed[i], stream, next);
        marks := marks + [next];
        disk := disk + {Inside(jobId, stream)};
      }
      assert streams[..|streams|] == streams && proposed[..|streams|] == proposed;
      if NoneAhead(ids, old(next), proposed) {
        SettledDistinctExactly(ids, registry.streamIds.Keys, proposed, streams, marks);
      }
    }

    /** One turn of the request loop, the registration by the registry's listener included.
        The directories it creates are taken to be created. `marks` is where the generator
        stands after the job id and after each stream id. */
    method HandleRequest(request: Job) returns (reply: Job, ghost marks: seq<nat>)
      requires Generates(ids)
      modifies this`next, this`cwd, this`disk, registry
      ensures Chosen(old(Content()), old(registry.Content()), request, reply)
      ensures |marks| == |request.streamIds| + 1
      ensures Settled(ids, old(Content()).Names(), request.jobId, old(next), reply.jobId, marks[0])
      ensures AllSettled(ids, old(registry.streamIds).Keys, request.streamIds, reply.streamIds, marks)
      ensures next == marks[|request.streamIds|]
      ensures NoneAhead(ids, old(next), request.streamIds) ==>
                (Distinct(reply.streamIds) <==> FreeDistinct(old(registry.streamIds).Keys, request.streamIds))
      ensures Content() == old(Content()).Holding(reply)
      ensures registry.Content() == old(registry.Content()).WithJob(reply).WithStreams(reply)
    {
      hide Settled, Distinct, FreeDistinct, NoneAhead;
      var jobId, _ := UnusedJobId(request.jobId);
      NoneAheadLater(ids, old(next), next, request.streamIds);
      cwd := TempDir;
      disk := disk + {Entry(cwd, jobId)};
      var streams;
      streams, marks := PlaceStreams(jobId, request.streamIds);
      reply := Job(request.filename, jobId, request.resolution, streams);
      disk := disk + {Inside(jobId, "metadata.json")};
      registry.Add(reply);
    }
  }

  lemma SettledSnoc(ids: nat -> string, taken: set<string>, proposed: seq<string>, result: seq<string>,
                    marks: seq<nat>, id: string, settled: string, to: nat)
    requires AllSettled(ids, taken, proposed, result, marks)
    requires Settled(ids, taken, id, marks[|proposed|], settled, to)
    ensures AllSettled(ids, taken, proposed + [id], result + [settled], marks + [to])
  {
    var p, r, m := proposed + [id], result + [settled], marks + [to];
    forall i | 0 <= i < |r|
      ensures Settled(ids, taken, p[i], m[i], r[i], m[i + 1])
    {
      assert i < |result| ==> Settled(ids, taken, proposed[i], marks[i], result[i], marks[i + 1]);
    }
  }

  // ---- What registration preserves

  /** Once a job is registered the working directory is the temp root, and every registered
      id names a directory there. */
  ghost predicate Rooted(host: Host, registry: Registry) {
    && (forall id <- registry.jobs :: registry.jobs[id].jobId == id)
    && (registry.jobs != map[] ==> host.cwd == TempDir)
    && forall id <- registry.jobs :: Entry(TempDir, id) in host.disk
  }

  /** A request takes over a registered job id exactly if it has the empty id and the
      empty id is registered already. */
  lemma TakesOverExactly(host: Host, registry: Registry, request: Job, job: Job)
    requires Rooted(host, registry) && Chosen(host, registry, request, job)
    ensures job.jobId in registry.jobs <==> request.jobId == "" && "" in registry.jobs
  {
  }

  /** Registering a job whose ids are new, or its own, changes no earlier answer. */
  lemma NewIdsExtend(registry: Registry, job: Job)
    requires registry.IndexesAgree() && (job.jobId in registry.jobs ==> registry.jobs[job.jobId] == job)
    requires forall i :: 0 <= i < |job.streamIds| ==> job.streamIds[i] !in registry.streamIds
    ensures registry.WithJob(job).Extends(registry) && registry.WithJob(job).IndexesAgree()
    ensures registry.WithJob(job).WithStreams(job).Extends(registry)
    ensures registry.WithJob(job).WithStreams(job).IndexesAgree()
  {
    var after := registry.WithJob(job).WithStreams(job);
    forall k | k in after.streamIds
      ensures var j := after.streamIds[k]; k in j.streamIds && j.jobId in after.jobs && after.jobs[j.jobId] == j
    {
      if k !in job.streamIds {
        assert registry.streamIds[k].jobId in registry.jobs;
      }
    }
  }

  /** A request leaves every registered id with its job exactly if it has a job id, or is
      the first without one, or registers the same job again; then it also keeps the two
      indexes in agreement. What makes the next request safe is kept in any case. */
  lemma RegistrationSafeExactly(host: Host, registry: Registry, request: Job, job: Job)
    requires Rooted(host, registry) && registry.IndexesAgree() && Chosen(host, registry, request, job)
    ensures var after := registry.WithJob(job).WithStreams(job);
            && (after.Extends(registry)
                <==> request.jobId != "" || "" !in registry.jobs || registry.jobs[""] == job)
            && (after.Extends(registry) ==> after.IndexesAgree())
            && Rooted(host.Holding(job), after)
  {
    hide Registry.IndexesAgree, Registry.WithStreams;
    TakesOverExactly(host, registry, request, job);
    if job.jobId in registry.jobs && registry.jobs[job.jobId] != job {
      assert !registry.WithJob(job).WithStreams(job).Extends(registry);
    } else {
      NewIdsExtend(registry, job);
    }
  }

  /** Two requests without a job id: the second takes the first one's place, and the first
      one's stream no longer leads to the job its id finds. */
  lemma EmptyIdRebinds() returns (first: Job, second: Job)
    ensures var start := Host(TempDir, {});
            var empty := Registry(map[], map[]);
            var registry := empty.WithJob(first).WithStreams(first);
            && Chosen(start, empty, first, first)
            && Chosen(start.Holding(first), registry, second, second)
            && !registry.WithJob(second).WithStreams(second).Extends(registry)
            && !registry.WithJob(second).WithStreams(second).IndexesAgree()
  {
    first, second := Job("a", "", "", ["s"]), Job("b", "", "", ["t"]);
    var registry := Registry(map[], map[]).WithJob(first).WithStreams(first);
    var after := registry.WithJob(second).WithStreams(second);
    assert "s" in first.streamIds && "s" in registry.streamIds;
    assert "s" !in second.streamIds;
    assert "t" !in first.streamIds;
    assert after.streamIds["s"] == first && after.jobs[""] == second;
    assert "" in registry.jobs && registry.jobs[""] == first;
  }
}

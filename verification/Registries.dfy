/** The job registry: two indexes, each behind its own lock. */
module Registries {
  import opened Prelude

  /** A job request or registration. Stream ids are printed identifiers. */
  datatype Job = Job(filename: string, jobId: string, resolution: string, streamIds: seq<string>)

  datatype Registry = Registry(jobs: map<string, Job>, streamIds: map<string, Job>)
  {
    /** The first critical section of a registration. */
    function WithJob(job: Job): Registry {
      this.(jobs := jobs[job.jobId := job])
    }

    /** The second: every stream of the job now leads to it. */
    function WithStreams(job: Job): (r: Registry)
      ensures r.jobs == jobs && r.streamIds.Keys == streamIds.Keys + set s | s in job.streamIds
      ensures forall k <- r.streamIds :: r.streamIds[k] == if k in job.streamIds then job else streamIds[k]
    {
      this.(streamIds := streamIds + map s | s in job.streamIds :: job)
    }

    /** Nothing that was found in `earlier` is found differently, or not at all. */
    ghost predicate Extends(earlier: Registry) {
      && (forall k <- earlier.jobs :: k in jobs && jobs[k] == earlier.jobs[k])
      && ExtendsStreams(earlier)
    }

    ghost predicate ExtendsStreams(earlier: Registry) {
      forall k <- earlier.streamIds :: k in streamIds && streamIds[k] == earlier.streamIds[k]
    }

    /** A job found by stream lists that stream and is the one found by its own id. */
    ghost predicate IndexesAgree() {
      forall k <- streamIds ::
        var job := streamIds[k];
        k in job.streamIds && job.jobId in jobs && jobs[job.jobId] == job
    }
  }

  class JobRegistry {
    var jobs: map<string, Job>
    var streamIds: map<string, Job>
    /** What a lookup could find after each critical section so far. */
    ghost var visible: seq<Registry>

    ghost function Content(): Registry
      reads this
    {
      Registry(jobs, streamIds)
    }

    constructor ()
      ensures Content() == Registry(map[], map[]) && visible == []
    {
      jobs, streamIds, visible := map[], map[], [];
    }

    /** The job is visible by its id before it is by any stream. */
    method Add(job: Job)
      modifies this
      ensures Content() == old(Content()).WithJob(job).WithStreams(job)
      ensures visible == old(visible) + [old(Content()).WithJob(job), Content()]
    {
      AddJob(job);
      AddStreams(job);
    }

    method AddJob(job: Job)
      modifies this`jobs, this`visible
      ensures Content() == old(Content()).WithJob(job) && visible == old(visible) + [Content()]
    {
      jobs := jobs[job.jobId := job];
      visible := visible + [Content()];
    }

    method AddStreams(job: Job)
      modifies this`streamIds, this`visible
      ensures Content() == old(Content()).WithStreams(job) && visible == old(visible) + [Content()]
    {
      ghost var before := streamIds;
      for i := 0 to |job.streamIds|
        invariant visible == old(visible)
        invariant streamIds.Keys == before.Keys + set s | s in job.streamIds[..i]
        invariant forall k <- streamIds :: streamIds[k] == if k in job.streamIds[..i] then job else before[k]
      {
        streamIds := streamIds[job.streamIds[i] := job];
        assert job.streamIds[..i + 1] == job.streamIds[..i] + [job.streamIds[i]];
      }
      assert job.streamIds[..|job.streamIds|] == job.streamIds;
      visible := visible + [Content()];
    }

    method ByJobId(id: string) returns (job: Option<Job>)
      ensures job == if id in jobs then Some(jobs[id]) else None
    {
      job := None;
      if id in jobs {
        job := Some(jobs[id]);
      }
    }

    method ByStreamId(id: string) returns (job: Option<Job>)
      ensures job == if id in streamIds then Some(streamIds[id]) else None
    {
      job := None;
      if id in streamIds {
        job := Some(streamIds[id]);
      }
    }
  }
}

/** What storage has on disk after any run, and the stream that can be read back from it. */
module Filing {
  import opened Prelude
  import opened Bytes
  import opened Media
  import opened Codec
  import opened Registries
  import opened Routers
  import opened Archiving
  import Text
  import Splitting
  import opened EndToEnd

  // ---- Deliveries and files

  /** The file a message belongs in, by the registry's answer for its stream. */
  function HomeOf(registry: Registry, m: Message): Option<File>
    requires Known(registry, m)
  {
    FileFor(m, registry.streamIds[StreamKey(m)])
  }

  predicate Unwanted(registry: Registry, m: Message)
    requires Known(registry, m)
  {
    registry.streamIds[StreamKey(m)].jobId == ""
  }

  predicate Filed(registry: Registry, files: map<File, seq<byte>>, m: Message)
    requires Known(registry, m)
  {
    Unwanted(registry, m) || (HomeOf(registry, m).Some? && HomeOf(registry, m).value in files)
  }

  ghost predicate InHand(workers: seq<Worker>, m: Message) {
    exists w :: 0 <= w < |workers| && Hand(workers[w]) == Some(m)
  }

  ghost predicate Pending(s: State, m: Message) {
    m in s.tasks || InHand(s.workers, m)
  }

  /** Every delivery is waiting, in a worker's hand, or filed. */
  ghost predicate Accounted(s: State) {
    forall m <- s.delivered :: Known(s.registry, m) && (Pending(s, m) || Filed(s.registry, s.files, m))
  }

  ghost predicate Origin(s: State, file: File, m: Message) {
    && m in s.delivered && Known(s.registry, m)
    && HomeOf(s.registry, m) == Some(file) && file in s.files && s.files[file] == m.body
  }

  /** Every file is the body of a delivery that belongs in it. */
  ghost predicate Sourced(s: State) {
    forall file <- s.files :: exists m :: Origin(s, file, m)
  }

  /** Every message in a task or in a hand was delivered. */
  ghost predicate Traced(s: State) {
    && (forall i :: 0 <= i < |s.tasks| ==> s.tasks[i] in s.delivered)
    && (forall w :: 0 <= w < |s.workers| && s.workers[w] != Free ==> s.workers[w].m in s.delivered)
  }

  ghost predicate Orderly(s: State) {
    Coherent(s) && Accounted(s) && Sourced(s) && Traced(s)
  }

  lemma RegistryGrowthOrderly(s: State, t: State)
    requires Orderly(s) && Coherent(t) && t.registry.ExtendsStreams(s.registry)
    requires t.(host := s.host, registry := s.registry, adding := s.adding, published := s.published) == s
    ensures Orderly(t)
  {
    hide StreamKey, FileFor, WorkerCoherent;
    forall m | m in t.delivered
      ensures Known(t.registry, m) && (Pending(t, m) || Filed(t.registry, t.files, m))
    {
      assert Known(s.registry, m) && (Pending(s, m) || Filed(s.registry, s.files, m));
      assert Pending(s, m) == Pending(t, m);
    }
    forall file | file in t.files
      ensures exists m :: Origin(t, file, m)
    {
      var m :| Origin(s, file, m);
      assert Origin(t, file, m);
    }
  }

  lemma DeliverOrderly(s: State, m: Message)
    requires Orderly(s) && m in s.published
    requires Coherent(s.(delivered := s.delivered + [m], tasks := s.tasks + [m]))
    ensures Orderly(s.(delivered := s.delivered + [m], tasks := s.tasks + [m]))
  {
    hide StreamKey, FileFor, WorkerCoherent;
    var t := s.(delivered := s.delivered + [m], tasks := s.tasks + [m]);
    forall n | n in t.delivered
      ensures Known(t.registry, n) && (Pending(t, n) || Filed(t.registry, t.files, n))
    {
      if n in s.delivered {
        assert Pending(s, n) || Filed(s.registry, s.files, n);
      } else {
        assert t.tasks[|s.tasks|] == n;
      }
    }
    forall file | file in t.files
      ensures exists n :: Origin(t, file, n)
    {
      var n :| Origin(s, file, n);
      assert Origin(t, file, n);
    }
  }

  /** A worker's step keeps every message it does not put down. */
  lemma PendingKept(s: State, w: nat, m: Message)
    requires w < |s.workers| && (s.workers[w] == Free ==> s.tasks != []) && Pending(s, m)
    requires !(s.workers[w].Prepared? && s.workers[w].m == m)
    ensures Pending(WorkerStep(s, w), m)
  {
    hide StreamKey, FileFor;
    var t := WorkerStep(s, w);
    if s.workers[w] == Free && m == s.tasks[0] {
      assert Hand(t.workers[w]) == Some(m);
    } else if m in s.tasks {
      assert m in t.tasks;
    } else {
      var v :| 0 <= v < |s.workers| && Hand(s.workers[v]) == Some(m);
      assert Hand(t.workers[v]) == Some(m);
    }
  }

  /** The write itself: the message is filed, and nothing is unfiled. */
  lemma WriteFiles(s: State, w: nat)
    requires w < |s.workers| && s.workers[w].Prepared? && Orderly(s)
    requires s.workers[w].job.jobId == "" || FileFor(s.workers[w].m, s.workers[w].job).Some?
    ensures var t := WorkerStep(s, w);
            && Filed(t.registry, t.files, s.workers[w].m)
            && (forall m <- s.delivered :: Filed(s.registry, s.files, m) ==> Filed(t.registry, t.files, m))
            && Sourced(t)
  {
    hide StreamKey, FileFor;
    var t, m := WorkerStep(s, w), s.workers[w].m;
    assert WorkerCoherent(s.registry, s.workers[w]);
    forall file | file in t.files
      ensures exists n :: Origin(t, file, n)
    {
      if !Unwanted(s.registry, m) && file == HomeOf(s.registry, m).value {
        assert Origin(t, file, m);
      } else {
        var n :| Origin(s, file, n);
        assert Origin(t, file, n);
      }
    }
  }

  lemma WorkerStepOrderly(s: State, w: nat)
    requires w < |s.workers| && (s.workers[w] == Free ==> s.tasks != []) && Orderly(s)
    requires s.workers[w].Prepared? ==>
               s.workers[w].job.jobId == "" || FileFor(s.workers[w].m, s.workers[w].job).Some?
    ensures Orderly(WorkerStep(s, w))
  {
    hide StreamKey, FileFor, Coherent, Filed;
    var t := WorkerStep(s, w);
    WorkerStepCoherent(s, w);
    WorkersLeaveRegistry(s, w);
    if s.workers[w].Prepared? {
      WriteFiles(s, w);
    } else {
      assert t.files == s.files;
      forall file | file in t.files
        ensures exists n :: Origin(t, file, n)
      {
        var n :| Origin(s, file, n);
        assert Origin(t, file, n);
      }
    }
    forall m | m in t.delivered
      ensures Known(t.registry, m) && (Pending(t, m) || Filed(t.registry, t.files, m))
    {
      if Pending(s, m) && !(s.workers[w].Prepared? && s.workers[w].m == m) {
        PendingKept(s, w, m);
      }
    }
  }

  lemma StepOrderly(s: State, a: Action)
    requires Enabled(s, a) && Orderly(s)
    ensures Orderly(Apply(s, a))
  {
    hide StreamKey, FileFor, Coherent, WorkerStep, Chosen, Accounted, Sourced;
    StepCoherent(s, a);
    match a
    case Register(_, _) => RegistryGrowthOrderly(s, Apply(s, a));
    case IndexStreams => RegistryGrowthOrderly(s, Apply(s, a));
    case Arrive(_) => RegistryGrowthOrderly(s, Apply(s, a));
    case Deliver(m) => DeliverOrderly(s, m);
    case Take(w) => WorkerStepOrderly(s, w);
    case Query(w) => WorkerStepOrderly(s, w);
    case Reply(w) => WorkerStepOrderly(s, w);
    case Remember(w) => WorkerStepOrderly(s, w);
    case Write(w) => WorkerStepOrderly(s, w);
  }

  lemma {:induction false} RunOrderly(s: State, actions: seq<Action>)
    requires CanRun(s, actions) && Orderly(s)
    ensures Orderly(Exec(s, actions))
    decreases |actions|
  {
    hide Orderly, Enabled, Apply;
    if actions != [] {
      StepOrderly(s, actions[0]);
      RunOrderly(Apply(s, actions[0]), actions[1..]);
    }
  }

  lemma RunOrderlyFromInit(host: Host, nThreads: nat, actions: seq<Action>)
    requires CanRun(Init(host, nThreads), actions)
    ensures Orderly(Exec(Init(host, nThreads), actions))
  {
    RunOrderly(Init(host, nThreads), actions);
  }

  /** In every run each delivered segment is waiting, in a worker's hand, or stored; and
      each file holds a delivered segment of its stream, in the directory of the job that
      registered the stream. */
  lemma EverythingIsFiled(host: Host, nThreads: nat, actions: seq<Action>)
    requires CanRun(Init(host, nThreads), actions)
    ensures var s := Exec(Init(host, nThreads), actions); Accounted(s) && Sourced(s)
  {
    RunOrderlyFromInit(host, nThreads, actions);
  }

  // ---- Reading a stream back

  /** The files of one stream's directory, each with the segment it holds, in an order in
      which no segment comes before one with a smaller decoding time. */
  ghost predicate ReadBack(files: map<File, seq<byte>>, dir: string, stream: string, names: seq<string>, segs: seq<Seg>) {
    && |names| == |segs|
    && (forall name :: File(dir, stream, name) in files <==> name in names)
    && (forall i, j :: 0 <= i < j < |names| ==> names[i] != names[j])
    && (forall i :: 0 <= i < |names| ==>
          && File(dir, stream, names[i]) in files
          && GetSegment(files[File(dir, stream, names[i])]).Some?
          && GetSegment(files[File(dir, stream, names[i])]).value.0 == segs[i])
    && (forall i, j :: 0 <= i < j < |segs| ==> segs[i].dts <= segs[j].dts)
  }

  predicate Ascending(segs: seq<Seg>) {
    forall i, j :: 0 <= i < j < |segs| ==> segs[i].dts < segs[j].dts
  }

  lemma SomeMember(s: seq<Seg>)
    requires s != []
    ensures exists x :: x in s
  {
    assert s[0] in s;
  }

  lemma {:induction false} AscendingUnique(a: seq<Seg>, b: seq<Seg>)
    requires Ascending(a) && Ascending(b)
    requires (forall x <- a :: x in b) && (forall x <- b :: x in a)
    ensures a == b
  {
    if a != [] && b != [] {
      assert a[0] in b && b[0] in a;
      assert a[0] == b[0];
      forall x | x in a[1..]
        ensures x in b[1..]
      {
        assert x in a && x.dts > a[0].dts;
      }
      forall x | x in b[1..]
        ensures x in a[1..]
      {
        assert x in b && x.dts > b[0].dts;
      }
      AscendingUnique(a[1..], b[1..]);
      assert a == [a[0]] + a[1..] && b == [b[0]] + b[1..];
    } else if a != [] {
      SomeMember(a);
    } else if b != [] {
      SomeMember(b);
    }
  }

  /** The deliveries of a stream are the segments of a job: each at least once, in any
      order, and nothing else under that identifier. */
  ghost predicate DeliversJob(s: State, id: Uuid, job: EndToEnd.Job)
    requires job.Sound()
  {
    && (forall m <- s.delivered | m.id == id :: exists seg :: seg in job.Published() && m.body == Save(seg))
    && (forall seg <- job.Published() :: Message(id, Save(seg)) in s.delivered)
  }

  ghost predicate Quiet(s: State, id: Uuid) {
    forall m: Message :: m.id == id ==> !Pending(s, m)
  }

  /** Flushing again sends nothing new. */
  lemma FlushAgain(s: Splitting.State, k: nat)
    requires k >= 1 && s.current.Some? && forall i :: 0 <= i < |s.emitted| ==> s.emitted[i].segment.Some?
    ensures var t, u := Splitting.FlushTimes(s, 1), Splitting.FlushTimes(s, k);
            && (forall e <- t.emitted :: e.segment.Some?) && (forall e <- u.emitted :: e.segment.Some?)
            && (forall x <- Splitting.Sent(t) :: x in Splitting.Sent(u))
            && (forall x <- Splitting.Sent(u) :: x in Splitting.Sent(t))
  {
    var t, u, n := Splitting.FlushTimes(s, 1), Splitting.FlushTimes(s, k), |s.emitted|;
    Splitting.FlushTimesKeeps(s, 1);
    Splitting.FlushTimesKeeps(s, k);
    var a, b := Splitting.Sent(t), Splitting.Sent(u);
    forall i | 0 <= i < |a|
      ensures a[i] in b
    {
      assert a[i] == b[i];
    }
    forall i | 0 <= i < |b|
      ensures b[i] in a
    {
      assert b[i] == a[if i < n then i else n];
    }
  }

  /** The segments up to the first flush: their decoding times ascend, they concatenate to
      the stream, and further flushes send nothing but the last of them again. */
  lemma FirstRound(job: EndToEnd.Job) returns (round: seq<Seg>)
    requires job.Sound() && Splitting.IncreasingDts(job.packets)
    ensures Ascending(round) && Flatten(Bodies(round)) == job.packets
    ensures (forall x <- round :: x in job.Published()) && (forall x <- job.Published() :: x in round)
  {
    hide Splitting.Run, Splitting.IncreasingDts, Bodies;
    var once := job.(flushes := 1);
    round := once.Published();
    PublishedSegments(once);
    assert seq(0, _ => once.LastPiece()) == [];
    Splitting.SegmentDtsIncrease(job.jobId, job.nframes, job.packets, job.stream, job.raw);
    assert Splitting.FlushTimes(job.Filled(), 1) == Splitting.Flush(Splitting.FlushTimes(job.Filled(), 0));
    CurrentAndSent(job);
    FlushAgain(job.Filled(), job.flushes);
  }

  lemma CurrentAndSent(job: EndToEnd.Job)
    requires job.Sound()
    ensures var s := job.Filled();
            s.current.Some? && forall i :: 0 <= i < |s.emitted| ==> s.emitted[i].segment.Some?
  {
    Splitting.RunPartitions(job.jobId, job.nframes, job.packets, job.stream, job.raw);
  }

  /** A file of the stream holds one of the job's segments, and is named after it. */
  lemma FileHoldsSegment(s: State, id: Uuid, job: EndToEnd.Job, file: File) returns (seg: Seg)
    requires Orderly(s) && job.Sound() && DeliversJob(s, id, job)
    requires file in s.files && file.stream == Text.Unparse(id)
    ensures seg in job.Published() && GetSegment(s.files[file]) == Some((seg, []))
    ensures file.name == Text.ToString(seg.dts)
  {
    hide PutSegment, GetSegment, Text.Unparse, Text.ToString, Coherent, WireExact;
    var m :| Origin(s, file, m);
    Text.UnparseInjective(m.id, id);
    seg :| seg in job.Published() && m.body == Save(seg);
    PublishedSegments(job);
    SegmentRoundTripExactly(seg, []);
  }

  /** Every segment of the job has its file. */
  lemma SegmentHasFile(s: State, id: Uuid, job: EndToEnd.Job, seg: Seg)
    requires Orderly(s) && job.Sound() && DeliversJob(s, id, job) && Quiet(s, id)
    requires Text.Unparse(id) in s.registry.streamIds && s.registry.streamIds[Text.Unparse(id)].jobId != ""
    requires seg in job.Published()
    ensures File(s.registry.streamIds[Text.Unparse(id)].jobId, Text.Unparse(id), Text.ToString(seg.dts)) in s.files
  {
    hide PutSegment, GetSegment, Text.Unparse, Text.ToString, Coherent, WireExact;
    var m := Message(id, Save(seg));
    PublishedSegments(job);
    SegmentRoundTripExactly(seg, []);
    assert m in s.delivered && !Pending(s, m);
  }

  /** Reading the files of a registered stream back, sorting them by decoding time and
      taking the packets out gives the original stream: whatever the order in which the
      segments were delivered and stored, and however often. */
  lemma Reassembly(host: Host, nThreads: nat, actions: seq<Action>, id: Uuid, job: EndToEnd.Job,
                   names: seq<string>, segs: seq<Seg>)
    requires CanRun(Init(host, nThreads), actions)
    requires job.Sound() && Splitting.IncreasingDts(job.packets)
    requires var s := Exec(Init(host, nThreads), actions);
             && DeliversJob(s, id, job) && Quiet(s, id)
             && Text.Unparse(id) in s.registry.streamIds
             && s.registry.streamIds[Text.Unparse(id)].jobId != ""
             && ReadBack(s.files, s.registry.streamIds[Text.Unparse(id)].jobId, Text.Unparse(id), names, segs)
    ensures Flatten(Bodies(segs)) == job.packets
  {
    hide Orderly, GetSegment, Text.Unparse, Text.ToString, DeliversJob, Quiet;
    var s, key := Exec(Init(host, nThreads), actions), Text.Unparse(id);
    var dir := s.registry.streamIds[key].jobId;
    RunOrderlyFromInit(host, nThreads, actions);
    var round := FirstRound(job);
    forall i | 0 <= i < |segs|
      ensures segs[i] in round && names[i] == Text.ToString(segs[i].dts)
    {
      var seg := FileHoldsSegment(s, id, job, File(dir, key, names[i]));
    }
    forall x | x in round
      ensures x in segs
    {
      SegmentHasFile(s, id, job, x);
      var i :| 0 <= i < |names| && names[i] == Text.ToString(x.dts);
      Text.ToStringInjective(segs[i].dts, x.dts);
    }
    AscendingUnique(segs, round);
  }

  /** There is something to read back: in ascending order, the files named after the
      segments up to the first flush are the files of the stream. */
  lemma OnDisk(host: Host, nThreads: nat, actions: seq<Action>, id: Uuid, job: EndToEnd.Job)
    returns (names: seq<string>, segs: seq<Seg>)
    requires CanRun(Init(host, nThreads), actions)
    requires job.Sound() && Splitting.IncreasingDts(job.packets)
    requires var s := Exec(Init(host, nThreads), actions);
             && DeliversJob(s, id, job) && Quiet(s, id)
             && Text.Unparse(id) in s.registry.streamIds
             && s.registry.streamIds[Text.Unparse(id)].jobId != ""
    ensures var s := Exec(Init(host, nThreads), actions);
            ReadBack(s.files, s.registry.streamIds[Text.Unparse(id)].jobId, Text.Unparse(id), names, segs)
  {
    hide Orderly, GetSegment, Text.Unparse, Text.ToString, DeliversJob, Quiet;
    var s, key := Exec(Init(host, nThreads), actions), Text.Unparse(id);
    var dir := s.registry.streamIds[key].jobId;
    RunOrderlyFromInit(host, nThreads, actions);
    segs := FirstRound(job);
    names := Map((seg: Seg) => Text.ToString(seg.dts), segs);
    forall i | 0 <= i < |segs|
      ensures var file := File(dir, key, names[i]);
              file in s.files && GetSegment(s.files[file]) == Some((segs[i], []))
    {
      SegmentHasFile(s, id, job, segs[i]);
      var seg := FileHoldsSegment(s, id, job, File(dir, key, names[i]));
      Text.ToStringInjective(segs[i].dts, seg.dts);
    }
    forall name | File(dir, key, name) in s.files
      ensures name in names
    {
      var seg := FileHoldsSegment(s, id, job, File(dir, key, name));
      var i :| 0 <= i < |segs| && segs[i] == seg;
      assert names[i] == name;
    }
    forall i, j | 0 <= i < j < |names|
      ensures names[i] != names[j]
    {
      assert segs[i] != segs[j];
    }
  }

  /** Two segments fall on the same file exactly when they are of the same stream and have
      the same decoding time: then the one stored later replaces the other. */
  lemma SameHomeExactly(registry: Registry, m: Message, n: Message)
    requires Known(registry, m) && Known(registry, n)
    requires GetSegment(m.body).Some? && GetSegment(n.body).Some?
    ensures HomeOf(registry, m) == HomeOf(registry, n)
            <==> m.id == n.id && GetSegment(m.body).value.0.dts == GetSegment(n.body).value.0.dts
  {
    hide GetSegment, Text.Unparse, Text.ToString;
    if HomeOf(registry, m) == HomeOf(registry, n) {
      Text.UnparseInjective(m.id, n.id);
      Text.ToStringInjective(GetSegment(m.body).value.0.dts, GetSegment(n.body).value.0.dts);
    }
  }
}

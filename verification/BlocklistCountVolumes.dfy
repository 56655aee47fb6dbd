/** The count file of one source byte by byte, as BlocklistVolumes has the body file: every run in which
    the jobs write their decimal numbers in any portions is a run of the protocol that reads the same. */
module BlocklistCountVolumes {

  import opened Wrappers
  import opened BlocklistDownload
  import opened DeltaGate
  import opened BlocklistRefresh
  import opened BlocklistLastKnownGood
  import opened BlocklistHistory
  import opened CountText
  import A = AtomicWrite
  import B = BlocklistVolumes
  import Strings

  type Move = B.Move

  /** The volume's calls are the jobs that are writing this source's count, with its decimal digits; both
      agree on who is alone and on what is read from the target; and nobody can still write into a lone
      count. */
  ghost predicate Agrees(lib: Library, s: State, v: A.Volume, id: string) {
    && A.Inv(v)
    && (forall j :: j in s.jobs ==> j < s.nextJob)
    && WritersAgree(lib, s, v, id)
    && FileAgrees(DiskOf(s.disk, id).count, v)
  }

  ghost predicate WritersAgree(lib: Library, s: State, v: A.Volume, id: string) {
    && (forall j :: j in v.writers <==> j in s.jobs && WritesCountOf(s.jobs[j], id))
    && (forall j :: j in v.writers ==>
          Counts(lib, s.jobs[j], v.writers[j].body) && v.writers[j].alone == s.jobs[j].phase.alone)
  }

  /** What a job counts: the entries of its body. */
  function CountOf(lib: Library, source: Source, body: Body): nat {
    |BodyEntries(lib, source.format, body.lossyText)|
  }

  /** These are the digits of the job's count, which fits the machine. */
  predicate Counts(lib: Library, job: Job, text: string) {
    text == Decimal(CountOf(lib, job.source, job.body)) && CountOf(lib, job.source, job.body) <= USIZE_MAX
  }

  lemma CountsItsHashes(lib: Library, job: Job)
    ensures |JobHashes(lib, job)| == CountOf(lib, job.source, job.body)
  {
  }

  ghost predicate FileAgrees(file: Option<CountFile>, v: A.Volume)
    requires A.WellFormed(v)
  {
    && (A.TargetContent(v).Some? <==> file.Some?)
    && (file.Some? ==> ReadCount(A.TargetContent(v).value) == file.value.count)
    && (file.Some? && file.value.alone ==> forall j :: j in v.writers ==> v.target != Some(v.writers[j].inode))
  }

  // ---------- one step ----------

  /** The steps that stand for calls on the count file of the source. */
  predicate IsFileWork(s: State, e: Event, id: string) {
    && ((e.JobOpensCount? && e.ok) || e.JobPublishesCount? || e.JobSpillsCount?)
    && e.job in s.jobs && s.jobs[e.job].source.id == id
  }

  /** A panic or a crash ends calls without a step of theirs. */
  function CallsEnded(s: State, e: Event, id: string): seq<A.Event> {
    match e
    case Crashes => [A.Crashes]
    case JobPanics(j) => if j in s.jobs && WritesCountOf(s.jobs[j], id) then [A.Fails(j)] else []
    case _ => []
  }

  predicate IsEnabled(lib: Library, s: State, v: A.Volume, a: A.Event, id: string) {
    match a
    case Creates(j, body) =>
      j in s.jobs && s.jobs[j].phase.BodyWritten? && s.jobs[j].source.id == id && Counts(lib, s.jobs[j], body)
    case Writes(j, _) => j in v.writers
    case Renames(j) => A.IsComplete(v, j)
    case Fails(j) => j in v.writers
    case Crashes => false
  }

  /** What the protocol sees of a call, with what is read from the contents it leaves. */
  function Seen(v: A.Volume, a: A.Event): Option<Event>
    requires A.WellFormed(v)
  {
    match a
    case Creates(j, _) => Some(JobOpensCount(j, true))
    case Writes(j, _) =>
      if j in v.writers && v.target == Some(v.writers[j].inode)
      then Some(JobSpillsCount(j, ReadCount(A.TargetContent(A.Step(v, a)).value))) else None
    case Renames(j) =>
      Some(JobPublishesCount(j, true, if v.temp.Some? then Some(ReadCount(v.contents[v.temp.value])) else None))
    case Fails(j) => Some(JobPublishesCount(j, false, None))
    case Crashes => None
  }

  function EventOf(lib: Library, s: State, v: A.Volume, m: Move, id: string): Option<Event>
    requires A.WellFormed(v)
  {
    match m
    case Other(e) => if IsFileWork(s, e, id) then None else Some(e)
    case Call(a) => if IsEnabled(lib, s, v, a, id) then Seen(v, a) else None
  }

  function CallsOf(lib: Library, s: State, v: A.Volume, m: Move, id: string): seq<A.Event> {
    match m
    case Other(e) => if IsFileWork(s, e, id) then [] else CallsEnded(s, e, id)
    case Call(a) => if IsEnabled(lib, s, v, a, id) then [a] else []
  }

  function Moved(lib: Library, s: State, v: A.Volume, m: Move, id: string): (r: (State, A.Volume))
    requires A.WellFormed(v)
    ensures A.WellFormed(r.1)
  {
    var e := EventOf(lib, s, v, m, id);
    (if e.Some? then Step(lib, s, e.value) else s, A.Run(v, CallsOf(lib, s, v, m, id)))
  }

  // ---------- calls ----------

  lemma CreatingHasTheWriters(lib: Library, s: State, v: A.Volume, j: nat, body: string, id: string)
    requires A.WellFormed(v) && WritersAgree(lib, s, v, id) && IsEnabled(lib, s, v, A.Creates(j, body), id)
    ensures A.Step(v, A.Creates(j, body)) == A.Created(v, j, body)
    ensures forall k :: k in A.Created(v, j, body).writers <==>
              k in OpensCount(s, j).jobs && WritesCountOf(OpensCount(s, j).jobs[k], id)
  {
  }

  lemma CreatingWritersAgree(lib: Library, s: State, v: A.Volume, j: nat, body: string, id: string)
    requires A.WellFormed(v) && WritersAgree(lib, s, v, id) && IsEnabled(lib, s, v, A.Creates(j, body), id)
    ensures WritersAgree(lib, OpensCount(s, j), A.Step(v, A.Creates(j, body)), id)
  {
    CreatingHasTheWriters(lib, s, v, j, body, id);
  }

  lemma CreatingAgrees(lib: Library, s: State, v: A.Volume, j: nat, body: string, id: string)
    requires Agrees(lib, s, v, id) && IsEnabled(lib, s, v, A.Creates(j, body), id)
    ensures Agrees(lib, OpensCount(s, j), A.Step(v, A.Creates(j, body)), id)
  {
    A.StepKeepsInv(v, A.Creates(j, body));
    B.CreatingKeepsTheTarget(v, j, body);
    CreatingWritersAgree(lib, s, v, j, body, id);
  }

  /** A writer whose file has been renamed under it is not alone, and neither is the count it writes
      into. */
  lemma OvertakenWriter(lib: Library, s: State, v: A.Volume, j: nat, id: string)
    requires Agrees(lib, s, v, id) && j in v.writers && v.target == Some(v.writers[j].inode)
    ensures s.jobs[j].phase == WritingCount(false) && s.jobs[j].source.id == id
    ensures DiskOf(s.disk, id).count.Some? && !DiskOf(s.disk, id).count.value.alone
  {
  }

  lemma WritersGoOn(lib: Library, s: State, s': State, v: A.Volume, v': A.Volume, id: string)
    requires WritersAgree(lib, s, v, id) && s'.jobs == s.jobs && v'.writers.Keys == v.writers.Keys
    requires forall j :: j in v.writers ==>
               v'.writers[j].body == v.writers[j].body && v'.writers[j].alone == v.writers[j].alone
    ensures WritersAgree(lib, s', v', id)
  {
    forall j | j in v'.writers ensures j in v.writers {
      assert j in v'.writers.Keys;
    }
  }

  lemma SpillingAgrees(lib: Library, s: State, v: A.Volume, j: nat, n: nat, counted: Body, id: string)
    requires Agrees(lib, s, v, id) && j in v.writers && v.target == Some(v.writers[j].inode)
    ensures var v' := A.Step(v, A.Writes(j, n));
            && v'.target == v.target
            && var file := CountFile(ReadCount(A.TargetContent(v').value), s.now, false, counted);
               Agrees(lib, PutsCount(s, id, file), v', id)
  {
    var v' := A.Step(v, A.Writes(j, n));
    A.StepKeepsInv(v, A.Writes(j, n));
    var file := CountFile(ReadCount(A.TargetContent(v').value), s.now, false, counted);
    WritersGoOn(lib, s, PutsCount(s, id, file), v, v', id);
  }

  lemma TemporaryWriteAgrees(lib: Library, s: State, v: A.Volume, j: nat, n: nat, id: string)
    requires Agrees(lib, s, v, id) && j in v.writers && v.target != Some(v.writers[j].inode)
    ensures Agrees(lib, s, A.Step(v, A.Writes(j, n)), id)
  {
    A.StepKeepsInv(v, A.Writes(j, n));
    WritersGoOn(lib, s, s, v, A.Step(v, A.Writes(j, n)), id);
  }

  lemma SpillingStep(lib: Library, s: State, j: nat, id: string, spilt: Option<nat>)
    requires j in s.jobs && s.jobs[j].phase == WritingCount(false) && s.jobs[j].source.id == id
    requires DiskOf(s.disk, id).count.Some? && !DiskOf(s.disk, id).count.value.alone
    ensures Step(lib, s, JobSpillsCount(j, spilt)) == PutsCount(s, id, CountFile(spilt, s.now, false, s.jobs[j].body))
  {
  }

  lemma WritingAgrees(lib: Library, s: State, v: A.Volume, j: nat, n: nat, id: string)
    requires Agrees(lib, s, v, id) && j in v.writers
    ensures var e := Seen(v, A.Writes(j, n));
            Agrees(lib, if e.Some? then Step(lib, s, e.value) else s, A.Step(v, A.Writes(j, n)), id)
  {
    if v.target == Some(v.writers[j].inode) {
      OvertakenWriter(lib, s, v, j, id);
      SpillingAgrees(lib, s, v, j, n, s.jobs[j].body, id);
      SpillingStep(lib, s, j, id, ReadCount(A.TargetContent(A.Step(v, A.Writes(j, n))).value));
    } else {
      TemporaryWriteAgrees(lib, s, v, j, n, id);
    }
  }

  lemma LeavingAgrees(lib: Library, s: State, v: A.Volume, j: nat, phase: JobPhase, id: string)
    requires Agrees(lib, s, v, id) && j in s.jobs && !phase.WritingCount?
    ensures Agrees(lib, JobMoves(s, j, phase), A.Step(v, A.Fails(j)), id)
  {
    A.StepKeepsInv(v, A.Fails(j));
  }

  lemma EndingAgrees(lib: Library, s: State, v: A.Volume, j: nat, id: string)
    requires Agrees(lib, s, v, id) && j in s.jobs
    ensures Agrees(lib, s.(jobs := s.jobs - {j}), A.Step(v, A.Fails(j)), id)
  {
    A.StepKeepsInv(v, A.Fails(j));
  }

  lemma WriterLeaves(lib: Library, s: State, s': State, v: A.Volume, v': A.Volume, j: nat, id: string)
    requires WritersAgree(lib, s, v, id) && j in s.jobs && v'.writers == v.writers - {j}
    requires s'.jobs.Keys == s.jobs.Keys && !s'.jobs[j].phase.WritingCount?
    requires forall k :: k in s.jobs && k != j ==> s'.jobs[k] == s.jobs[k]
    ensures WritersAgree(lib, s', v', id)
  {
    forall k | k in s'.jobs ensures k in s.jobs {
      assert k in s'.jobs.Keys;
    }
  }

  lemma PuttingAgrees(lib: Library, s: State, v: A.Volume, v': A.Volume, j: nat, file: CountFile, phase: JobPhase,
                      id: string)
    requires Agrees(lib, s, v, id) && j in v.writers && A.Inv(v') && v'.writers == v.writers - {j}
    requires FileAgrees(Some(file), v') && !phase.WritingCount?
    ensures Agrees(lib, JobMoves(PutsCount(s, id, file), j, phase), v', id)
  {
    WriterLeaves(lib, s, JobMoves(PutsCount(s, id, file), j, phase), v, v', j, id);
  }

  lemma PublishingCountStep(lib: Library, s: State, j: nat, mixed: Option<Option<nat>>)
    requires j in s.jobs && s.jobs[j].phase.WritingCount?
    ensures Step(lib, s, JobPublishesCount(j, true, mixed)) == PublishesCount(lib, s, j, true, mixed)
  {
  }

  lemma FailingCountStep(lib: Library, s: State, j: nat)
    requires j in s.jobs && s.jobs[j].phase.WritingCount?
    ensures Step(lib, s, JobPublishesCount(j, false, None)) ==
              JobMoves(s, j, Finished(Success(JobHashes(lib, s.jobs[j]))))
  {
  }

  lemma LoneRenameAgrees(lib: Library, s: State, v: A.Volume, j: nat, id: string)
    requires Agrees(lib, s, v, id) && A.IsComplete(v, j) && s.jobs[j].phase.alone
    ensures var s' := PublishesCount(lib, s, j, true, Some(ReadCount(v.writers[j].body)));
            var v' := A.Step(v, A.Renames(j));
            && v.temp.Some? && v.contents[v.temp.value] == v.writers[j].body
            && Agrees(lib, s', v', id)
            && DiskOf(s'.disk, id).count == Some(CountedFile(lib, s.jobs[j], s.now))
            && A.TargetContent(v') == Some(Decimal(CountOf(lib, s.jobs[j].source, s.jobs[j].body)))
  {
    var job, v' := s.jobs[j], A.Step(v, A.Renames(j));
    A.StepKeepsInv(v, A.Renames(j));
    B.LoneContent(v, j);
    CountsItsHashes(lib, job);
    CountReadsBack(CountOf(lib, job.source, job.body));
    PuttingAgrees(lib, s, v, v', j, CountedFile(lib, job, s.now), Finished(Success(JobHashes(lib, job))), id);
  }

  lemma MixedRenameAgrees(lib: Library, s: State, v: A.Volume, j: nat, id: string)
    requires Agrees(lib, s, v, id) && A.IsComplete(v, j) && !s.jobs[j].phase.alone
    ensures var mixed := if v.temp.Some? then Some(ReadCount(v.contents[v.temp.value])) else None;
            Agrees(lib, PublishesCount(lib, s, j, true, mixed), A.Step(v, A.Renames(j)), id)
  {
    var job, v' := s.jobs[j], A.Step(v, A.Renames(j));
    var done := Finished(Success(JobHashes(lib, job)));
    A.StepKeepsInv(v, A.Renames(j));
    if v.temp.Some? {
      var file := CountFile(ReadCount(v.contents[v.temp.value]), s.now, false, job.body);
      PuttingAgrees(lib, s, v, v', j, file, done, id);
    } else {
      LeavingAgrees(lib, s, v, j, done, id);
    }
  }

  /** The rename that a complete writer's digits are followed by; a lone job gives the target its own. */
  lemma RenamingAgrees(lib: Library, s: State, v: A.Volume, j: nat, id: string)
    requires Agrees(lib, s, v, id) && A.IsComplete(v, j)
    ensures var s', v' := Step(lib, s, Seen(v, A.Renames(j)).value), A.Step(v, A.Renames(j));
            && Agrees(lib, s', v', id)
            && (s.jobs[j].phase.alone ==>
                  && DiskOf(s'.disk, id).count == Some(CountedFile(lib, s.jobs[j], s.now))
                  && A.TargetContent(v') == Some(Decimal(CountOf(lib, s.jobs[j].source, s.jobs[j].body))))
  {
    PublishingCountStep(lib, s, j, if v.temp.Some? then Some(ReadCount(v.contents[v.temp.value])) else None);
    if s.jobs[j].phase.alone {
      LoneRenameAgrees(lib, s, v, j, id);
    } else {
      MixedRenameAgrees(lib, s, v, j, id);
    }
  }

  // ---------- other steps ----------

  lemma CrashAgrees(lib: Library, s: State, v: A.Volume, id: string)
    requires Agrees(lib, s, v, id)
    ensures Agrees(lib, Step(lib, s, Crashes), A.Step(v, A.Crashes), id)
  {
    A.StepKeepsInv(v, A.Crashes);
  }

  /** The same jobs are writing this source's count. */
  predicate SameWriters(s: State, s': State, id: string) {
    && (forall j :: j in s'.jobs && WritesCountOf(s'.jobs[j], id) ==> j in s.jobs && s'.jobs[j] == s.jobs[j])
    && (forall j :: j in s.jobs && WritesCountOf(s.jobs[j], id) ==> j in s'.jobs && s'.jobs[j] == s.jobs[j])
  }

  lemma SameWritersAgree(lib: Library, s: State, s': State, v: A.Volume, id: string)
    requires Agrees(lib, s, v, id) && SameWriters(s, s', id) && forall j :: j in s'.jobs ==> j < s'.nextJob
    requires DiskOf(s'.disk, id).count == DiskOf(s.disk, id).count
    ensures Agrees(lib, s', v, id)
  {
  }

  lemma JobMovesElsewhere(s: State, id: string, j: nat, phase: JobPhase)
    requires j in s.jobs && !WritesCountOf(s.jobs[j], id) && (phase.WritingCount? ==> s.jobs[j].source.id != id)
    ensures SameWriters(s, JobMoves(s, j, phase), id)
    ensures SameWriters(s, s.(jobs := s.jobs - {j}), id)
  {
  }

  lemma BodyOpensElsewhere(s: State, id: string, j: nat)
    requires j in s.jobs && !s.jobs[j].phase.WritingCount?
    ensures SameWriters(s, OpensBody(s, j), id)
  {
    assert forall k :: k in s.jobs && s.jobs[k].phase.WritingCount? ==> OpensBody(s, j).jobs[k] == s.jobs[k];
  }

  lemma CountOpensElsewhere(s: State, id: string, j: nat)
    requires j in s.jobs && !s.jobs[j].phase.WritingCount? && s.jobs[j].source.id != id
    ensures SameWriters(s, OpensCount(s, j), id)
  {
    assert forall k :: k in s.jobs && s.jobs[k].source.id == id ==> OpensCount(s, j).jobs[k] == s.jobs[k];
  }

  lemma OpeningKeepsWriters(lib: Library, s: State, e: Event, id: string)
    requires (e.JobOpensBody? || e.JobOpensCount?) && e.job in s.jobs && !IsFileWork(s, e, id)
    ensures SameWriters(s, JobStep(lib, s, e.job, e), id)
  {
    var j, job := e.job, s.jobs[e.job];
    if e.JobOpensBody? && job.phase.Accepted? {
      BodyOpensElsewhere(s, id, j);
      JobMovesElsewhere(s, id, j, Finished(Failure(Io)));
    } else if e.JobOpensCount? && job.phase.BodyWritten? {
      if e.ok {
        CountOpensElsewhere(s, id, j);
      } else {
        JobMovesElsewhere(s, id, j, Finished(Success(JobHashes(lib, job))));
      }
    }
  }

  /** A job that is writing the count and makes no call on the file stays as it is. */
  lemma SilentWriterStays(lib: Library, s: State, e: Event, id: string)
    requires IsJobEvent(e) && e.job in s.jobs && !IsFileWork(s, e, id) && !e.JobPanics?
    requires WritesCountOf(s.jobs[e.job], id)
    ensures JobStep(lib, s, e.job, e).jobs == s.jobs
  {
  }

  lemma PublishingElsewhere(lib: Library, s: State, e: Event, id: string)
    requires (e.JobPublishesBody? || e.JobPublishesCount?) && e.job in s.jobs && !WritesCountOf(s.jobs[e.job], id)
    ensures SameWriters(s, JobStep(lib, s, e.job, e), id)
  {
    var j := e.job;
    if e.JobPublishesBody? {
      JobMovesElsewhere(s, id, j, Finished(Failure(Io)));
      JobMovesElsewhere(s, id, j, BodyWritten);
    } else {
      JobMovesElsewhere(s, id, j, Finished(Success(JobHashes(lib, s.jobs[j]))));
    }
  }

  lemma GatingElsewhere(lib: Library, s: State, j: nat, id: string)
    requires j in s.jobs && !WritesCountOf(s.jobs[j], id)
    ensures SameWriters(s, JobStep(lib, s, j, JobGates(j)), id)
  {
  }

  lemma JobStepKeepsWriters(lib: Library, s: State, e: Event, id: string)
    requires IsJobEvent(e) && e.job in s.jobs && !IsFileWork(s, e, id) && CallsEnded(s, e, id) == []
    ensures SameWriters(s, JobStep(lib, s, e.job, e), id)
  {
    if e.JobOpensBody? || e.JobOpensCount? {
      OpeningKeepsWriters(lib, s, e, id);
    } else if WritesCountOf(s.jobs[e.job], id) {
      SilentWriterStays(lib, s, e, id);
    } else if e.JobPublishesBody? || e.JobPublishesCount? {
      PublishingElsewhere(lib, s, e, id);
    } else if e.JobGates? {
      GatingElsewhere(lib, s, e.job, id);
    } else if e.JobPanics? {
      JobMovesElsewhere(s, id, e.job, Fetched);
    }
  }

  lemma OtherJobStepAgrees(lib: Library, s: State, v: A.Volume, e: Event, id: string)
    requires Agrees(lib, s, v, id) && IsJobEvent(e) && e.job in s.jobs
    requires !IsFileWork(s, e, id) && CallsEnded(s, e, id) == []
    ensures Agrees(lib, JobStep(lib, s, e.job, e), v, id)
  {
    JobStepKeepsWriters(lib, s, e, id);
    JobStepsLeaveOtherFiles(lib, s, e, id);
    B.JobStepAddsNoJob(lib, s, e);
    SameWritersAgree(lib, s, JobStep(lib, s, e.job, e), v, id);
  }

  lemma UpdaterStepAgrees(lib: Library, s: State, v: A.Volume, e: Event, id: string)
    requires Agrees(lib, s, v, id) && !IsJobEvent(e) && !e.Crashes?
    ensures Agrees(lib, Step(lib, s, e), v, id)
  {
    UpdaterStepsLeaveFiles(lib, s, e);
    UpdaterStepsKeepPhases(lib, s, e);
    B.UpdaterStepsKeepJobs(lib, s, e);
    SameWritersAgree(lib, s, Step(lib, s, e), v, id);
  }

  lemma PanicStep(lib: Library, s: State, j: nat)
    requires j in s.jobs && s.jobs[j].phase.WritingCount?
    ensures JobStep(lib, s, j, JobPanics(j)) == s.(jobs := s.jobs - {j})
  {
  }

  lemma PanicAgrees(lib: Library, s: State, v: A.Volume, j: nat, id: string)
    requires Agrees(lib, s, v, id) && j in s.jobs && WritesCountOf(s.jobs[j], id)
    ensures Agrees(lib, JobStep(lib, s, j, JobPanics(j)), A.Run(v, [A.Fails(j)]), id)
  {
    PanicStep(lib, s, j);
    EndingAgrees(lib, s, v, j, id);
    B.VolumeRunOfOne(v, A.Fails(j));
  }

  lemma JobStepAgrees(lib: Library, s: State, v: A.Volume, e: Event, id: string)
    requires Agrees(lib, s, v, id) && IsJobEvent(e) && e.job in s.jobs && !IsFileWork(s, e, id)
    ensures Agrees(lib, JobStep(lib, s, e.job, e), A.Run(v, CallsEnded(s, e, id)), id)
  {
    if CallsEnded(s, e, id) == [] {
      OtherJobStepAgrees(lib, s, v, e, id);
    } else {
      PanicAgrees(lib, s, v, e.job, id);
    }
  }

  lemma OtherAgrees(lib: Library, s: State, v: A.Volume, e: Event, id: string)
    requires Agrees(lib, s, v, id) && !IsFileWork(s, e, id)
    ensures Agrees(lib, Step(lib, s, e), A.Run(v, CallsEnded(s, e, id)), id)
  {
    if e.Crashes? {
      CrashAgrees(lib, s, v, id);
      B.VolumeRunOfOne(v, A.Crashes);
    } else if !IsJobEvent(e) {
      UpdaterStepAgrees(lib, s, v, e, id);
    } else {
      JobEventIsJobStep(lib, s, e);
      if e.job in s.jobs {
        JobStepAgrees(lib, s, v, e, id);
      }
    }
  }

  // ---------- whole runs ----------

  lemma OpeningCountStep(lib: Library, s: State, j: nat)
    requires j in s.jobs && s.jobs[j].phase.BodyWritten?
    ensures Step(lib, s, JobOpensCount(j, true)) == OpensCount(s, j)
  {
  }

  lemma CreateCallAgrees(lib: Library, s: State, v: A.Volume, a: A.Event, id: string)
    requires Agrees(lib, s, v, id) && IsEnabled(lib, s, v, a, id) && a.Creates?
    ensures Agrees(lib, Step(lib, s, Seen(v, a).value), A.Step(v, a), id)
  {
    OpeningCountStep(lib, s, a.w);
    CreatingAgrees(lib, s, v, a.w, a.body, id);
  }

  lemma FailCallAgrees(lib: Library, s: State, v: A.Volume, j: nat, id: string)
    requires Agrees(lib, s, v, id) && j in v.writers
    ensures Agrees(lib, Step(lib, s, Seen(v, A.Fails(j)).value), A.Step(v, A.Fails(j)), id)
  {
    var done := Finished(Success(JobHashes(lib, s.jobs[j])));
    LeavingAgrees(lib, s, v, j, done, id);
    FailingCountStep(lib, s, j);
  }

  lemma CallAgrees(lib: Library, s: State, v: A.Volume, a: A.Event, id: string)
    requires Agrees(lib, s, v, id) && IsEnabled(lib, s, v, a, id)
    ensures var e := Seen(v, a);
            Agrees(lib, if e.Some? then Step(lib, s, e.value) else s, A.Step(v, a), id)
  {
    match a
    case Creates(_, _) => CreateCallAgrees(lib, s, v, a, id);
    case Writes(j, n) => WritingAgrees(lib, s, v, j, n, id);
    case Renames(j) => RenamingAgrees(lib, s, v, j, id);
    case Fails(j) => FailCallAgrees(lib, s, v, j, id);
    case Crashes =>
  }

  lemma MoveAgrees(lib: Library, s: State, v: A.Volume, m: Move, id: string)
    requires Agrees(lib, s, v, id)
    ensures var (s', v') := Moved(lib, s, v, m, id); Agrees(lib, s', v', id)
  {
    match m
    case Other(e) =>
      if !IsFileWork(s, e, id) {
        OtherAgrees(lib, s, v, e, id);
      }
    case Call(a) =>
      if IsEnabled(lib, s, v, a, id) {
        CallAgrees(lib, s, v, a, id);
        B.VolumeRunOfOne(v, a);
      }
  }

  /** The protocol's state and the volume after a series of moves. */
  function After(lib: Library, s: State, v: A.Volume, moves: seq<Move>, id: string): (r: (State, A.Volume))
    requires A.WellFormed(v)
    ensures A.WellFormed(r.1)
  {
    if moves == [] then (s, v)
    else
      var (s', v') := After(lib, s, v, moves[..|moves| - 1], id);
      Moved(lib, s', v', moves[|moves| - 1], id)
  }

  /** The moves as a run of the protocol. */
  function Events(lib: Library, s: State, v: A.Volume, moves: seq<Move>, id: string): seq<Event>
    requires A.WellFormed(v)
  {
    if moves == [] then []
    else
      var init := moves[..|moves| - 1];
      var (s', v') := After(lib, s, v, init, id);
      var e := EventOf(lib, s', v', moves[|moves| - 1], id);
      Events(lib, s, v, init, id) + if e.Some? then [e.value] else []
  }

  /** The moves as a run of the calls on the file. */
  function Calls(lib: Library, s: State, v: A.Volume, moves: seq<Move>, id: string): seq<A.Event>
    requires A.WellFormed(v)
  {
    if moves == [] then []
    else
      var init := moves[..|moves| - 1];
      var (s', v') := After(lib, s, v, init, id);
      Calls(lib, s, v, init, id) + CallsOf(lib, s', v', moves[|moves| - 1], id)
  }

  /** Over every run in which the jobs write the digits of their counts in any portions at any time
      between creating and renaming the file: it is a run of the protocol, and at each moment both agree
      on who is writing, on who is alone and on the number that is read from the target. */
  lemma {:induction false} EveryCountRunIsAProtocolRun(lib: Library, disk: map<string, Files>, now: int, v: A.Volume,
                                                       moves: seq<Move>, id: string)
    requires A.IsAtRest(v) && FileAgrees(DiskOf(disk, id).count, v)
    ensures var s := Boot(disk, now);
            var (s', v') := After(lib, s, v, moves, id);
            && s' == Run(lib, s, Events(lib, s, v, moves, id))
            && v' == A.Run(v, Calls(lib, s, v, moves, id))
            && Agrees(lib, s', v', id)
    decreases |moves|
  {
    if moves != [] {
      var s, init, m := Boot(disk, now), moves[..|moves| - 1], moves[|moves| - 1];
      EveryCountRunIsAProtocolRun(lib, disk, now, v, init, id);
      var (s', v') := After(lib, s, v, init, id);
      MoveAgrees(lib, s', v', m, id);
      B.RunWithOneMore(lib, s, Events(lib, s, v, init, id), EventOf(lib, s', v', m, id));
      B.VolumeRunAppend(v, Calls(lib, s, v, init, id), CallsOf(lib, s', v', m, id));
    }
  }

  /** A job that is alone when its digits are complete leaves its own count in the target. */
  lemma LoneJobSavesItsCount(lib: Library, disk: map<string, Files>, now: int, v: A.Volume, moves: seq<Move>,
                             j: nat, id: string)
    requires A.IsAtRest(v) && FileAgrees(DiskOf(disk, id).count, v)
    requires var (s', v') := After(lib, Boot(disk, now), v, moves, id);
             A.IsComplete(v', j) && j in s'.jobs && s'.jobs[j].phase == WritingCount(true)
    ensures var (s', v') := After(lib, Boot(disk, now), v, moves, id);
            var (after, volume) := After(lib, Boot(disk, now), v, moves + [B.Call(A.Renames(j))], id);
            && A.TargetContent(volume) == Some(Decimal(CountOf(lib, s'.jobs[j].source, s'.jobs[j].body)))
            && DiskOf(after.disk, id).count == Some(CountedFile(lib, s'.jobs[j], s'.now))
  {
    EveryCountRunIsAProtocolRun(lib, disk, now, v, moves, id);
    var (s', v') := After(lib, Boot(disk, now), v, moves, id);
    RenamingAgrees(lib, s', v', j, id);
    Strings.Snoc(moves, B.Call(A.Renames(j)));
    B.VolumeRunOfOne(v', A.Renames(j));
  }

  lemma EventIsNoTimeout(lib: Library, s: State, v: A.Volume, m: Move, id: string)
    requires A.WellFormed(v) && m != B.Other(AttemptTimesOut)
    ensures EventOf(lib, s, v, m, id).Some? ==> !EventOf(lib, s, v, m, id).value.AttemptTimesOut?
  {
  }

  lemma {:induction false} EventsWithoutTimeout(lib: Library, s: State, v: A.Volume, moves: seq<Move>, id: string)
    requires A.WellFormed(v) && B.NeverTimesOut(moves)
    ensures NoTimeout(Events(lib, s, v, moves, id))
    decreases |moves|
  {
    if moves != [] {
      var init, m := moves[..|moves| - 1], moves[|moves| - 1];
      assert m in moves && forall x :: x in init ==> x in moves;
      EventsWithoutTimeout(lib, s, v, init, id);
      var (s', v') := After(lib, s, v, init, id);
      EventIsNoTimeout(lib, s', v', m, id);
      B.NoTimeoutAppend(Events(lib, s, v, init, id), EventOf(lib, s', v', m, id));
    }
  }

  /** As long as no attempt runs into its time limit, any number that is read from the target is the
      number of entries of a body that passed the gates. */
  lemma WithoutTimeoutsTheTargetIsACount(lib: Library, disk: map<string, Files>, now: int, v: A.Volume,
                                         moves: seq<Move>, id: string)
    requires A.IsAtRest(v) && FileAgrees(DiskOf(disk, id).count, v)
    requires DiskOk(lib, disk) && AllFilesAlone(disk) && B.NeverTimesOut(moves)
    ensures var (s', v') := After(lib, Boot(disk, now), v, moves, id);
            A.TargetContent(v').Some? && ReadCount(A.TargetContent(v').value).Some? ==>
              && DiskOf(s'.disk, id).count.Some?
              && var body := DiskOf(s'.disk, id).count.value.counted;
                 && PassesGates(lib, FormatOf(id), body.lossyText)
                 && ReadCount(A.TargetContent(v').value) == Some(|BodyEntries(lib, FormatOf(id), body.lossyText)|)
  {
    EveryCountRunIsAProtocolRun(lib, disk, now, v, moves, id);
    EventsWithoutTimeout(lib, Boot(disk, now), v, moves, id);
    WithoutTimeoutsEveryFilePassedTheGates(lib, disk, now, Events(lib, Boot(disk, now), v, moves, id), id);
  }
}

/** What the runs of the refresh protocol promise about the two files of a source: who changes them,
    what a fallback serves from them, and how far the saved counts can drift. */
module BlocklistLastKnownGood {

  import opened Wrappers
  import opened Strings
  import opened BlocklistDownload
  import opened BlocklistBundle
  import opened DeltaGate
  import opened BlocklistRefresh

  // ---------- who changes a file ----------

  /** A step that changes the body file of a source: a job that is writing it renames with success,
      or one that was overtaken by another goes on writing into the renamed file. */
  predicate WritesBodyFile(s: State, e: Event, id: string) {
    match e
    case JobPublishesBody(j, ok, mixed) =>
      ok && j in s.jobs && WritesBodyOf(s.jobs[j], id) && (s.jobs[j].phase.alone || mixed.Some?)
    case JobSpillsBody(j, _) =>
      && j in s.jobs && WritesBodyOf(s.jobs[j], id) && !s.jobs[j].phase.alone
      && DiskOf(s.disk, id).body.Some? && !DiskOf(s.disk, id).body.value.alone
    case _ => false
  }

  predicate WritesCountFile(s: State, e: Event, id: string) {
    match e
    case JobPublishesCount(j, ok, mixed) =>
      ok && j in s.jobs && WritesCountOf(s.jobs[j], id) && (s.jobs[j].phase.alone || mixed.Some?)
    case JobSpillsCount(j, _) =>
      && j in s.jobs && WritesCountOf(s.jobs[j], id) && !s.jobs[j].phase.alone
      && DiskOf(s.disk, id).count.Some? && !DiskOf(s.disk, id).count.value.alone
    case _ => false
  }

  lemma JobStepsLeaveOtherFiles(lib: Library, s: State, e: Event, id: string)
    requires IsJobEvent(e) && e.job in s.jobs
    ensures !WritesBodyFile(s, e, id) ==> DiskOf(JobStep(lib, s, e.job, e).disk, id).body == DiskOf(s.disk, id).body
    ensures !WritesCountFile(s, e, id) ==> DiskOf(JobStep(lib, s, e.job, e).disk, id).count == DiskOf(s.disk, id).count
  {
  }

  lemma UpdaterStepsLeaveFiles(lib: Library, s: State, e: Event)
    requires !IsJobEvent(e)
    ensures Step(lib, s, e).disk == s.disk
  {
    match e {
      case BeginCycle(_, _, _) =>
      case WarmLoads(_, _) =>
      case _ =>
    }
  }

  lemma StepLeavesOtherFiles(lib: Library, s: State, e: Event, id: string)
    ensures !WritesBodyFile(s, e, id) ==> DiskOf(Step(lib, s, e).disk, id).body == DiskOf(s.disk, id).body
    ensures !WritesCountFile(s, e, id) ==> DiskOf(Step(lib, s, e).disk, id).count == DiskOf(s.disk, id).count
  {
    if !IsJobEvent(e) {
      UpdaterStepsLeaveFiles(lib, s, e);
    } else if e.job in s.jobs {
      JobStepsLeaveOtherFiles(lib, s, e, id);
    }
  }

  lemma BodyChangesByAcceptedJob(lib: Library, s: State, e: Event, id: string)
    requires Inv(lib, s) && WritesBodyFile(s, e, id)
    ensures var before, after, job := DiskOf(s.disk, id), DiskOf(JobStep(lib, s, e.job, e).disk, id), s.jobs[e.job];
            after.body != before.body && (before.body.Some? ==> before.body.value.alone) ==>
              && e.JobPublishesBody? && job.phase.WritingBody?
              && PassesGates(lib, job.source.format, job.body.lossyText)
              && (job.phase.alone ==> after.body == Some(BodyFile(job.body, s.now, true)))
  {
  }

  lemma CountChangesByAcceptedJob(lib: Library, s: State, e: Event, id: string)
    requires Inv(lib, s) && WritesCountFile(s, e, id)
    ensures var before, after, job := DiskOf(s.disk, id), DiskOf(JobStep(lib, s, e.job, e).disk, id), s.jobs[e.job];
            after.count != before.count && (before.count.Some? ==> before.count.value.alone) ==>
              && e.JobPublishesCount? && job.phase.WritingCount?
              && PassesGates(lib, job.source.format, job.body.lossyText)
              && (job.phase.alone ==> after.count == Some(CountedFile(lib, job, s.now)))
  {
  }

  /** A body that no other write overlapped is only ever replaced by a job of the same source that
      passed every gate, the body before its count. */
  lemma FilesChangeOnlyByAcceptedJobs(lib: Library, s: State, e: Event, id: string)
    requires Inv(lib, s)
    ensures var before, after := DiskOf(s.disk, id), DiskOf(Step(lib, s, e).disk, id);
            && (after.body != before.body && (before.body.Some? ==> before.body.value.alone) ==>
                  && e.JobPublishesBody? && WritesBodyFile(s, e, id)
                  && var job := s.jobs[e.job];
                     job.phase.WritingBody? && PassesGates(lib, job.source.format, job.body.lossyText)
                     && (job.phase.alone ==> after.body == Some(BodyFile(job.body, s.now, true))))
            && (after.count != before.count && (before.count.Some? ==> before.count.value.alone) ==>
                  && e.JobPublishesCount? && WritesCountFile(s, e, id)
                  && var job := s.jobs[e.job];
                     job.phase.WritingCount? && PassesGates(lib, job.source.format, job.body.lossyText)
                     && (job.phase.alone ==> after.count == Some(CountedFile(lib, job, s.now))))
  {
    StepLeavesOtherFiles(lib, s, e, id);
    if WritesBodyFile(s, e, id) {
      BodyChangesByAcceptedJob(lib, s, e, id);
    }
    if WritesCountFile(s, e, id) {
      CountChangesByAcceptedJob(lib, s, e, id);
    }
  }

  // ---------- rejected and finished jobs ----------

  lemma JobStepKeepsFinishedJob(lib: Library, s: State, e: Event, j: nat)
    requires IsJobEvent(e) && e.job in s.jobs && (j in s.jobs ==> s.jobs[j].phase.Finished?)
    ensures var s' := JobStep(lib, s, e.job, e);
            s'.nextJob == s.nextJob && (j in s'.jobs ==> j in s.jobs && s'.jobs[j] == s.jobs[j])
  {
  }

  lemma UpdaterStepKeepsJob(lib: Library, s: State, e: Event, j: nat)
    requires !IsJobEvent(e) && j < s.nextJob
    ensures var s' := Step(lib, s, e);
            j < s'.nextJob && (j in s'.jobs ==> j in s.jobs && s'.jobs[j] == s.jobs[j])
  {
    match e {
      case BeginCycle(_, _, _) =>
      case WarmLoads(_, _) =>
      case _ =>
    }
  }

  lemma StepKeepsFinishedJob(lib: Library, s: State, e: Event, j: nat)
    requires j < s.nextJob && (j in s.jobs ==> s.jobs[j].phase.Finished?)
    ensures var s' := Step(lib, s, e);
            j < s'.nextJob && (j in s'.jobs ==> j in s.jobs && s'.jobs[j] == s.jobs[j])
  {
    if !IsJobEvent(e) {
      UpdaterStepKeepsJob(lib, s, e, j);
    } else if e.job in s.jobs {
      JobStepKeepsFinishedJob(lib, s, e, j);
    }
  }

  /** A finished job stays as it is in any continuation. */
  lemma {:induction false} FinishedJobsStayFinished(lib: Library, s: State, events: seq<Event>, j: nat)
    requires j in s.jobs && s.jobs[j].phase.Finished? && j < s.nextJob
    ensures var s' := Run(lib, s, events);
            j < s'.nextJob && (j in s'.jobs ==> s'.jobs[j] == s.jobs[j])
    decreases |events|
  {
    if events != [] {
      FinishedJobsStayFinished(lib, s, events[..|events| - 1], j);
      StepKeepsFinishedJob(lib, Run(lib, s, events[..|events| - 1]), events[|events| - 1], j);
    }
  }

  lemma RejectedAtTheGate(lib: Library, s: State, j: nat)
    requires JobsOk(lib, s) && j in s.jobs && s.jobs[j].phase.Fetched?
    requires GateVerdict(lib, s.jobs[j], DiskOf(s.disk, s.jobs[j].source.id).count, s.now).Failure?
    ensures var s' := Step(lib, s, JobGates(j));
            s'.disk == s.disk && j in s'.jobs && s'.jobs[j].phase.Finished? && j < s'.nextJob
  {
  }

  lemma FinishedJobIsSilent(lib: Library, s: State, e: Event)
    requires IsJobEvent(e) && (e.job in s.jobs ==> s.jobs[e.job].phase.Finished?)
    ensures Step(lib, s, e) == s
  {
  }

  /** A cycle that fails a gate changes neither file, then or ever: whatever happens later, awaited
      or detached, no step of its job touches the disk. */
  lemma RejectionIsFinal(lib: Library, s: State, j: nat, later: seq<Event>, e: Event)
    requires Inv(lib, s) && j in s.jobs && s.jobs[j].phase.Fetched?
    requires GateVerdict(lib, s.jobs[j], DiskOf(s.disk, s.jobs[j].source.id).count, s.now).Failure?
    requires IsJobEvent(e) && e.job == j
    ensures Step(lib, s, JobGates(j)).disk == s.disk
    ensures var s' := Run(lib, Step(lib, s, JobGates(j)), later);
            Step(lib, s', e) == s'
  {
    RejectedAtTheGate(lib, s, j);
    FinishedJobsStayFinished(lib, Step(lib, s, JobGates(j)), later, j);
    FinishedJobIsSilent(lib, Run(lib, Step(lib, s, JobGates(j)), later), e);
  }

  // ---------- one job on its own, and crashes ----------

  /** No other job of this source is between creating and renaming one of its files. */
  predicate WritesAlone(s: State, j: nat)
    requires j in s.jobs
  {
    forall k :: k in s.jobs && k != j && s.jobs[k].source.id == s.jobs[j].source.id ==>
      !s.jobs[k].phase.WritingBody? && !s.jobs[k].phase.WritingCount?
  }

  /** The gate and the body write of a lone job, run together. */
  function AfterBodyWrite(lib: Library, s: State, j: nat, bodyOk: bool): State {
    Step(lib, Step(lib, Step(lib, s, JobGates(j)), JobOpensBody(j, true)), JobPublishesBody(j, bodyOk, None))
  }

  lemma LoneBodyOpens(lib: Library, s: State, j: nat)
    requires j in s.jobs && s.jobs[j].phase.Accepted? && WritesAlone(s, j)
    ensures Step(lib, s, JobOpensBody(j, true)) == JobMoves(s, j, WritingBody(true))
  {
    var others := OpensBody(s, j).jobs;
    assert forall k :: k in s.jobs && k != j ==> others[k] == s.jobs[k];
    assert others == s.jobs[j := s.jobs[j].(phase := WritingBody(true))];
  }

  lemma LoneBodyPublishes(lib: Library, s: State, j: nat, ok: bool)
    requires j in s.jobs && s.jobs[j].phase == WritingBody(true) && WritesAlone(s, j)
    ensures var job, s' := s.jobs[j], Step(lib, s, JobPublishesBody(j, ok, None));
            var files := DiskOf(s.disk, job.source.id);
            && j in s'.jobs && s'.now == s.now
            && s'.jobs[j] == job.(phase := if ok then BodyWritten else Finished(Failure(Io)))
            && DiskOf(s'.disk, job.source.id)
                 == (if ok then files.(body := Some(BodyFile(job.body, s.now, true))) else files)
            && WritesAlone(s', j)
  {
    PublishingStep(lib, s, j, ok, None);
  }

  lemma FinishedSkipsBodyWrite(lib: Library, s: State, j: nat, ok: bool)
    requires j in s.jobs && s.jobs[j].phase.Finished?
    ensures Step(lib, Step(lib, s, JobOpensBody(j, true)), JobPublishesBody(j, ok, None)) == s
  {
    assert Step(lib, s, JobOpensBody(j, true)) == s;
  }

  lemma LoneBodyWrite(lib: Library, s: State, j: nat, bodyOk: bool)
    requires j in s.jobs && s.jobs[j].phase.Fetched? && WritesAlone(s, j)
    ensures var job, s' := s.jobs[j], AfterBodyWrite(lib, s, j, bodyOk);
            var files := DiskOf(s.disk, job.source.id);
            var verdict := GateVerdict(lib, job, files.count, s.now);
            && j in s'.jobs && s'.now == s.now
            && s'.jobs[j].source == job.source && s'.jobs[j].body == job.body && s'.jobs[j].seed == job.seed
            && s'.jobs[j].phase == (if verdict.Failure? then Finished(Failure(Rejected(verdict.error)))
                                    else if bodyOk then BodyWritten else Finished(Failure(Io)))
            && DiskOf(s'.disk, job.source.id)
                 == (if verdict.Success? && bodyOk then files.(body := Some(BodyFile(job.body, s.now, true)))
                     else files)
            && WritesAlone(s', j)
  {
    var gated := Gated(lib, s, j);
    assert Step(lib, s, JobGates(j)) == gated && WritesAlone(gated, j);
    if gated.jobs[j].phase.Accepted? {
      LoneBodyOpens(lib, gated, j);
      LoneBodyPublishes(lib, JobMoves(gated, j, WritingBody(true)), j, bodyOk);
    } else {
      FinishedSkipsBodyWrite(lib, gated, j, bodyOk);
    }
  }

  function AfterCountWrite(lib: Library, s: State, j: nat, countOk: bool): State {
    Step(lib, Step(lib, s, JobOpensCount(j, true)), JobPublishesCount(j, countOk, None))
  }

  lemma LoneCountOpens(lib: Library, s: State, j: nat)
    requires j in s.jobs && s.jobs[j].phase.BodyWritten? && WritesAlone(s, j)
    ensures Step(lib, s, JobOpensCount(j, true)) == JobMoves(s, j, WritingCount(true))
  {
    var others := OpensCount(s, j).jobs;
    assert forall k :: k in s.jobs && k != j ==> others[k] == s.jobs[k];
    assert others == s.jobs[j := s.jobs[j].(phase := WritingCount(true))];
  }

  lemma LoneCountWrite(lib: Library, s: State, j: nat, countOk: bool)
    requires j in s.jobs && WritesAlone(s, j) && (s.jobs[j].phase.BodyWritten? || s.jobs[j].phase.Finished?)
    ensures var job, s' := s.jobs[j], AfterCountWrite(lib, s, j, countOk);
            var files := DiskOf(s.disk, job.source.id);
            && j in s'.jobs
            && s'.jobs[j].phase == (if job.phase.Finished? then job.phase else Finished(Success(JobHashes(lib, job))))
            && DiskOf(s'.disk, job.source.id)
                 == (if job.phase.Finished? || !countOk then files
                     else files.(count := Some(CountedFile(lib, job, s.now))))
  {
    if s.jobs[j].phase.BodyWritten? {
      LoneCountOpens(lib, s, j);
      var counting := JobMoves(s, j, WritingCount(true));
      assert JobHashes(lib, counting.jobs[j]) == JobHashes(lib, s.jobs[j]);
    } else {
      assert Step(lib, s, JobOpensCount(j, true)) == s;
    }
  }

  /** The steps of a job that no other job of its source disturbs are the sequential write: the
      method and the interleaved protocol describe one program. */
  lemma UndisturbedJobIsOneWrite(lib: Library, s: State, j: nat, bodyOk: bool, countOk: bool)
    requires j in s.jobs && s.jobs[j].phase.Fetched? && WritesAlone(s, j)
    ensures var job := s.jobs[j];
            var s' := AfterCountWrite(lib, AfterBodyWrite(lib, s, j, bodyOk), j, countOk);
            var (files, result) := WriteAndHash(lib, job, DiskOf(s.disk, job.source.id), s.now, bodyOk, countOk);
            && DiskOf(s'.disk, job.source.id) == files
            && j in s'.jobs && s'.jobs[j].phase == Finished(result)
  {
    LoneBodyWrite(lib, s, j, bodyOk);
    var written := AfterBodyWrite(lib, s, j, bodyOk);
    LoneCountWrite(lib, written, j, countOk);
    assert JobHashes(lib, written.jobs[j]) == JobHashes(lib, s.jobs[j]);
  }

  /** A crash keeps the files and nothing else; in particular a body written without its count
      stays, and the next delta check is held against the older count. */
  lemma CrashBetweenTheWritesKeepsTheBody(lib: Library, s: State, j: nat)
    requires j in s.jobs && s.jobs[j].phase == WritingBody(true)
    ensures var id := s.jobs[j].source.id;
            DiskOf(Step(lib, Step(lib, s, JobPublishesBody(j, true, None)), Crashes).disk, id)
            == Files(Some(BodyFile(s.jobs[j].body, s.now, true)), DiskOf(s.disk, id).count)
  {
  }

  // ---------- published bundles ----------

  /** Every bundle any run publishes is an index of the domains its parts list: names at or below
      a listed domain are blocked, and only a hash collision blocks anything else. */
  lemma EveryPublishedBundleIsAnIndex(lib: Library, disk: map<string, Files>, now: int, events: seq<Event>,
                                      query: string)
    requires DiskOk(lib, disk)
    ensures var b := Run(lib, Boot(disk, now), events).bundle;
            var entries := (set e | e in AllEntries(lib, b.parts));
            && (PlainSetBlocks(lib, entries, query) ==> LookupBlocks(lib, b.seed, Members(b.domains), query))
            && (LookupBlocks(lib, b.seed, Members(b.domains), query) ==>
                  PlainSetBlocks(lib, entries, query) || Collides(lib, b.seed, entries, lib.normalize(query).value))
  {
    EveryRunKeepsInv(lib, disk, now, events);
    var b := Run(lib, Boot(disk, now), events).bundle;
    MembersOfHashAll(lib, b.seed, AllEntries(lib, b.parts));
    LookupAgreesWithPlainSet(lib, b.seed, (set e | e in AllEntries(lib, b.parts)), query);
  }

  // ---------- when no two writes overlap ----------

  /** No two jobs of one source are writing the same file. */
  predicate Exclusive(s: State) {
    forall j, k :: j in s.jobs && k in s.jobs && j != k && s.jobs[j].source.id == s.jobs[k].source.id ==>
      && !(s.jobs[j].phase.WritingBody? && s.jobs[k].phase.WritingBody?)
      && !(s.jobs[j].phase.WritingCount? && s.jobs[k].phase.WritingCount?)
  }

  predicate AlwaysExclusive(lib: Library, s: State, events: seq<Event>) {
    && Exclusive(Run(lib, s, events))
    && (events != [] ==> AlwaysExclusive(lib, s, events[..|events| - 1]))
  }

  predicate AllFilesAlone(disk: map<string, Files>) {
    forall id :: id in disk ==>
      && (disk[id].body.Some? ==> disk[id].body.value.alone)
      && (disk[id].count.Some? ==> disk[id].count.value.alone)
  }

  predicate AllJobsAlone(jobs: map<nat, Job>) {
    forall j :: j in jobs ==>
      jobs[j].phase != WritingBody(false) && jobs[j].phase != WritingCount(false)
  }

  lemma OpeningStaysAlone(s: State, j: nat)
    requires j in s.jobs && AllJobsAlone(s.jobs)
    ensures s.jobs[j].phase.Accepted? && Exclusive(OpensBody(s, j)) ==> AllJobsAlone(OpensBody(s, j).jobs)
    ensures s.jobs[j].phase.BodyWritten? && Exclusive(OpensCount(s, j)) ==> AllJobsAlone(OpensCount(s, j).jobs)
  {
    var id := s.jobs[j].source.id;
    if s.jobs[j].phase.Accepted? && exists k :: k in s.jobs && WritesBodyOf(s.jobs[k], id) {
      var k :| k in s.jobs && WritesBodyOf(s.jobs[k], id);
      assert OpensBody(s, j).jobs[k].phase.WritingBody? && OpensBody(s, j).jobs[j].phase.WritingBody?;
    }
    if s.jobs[j].phase.BodyWritten? && exists k :: k in s.jobs && WritesCountOf(s.jobs[k], id) {
      var k :| k in s.jobs && WritesCountOf(s.jobs[k], id);
      assert OpensCount(s, j).jobs[k].phase.WritingCount? && OpensCount(s, j).jobs[j].phase.WritingCount?;
    }
  }

  lemma StepStaysAlone(lib: Library, s: State, e: Event)
    requires AllFilesAlone(s.disk) && AllJobsAlone(s.jobs) && Exclusive(Step(lib, s, e))
    ensures AllFilesAlone(Step(lib, s, e).disk) && AllJobsAlone(Step(lib, s, e).jobs)
  {
    if !IsJobEvent(e) {
      UpdaterStepsLeaveFiles(lib, s, e);
      UpdaterStepsKeepPhases(lib, s, e);
    } else if e.job in s.jobs {
      JobStepStaysAlone(lib, s, e);
    }
  }

  lemma JobStepStaysAlone(lib: Library, s: State, e: Event)
    requires IsJobEvent(e) && e.job in s.jobs
    requires AllFilesAlone(s.disk) && AllJobsAlone(s.jobs) && Exclusive(JobStep(lib, s, e.job, e))
    ensures AllFilesAlone(JobStep(lib, s, e.job, e).disk) && AllJobsAlone(JobStep(lib, s, e.job, e).jobs)
  {
    OpeningStaysAlone(s, e.job);
  }

  lemma UpdaterStepsKeepPhases(lib: Library, s: State, e: Event)
    requires !IsJobEvent(e)
    ensures forall j :: j in Step(lib, s, e).jobs ==>
              Step(lib, s, e).jobs[j].phase.Fetched? || (j in s.jobs && Step(lib, s, e).jobs[j] == s.jobs[j])
  {
    match e {
      case BeginCycle(_, _, _) =>
      case WarmLoads(_, _) =>
      case _ =>
    }
  }

  lemma {:induction false} ExclusiveRunsStayAlone(lib: Library, s: State, events: seq<Event>)
    requires AllFilesAlone(s.disk) && AllJobsAlone(s.jobs) && AlwaysExclusive(lib, s, events)
    ensures AllFilesAlone(Run(lib, s, events).disk) && AllJobsAlone(Run(lib, s, events).jobs)
    decreases |events|
  {
    if events != [] {
      ExclusiveRunsStayAlone(lib, s, events[..|events| - 1]);
      StepStaysAlone(lib, Run(lib, s, events[..|events| - 1]), events[|events| - 1]);
    }
  }

  /** As long as no two jobs of one source ever write the same file at once, every body on disk
      passed the gates and every saved count is the size of the body it was counted from, which passed
      them too, with no exception. */
  lemma EveryFilePassedTheGates(lib: Library, disk: map<string, Files>, now: int, events: seq<Event>, id: string)
    requires DiskOk(lib, disk) && AllFilesAlone(disk) && AlwaysExclusive(lib, Boot(disk, now), events)
    ensures AllPassedTheGates(lib, DiskOf(Run(lib, Boot(disk, now), events).disk, id), FormatOf(id))
  {
    EveryRunKeepsInv(lib, disk, now, events);
    ExclusiveRunsStayAlone(lib, Boot(disk, now), events);
  }

  ghost predicate AllPassedTheGates(lib: Library, files: Files, format: SourceFormat) {
    && (files.body.Some? ==> PassesGates(lib, format, files.body.value.body.lossyText))
    && (files.count.Some? && files.count.value.count.Some? ==>
          && PassesGates(lib, format, files.count.value.counted.lossyText)
          && |BodyEntries(lib, format, files.count.value.counted.lossyText)| == files.count.value.count.value)
  }

  // ---------- what a fallback serves ----------

  predicate NoBodyWrite(lib: Library, s: State, events: seq<Event>, id: string) {
    events != [] ==>
      && NoBodyWrite(lib, s, events[..|events| - 1], id)
      && !WritesBodyFile(Run(lib, s, events[..|events| - 1]), events[|events| - 1], id)
  }

  lemma {:induction false} BodyFileStays(lib: Library, s: State, events: seq<Event>, id: string)
    requires NoBodyWrite(lib, s, events, id)
    ensures DiskOf(Run(lib, s, events).disk, id).body == DiskOf(s.disk, id).body
    decreases |events|
  {
    if events != [] {
      BodyFileStays(lib, s, events[..|events| - 1], id);
      StepLeavesOtherFiles(lib, Run(lib, s, events[..|events| - 1]), events[|events| - 1], id);
    }
  }

  /** The cycle has failed for a source and is about to read its file. */
  predicate FallsBackTo(s: State, id: string) {
    && CanFallBack(s)
    && s.cycle.selected[|s.cycle.parts|].id == id
  }

  /** The entries the last part of the running cycle contributes. */
  function LastPartEntries(lib: Library, s: State): seq<string>
    requires s.cycle.Running? && s.cycle.parts != []
  {
    PartEntries(lib, s.cycle.parts[|s.cycle.parts| - 1])
  }

  /** Acceptance reads leniently what the fallback reads strictly. After an accepted body is written,
      every fallback to that source, until its file is written again, serves the entries that were
      accepted exactly when the body is valid UTF-8 or lists nothing. */
  lemma FallbackServesTheAcceptedBodyIffUtf8(lib: Library, s: State, j: nat, later: seq<Event>)
    requires Inv(lib, s) && j in s.jobs && s.jobs[j].phase == WritingBody(true)
    requires NoBodyWrite(lib, AfterAcceptedWrite(lib, s, j), later, s.jobs[j].source.id)
    requires FallsBackTo(Run(lib, AfterAcceptedWrite(lib, s, j), later), s.jobs[j].source.id)
    ensures var job := s.jobs[j];
            var served := Step(lib, Run(lib, AfterAcceptedWrite(lib, s, j), later), ReadsFallback(true));
            var accepted := BodyEntries(lib, job.source.format, job.body.lossyText);
            && served.cycle.Running? && served.cycle.parts != []
            && (LastPartEntries(lib, served) == accepted <==> job.body.isUtf8 || accepted == [])
  {
    var written, id := AfterAcceptedWrite(lib, s, j), s.jobs[j].source.id;
    AcceptedWriteIsTheFile(lib, s, j);
    RunKeepsInv(lib, written, later);
    BodyFileStays(lib, written, later, id);
    FallbackReadsTheFile(lib, Run(lib, written, later), id);
  }

  /** The rename of an accepted body that no other write overlapped. */
  function AfterAcceptedWrite(lib: Library, s: State, j: nat): State {
    Step(lib, s, JobPublishesBody(j, true, None))
  }

  lemma AcceptedWriteIsTheFile(lib: Library, s: State, j: nat)
    requires Inv(lib, s) && j in s.jobs && s.jobs[j].phase == WritingBody(true)
    ensures Inv(lib, AfterAcceptedWrite(lib, s, j))
    ensures DiskOf(AfterAcceptedWrite(lib, s, j).disk, s.jobs[j].source.id).body
         == Some(BodyFile(s.jobs[j].body, s.now, true))
    ensures s.jobs[j].source.format == FormatOf(s.jobs[j].source.id)
  {
    PublishKeepsInv(lib, s, j, true, None);
    PublishingStep(lib, s, j, true, None);
    KnownJobs(lib, s, j);
  }

  lemma PublishingStep(lib: Library, s: State, j: nat, ok: bool, mixed: Option<Body>)
    requires j in s.jobs && s.jobs[j].phase.WritingBody?
    ensures Step(lib, s, JobPublishesBody(j, ok, mixed)) == PublishesBody(s, j, ok, mixed)
    ensures ok && s.jobs[j].phase.alone ==>
              DiskOf(PublishesBody(s, j, ok, mixed).disk, s.jobs[j].source.id).body
                == Some(BodyFile(s.jobs[j].body, s.now, true))
  {
  }

  lemma KnownJobs(lib: Library, s: State, j: nat)
    requires JobsOk(lib, s) && j in s.jobs
    ensures s.jobs[j].source.format == FormatOf(s.jobs[j].source.id)
  {
    assert JobOk(lib, s.jobs[j]);
  }

  lemma FallbackAddsItsPart(lib: Library, s: State, id: string)
    requires FallsBackTo(s, id)
    ensures var source := s.cycle.selected[|s.cycle.parts|];
            var served := Step(lib, s, ReadsFallback(true));
            && served.cycle.Running?
            && served.cycle.parts == s.cycle.parts + [Fallback(source, DiskOf(s.disk, id).body, s.cycle.phase.error)]
  {
  }

  lemma FallbackReadsTheFile(lib: Library, s: State, id: string)
    requires CycleOk(lib, s) && FallsBackTo(s, id)
    ensures var served := Step(lib, s, ReadsFallback(true));
            && served.cycle.Running? && served.cycle.parts != []
            && LastPartEntries(lib, served) == FallbackEntries(lib, FormatOf(id), DiskOf(s.disk, id).body)
  {
    FallbackAddsItsPart(lib, s, id);
    assert KnownSource(s.cycle.selected[|s.cycle.parts|]);
  }

  lemma {:induction false} WarmPartsReadTheFiles(disk: map<string, Files>, sources: seq<Source>, source: Source)
    ensures var file, parts := DiskOf(disk, source.id).body, WarmParts(disk, sources);
            && (forall part :: part in parts && part.source == source ==>
                  file.Some? && file.value.body.isUtf8 && part == Warm(source, file.value))
            && (source in sources && file.Some? && file.value.body.isUtf8 ==> Warm(source, file.value) in parts)
  {
    if sources != [] {
      WarmPartsReadTheFiles(disk, sources[..|sources| - 1], source);
      var end, file := sources[|sources| - 1], DiskOf(disk, source.id).body;
      Unsnoc(sources);
      if end == source && file.Some? && file.value.body.isUtf8 {
        assert WarmParts(disk, sources)[|WarmParts(disk, sources)| - 1] == Warm(source, file.value);
      }
    }
  }

  /** The warm load of a later process serves the same: a part with the accepted entries for a
      selected source whose last body was valid UTF-8, and no part at all for one whose was not. */
  lemma WarmLoadServesTheAcceptedBodyIffUtf8(lib: Library, s: State, j: nat, later: seq<Event>, sources: seq<Source>)
    requires Inv(lib, s) && j in s.jobs && s.jobs[j].phase == WritingBody(true) && s.jobs[j].source in sources
    requires NoBodyWrite(lib, AfterAcceptedWrite(lib, s, j), later, s.jobs[j].source.id)
    ensures var job := s.jobs[j];
            var parts := WarmParts(Run(lib, AfterAcceptedWrite(lib, s, j), later).disk, sources);
            && ((exists part :: part in parts && part.source == job.source) <==> job.body.isUtf8)
            && (forall part :: part in parts && part.source == job.source ==>
                  PartEntries(lib, part) == BodyEntries(lib, job.source.format, job.body.lossyText))
  {
    var written := AfterAcceptedWrite(lib, s, j);
    AcceptedWriteIsTheFile(lib, s, j);
    BodyFileStays(lib, written, later, s.jobs[j].source.id);
    WarmPartsReadTheFiles(Run(lib, written, later).disk, sources, s.jobs[j].source);
  }

  const IDENTITY_LIBRARY := Library(s => Some(s), _ => false, (_, _) => 0)

  const STRAY_BYTE := Bytes("x.y\n#\U{FFFD}", false)

  lemma StrayByteLines()
    ensures Lines(STRAY_BYTE.lossyText) == ["x.y", "#\U{FFFD}"]
  {
    var text, comment := STRAY_BYTE.lossyText, "#\U{FFFD}";
    IndexOfIs(text, '\n', 3);
    assert text[..3] == "x.y" && text[4..] == comment;
    IndexOfAbsent(comment, '\n');
    assert Lines(comment) == [comment];
  }

  lemma OnlyTheFirst(format: SourceFormat, a: string, b: string)
    requires Candidate(format, a) == Some(a) && Candidate(format, b) == None
    ensures Candidates(format, [a, b]) == [a]
  {
    assert [a, b][1..] == [b] && [b][1..] == [];
    assert Candidates(format, [b][1..]) == [];
    assert Candidates(format, [b]) == [];
    assert Candidates(format, [a, b]) == [a] + Candidates(format, [a, b][1..]);
  }

  lemma StrayByteCandidates()
    ensures Candidates(PlainDomain, ["x.y", "#\U{FFFD}"]) == ["x.y"]
  {
    TrimIsIdentityOnTrimmed("x.y");
    TrimIsIdentityOnTrimmed("#\U{FFFD}");
    assert Candidate(PlainDomain, "x.y") == Some("x.y");
    assert Candidate(PlainDomain, "#\U{FFFD}") == None;
    OnlyTheFirst(PlainDomain, "x.y", "#\U{FFFD}");
  }

  lemma StrayByteEntries()
    ensures BodyCandidates(PlainDomain, STRAY_BYTE.lossyText) == ["x.y"]
    ensures BodyEntries(IDENTITY_LIBRARY, PlainDomain, STRAY_BYTE.lossyText) == ["x.y"]
  {
    StrayByteLines();
    StrayByteCandidates();
    assert ["x.y"][1..] == [];
  }

  /** With one hash for everything, one listed domain is one canary hit at most. */
  lemma OneEntryIsAccepted(job: Job)
    requires BodyCandidates(job.source.format, job.body.lossyText) == ["x.y"]
    requires BodyEntries(IDENTITY_LIBRARY, job.source.format, job.body.lossyText) == ["x.y"]
    ensures JobHashes(IDENTITY_LIBRARY, job) == [0]
    ensures GateVerdict(IDENTITY_LIBRARY, job, None, 0).Success?
  {
    assert HashAll(IDENTITY_LIBRARY, job.seed, ["x.y"]) == [0];
    OneHitAtMost(0, CanaryHashes(IDENTITY_LIBRARY, job.seed));
  }

  lemma OneHitAtMost(h: Hash, among: set<Hash>)
    ensures CountIn([h], among) <= 1
  {
    assert [h][1..] == [];
  }

  /** One stray byte in a comment is enough: this two-line body is accepted and written, and the next
      fallback serves nothing from it. */
  lemma StrayByteEmptiesTheFallback()
    ensures var job := Job(Source("hagezi-tif", "hagezi-tif", PlainDomain), STRAY_BYTE, 0, Fetched, None);
            var (files, result) := WriteAndHash(IDENTITY_LIBRARY, job, Files(None, None), 0, true, true);
            && result == Success([0])
            && FallbackEntries(IDENTITY_LIBRARY, PlainDomain, files.body) == []
  {
    StrayByteEntries();
    OneEntryIsAccepted(Job(Source("hagezi-tif", "hagezi-tif", PlainDomain), STRAY_BYTE, 0, Fetched, None));
  }

  // ---------- how far the saved counts drift ----------

  predicate NoCountWrite(lib: Library, s: State, events: seq<Event>, id: string) {
    events != [] ==>
      && NoCountWrite(lib, s, events[..|events| - 1], id)
      && !WritesCountFile(Run(lib, s, events[..|events| - 1]), events[|events| - 1], id)
  }

  lemma {:induction false} CountFileStays(lib: Library, s: State, events: seq<Event>, id: string)
    requires NoCountWrite(lib, s, events, id)
    ensures DiskOf(Run(lib, s, events).disk, id).count == DiskOf(s.disk, id).count
    decreases |events|
  {
    if events != [] {
      CountFileStays(lib, s, events[..|events| - 1], id);
      StepLeavesOtherFiles(lib, Run(lib, s, events[..|events| - 1]), events[|events| - 1], id);
    }
  }

  /** The same job further on: a later phase and nothing else. */
  predicate IsLaterPhaseOf(later: Job, job: Job) {
    !later.phase.Fetched? && later == job.(phase := later.phase)
  }

  lemma JobStepKeepsGatedJob(lib: Library, s: State, e: Event, j: nat, job: Job)
    requires IsJobEvent(e) && e.job in s.jobs && (j in s.jobs ==> IsLaterPhaseOf(s.jobs[j], job))
    ensures var s' := JobStep(lib, s, e.job, e);
            s'.nextJob == s.nextJob && (j in s'.jobs ==> IsLaterPhaseOf(s'.jobs[j], job))
  {
  }

  lemma StepKeepsGatedJob(lib: Library, s: State, e: Event, j: nat, job: Job)
    requires j < s.nextJob && (j in s.jobs ==> IsLaterPhaseOf(s.jobs[j], job))
    ensures var s' := Step(lib, s, e); j < s'.nextJob && (j in s'.jobs ==> IsLaterPhaseOf(s'.jobs[j], job))
  {
    if !IsJobEvent(e) {
      UpdaterStepKeepsJob(lib, s, e, j);
    } else if e.job in s.jobs {
      JobStepKeepsGatedJob(lib, s, e, j, job);
    }
  }

  lemma {:induction false} GatedJobKeepsItsBaseline(lib: Library, s: State, events: seq<Event>, j: nat)
    requires j in s.jobs && j < s.nextJob && !s.jobs[j].phase.Fetched?
    ensures var s' := Run(lib, s, events); j < s'.nextJob && (j in s'.jobs ==> IsLaterPhaseOf(s'.jobs[j], s.jobs[j]))
    decreases |events|
  {
    if events != [] {
      GatedJobKeepsItsBaseline(lib, s, events[..|events| - 1], j);
      StepKeepsGatedJob(lib, Run(lib, s, events[..|events| - 1]), events[|events| - 1], j, s.jobs[j]);
    }
  }

  /** In every run, a count that is saved is within a factor of five of the baseline its own gate
      read, if that one was binding; whatever other jobs have saved in the meantime. */
  lemma SavedCountIsGated(lib: Library, disk: map<string, Files>, now: int, events: seq<Event>, j: nat)
    requires DiskOk(lib, disk)
    requires var s := Run(lib, Boot(disk, now), events);
             && j in s.jobs && s.jobs[j].phase == WritingCount(true)
             && |JobHashes(lib, s.jobs[j])| <= USIZE_MAX
             && s.jobs[j].baseline.Some? && IsBinding(s.jobs[j].baseline.value)
             && s.jobs[j].baseline.value.count <= USIZE_MAX
    ensures var s := Run(lib, Boot(disk, now), events);
            var b := s.jobs[j].baseline.value.count;
            var saved := DiskOf(Step(lib, s, JobPublishesCount(j, true, None)).disk, s.jobs[j].source.id).count;
            && saved.Some? && saved.value.count.Some?
            && saved.value.count.value <= 5 * b && b <= 5 * saved.value.count.value
  {
    EveryRunKeepsInv(lib, disk, now, events);
    var job := Run(lib, Boot(disk, now), events).jobs[j];
    assert JobOk(lib, job);
    VerdictIsFactorFive(|JobHashes(lib, job)|, job.baseline);
  }

  /** One write of a source's count: from the gate of its job to the rename, and what follows. */
  datatype CountWrite = CountWrite(job: nat, between: seq<Event>, after: seq<Event>)

  function BeforeSave(lib: Library, s: State, w: CountWrite): State {
    Run(lib, Step(lib, s, JobGates(w.job)), w.between)
  }

  function AfterSave(lib: Library, s: State, w: CountWrite): State {
    Step(lib, BeforeSave(lib, s, w), JobPublishesCount(w.job, true, None))
  }

  function AfterCountCycle(lib: Library, s: State, w: CountWrite): State {
    Run(lib, AfterSave(lib, s, w), w.after)
  }

  function BaselineOf(s: State, id: string): Option<Baseline> {
    PreviousCount(DiskOf(s.disk, id).count, s.now)
  }

  /** The gate reads a binding baseline, the job saves its count alone, and nobody else writes the
      count file of the source meanwhile; anything else may happen. */
  predicate IsUndisturbed(lib: Library, s: State, w: CountWrite, id: string) {
    && w.job in s.jobs && s.jobs[w.job].phase.Fetched? && s.jobs[w.job].source.id == id
    && BaselineOf(s, id).Some? && IsBinding(BaselineOf(s, id).value) && BaselineOf(s, id).value.count <= USIZE_MAX
    && NoCountWrite(lib, Step(lib, s, JobGates(w.job)), w.between, id)
    && w.job in BeforeSave(lib, s, w).jobs && BeforeSave(lib, s, w).jobs[w.job].phase == WritingCount(true)
    && |JobHashes(lib, s.jobs[w.job])| <= USIZE_MAX
    && NoCountWrite(lib, AfterSave(lib, s, w), w.after, id)
  }

  /** The count an undisturbed write replaces is the one its gate read, so it is one cycle of an
      accepted chain. */
  lemma UndisturbedWriteIsACycle(lib: Library, s: State, w: CountWrite, id: string)
    requires Inv(lib, s) && IsUndisturbed(lib, s, w, id)
    ensures var b, n := BaselineOf(s, id).value, |JobHashes(lib, s.jobs[w.job])|;
            var end := AfterCountCycle(lib, s, w);
            && DiskOf(BeforeSave(lib, s, w).disk, id).count == DiskOf(s.disk, id).count
            && DeltaVerdict(n, Some(b)).Success?
            && SavedNumber(end, id) == Some(n)
            && Inv(lib, end)
  {
    var gated, before := Step(lib, s, JobGates(w.job)), BeforeSave(lib, s, w);
    GateReadsTheBaseline(lib, s, w.job);
    RunKeepsInv(lib, gated, w.between);
    GatedJobKeepsItsBaseline(lib, gated, w.between, w.job);
    CountFileStays(lib, gated, w.between, id);
    var job := before.jobs[w.job];
    assert JobOk(lib, job) && JobHashes(lib, job) == JobHashes(lib, s.jobs[w.job]);
    SaveIsOnDisk(lib, before, w.job);
    RunKeepsInv(lib, AfterSave(lib, s, w), w.after);
    CountFileStays(lib, AfterSave(lib, s, w), w.after, id);
  }

  lemma GatingStep(lib: Library, s: State, j: nat)
    requires j in s.jobs && s.jobs[j].phase.Fetched?
    ensures Step(lib, s, JobGates(j)) == Gated(lib, s, j)
  {
  }

  lemma GateReadsTheBaseline(lib: Library, s: State, j: nat)
    requires Inv(lib, s) && j in s.jobs && s.jobs[j].phase.Fetched?
    ensures var gated, id := Step(lib, s, JobGates(j)), s.jobs[j].source.id;
            && Inv(lib, gated) && gated.disk == s.disk && j in gated.jobs && j < gated.nextJob
            && !gated.jobs[j].phase.Fetched? && gated.jobs[j].baseline == BaselineOf(s, id)
            && gated.jobs[j] == s.jobs[j].(phase := gated.jobs[j].phase, baseline := gated.jobs[j].baseline)
  {
    GatingStep(lib, s, j);
    GateKeepsInv(lib, s, j);
    KnownJobs(lib, s, j);
  }

  lemma CountPublishingStep(lib: Library, s: State, j: nat)
    requires j in s.jobs && s.jobs[j].phase == WritingCount(true)
    ensures Step(lib, s, JobPublishesCount(j, true, None)) == PublishesCount(lib, s, j, true, None)
    ensures DiskOf(PublishesCount(lib, s, j, true, None).disk, s.jobs[j].source.id).count
         == Some(CountedFile(lib, s.jobs[j], s.now))
  {
  }

  lemma SaveIsOnDisk(lib: Library, s: State, j: nat)
    requires Inv(lib, s) && j in s.jobs && s.jobs[j].phase == WritingCount(true)
    ensures var s' := Step(lib, s, JobPublishesCount(j, true, None));
            && Inv(lib, s')
            && DiskOf(s'.disk, s.jobs[j].source.id).count
              == Some(CountedFile(lib, s.jobs[j], s.now))
  {
    CountPublishingStep(lib, s, j);
    PublishCountKeepsInv(lib, s, j, true, None);
  }

  predicate AllUndisturbed(lib: Library, s: State, ws: seq<CountWrite>, id: string)
    decreases |ws|
  {
    ws != [] ==> IsUndisturbed(lib, s, ws[0], id) && AllUndisturbed(lib, AfterCountCycle(lib, s, ws[0]), ws[1..], id)
  }

  function AfterCountCycles(lib: Library, s: State, ws: seq<CountWrite>): State
    decreases |ws|
  {
    if ws == [] then s else AfterCountCycles(lib, AfterCountCycle(lib, s, ws[0]), ws[1..])
  }

  function CyclesOf(lib: Library, s: State, ws: seq<CountWrite>, id: string): seq<Cycle>
    requires AllUndisturbed(lib, s, ws, id)
    decreases |ws|
  {
    if ws == [] then []
    else [Cycle(|JobHashes(lib, s.jobs[ws[0].job])|, BaselineOf(s, id).value.elapsed, true)]
         + CyclesOf(lib, AfterCountCycle(lib, s, ws[0]), ws[1..], id)
  }

  /** A run of undisturbed writes is an accepted chain from the count on disk before it to the count
      on disk after it. */
  lemma {:induction false} UndisturbedRunIsAChain(lib: Library, s: State, ws: seq<CountWrite>, id: string)
    requires Inv(lib, s) && ws != [] && AllUndisturbed(lib, s, ws, id)
    ensures IsChainTo(BaselineOf(s, id).value.count, CyclesOf(lib, s, ws, id),
                      SavedNumber(AfterCountCycles(lib, s, ws), id))
    ensures |CyclesOf(lib, s, ws, id)| == |ws|
    decreases |ws|
  {
    var next, rest := AfterCountCycle(lib, s, ws[0]), ws[1..];
    UndisturbedWriteIsACycle(lib, s, ws[0], id);
    var c := Cycle(|JobHashes(lib, s.jobs[ws[0].job])|, BaselineOf(s, id).value.elapsed, true);
    if rest != [] {
      UndisturbedRunIsAChain(lib, next, rest, id);
    }
    ChainOfOneMore(BaselineOf(s, id).value, c, CyclesOf(lib, next, rest, id),
                   SavedNumber(AfterCountCycles(lib, next, rest), id));
  }

  /** The number in a source's count file. */
  function SavedNumber(s: State, id: string): Option<nat> {
    match DiskOf(s.disk, id).count
    case None => None
    case Some(file) => file.count
  }

  /** An accepted chain of saved counts that begins at one number and ends at another. */
  predicate IsChainTo(first: nat, cycles: seq<Cycle>, last: Option<nat>) {
    && cycles != [] && (forall c :: c in cycles ==> c.saved)
    && AcceptedChain(first, cycles)
    && last == Some(cycles[|cycles| - 1].count)
  }

  lemma ChainOfOneMore(b: Baseline, c: Cycle, rest: seq<Cycle>, last: Option<nat>)
    requires IsBinding(b) && c.elapsed == b.elapsed && c.saved && c.count <= USIZE_MAX
    requires DeltaVerdict(c.count, Some(b)).Success?
    requires if rest == [] then last == Some(c.count) else IsChainTo(c.count, rest, last)
    ensures IsChainTo(b.count, [c] + rest, last)
  {
    assert ([c] + rest)[1..] == rest;
  }

  /** The saved count drifts by at most a factor of five per write: after any run with `n` writes of
      a source's count that are not disturbed by another job of the same source, the count on disk
      is within a factor of 5^n of the one before. */
  lemma SavedCountDriftsByFactorFive(lib: Library, s: State, ws: seq<CountWrite>, id: string)
    requires Inv(lib, s) && ws != [] && AllUndisturbed(lib, s, ws, id)
    ensures var first, last := BaselineOf(s, id).value.count, SavedNumber(AfterCountCycles(lib, s, ws), id);
            last.Some? && last.value <= first * Pow5(|ws|) && first <= last.value * Pow5(|ws|)
  {
    UndisturbedRunIsAChain(lib, s, ws, id);
    DriftOverNCycles(BaselineOf(s, id).value.count, CyclesOf(lib, s, ws, id));
  }
}

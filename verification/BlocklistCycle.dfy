/** A refresh cycle as a whole (`refresh_all_sources`): what an undisturbed one makes of every source, and
    what the bundle it publishes blocks from then on. */
module BlocklistCycle {

  import opened Wrappers
  import opened DomainSuffix
  import opened BlocklistDownload
  import opened BlocklistBundle
  import opened BlocklistRefresh
  import opened BlocklistLastKnownGood

  // ---------- which sources a cycle is about ----------

  lemma {:induction false} SelectedIff(sources: seq<Source>, selected: Option<seq<string>>, n: nat, x: Source)
    requires n <= |sources|
    ensures x in SelectedUpTo(sources, selected, n)
       <==> x in sources[..n] && (selected.None? || x.id in selected.value)
    decreases n
  {
    if n > 0 {
      SelectedIff(sources, selected, n - 1, x);
      assert sources[..n] == sources[..n - 1] + [sources[n - 1]];
    }
  }

  /** The position of each element of `s` in `t`, in order. */
  ghost predicate IsThinning<T(!new)>(s: seq<T>, t: seq<T>) {
    exists at: seq<nat> :: IsEmbedding(s, t, at)
  }

  predicate IsEmbedding<T(==)>(s: seq<T>, t: seq<T>, at: seq<nat>) {
    && |at| == |s|
    && (forall i :: 0 <= i < |s| ==> at[i] < |t| && t[at[i]] == s[i])
    && (forall i, j :: 0 <= i < j < |s| ==> at[i] < at[j])
  }

  lemma EmbeddingSnoc<T>(s: seq<T>, t: seq<T>, at: seq<nat>, n: nat)
    requires IsEmbedding(s, t, at) && n < |t| && forall i :: 0 <= i < |at| ==> at[i] < n
    ensures IsEmbedding(s + [t[n]], t, at + [n])
  {
  }

  lemma {:induction false} SelectedInOrder(sources: seq<Source>, selected: Option<seq<string>>, n: nat)
      returns (at: seq<nat>)
    requires n <= |sources|
    ensures IsEmbedding(SelectedUpTo(sources, selected, n), sources, at) && forall i :: 0 <= i < |at| ==> at[i] < n
    decreases n
  {
    if n == 0 {
      at := [];
    } else {
      at := SelectedInOrder(sources, selected, n - 1);
      if IsSelected(selected, sources[n - 1].id) {
        EmbeddingSnoc(SelectedUpTo(sources, selected, n - 1), sources, at, n - 1);
        at := at + [n - 1];
      }
    }
  }

  /** The sources of a cycle are the built-in ones it selects, all of them without a selection, in the
      built-in order. */
  lemma SelectionIs(selected: Option<seq<string>>)
    ensures forall x :: x in SelectedSources(BLOCKLIST_SOURCES, selected)
              <==> x in BLOCKLIST_SOURCES && (selected.None? || x.id in selected.value)
    ensures IsThinning(SelectedSources(BLOCKLIST_SOURCES, selected), BLOCKLIST_SOURCES)
  {
    var n := |BLOCKLIST_SOURCES|;
    forall x ensures x in SelectedSources(BLOCKLIST_SOURCES, selected)
                <==> x in BLOCKLIST_SOURCES && (selected.None? || x.id in selected.value) {
      SelectedIff(BLOCKLIST_SOURCES, selected, n, x);
      assert BLOCKLIST_SOURCES[..n] == BLOCKLIST_SOURCES;
    }
    var at := SelectedInOrder(BLOCKLIST_SOURCES, selected, n);
  }

  /** An idle updater starts a cycle exactly when the bundles are enabled, the selection is not an empty
      list and the directory is there; it then works on the selected sources from the first on. */
  lemma CycleBeginsIff(lib: Library, s: State, config: Config, directoryOk: bool, seed: Seed)
    requires s.cycle.Idle?
    ensures var s' := Step(lib, s, BeginCycle(config, directoryOk, seed));
            && (s'.cycle.Running? <==> config.enabled && directoryOk && config.sources != Some([]))
            && (s'.cycle.Running? ==>
                  && s' == s.(cycle := s'.cycle)
                  && s'.cycle == Running(seed, SelectedSources(BLOCKLIST_SOURCES, config.sources), s.bundle.statuses,
                                         Fetching, [], [], []))
            && (s'.cycle.Idle? ==> s' == s)
  {
  }

  /** The previous status of a source: the first one with its ID. */
  lemma {:induction false} FoundStatusIs(statuses: seq<Status>, id: string)
    ensures match FindStatus(statuses, id)
            case None => forall i :: 0 <= i < |statuses| ==> statuses[i].id != id
            case Some(found) => exists i :: 0 <= i < |statuses| && statuses[i] == found && IsFirstWith(statuses, id, i)
  {
    if statuses != [] {
      if statuses[0].id == id {
        assert IsFirstWith(statuses, id, 0);
      } else {
        FoundStatusIs(statuses[1..], id);
        if FindStatus(statuses, id).Some? {
          var i :| 0 <= i < |statuses| - 1 && statuses[1..][i] == FindStatus(statuses, id).value
                   && IsFirstWith(statuses[1..], id, i);
          assert IsFirstWith(statuses, id, i + 1);
        }
      }
    }
  }

  predicate IsFirstWith(statuses: seq<Status>, id: string, i: nat)
    requires i < |statuses|
  {
    statuses[i].id == id && forall j :: 0 <= j < i ==> statuses[j].id != id
  }

  // ---------- one source after the other ----------

  /** What becomes of the download of one source. */
  datatype Fetch =
    | Downloads(body: Body, bodyOk: bool, countOk: bool)
    | FailsToFetch(tooLarge: bool)
    | RunsIntoTheLimit
    | LosesItsJob(lost: Body)

  /** The download, and whether the fallback can read the file. */
  datatype Attempt = Attempt(fetch: Fetch, readOk: bool)

  /** What a cycle has made so far of the sources it went through. */
  datatype Refresh = Refresh(disk: map<string, Files>, parts: seq<Part>, statuses: seq<Status>)

  /** The files and the result of one attempt. */
  function Fetched(lib: Library, source: Source, seed: Seed, files: Files, now: int, fetch: Fetch)
    : (Files, Result<seq<Hash>, RefreshError>)
  {
    match fetch
    case Downloads(body, bodyOk, countOk) =>
      WriteAndHash(lib, Job(source, body, seed, JobPhase.Fetched, None), files, now, bodyOk, countOk)
    case FailsToFetch(tooLarge) => (files, Failure(if tooLarge then TooLarge else Http))
    case RunsIntoTheLimit => (files, Failure(Timeout))
    case LosesItsJob(_) => (files, Failure(Join))
  }

  function LastSuccess(previous: seq<Status>, id: string): Option<int> {
    match FindStatus(previous, id)
    case None => None
    case Some(status) => status.lastUpdated
  }

  /** One source: its new entries, or on any failure those of the file that is there, with the error and
      the time of the last success. */
  function WithSource(lib: Library, r: Refresh, source: Source, seed: Seed, previous: seq<Status>, now: int, a: Attempt)
    : Refresh
  {
    var (files, result) := Fetched(lib, source, seed, DiskOf(r.disk, source.id), now, a.fetch);
    var disk := r.disk[source.id := files];
    match result
    case Success(hashes) =>
      Refresh(disk, r.parts + [Fresh(source, if a.fetch.Downloads? then a.fetch.body else Bytes("", true))],
              r.statuses + [Status(source.id, source.group, |hashes|, Some(now), None)])
    case Failure(error) =>
      var read := if a.readOk then files.body else None;
      Refresh(disk, r.parts + [Fallback(source, read, error)],
              r.statuses + [Status(source.id, source.group, |FallbackEntries(lib, source.format, read)|,
                                   LastSuccess(previous, source.id), Some(error))])
  }

  function WithSources(lib: Library, disk: map<string, Files>, sources: seq<Source>, seed: Seed, previous: seq<Status>,
                       now: int, attempts: seq<Attempt>): Refresh
    requires |attempts| <= |sources|
    decreases |attempts|
  {
    if attempts == [] then Refresh(disk, [], [])
    else
      var n := |attempts| - 1;
      WithSource(lib, WithSources(lib, disk, sources, seed, previous, now, attempts[..n]), sources[n], seed, previous,
                 now, attempts[n])
  }

  // ---------- the same as steps of the protocol ----------

  /** The steps of one attempt and of the fallback, which is skipped when it succeeds. */
  function AfterAttempt(lib: Library, s: State, a: Attempt): State {
    Step(lib, AfterFetch(lib, s, a.fetch), ReadsFallback(a.readOk))
  }

  function AfterFetch(lib: Library, s: State, fetch: Fetch): State {
    var j := s.nextJob;
    match fetch
    case Downloads(body, bodyOk, countOk) =>
      Step(lib, AfterWrites(lib, Step(lib, s, FetchSucceeds(body)), j, bodyOk, countOk), AwaitReturns)
    case FailsToFetch(tooLarge) => Step(lib, s, FetchFails(tooLarge))
    case RunsIntoTheLimit => Step(lib, s, AttemptTimesOut)
    case LosesItsJob(body) => Step(lib, Step(lib, Step(lib, s, FetchSucceeds(body)), JobPanics(j)), AwaitReturns)
  }

  function AfterWrites(lib: Library, s: State, j: nat, bodyOk: bool, countOk: bool): State {
    AfterCountWrite(lib, AfterBodyWrite(lib, s, j, bodyOk), j, countOk)
  }

  function AfterAttempts(lib: Library, s: State, attempts: seq<Attempt>): State {
    if attempts == [] then s
    else AfterAttempt(lib, AfterAttempts(lib, s, attempts[..|attempts| - 1]), attempts[|attempts| - 1])
  }

  /** Every other job is done. */
  predicate OthersAreDone(s: State, j: nat) {
    forall k :: k in s.jobs ==> k < s.nextJob && (k != j ==> s.jobs[k].phase.Finished?)
  }

  predicate AllAreDone(s: State) {
    forall k :: k in s.jobs ==> k < s.nextJob && s.jobs[k].phase.Finished?
  }

  /** What a job leaves alone: everything but itself and the files of its source. */
  ghost predicate OnlyItsOwn(s: State, s': State, j: nat) {
    && s'.cycle == s.cycle && s'.bundle == s.bundle && s'.now == s.now && s'.nextJob == s.nextJob
    && j in s.jobs && s'.jobs.Keys == s.jobs.Keys
    && (forall k :: k in s.jobs && k != j ==> s'.jobs[k] == s.jobs[k])
    && s'.jobs[j].source == s.jobs[j].source && s'.jobs[j].body == s.jobs[j].body && s'.jobs[j].seed == s.jobs[j].seed
    && forall id :: id != s.jobs[j].source.id ==> DiskOf(s'.disk, id) == DiskOf(s.disk, id)
  }

  lemma BodyStepIsItsOwn(lib: Library, s: State, e: Event)
    requires (e.JobOpensBody? || e.JobPublishesBody?) && e.job in s.jobs && OthersAreDone(s, e.job)
    ensures OnlyItsOwn(s, JobStep(lib, s, e.job, e), e.job) && OthersAreDone(JobStep(lib, s, e.job, e), e.job)
  {
  }

  lemma CountStepIsItsOwn(lib: Library, s: State, e: Event)
    requires (e.JobOpensCount? || e.JobPublishesCount?) && e.job in s.jobs && OthersAreDone(s, e.job)
    ensures OnlyItsOwn(s, JobStep(lib, s, e.job, e), e.job) && OthersAreDone(JobStep(lib, s, e.job, e), e.job)
  {
  }

  lemma GateIsItsOwn(lib: Library, s: State, j: nat)
    requires j in s.jobs && OthersAreDone(s, j)
    ensures OnlyItsOwn(s, JobStep(lib, s, j, JobGates(j)), j) && OthersAreDone(JobStep(lib, s, j, JobGates(j)), j)
  {
  }

  lemma JobStepIsItsOwn(lib: Library, s: State, e: Event)
    requires e.JobGates? || e.JobOpensBody? || e.JobPublishesBody? || e.JobOpensCount? || e.JobPublishesCount?
    requires e.job in s.jobs && OthersAreDone(s, e.job)
    ensures OnlyItsOwn(s, Step(lib, s, e), e.job) && OthersAreDone(Step(lib, s, e), e.job)
  {
    JobEventIsJobStep(lib, s, e);
    match e {
      case JobGates(j) => GateIsItsOwn(lib, s, j);
      case JobOpensBody(_, _) => BodyStepIsItsOwn(lib, s, e);
      case JobPublishesBody(_, _, _) => BodyStepIsItsOwn(lib, s, e);
      case _ => CountStepIsItsOwn(lib, s, e);
    }
  }

  lemma OwnStepsCompose(s0: State, s1: State, s2: State, j: nat)
    requires OnlyItsOwn(s0, s1, j) && OnlyItsOwn(s1, s2, j)
    ensures OnlyItsOwn(s0, s2, j)
  {
  }

  lemma WritesAreItsOwn(lib: Library, s: State, j: nat, bodyOk: bool, countOk: bool)
    requires j in s.jobs && OthersAreDone(s, j)
    ensures OnlyItsOwn(s, AfterWrites(lib, s, j, bodyOk, countOk), j)
    ensures OthersAreDone(AfterWrites(lib, s, j, bodyOk, countOk), j)
  {
    var s1 := Step(lib, s, JobGates(j));
    JobStepIsItsOwn(lib, s, JobGates(j));
    var s2 := Step(lib, s1, JobOpensBody(j, true));
    JobStepIsItsOwn(lib, s1, JobOpensBody(j, true));
    OwnStepsCompose(s, s1, s2, j);
    var s3 := Step(lib, s2, JobPublishesBody(j, bodyOk, None));
    JobStepIsItsOwn(lib, s2, JobPublishesBody(j, bodyOk, None));
    OwnStepsCompose(s, s2, s3, j);
    var s4 := Step(lib, s3, JobOpensCount(j, true));
    JobStepIsItsOwn(lib, s3, JobOpensCount(j, true));
    OwnStepsCompose(s, s3, s4, j);
    var s5 := Step(lib, s4, JobPublishesCount(j, countOk, None));
    JobStepIsItsOwn(lib, s4, JobPublishesCount(j, countOk, None));
    OwnStepsCompose(s, s4, s5, j);
  }

  /** The cycle stands between two sources, with this much done. */
  ghost predicate HasRefreshed(lib: Library, s: State, begun: State, r: Refresh) {
    && begun.cycle.Running? && s.cycle.Running? && AllAreDone(s)
    && s.now == begun.now && s.bundle == begun.bundle
    && s.cycle == begun.cycle.(phase := Fetching, parts := r.parts, statuses := r.statuses, domains := s.cycle.domains)
    && s.cycle.domains == HashAll(lib, begun.cycle.seed, AllEntries(lib, r.parts))
    && forall id :: DiskOf(s.disk, id) == DiskOf(r.disk, id)
  }

  lemma AddedPart(lib: Library, s: State, begun: State, r: Refresh, part: Part, hashes: seq<Hash>,
                  lastUpdated: Option<int>, error: Option<RefreshError>, r': Refresh)
    requires HasRefreshed(lib, s, begun, r) && hashes == HashAll(lib, begun.cycle.seed, PartEntries(lib, part))
    requires r'.parts == r.parts + [part]
    requires r'.statuses == r.statuses + [Status(part.source.id, part.source.group, |hashes|, lastUpdated, error)]
    requires forall id :: DiskOf(s.disk, id) == DiskOf(r'.disk, id)
    ensures HasRefreshed(lib, AddsPart(s, part, hashes, lastUpdated, error), begun, r')
  {
    AddsPartKeepsDomains(lib, begun.cycle.seed, r.parts, part);
  }

  lemma SpawnedJob(lib: Library, s: State, body: Body)
    requires IsFetching(s) && AllAreDone(s)
    ensures var s', j := Step(lib, s, FetchSucceeds(body)), s.nextJob;
            && s' == SpawnsJob(s, body) && OthersAreDone(s', j) && j in s'.jobs && WritesAlone(s', j)
            && s'.jobs[j] == Job(s.cycle.selected[|s.cycle.parts|], body, s.cycle.seed, JobPhase.Fetched, None)
  {
  }

  /** The attempt failed and left these files; the fallback is next. */
  ghost predicate HasFailed(lib: Library, s: State, begun: State, r: Refresh, error: RefreshError) {
    && s.cycle.Running? && s.cycle.phase == NeedsFallback(error)
    && HasRefreshed(lib, s.(cycle := s.cycle.(phase := Fetching)), begun, r)
  }

  lemma Returns(lib: Library, s: State, begun: State, r: Refresh, j: nat, result: Result<seq<Hash>, RefreshError>)
    requires begun.cycle.Running? && |r.parts| < |begun.cycle.selected|
    requires s.cycle.Running? && s.cycle.phase == Awaiting(j)
    requires HasRefreshed(lib, s.(cycle := s.cycle.(phase := Fetching)), begun, r)
    requires j in s.jobs && s.jobs[j].phase == Finished(result)
    requires s.jobs[j].source == begun.cycle.selected[|r.parts|]
    requires result.Success? ==> result.value == HashAll(lib, begun.cycle.seed,
               PartEntries(lib, Fresh(s.jobs[j].source, s.jobs[j].body)))
    ensures var s', source := Step(lib, s, AwaitReturns), s.jobs[j].source;
            match result
            case Success(hashes) =>
              HasRefreshed(lib, s', begun,
                Refresh(r.disk, r.parts + [Fresh(source, s.jobs[j].body)],
                        r.statuses + [Status(source.id, source.group, |hashes|, Some(s.now), None)]))
            case Failure(error) => HasFailed(lib, s', begun, r, error)
  {
    var job, s' := s.jobs[j], Step(lib, s, AwaitReturns);
    assert s' == TakesResult(s);
    if result.Success? {
      var part := Fresh(job.source, job.body);
      var r' := Refresh(r.disk, r.parts + [part], r.statuses + [Status(job.source.id, job.source.group,
                                                                    |result.value|, Some(s.now), None)]);
      AddedPart(lib, s.(cycle := s.cycle.(phase := Fetching)), begun, r, part, result.value, Some(s.now), None, r');
      assert s' == AddsPart(s, part, result.value, Some(s.now), None);
    }
  }

  lemma SuccessIsTheHashes(lib: Library, job: Job, files: Files, now: int, bodyOk: bool, countOk: bool)
    ensures var result := WriteAndHash(lib, job, files, now, bodyOk, countOk).1;
            result.Success? ==>
              result.value == HashAll(lib, job.seed, PartEntries(lib, Fresh(job.source, job.body)))
  {
  }

  /** The refresh after the files of the next source have changed. */
  function WithFiles(r: Refresh, id: string, files: Files): Refresh {
    r.(disk := r.disk[id := files])
  }

  /** What one attempt leaves, before the fallback. */
  ghost predicate HasTried(lib: Library, s: State, begun: State, r: Refresh, a: Attempt)
    requires begun.cycle.Running? && |r.parts| < |begun.cycle.selected|
  {
    var c := begun.cycle;
    var source := c.selected[|r.parts|];
    var (files, result) := Fetched(lib, source, c.seed, DiskOf(r.disk, source.id), begun.now, a.fetch);
    match result
    case Success(_) => HasRefreshed(lib, s, begun, WithSource(lib, r, source, c.seed, c.previous, begun.now, a))
    case Failure(error) => HasFailed(lib, s, begun, WithFiles(r, source.id, files), error)
  }

  lemma OwnFilesChange(lib: Library, s: State, spawned: State, w: State, begun: State, r: Refresh, j: nat)
    requires HasRefreshed(lib, s, begun, r) && OnlyItsOwn(spawned, w, j) && OthersAreDone(w, j)
    requires w.jobs[j].phase.Finished? && spawned.cycle == s.cycle.(phase := Awaiting(j))
    requires spawned.disk == s.disk && spawned.now == s.now && spawned.bundle == s.bundle
    ensures var id := spawned.jobs[j].source.id;
            HasRefreshed(lib, w.(cycle := w.cycle.(phase := Fetching)), begun, WithFiles(r, id, DiskOf(w.disk, id)))
  {
    assert s.cycle.(phase := Awaiting(j)).(phase := Fetching) == s.cycle;
  }

  lemma WritesLeave(lib: Library, s: State, begun: State, r: Refresh, a: Attempt)
    requires HasRefreshed(lib, s, begun, r) && |r.parts| < |begun.cycle.selected| && a.fetch.Downloads?
    ensures var j, spawned := s.nextJob, Step(lib, s, FetchSucceeds(a.fetch.body));
            var w := AfterWrites(lib, spawned, j, a.fetch.bodyOk, a.fetch.countOk);
            var source := begun.cycle.selected[|r.parts|];
            var (files, result) :=
              Fetched(lib, source, begun.cycle.seed, DiskOf(r.disk, source.id), begun.now, a.fetch);
            && w.cycle == s.cycle.(phase := Awaiting(j))
            && HasRefreshed(lib, w.(cycle := w.cycle.(phase := Fetching)), begun, WithFiles(r, source.id, files))
            && j in w.jobs && w.jobs[j].phase == Finished(result)
            && w.jobs[j].source == source && w.jobs[j].body == a.fetch.body
  {
    var j, spawned := s.nextJob, Step(lib, s, FetchSucceeds(a.fetch.body));
    SpawnedJob(lib, s, a.fetch.body);
    UndisturbedJobIsOneWrite(lib, spawned, j, a.fetch.bodyOk, a.fetch.countOk);
    WritesAreItsOwn(lib, spawned, j, a.fetch.bodyOk, a.fetch.countOk);
    OwnFilesChange(lib, s, spawned, AfterWrites(lib, spawned, j, a.fetch.bodyOk, a.fetch.countOk), begun, r, j);
  }

  lemma DownloadLeaves(lib: Library, s: State, begun: State, r: Refresh, a: Attempt)
    requires HasRefreshed(lib, s, begun, r) && |r.parts| < |begun.cycle.selected| && a.fetch.Downloads?
    ensures HasTried(lib, AfterFetch(lib, s, a.fetch), begun, r, a)
  {
    var c, fetch := begun.cycle, a.fetch;
    var source := c.selected[|r.parts|];
    var (files, result) := Fetched(lib, source, c.seed, DiskOf(r.disk, source.id), begun.now, fetch);
    var w := AfterWrites(lib, Step(lib, s, FetchSucceeds(fetch.body)), s.nextJob, fetch.bodyOk, fetch.countOk);
    WritesLeave(lib, s, begun, r, a);
    SuccessIsTheHashes(lib, Job(source, fetch.body, c.seed, JobPhase.Fetched, None), DiskOf(r.disk, source.id),
                       begun.now, fetch.bodyOk, fetch.countOk);
    Returns(lib, w, begun, WithFiles(r, source.id, files), s.nextJob, result);
  }

  lemma FilesStay(lib: Library, s: State, begun: State, r: Refresh, id: string)
    requires HasRefreshed(lib, s, begun, r)
    ensures HasRefreshed(lib, s, begun, WithFiles(r, id, DiskOf(r.disk, id)))
  {
  }

  lemma FailedFetchLeaves(lib: Library, s: State, begun: State, r: Refresh, a: Attempt)
    requires HasRefreshed(lib, s, begun, r) && |r.parts| < |begun.cycle.selected|
    requires a.fetch.FailsToFetch? || a.fetch.RunsIntoTheLimit?
    ensures HasTried(lib, AfterFetch(lib, s, a.fetch), begun, r, a)
  {
    FilesStay(lib, s, begun, r, begun.cycle.selected[|r.parts|].id);
    var error := if a.fetch.RunsIntoTheLimit? then Timeout else if a.fetch.tooLarge then TooLarge else Http;
    assert AfterFetch(lib, s, a.fetch) == FailsOver(s, error);
    assert s.cycle.(phase := NeedsFallback(error)).(phase := Fetching) == s.cycle;
  }

  lemma PanickedJob(lib: Library, s: State, body: Body)
    requires IsFetching(s) && AllAreDone(s)
    ensures Step(lib, Step(lib, s, FetchSucceeds(body)), JobPanics(s.nextJob)) == SpawnsJob(s, body).(jobs := s.jobs)
  {
    SpawnedJob(lib, s, body);
    JobEventIsJobStep(lib, SpawnsJob(s, body), JobPanics(s.nextJob));
    assert SpawnsJob(s, body).jobs - {s.nextJob} == s.jobs;
  }

  lemma LostJobReturns(lib: Library, s: State, j: nat)
    requires IsAwaiting(s) && s.cycle.phase == Awaiting(j) && j !in s.jobs
    ensures Step(lib, s, AwaitReturns) == FailsOver(s, Join)
  {
  }

  lemma LostJobLeaves(lib: Library, s: State, begun: State, r: Refresh, a: Attempt)
    requires HasRefreshed(lib, s, begun, r) && |r.parts| < |begun.cycle.selected| && a.fetch.LosesItsJob?
    ensures HasTried(lib, AfterFetch(lib, s, a.fetch), begun, r, a)
  {
    FilesStay(lib, s, begun, r, begun.cycle.selected[|r.parts|].id);
    PanickedJob(lib, s, a.fetch.lost);
    LostJobReturns(lib, SpawnsJob(s, a.fetch.lost).(jobs := s.jobs), s.nextJob);
  }

  lemma FallbackLeaves(lib: Library, s: State, begun: State, r: Refresh, error: RefreshError, readOk: bool,
                       source: Source)
    requires HasFailed(lib, s, begun, r, error) && |r.parts| < |begun.cycle.selected|
    requires source == begun.cycle.selected[|r.parts|]
    ensures var read := if readOk then DiskOf(r.disk, source.id).body else None;
            HasRefreshed(lib, Step(lib, s, ReadsFallback(readOk)), begun,
              Refresh(r.disk, r.parts + [Fallback(source, read, error)],
                      r.statuses + [Status(source.id, source.group, |FallbackEntries(lib, source.format, read)|,
                                           LastSuccess(begun.cycle.previous, source.id), Some(error))]))
  {
    var read := if readOk then DiskOf(r.disk, source.id).body else None;
    var part, last := Fallback(source, read, error), LastSuccess(begun.cycle.previous, source.id);
    var hashes := HashAll(lib, begun.cycle.seed, FallbackEntries(lib, source.format, read));
    var status := Status(source.id, source.group, |hashes|, last, Some(error));
    var r' := Refresh(r.disk, r.parts + [part], r.statuses + [status]);
    FallbackStep(lib, s, readOk);
    AddedPart(lib, s.(cycle := s.cycle.(phase := Fetching)), begun, r, part, hashes, last, Some(error), r');
    assert Step(lib, s, ReadsFallback(readOk)) == AddsPart(s, part, hashes, last, Some(error));
  }

  lemma AttemptIsOneSource(lib: Library, s: State, begun: State, r: Refresh, a: Attempt)
    requires HasRefreshed(lib, s, begun, r) && |r.parts| < |begun.cycle.selected|
    ensures var c := begun.cycle;
            HasRefreshed(lib, AfterAttempt(lib, s, a), begun,
                         WithSource(lib, r, c.selected[|r.parts|], c.seed, c.previous, begun.now, a))
  {
    var c := begun.cycle;
    var source := c.selected[|r.parts|];
    var (files, result) := Fetched(lib, source, c.seed, DiskOf(r.disk, source.id), begun.now, a.fetch);
    match a.fetch {
      case Downloads(_, _, _) => DownloadLeaves(lib, s, begun, r, a);
      case LosesItsJob(_) => LostJobLeaves(lib, s, begun, r, a);
      case _ => FailedFetchLeaves(lib, s, begun, r, a);
    }
    var tried := AfterFetch(lib, s, a.fetch);
    if result.Failure? {
      FallbackLeaves(lib, tried, begun, WithFiles(r, source.id, files), result.error, a.readOk, source);
    } else {
      FallbackStep(lib, tried, a.readOk);
    }
  }

  lemma WithSourceAddsOne(lib: Library, r: Refresh, source: Source, seed: Seed, previous: seq<Status>, now: int,
                          a: Attempt)
    ensures |WithSource(lib, r, source, seed, previous, now, a).parts| == |r.parts| + 1
  {
  }

  lemma {:induction false} AttemptsAreTheSources(lib: Library, begun: State, attempts: seq<Attempt>)
    requires begun.cycle.Running? && AllAreDone(begun) && |attempts| <= |begun.cycle.selected|
    requires begun.cycle == Running(begun.cycle.seed, begun.cycle.selected, begun.cycle.previous, Fetching, [], [], [])
    ensures var c := begun.cycle;
            var r := WithSources(lib, begun.disk, c.selected, c.seed, c.previous, begun.now, attempts);
            HasRefreshed(lib, AfterAttempts(lib, begun, attempts), begun, r) && |r.parts| == |attempts|
    decreases |attempts|
  {
    if attempts != [] {
      var c, n := begun.cycle, |attempts| - 1;
      AttemptsAreTheSources(lib, begun, attempts[..n]);
      var r := WithSources(lib, begun.disk, c.selected, c.seed, c.previous, begun.now, attempts[..n]);
      AttemptIsOneSource(lib, AfterAttempts(lib, begun, attempts[..n]), begun, r, attempts[n]);
      WithSourceAddsOne(lib, r, c.selected[n], c.seed, c.previous, begun.now, attempts[n]);
    }
  }

  /** A whole cycle that begins with every job done, whatever becomes of each download: it is the
      sequential refresh of the selected sources, one after the other, and publishes their union. */
  lemma UndisturbedCycleIsSequential(lib: Library, s: State, config: Config, seed: Seed, attempts: seq<Attempt>)
    requires s.cycle.Idle? && AllAreDone(s) && config.enabled && config.sources != Some([])
    requires |attempts| == |SelectedSources(BLOCKLIST_SOURCES, config.sources)|
    ensures var sources := SelectedSources(BLOCKLIST_SOURCES, config.sources);
            var begun := Step(lib, s, BeginCycle(config, true, seed));
            var s' := Step(lib, AfterAttempts(lib, begun, attempts), Publishes(true));
            var r := WithSources(lib, s.disk, sources, seed, s.bundle.statuses, s.now, attempts);
            && s'.cycle.Idle? && (forall id :: DiskOf(s'.disk, id) == DiskOf(r.disk, id))
            && s'.bundle == Bundle(seed, Finalised(HashAll(lib, seed, AllEntries(lib, r.parts))), r.statuses, r.parts,
                                   sources)
  {
    CycleBeginsIff(lib, s, config, true, seed);
    var begun := Step(lib, s, BeginCycle(config, true, seed));
    AttemptsAreTheSources(lib, begun, attempts);
    PublishesIff(lib, AfterAttempts(lib, begun, attempts), true);
  }

  // ---------- what is served ----------

  /** A cycle is published exactly when every selected source has its part; what is served then are that
      cycle's seed, selection, parts and statuses, and the finalised vector of its hashes. */
  lemma PublishesIff(lib: Library, s: State, ok: bool)
    ensures var s', c := Step(lib, s, Publishes(ok)), s.cycle;
            if c.Running? && |c.parts| == |c.selected|
            then s' == s.(cycle := Idle, bundle := if ok
                            then Bundle(c.seed, Finalised(c.domains), c.statuses, c.parts, c.selected) else s.bundle)
            else s' == s
  {
  }

  predicate LeavesTheBundle(events: seq<Event>) {
    forall e :: e in events ==> !(e.Publishes? && e.ok) && !e.WarmLoads? && !e.Crashes?
  }

  lemma StepLeavesTheBundle(lib: Library, s: State, e: Event)
    requires !(e.Publishes? && e.ok) && !e.WarmLoads? && !e.Crashes?
    ensures Step(lib, s, e).bundle == s.bundle
  {
    match e {
      case BeginCycle(_, _, _) =>
      case _ =>
    }
  }

  lemma {:induction false} BundleStays(lib: Library, s: State, events: seq<Event>)
    requires LeavesTheBundle(events)
    ensures Run(lib, s, events).bundle == s.bundle
    decreases |events|
  {
    if events != [] {
      var init, e := events[..|events| - 1], events[|events| - 1];
      assert e in events && forall x :: x in init ==> x in events;
      BundleStays(lib, s, init);
      StepLeavesTheBundle(lib, Run(lib, s, init), e);
    }
  }

  /** The bundle lists what a part of it lists. */
  lemma {:induction false} PartIsListed(lib: Library, parts: seq<Part>, part: Part, d: string)
    requires part in parts && d in PartEntries(lib, part)
    ensures d in AllEntries(lib, parts)
  {
    if part in parts[..|parts| - 1] {
      PartIsListed(lib, parts[..|parts| - 1], part, d);
    }
  }

  /** Over every run: once a cycle with all its parts in is published, the bundle is that cycle's, and
      every domain of two or more labels that a body accepted in the cycle lists is blocked with
      everything below it, until something else is published or loaded or the process ends. */
  lemma PublishedCycleIsServed(lib: Library, disk: map<string, Files>, now: int, events: seq<Event>,
                               later: seq<Event>, source: Source, body: Body, d: string, query: string)
    requires DiskOk(lib, disk) && LeavesTheBundle(later)
    requires var c := Run(lib, Boot(disk, now), events).cycle;
             c.Running? && |c.parts| == |c.selected| && Fresh(source, body) in c.parts
    requires d in BodyEntries(lib, source.format, body.lossyText) && HasDot(d)
    requires lib.normalize(query).Some? && IsAtOrBelow(lib.normalize(query).value, d)
    ensures var s := Run(lib, Boot(disk, now), events);
            var b := Run(lib, Step(lib, s, Publishes(true)), later).bundle;
            && b.seed == s.cycle.seed && b.selected == s.cycle.selected
            && b.parts == s.cycle.parts && b.statuses == s.cycle.statuses
            && LookupBlocks(lib, b.seed, Members(b.domains), query)
  {
    var s := Run(lib, Boot(disk, now), events);
    EveryRunKeepsInv(lib, disk, now, events);
    PublishesIff(lib, s, true);
    BundleStays(lib, Step(lib, s, Publishes(true)), later);
    PartIsListed(lib, s.cycle.parts, Fresh(source, body), d);
    PublishedPartsAreBlocked(lib, s.cycle, d, query);
  }

  lemma PublishedPartsAreBlocked(lib: Library, c: RefreshCycle, d: string, query: string)
    requires c.Running? && c.domains == HashAll(lib, c.seed, AllEntries(lib, c.parts))
    requires d in AllEntries(lib, c.parts) && HasDot(d)
    requires lib.normalize(query).Some? && IsAtOrBelow(lib.normalize(query).value, d)
    ensures LookupBlocks(lib, c.seed, Members(Finalised(c.domains)), query)
  {
    var entries := set e | e in AllEntries(lib, c.parts);
    MembersOfHashAll(lib, c.seed, AllEntries(lib, c.parts));
    assert PlainSetBlocks(lib, entries, query);
    LookupAgreesWithPlainSet(lib, c.seed, entries, query);
  }

  // ---------- the ends of a process ----------

  /** A crash keeps the files and the time, and nothing else: no job, no cycle, and a bundle that blocks
      nothing. */
  lemma CrashForgets(lib: Library, s: State, query: string)
    ensures var s' := Step(lib, s, Crashes);
            && s'.disk == s.disk && s'.now == s.now && s'.jobs == map[] && s'.cycle.Idle?
            && s'.bundle.parts == [] && s'.bundle.statuses == []
            && !LookupBlocks(lib, s'.bundle.seed, Members(s'.bundle.domains), query)
  {
  }

  /** The last time the clock was moved to. */
  function LastReading(now: int, events: seq<Event>): int {
    if events == [] then now
    else
      match events[|events| - 1]
      case ClockMoves(to) => to
      case _ => LastReading(now, events[..|events| - 1])
  }

  lemma StepLeavesTheClock(lib: Library, s: State, e: Event)
    requires !e.ClockMoves?
    ensures Step(lib, s, e).now == s.now
  {
    if IsJobEvent(e) {
      JobEventIsJobStep(lib, s, e);
    } else {
      match e {
        case BeginCycle(_, _, _) =>
        case WarmLoads(_, _) =>
        case _ =>
      }
    }
  }

  /** Over every run the clock shows its last reading. */
  lemma {:induction false} ClockShowsItsLastReading(lib: Library, disk: map<string, Files>, now: int,
                                                    events: seq<Event>)
    ensures Run(lib, Boot(disk, now), events).now == LastReading(now, events)
    decreases |events|
  {
    if events != [] {
      var init, e := events[..|events| - 1], events[|events| - 1];
      ClockShowsItsLastReading(lib, disk, now, init);
      if !e.ClockMoves? {
        StepLeavesTheClock(lib, Run(lib, Boot(disk, now), init), e);
      }
    }
  }
}

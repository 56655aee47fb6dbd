/** The refresh protocol of the blocklist bundles (`blocklist_updater.rs`): one updater task that
    fetches the selected sources in turn, writer jobs on a blocking pool that cannot be cancelled,
    two files per source, and a bundle that is swapped in whole. Writing a file is two steps, opening
    the shared temporary file and publishing it; two jobs whose writes of one file overlap may
    publish anything, as module AtomicWrite shows. Events are atomic steps; a run is any sequence of
    them, with crashes, timeouts, failed writes and panics anywhere. */
module BlocklistRefresh {

  import opened Wrappers
  import opened BlocklistDownload
  import opened DeltaGate

  // ---------- sources, files and jobs ----------

  datatype Source = Source(id: string, group: string, format: SourceFormat)

  const BLOCKLIST_SOURCES: seq<Source> := [
    Source("hagezi-multi-pro", "hagezi-multi-pro", PlainDomain),
    Source("hagezi-tif", "hagezi-tif", PlainDomain),
    Source("hagezi-nrd", "hagezi-nrd-dga", PlainDomain),
    Source("hagezi-dga", "hagezi-nrd-dga", PlainDomain),
    Source("hagezi-dyndns", "hagezi-dyndns", PlainDomain),
    Source("hagezi-hoster", "hagezi-hoster", PlainDomain),
    Source("adguard-dns-filter", "adguard-dns-filter", AdblockNetRules),
    Source("1hosts-lite", "1hosts-lite", PlainDomain)]

  /** The bytes of a body: their text with invalid bytes replaced, and whether there were none. */
  datatype Bytes = Bytes(lossyText: string, isUtf8: bool)

  /** Replacing an invalid byte leaves its mark in the text (U+FFFD). */
  type Body = b: Bytes | b.isUtf8 || '\U{FFFD}' in b.lossyText witness Bytes("", true)

  /** The `.count` file: its number if it parses, and its modification time. `alone` and `counted`
      are history: no other write of the same file overlapped the one that published it, and the body
      that one counted. */
  datatype CountFile = CountFile(count: Option<nat>, writtenAt: int, alone: bool, counted: Body)

  /** The `.txt` file: the body as fetched, its modification time, and the same history. */
  datatype BodyFile = BodyFile(body: Body, writtenAt: int, alone: bool)

  datatype Files = Files(body: Option<BodyFile>, count: Option<CountFile>)

  datatype RefreshError =
    | Http | TooLarge | Io | Timeout | Join
    | Rejected(why: ValidationFailure)

  datatype JobPhase =
    | Fetched
    | Accepted
    | WritingBody(alone: bool)
    | BodyWritten
    | WritingCount(alone: bool)
    | Finished(result: Result<seq<Hash>, RefreshError>)

  /** `baseline` is history: what the job's delta gate compared its count with. */
  datatype Job = Job(source: Source, body: Body, seed: Seed, phase: JobPhase, baseline: Option<Baseline>)

  /** The count file of a job's own body. */
  function CountedFile(lib: Library, job: Job, now: int): CountFile {
    CountFile(Some(|JobHashes(lib, job)|), now, true, job.body)
  }

  /** `read_previous_count`: no baseline without a readable number and a non-negative age. */
  function PreviousCount(count: Option<CountFile>, now: int): Option<Baseline> {
    match count
    case None => None
    case Some(f) =>
      if f.count.None? || now < f.writtenAt then None
      else Some(Baseline(f.count.value, now - f.writtenAt))
  }

  function JobHashes(lib: Library, job: Job): seq<Hash> {
    BodyHashes(lib, job.source.format, job.seed, job.body.lossyText)
  }

  /** The gates, before anything is written. */
  function GateVerdict(lib: Library, job: Job, count: Option<CountFile>, now: int): Result<(), ValidationFailure> {
    var valid := ValidateBody(lib, job.source.format, job.body.lossyText, job.seed);
    if valid.Failure? then valid
    else DeltaVerdict(|JobHashes(lib, job)|, PreviousCount(count, now))
  }

  function GatePhase(lib: Library, job: Job, count: Option<CountFile>, now: int): JobPhase {
    match GateVerdict(lib, job, count, now)
    case Success(_) => Accepted
    case Failure(why) => Finished(Failure(Rejected(why)))
  }

  /** What the fallback serves from a file: nothing when it is missing or not valid UTF-8. */
  function FallbackEntries(lib: Library, format: SourceFormat, read: Option<BodyFile>): seq<string> {
    if read.Some? && read.value.body.isUtf8 then BodyEntries(lib, format, read.value.body.lossyText) else []
  }

  /** The files and the answer of one whole write job that nothing interrupts. */
  function WriteAndHash(lib: Library, job: Job, files: Files, now: int, bodyWriteOk: bool, countWriteOk: bool)
    : (Files, Result<seq<Hash>, RefreshError>)
  {
    match GateVerdict(lib, job, files.count, now)
    case Failure(why) => (files, Failure(Rejected(why)))
    case Success(_) =>
      if !bodyWriteOk then (files, Failure(Io))
      else
        var hashes := JobHashes(lib, job);
        (Files(Some(BodyFile(job.body, now, true)),
               if countWriteOk then Some(CountFile(Some(|hashes|), now, true, job.body)) else files.count),
         Success(hashes))
  }

  // ---------- the sequential form of one write ----------

  /** The two files of one source. */
  class SourceFiles {
    var body: Option<BodyFile>
    var count: Option<CountFile>

    ghost function Contents(): Files reads this {
      Files(body, count)
    }

    /** `write_and_hash_blocking`: every gate runs before the first write, and a failed count
        write does not fail the cycle. */
    method WriteAndHashBlocking(lib: Library, source: Source, fetched: Body, seed: Seed, now: int,
                                bodyWriteOk: bool, countWriteOk: bool)
      returns (result: Result<seq<Hash>, RefreshError>)
      modifies this
      ensures (Contents(), result)
           == WriteAndHash(lib, Job(source, fetched, seed, Fetched, None), old(Contents()), now,
                           bodyWriteOk, countWriteOk)
    {
      var buffer := new HashBuffer();
      buffer.HashSourceBody(lib, source.format, fetched.lossyText, seed);
      var hashes := buffer.hashes;
      assert hashes == BodyHashes(lib, source.format, seed, fetched.lossyText);
      var valid := ValidateHashes(lib, hashes, buffer.candidates, seed);
      if valid.Failure? {
        return Failure(Rejected(valid.error));
      }
      var delta := DeltaVerdict(|hashes|, PreviousCount(count, now));
      if delta.Failure? {
        return Failure(Rejected(delta.error));
      }
      if !bodyWriteOk {
        return Failure(Io);
      }
      body := Some(BodyFile(fetched, now, true));
      if countWriteOk {
        count := Some(CountFile(Some(|hashes|), now, true, fetched));
      }
      result := Success(hashes);
    }

    /** `read_and_hash_blocking`. */
    method ReadAndHashBlocking(lib: Library, format: SourceFormat, seed: Seed) returns (hashes: seq<Hash>)
      ensures hashes == HashAll(lib, seed, FallbackEntries(lib, format, body))
    {
      if body.None? || !body.value.body.isUtf8 {
        return [];
      }
      var buffer := new HashBuffer();
      buffer.HashSourceBody(lib, format, body.value.body.lossyText, seed);
      hashes := buffer.hashes;
    }
  }

  // ---------- the updater task ----------

  datatype Status = Status(id: string, group: string, entryCount: nat,
                           lastUpdated: Option<int>, lastError: Option<RefreshError>)

  /** Where one source's share of a bundle came from: the body and how it was obtained. */
  datatype Part =
    | Fresh(source: Source, body: Body)
    | Fallback(source: Source, read: Option<BodyFile>, error: RefreshError)
    | Warm(source: Source, file: BodyFile)

  function PartEntries(lib: Library, part: Part): seq<string> {
    match part
    case Fresh(source, body) => BodyEntries(lib, source.format, body.lossyText)
    case Fallback(source, read, _) => FallbackEntries(lib, source.format, read)
    case Warm(source, file) => FallbackEntries(lib, source.format, Some(file))
  }

  function AllEntries(lib: Library, parts: seq<Part>): seq<string> {
    if parts == [] then [] else AllEntries(lib, parts[..|parts| - 1]) + PartEntries(lib, parts[|parts| - 1])
  }

  /** A published bundle. `parts` and `selected` are history: what the vector was built from. */
  datatype Bundle = Bundle(seed: Seed, domains: seq<Hash>, statuses: seq<Status>,
                           parts: seq<Part>, selected: seq<Source>)

  const EMPTY_BUNDLE := Bundle(0, [], [], [], [])

  datatype CyclePhase =
    | Fetching
    | Awaiting(job: nat)
    | NeedsFallback(error: RefreshError)

  datatype RefreshCycle =
    | Idle
    | Running(seed: Seed, selected: seq<Source>, previous: seq<Status>, phase: CyclePhase,
              domains: seq<Hash>, statuses: seq<Status>, parts: seq<Part>)

  datatype Config = Config(enabled: bool, sources: Option<seq<string>>)

  datatype State = State(disk: map<string, Files>, jobs: map<nat, Job>, nextJob: nat,
                         cycle: RefreshCycle, bundle: Bundle, now: int)

  predicate IsSelected(selected: Option<seq<string>>, id: string) {
    selected.None? || id in selected.value
  }

  function SelectedSources(sources: seq<Source>, selected: Option<seq<string>>): seq<Source> {
    SelectedUpTo(sources, selected, |sources|)
  }

  /** Those among the first `n` sources. */
  function SelectedUpTo(sources: seq<Source>, selected: Option<seq<string>>, n: nat): seq<Source>
    requires n <= |sources|
    decreases n
  {
    if n == 0 then []
    else
      SelectedUpTo(sources, selected, n - 1)
      + if IsSelected(selected, sources[n - 1].id) then [sources[n - 1]] else []
  }

  function DiskOf(disk: map<string, Files>, id: string): Files {
    if id in disk then disk[id] else Files(None, None)
  }

  datatype Event =
    | ClockMoves(to: int)
    | BeginCycle(config: Config, directoryOk: bool, freshSeed: Seed)
    | FetchFails(tooLarge: bool)
    | FetchSucceeds(body: Body)
    | AttemptTimesOut
    | JobGates(job: nat)
    | JobOpensBody(job: nat, ok: bool)
    | JobPublishesBody(job: nat, ok: bool, mixed: Option<Body>)
    | JobSpillsBody(job: nat, spilt: Body)
    | JobOpensCount(job: nat, ok: bool)
    | JobPublishesCount(job: nat, ok: bool, mixedCount: Option<Option<nat>>)
    | JobSpillsCount(job: nat, spiltCount: Option<nat>)
    | JobPanics(job: nat)
    | AwaitReturns
    | ReadsFallback(ok: bool)
    | Publishes(ok: bool)
    | WarmLoads(selected: Option<seq<string>>, warmSeed: Seed)
    | Crashes

  // ---------- the steps ----------

  predicate IsFetching(s: State) {
    s.cycle.Running? && |s.cycle.parts| < |s.cycle.selected| && s.cycle.phase.Fetching?
  }

  predicate IsAwaiting(s: State) {
    s.cycle.Running? && |s.cycle.parts| < |s.cycle.selected| && s.cycle.phase.Awaiting?
  }

  predicate CanFallBack(s: State) {
    s.cycle.Running? && |s.cycle.parts| < |s.cycle.selected| && s.cycle.phase.NeedsFallback?
  }

  function BeginsCycle(s: State, config: Config, directoryOk: bool, seed: Seed): State {
    if !s.cycle.Idle? || !config.enabled || config.sources == Some([]) || !directoryOk then s
    else s.(cycle := Running(seed, SelectedSources(BLOCKLIST_SOURCES, config.sources), s.bundle.statuses,
                             Fetching, [], [], []))
  }

  function FailsOver(s: State, error: RefreshError): State
    requires s.cycle.Running?
  {
    s.(cycle := s.cycle.(phase := NeedsFallback(error)))
  }

  function SpawnsJob(s: State, body: Body): State
    requires IsFetching(s)
  {
    var source := s.cycle.selected[|s.cycle.parts|];
    s.(jobs := s.jobs[s.nextJob := Job(source, body, s.cycle.seed, Fetched, None)],
       nextJob := s.nextJob + 1,
       cycle := s.cycle.(phase := Awaiting(s.nextJob)))
  }

  function JobMoves(s: State, j: nat, phase: JobPhase): State
    requires j in s.jobs
  {
    s.(jobs := s.jobs[j := s.jobs[j].(phase := phase)])
  }

  function Gated(lib: Library, s: State, j: nat): State
    requires j in s.jobs
  {
    var job := s.jobs[j];
    var count := DiskOf(s.disk, job.source.id).count;
    s.(jobs := s.jobs[j := job.(phase := GatePhase(lib, job, count, s.now), baseline := PreviousCount(count, s.now))])
  }

  predicate WritesBodyOf(job: Job, id: string) {
    job.source.id == id && job.phase.WritingBody?
  }

  predicate WritesCountOf(job: Job, id: string) {
    job.source.id == id && job.phase.WritingCount?
  }

  /** Creating the temporary file ends every other writer's being alone, and the newcomer is alone
      if there is none. */
  function OpensBody(s: State, j: nat): State
    requires j in s.jobs
  {
    var id := s.jobs[j].source.id;
    var others := map k | k in s.jobs ::
      if WritesBodyOf(s.jobs[k], id) then s.jobs[k].(phase := WritingBody(false)) else s.jobs[k];
    var alone := forall k :: k in s.jobs ==> !WritesBodyOf(s.jobs[k], id);
    s.(jobs := others[j := s.jobs[j].(phase := WritingBody(alone))])
  }

  function OpensCount(s: State, j: nat): State
    requires j in s.jobs
  {
    var id := s.jobs[j].source.id;
    var others := map k | k in s.jobs ::
      if WritesCountOf(s.jobs[k], id) then s.jobs[k].(phase := WritingCount(false)) else s.jobs[k];
    var alone := forall k :: k in s.jobs ==> !WritesCountOf(s.jobs[k], id);
    s.(jobs := others[j := s.jobs[j].(phase := WritingCount(alone))])
  }

  function PutsBody(s: State, id: string, file: BodyFile): State {
    s.(disk := s.disk[id := DiskOf(s.disk, id).(body := Some(file))])
  }

  function PutsCount(s: State, id: string, file: CountFile): State {
    s.(disk := s.disk[id := DiskOf(s.disk, id).(count := Some(file))])
  }

  /** The rename of the body: a lone writer's own bytes; otherwise whatever mixture is there, or
      nothing, when the rename fails. */
  function PublishesBody(s: State, j: nat, ok: bool, mixed: Option<Body>): State
    requires j in s.jobs && s.jobs[j].phase.WritingBody?
  {
    var job := s.jobs[j];
    if !ok || (!job.phase.alone && mixed.None?) then JobMoves(s, j, Finished(Failure(Io)))
    else
      var bytes := if job.phase.alone then job.body else mixed.value;
      JobMoves(PutsBody(s, job.source.id, BodyFile(bytes, s.now, job.phase.alone)), j, BodyWritten)
  }

  /** The rename of the count; a failed count write does not fail the job. */
  function PublishesCount(lib: Library, s: State, j: nat, ok: bool, mixed: Option<Option<nat>>): State
    requires j in s.jobs && s.jobs[j].phase.WritingCount?
  {
    var job := s.jobs[j];
    var hashes := JobHashes(lib, job);
    var done := Finished(Success(hashes));
    if !ok || (!job.phase.alone && mixed.None?) then JobMoves(s, j, done)
    else
      var number := if job.phase.alone then Some(|hashes|) else mixed.value;
      JobMoves(PutsCount(s, job.source.id, CountFile(number, s.now, job.phase.alone, job.body)), j, done)
  }

  /** A step of one write job. A writer that is not alone may also still be writing to a file that
      another one has published. */
  function JobStep(lib: Library, s: State, j: nat, e: Event): State
    requires j in s.jobs
  {
    var job := s.jobs[j];
    var files := DiskOf(s.disk, job.source.id);
    match e
    case JobGates(_) => if job.phase.Fetched? then Gated(lib, s, j) else s
    case JobOpensBody(_, ok) =>
      if !job.phase.Accepted? then s
      else if ok then OpensBody(s, j)
      else JobMoves(s, j, Finished(Failure(Io)))
    case JobPublishesBody(_, ok, mixed) => if job.phase.WritingBody? then PublishesBody(s, j, ok, mixed) else s
    case JobSpillsBody(_, spilt) =>
      if job.phase == WritingBody(false) && files.body.Some? && !files.body.value.alone
      then PutsBody(s, job.source.id, BodyFile(spilt, s.now, false)) else s
    case JobOpensCount(_, ok) =>
      if !job.phase.BodyWritten? then s
      else if ok then OpensCount(s, j)
      else JobMoves(s, j, Finished(Success(JobHashes(lib, job))))
    case JobPublishesCount(_, ok, mixed) =>
      if job.phase.WritingCount? then PublishesCount(lib, s, j, ok, mixed) else s
    case JobSpillsCount(_, spilt) =>
      if job.phase == WritingCount(false) && files.count.Some? && !files.count.value.alone
      then PutsCount(s, job.source.id, CountFile(spilt, s.now, false, job.body)) else s
    case JobPanics(_) => if job.phase.Finished? then s else s.(jobs := s.jobs - {j})
    case _ => s
  }

  predicate IsJobEvent(e: Event) {
    e.JobGates? || e.JobOpensBody? || e.JobPublishesBody? || e.JobSpillsBody?
    || e.JobOpensCount? || e.JobPublishesCount? || e.JobSpillsCount? || e.JobPanics?
  }

  /** Adds one source's share to the cycle and moves on to the next source. */
  function AddsPart(s: State, part: Part, hashes: seq<Hash>, lastUpdated: Option<int>,
                    error: Option<RefreshError>): State
    requires s.cycle.Running?
  {
    var c := s.cycle;
    s.(cycle := c.(phase := Fetching, domains := c.domains + hashes, parts := c.parts + [part],
                   statuses := c.statuses + [Status(part.source.id, part.source.group, |hashes|, lastUpdated, error)]))
  }

  function FindStatus(statuses: seq<Status>, id: string): Option<Status> {
    if statuses == [] then None
    else if statuses[0].id == id then Some(statuses[0])
    else FindStatus(statuses[1..], id)
  }

  function TakesResult(s: State): State
    requires IsAwaiting(s)
  {
    var j := s.cycle.phase.job;
    if j !in s.jobs then FailsOver(s, Join)
    else
      match s.jobs[j].phase
      case Finished(Success(hashes)) => AddsPart(s, Fresh(s.jobs[j].source, s.jobs[j].body), hashes, Some(s.now), None)
      case Finished(Failure(error)) => FailsOver(s, error)
      case _ => s
  }

  function FallsBack(lib: Library, s: State, ok: bool): State
    requires CanFallBack(s)
  {
    var source := s.cycle.selected[|s.cycle.parts|];
    var read := if ok then DiskOf(s.disk, source.id).body else None;
    var status := FindStatus(s.cycle.previous, source.id);
    AddsPart(s, Fallback(source, read, s.cycle.phase.error),
             HashAll(lib, s.cycle.seed, FallbackEntries(lib, source.format, read)),
             if status.Some? then status.value.lastUpdated else None, Some(s.cycle.phase.error))
  }

  function PublishesCycle(s: State): State
    requires s.cycle.Running?
  {
    var c := s.cycle;
    s.(bundle := Bundle(c.seed, Finalised(c.domains), c.statuses, c.parts, c.selected), cycle := Idle)
  }

  /** The readable files of some sources, in source order. */
  function WarmParts(disk: map<string, Files>, sources: seq<Source>): seq<Part> {
    if sources == [] then []
    else
      var source := sources[|sources| - 1];
      var file := DiskOf(disk, source.id).body;
      WarmParts(disk, sources[..|sources| - 1])
      + (if file.Some? && file.value.body.isUtf8 then [Warm(source, file.value)] else [])
  }

  function WarmStatuses(lib: Library, parts: seq<Part>): seq<Status> {
    seq(|parts|, i requires 0 <= i < |parts| =>
      Status(parts[i].source.id, parts[i].source.group, |PartEntries(lib, parts[i])|,
             if parts[i].Warm? then Some(parts[i].file.writtenAt) else None, None))
  }

  function WarmBundle(lib: Library, disk: map<string, Files>, selected: Option<seq<string>>, seed: Seed): Bundle {
    var sources := SelectedSources(BLOCKLIST_SOURCES, selected);
    var parts := WarmParts(disk, sources);
    Bundle(seed, Finalised(HashAll(lib, seed, AllEntries(lib, parts))), WarmStatuses(lib, parts), parts, sources)
  }

  /** The warm load before the first cycle of a process; an empty bundle is not published. */
  function WarmLoaded(lib: Library, s: State, selected: Option<seq<string>>, seed: Seed): State {
    if s.cycle.Idle? && s.jobs == map[] then PublishedWarm(s, WarmBundle(lib, s.disk, selected, seed)) else s
  }

  function PublishedWarm(s: State, b: Bundle): State {
    if b.statuses == [] then s else s.(bundle := b)
  }

  lemma WarmPartsOfOneMore(lib: Library, disk: map<string, Files>, sources: seq<Source>, i: nat)
    requires i < |sources|
    ensures var source, parts := sources[i], WarmParts(disk, sources[..i]);
            var file := DiskOf(disk, source.id).body;
            var next := WarmParts(disk, sources[..i + 1]);
            if file.None? || !file.value.body.isUtf8 then next == parts
            else
              && next == parts + [Warm(source, file.value)]
              && WarmStatuses(lib, next) == WarmStatuses(lib, parts)
                 + [Status(source.id, source.group, |BodyEntries(lib, source.format, file.value.body.lossyText)|,
                           Some(file.value.writtenAt), None)]
  {
    assert sources[..i + 1][..i] == sources[..i];
  }

  /** `load_blocklist_bundles_from_disk`: a file that cannot be read as UTF-8 is passed over. */
  method LoadBlocklistBundlesFromDisk(lib: Library, disk: map<string, Files>, selected: Option<seq<string>>, seed: Seed)
    returns (bundle: Bundle)
    ensures bundle == WarmBundle(lib, disk, selected, seed)
  {
    var sources := SelectedSources(BLOCKLIST_SOURCES, selected);
    var domains, statuses := LoadSources(lib, disk, sources, seed);
    bundle := Bundle(seed, domains, statuses, WarmParts(disk, sources), sources);
  }

  /** The loop of the warm load, over the selected sources. */
  method LoadSources(lib: Library, disk: map<string, Files>, sources: seq<Source>, seed: Seed)
    returns (domains: seq<Hash>, statuses: seq<Status>)
    ensures domains == Finalised(HashAll(lib, seed, AllEntries(lib, WarmParts(disk, sources))))
    ensures statuses == WarmStatuses(lib, WarmParts(disk, sources))
  {
    var buffer := new HashBuffer();
    statuses := [];
    ghost var parts: seq<Part> := [];
    for i := 0 to |sources|
      invariant parts == WarmParts(disk, sources[..i])
      invariant statuses == WarmStatuses(lib, parts)
      invariant buffer.hashes == HashAll(lib, seed, AllEntries(lib, parts))
      invariant fresh(buffer)
    {
      var source := sources[i];
      var file := DiskOf(disk, source.id).body;
      WarmPartsOfOneMore(lib, disk, sources, i);
      if file.None? || !file.value.body.isUtf8 {
        continue;
      }
      var before := |buffer.hashes|;
      buffer.HashSourceBody(lib, source.format, file.value.body.lossyText, seed);
      WarmHashesOfOneMore(lib, seed, parts, source, file.value);
      var entries := |buffer.hashes| - before;
      statuses := statuses + [Status(source.id, source.group, entries, Some(file.value.writtenAt), None)];
      parts := parts + [Warm(source, file.value)];
    }
    assert sources[..|sources|] == sources;
    buffer.Finalize();
    domains := buffer.hashes;
  }

  lemma WarmHashesOfOneMore(lib: Library, seed: Seed, parts: seq<Part>, source: Source, file: BodyFile)
    requires file.body.isUtf8
    ensures HashAll(lib, seed, AllEntries(lib, parts + [Warm(source, file)]))
         == HashAll(lib, seed, AllEntries(lib, parts)) + BodyHashes(lib, source.format, seed, file.body.lossyText)
    ensures |BodyHashes(lib, source.format, seed, file.body.lossyText)|
         == |BodyEntries(lib, source.format, file.body.lossyText)|
  {
    AddsPartKeepsDomains(lib, seed, parts, Warm(source, file));
    assert PartEntries(lib, Warm(source, file)) == BodyEntries(lib, source.format, file.body.lossyText);
  }

  /** A step that is not enabled leaves the state as it is. The warm load runs before the first
      cycle of a process, when no writer exists yet. */
  function Step(lib: Library, s: State, e: Event): State {
    match e
    case ClockMoves(to) => s.(now := to)
    case BeginCycle(config, directoryOk, freshSeed) => BeginsCycle(s, config, directoryOk, freshSeed)
    case FetchFails(tooLarge) => if IsFetching(s) then FailsOver(s, if tooLarge then TooLarge else Http) else s
    case FetchSucceeds(body) => if IsFetching(s) then SpawnsJob(s, body) else s
    case AttemptTimesOut => if IsFetching(s) || IsAwaiting(s) then FailsOver(s, Timeout) else s
    case AwaitReturns => if IsAwaiting(s) then TakesResult(s) else s
    case ReadsFallback(ok) => if CanFallBack(s) then FallsBack(lib, s, ok) else s
    case Publishes(ok) =>
      if s.cycle.Running? && |s.cycle.parts| == |s.cycle.selected|
      then (if ok then PublishesCycle(s) else s.(cycle := Idle)) else s
    case WarmLoads(selected, warmSeed) => WarmLoaded(lib, s, selected, warmSeed)
    case Crashes => s.(jobs := map[], cycle := Idle, bundle := EMPTY_BUNDLE)
    case _ => if e.job in s.jobs then JobStep(lib, s, e.job, e) else s
  }

  function Run(lib: Library, s: State, events: seq<Event>): State {
    if events == [] then s else Step(lib, Run(lib, s, events[..|events| - 1]), events[|events| - 1])
  }

  // ---------- what every step keeps ----------

  function FormatOf(id: string): SourceFormat {
    if id == "adguard-dns-filter" then AdblockNetRules else PlainDomain
  }

  predicate KnownSource(source: Source) {
    source.format == FormatOf(source.id)
  }

  ghost predicate FileOk(lib: Library, format: SourceFormat, file: Option<BodyFile>) {
    file.Some? && file.value.alone ==> PassesGates(lib, format, file.value.body.lossyText)
  }

  /** A count file holds the size of the body that was counted, and that body passed the gates. */
  ghost predicate CountOk(lib: Library, format: SourceFormat, count: Option<CountFile>) {
    count.Some? && count.value.alone && count.value.count.Some? ==>
      && PassesGates(lib, format, count.value.counted.lossyText)
      && |BodyEntries(lib, format, count.value.counted.lossyText)| == count.value.count.value
  }

  /** Every body on disk that no other write overlapped passes the ratio gate and lists at most one
      canary, and every such delta baseline is the size of the body it was counted from, which passes
      them too. */
  ghost predicate DiskOk(lib: Library, disk: map<string, Files>) {
    forall id :: id in disk ==> FileOk(lib, FormatOf(id), disk[id].body) && CountOk(lib, FormatOf(id), disk[id].count)
  }

  /** The job has passed every gate. */
  predicate PassedTheGates(phase: JobPhase) {
    phase.Accepted? || phase.WritingBody? || phase.BodyWritten? || phase.WritingCount?
    || (phase.Finished? && phase.result.Success?)
  }

  ghost predicate JobOk(lib: Library, job: Job) {
    && KnownSource(job.source)
    && (PassedTheGates(job.phase) ==>
          && PassesGates(lib, job.source.format, job.body.lossyText)
          && DeltaVerdict(|JobHashes(lib, job)|, job.baseline).Success?)
    && (job.phase.Finished? && job.phase.result.Success? ==> job.phase.result.value == JobHashes(lib, job))
  }

  ghost predicate JobsOk(lib: Library, s: State) {
    forall j :: j in s.jobs ==> j < s.nextJob && JobOk(lib, s.jobs[j])
  }

  ghost predicate PartOk(lib: Library, part: Part) {
    && KnownSource(part.source)
    && match part
       case Fresh(source, body) => PassesGates(lib, source.format, body.lossyText)
       case Fallback(source, read, _) => FileOk(lib, source.format, read)
       case Warm(source, file) => FileOk(lib, source.format, Some(file))
  }

  /** The status shown for a part: its size, and an error exactly when it is a fallback. */
  ghost predicate StatusOk(lib: Library, part: Part, status: Status) {
    && status.id == part.source.id && status.group == part.source.group
    && status.entryCount == |PartEntries(lib, part)|
    && status.lastError == (if part.Fallback? then Some(part.error) else None)
  }

  ghost predicate PartsOk(lib: Library, parts: seq<Part>, statuses: seq<Status>) {
    && |statuses| == |parts|
    && forall i :: 0 <= i < |parts| ==> PartOk(lib, parts[i]) && StatusOk(lib, parts[i], statuses[i])
  }

  /** The parts so far are those of the first selected sources, in order. */
  predicate FollowsSelection(parts: seq<Part>, selected: seq<Source>)
    requires |parts| <= |selected|
  {
    forall i :: 0 <= i < |parts| ==> parts[i].source == selected[i] && !parts[i].Warm?
  }

  ghost predicate CycleOk(lib: Library, s: State) {
    var c := s.cycle;
    c.Running? ==>
      && PartsOk(lib, c.parts, c.statuses)
      && c.domains == HashAll(lib, c.seed, AllEntries(lib, c.parts))
      && |c.parts| <= |c.selected|
      && (forall i :: 0 <= i < |c.selected| ==> KnownSource(c.selected[i]))
      && FollowsSelection(c.parts, c.selected)
      && (c.phase.Awaiting? ==> c.phase.job < s.nextJob)
      && (c.phase.Awaiting? && c.phase.job in s.jobs && |c.parts| < |c.selected| ==>
            s.jobs[c.phase.job].seed == c.seed && s.jobs[c.phase.job].source == c.selected[|c.parts|])
  }

  /** A bundle is the finalised vector of all its parts under one seed; a refresh leaves no
      selected source out. */
  ghost predicate BundleOk(lib: Library, b: Bundle) {
    && b.domains == Finalised(HashAll(lib, b.seed, AllEntries(lib, b.parts)))
    && PartsOk(lib, b.parts, b.statuses)
    && ((forall i :: 0 <= i < |b.parts| ==> b.parts[i].Warm?)
        || (|b.parts| == |b.selected| && FollowsSelection(b.parts, b.selected)))
  }

  ghost predicate Inv(lib: Library, s: State) {
    DiskOk(lib, s.disk) && JobsOk(lib, s) && CycleOk(lib, s) && BundleOk(lib, s.bundle)
  }

  lemma {:induction false} SelectedAreAmong(sources: seq<Source>, selected: Option<seq<string>>, n: nat)
    requires n <= |sources|
    ensures forall x :: x in SelectedUpTo(sources, selected, n) ==> x in sources
    decreases n
  {
    if n > 0 {
      SelectedAreAmong(sources, selected, n - 1);
      assert sources[n - 1] in sources;
    }
  }

  lemma AllSourcesAreKnown()
    ensures forall x :: x in BLOCKLIST_SOURCES ==> KnownSource(x)
  {
  }

  lemma SelectedSourcesAreKnown(selected: Option<seq<string>>)
    ensures forall x :: x in SelectedSources(BLOCKLIST_SOURCES, selected) ==> KnownSource(x)
  {
    AllSourcesAreKnown();
    SelectedAreAmong(BLOCKLIST_SOURCES, selected, |BLOCKLIST_SOURCES|);
  }

  lemma AddsPartKeepsDomains(lib: Library, seed: Seed, parts: seq<Part>, part: Part)
    ensures HashAll(lib, seed, AllEntries(lib, parts + [part]))
         == HashAll(lib, seed, AllEntries(lib, parts)) + HashAll(lib, seed, PartEntries(lib, part))
  {
    assert (parts + [part])[..|parts|] == parts;
    HashAllOfConcat(lib, seed, AllEntries(lib, parts), PartEntries(lib, part));
  }

  lemma AddsPartKeepsParts(lib: Library, parts: seq<Part>, statuses: seq<Status>, part: Part, status: Status)
    requires PartsOk(lib, parts, statuses) && PartOk(lib, part) && StatusOk(lib, part, status)
    ensures PartsOk(lib, parts + [part], statuses + [status])
  {
  }

  lemma SelectionIsFollowed(parts: seq<Part>, selected: seq<Source>, part: Part)
    requires |parts| < |selected| && FollowsSelection(parts, selected)
    requires part.source == selected[|parts|] && !part.Warm?
    ensures FollowsSelection(parts + [part], selected)
  {
  }

  lemma AddsPartKeepsCycle(lib: Library, s: State, part: Part, lastUpdated: Option<int>, error: Option<RefreshError>)
    requires CycleOk(lib, s) && s.cycle.Running? && |s.cycle.parts| < |s.cycle.selected|
    requires PartOk(lib, part) && part.source == s.cycle.selected[|s.cycle.parts|] && !part.Warm?
    requires error == if part.Fallback? then Some(part.error) else None
    ensures CycleOk(lib, AddsPart(s, part, HashAll(lib, s.cycle.seed, PartEntries(lib, part)), lastUpdated, error))
  {
    var c := s.cycle;
    var hashes := HashAll(lib, c.seed, PartEntries(lib, part));
    AddsPartKeepsDomains(lib, c.seed, c.parts, part);
    AddsPartKeepsParts(lib, c.parts, c.statuses, part,
                       Status(part.source.id, part.source.group, |hashes|, lastUpdated, error));
    SelectionIsFollowed(c.parts, c.selected, part);
  }

  lemma AddsPartKeepsInv(lib: Library, s: State, part: Part, lastUpdated: Option<int>, error: Option<RefreshError>)
    requires Inv(lib, s) && s.cycle.Running? && |s.cycle.parts| < |s.cycle.selected|
    requires PartOk(lib, part) && part.source == s.cycle.selected[|s.cycle.parts|] && !part.Warm?
    requires error == if part.Fallback? then Some(part.error) else None
    ensures Inv(lib, AddsPart(s, part, HashAll(lib, s.cycle.seed, PartEntries(lib, part)), lastUpdated, error))
  {
    AddsPartKeepsCycle(lib, s, part, lastUpdated, error);
  }

  lemma JobMovesKeepsInv(lib: Library, s: State, j: nat, phase: JobPhase)
    requires Inv(lib, s) && j in s.jobs && JobOk(lib, s.jobs[j].(phase := phase))
    ensures Inv(lib, JobMoves(s, j, phase))
  {
  }

  lemma WritesKeepInv(lib: Library, s: State, id: string, files: Files)
    requires Inv(lib, s) && FileOk(lib, FormatOf(id), files.body) && CountOk(lib, FormatOf(id), files.count)
    ensures Inv(lib, s.(disk := s.disk[id := files]))
  {
  }

  lemma GateKeepsInv(lib: Library, s: State, j: nat)
    requires Inv(lib, s) && j in s.jobs && s.jobs[j].phase.Fetched?
    ensures Inv(lib, Gated(lib, s, j))
  {
    var job := s.jobs[j];
    ValidationEnforcesTheGates(lib, job.source.format, job.body.lossyText, job.seed);
    assert JobHashes(lib, Gated(lib, s, j).jobs[j]) == JobHashes(lib, job);
  }

  lemma WritingJobIsOk(lib: Library, job: Job, phase: JobPhase)
    requires JobOk(lib, job) && PassedTheGates(job.phase) && PassedTheGates(phase) && !phase.Finished?
    ensures JobOk(lib, job.(phase := phase))
  {
    assert JobHashes(lib, job.(phase := phase)) == JobHashes(lib, job);
  }

  /** Jobs may change in their phase alone, as long as each stays accountable. */
  lemma PhasesKeepInv(lib: Library, s: State, jobs: map<nat, Job>)
    requires Inv(lib, s) && jobs.Keys == s.jobs.Keys
    requires forall k :: k in jobs ==> JobOk(lib, jobs[k]) && jobs[k] == s.jobs[k].(phase := jobs[k].phase)
    ensures Inv(lib, s.(jobs := jobs))
  {
  }

  lemma OpenBodyKeepsInv(lib: Library, s: State, j: nat)
    requires Inv(lib, s) && j in s.jobs && s.jobs[j].phase.Accepted?
    ensures Inv(lib, OpensBody(s, j))
  {
    var jobs := OpensBody(s, j).jobs;
    forall k | k in jobs ensures JobOk(lib, jobs[k]) && jobs[k] == s.jobs[k].(phase := jobs[k].phase) {
      if jobs[k].phase.WritingBody? {
        WritingJobIsOk(lib, s.jobs[k], jobs[k].phase);
      }
    }
    PhasesKeepInv(lib, s, jobs);
  }

  lemma OpenCountKeepsInv(lib: Library, s: State, j: nat)
    requires Inv(lib, s) && j in s.jobs && s.jobs[j].phase.BodyWritten?
    ensures Inv(lib, OpensCount(s, j))
  {
    var jobs := OpensCount(s, j).jobs;
    forall k | k in jobs ensures JobOk(lib, jobs[k]) && jobs[k] == s.jobs[k].(phase := jobs[k].phase) {
      if jobs[k].phase.WritingCount? {
        WritingJobIsOk(lib, s.jobs[k], jobs[k].phase);
      }
    }
    PhasesKeepInv(lib, s, jobs);
  }

  lemma PublishKeepsInv(lib: Library, s: State, j: nat, ok: bool, mixed: Option<Body>)
    requires Inv(lib, s) && j in s.jobs && s.jobs[j].phase.WritingBody?
    ensures Inv(lib, PublishesBody(s, j, ok, mixed))
  {
    var job := s.jobs[j];
    if !ok || (!job.phase.alone && mixed.None?) {
      JobMovesKeepsInv(lib, s, j, Finished(Failure(Io)));
    } else {
      var bytes := if job.phase.alone then job.body else mixed.value;
      var file := BodyFile(bytes, s.now, job.phase.alone);
      WritesKeepInv(lib, s, job.source.id, DiskOf(s.disk, job.source.id).(body := Some(file)));
      JobMovesKeepsInv(lib, PutsBody(s, job.source.id, file), j, BodyWritten);
    }
  }

  lemma PublishCountKeepsInv(lib: Library, s: State, j: nat, ok: bool, mixed: Option<Option<nat>>)
    requires Inv(lib, s) && j in s.jobs && s.jobs[j].phase.WritingCount?
    ensures Inv(lib, PublishesCount(lib, s, j, ok, mixed))
  {
    var job := s.jobs[j];
    var hashes := JobHashes(lib, job);
    assert |BodyEntries(lib, job.source.format, job.body.lossyText)| == |hashes|;
    if !ok || (!job.phase.alone && mixed.None?) {
      JobMovesKeepsInv(lib, s, j, Finished(Success(hashes)));
    } else {
      var file := CountFile(if job.phase.alone then Some(|hashes|) else mixed.value, s.now, job.phase.alone, job.body);
      WritesKeepInv(lib, s, job.source.id, DiskOf(s.disk, job.source.id).(count := Some(file)));
      JobMovesKeepsInv(lib, PutsCount(s, job.source.id, file), j, Finished(Success(hashes)));
    }
  }

  lemma SpillKeepsInv(lib: Library, s: State, id: string, body: Body, count: Option<nat>, counted: Body)
    requires Inv(lib, s)
    ensures Inv(lib, PutsBody(s, id, BodyFile(body, s.now, false)))
    ensures Inv(lib, PutsCount(s, id, CountFile(count, s.now, false, counted)))
  {
    WritesKeepInv(lib, s, id, DiskOf(s.disk, id).(body := Some(BodyFile(body, s.now, false))));
    WritesKeepInv(lib, s, id, DiskOf(s.disk, id).(count := Some(CountFile(count, s.now, false, counted))));
  }

  lemma BodyStepsKeepInv(lib: Library, s: State, e: Event)
    requires Inv(lib, s) && (e.JobOpensBody? || e.JobPublishesBody? || e.JobSpillsBody?) && e.job in s.jobs
    ensures Inv(lib, JobStep(lib, s, e.job, e))
  {
    var j, job := e.job, s.jobs[e.job];
    if e.JobOpensBody? {
      if job.phase.Accepted? {
        OpenBodyKeepsInv(lib, s, j);
        JobMovesKeepsInv(lib, s, j, Finished(Failure(Io)));
      }
    } else if e.JobPublishesBody? {
      if job.phase.WritingBody? { PublishKeepsInv(lib, s, j, e.ok, e.mixed); }
    } else {
      SpillKeepsInv(lib, s, job.source.id, e.spilt, None, job.body);
    }
  }

  lemma CountStepsKeepInv(lib: Library, s: State, e: Event)
    requires Inv(lib, s) && (e.JobOpensCount? || e.JobPublishesCount? || e.JobSpillsCount?) && e.job in s.jobs
    ensures Inv(lib, JobStep(lib, s, e.job, e))
  {
    var j, job := e.job, s.jobs[e.job];
    if e.JobOpensCount? {
      if job.phase.BodyWritten? {
        OpenCountKeepsInv(lib, s, j);
        JobMovesKeepsInv(lib, s, j, Finished(Success(JobHashes(lib, job))));
      }
    } else if e.JobPublishesCount? {
      if job.phase.WritingCount? { PublishCountKeepsInv(lib, s, j, e.ok, e.mixedCount); }
    } else {
      SpillKeepsInv(lib, s, job.source.id, job.body, e.spiltCount, job.body);
    }
  }

  lemma GateStepKeepsInv(lib: Library, s: State, j: nat)
    requires Inv(lib, s) && j in s.jobs
    ensures Inv(lib, JobStep(lib, s, j, JobGates(j)))
  {
    if s.jobs[j].phase.Fetched? {
      GateKeepsInv(lib, s, j);
    }
  }

  lemma PanicStepKeepsInv(lib: Library, s: State, j: nat)
    requires Inv(lib, s) && j in s.jobs
    ensures Inv(lib, JobStep(lib, s, j, JobPanics(j)))
  {
  }

  lemma JobEventIsJobStep(lib: Library, s: State, e: Event)
    requires IsJobEvent(e)
    ensures Step(lib, s, e) == if e.job in s.jobs then JobStep(lib, s, e.job, e) else s
  {
  }

  lemma JobStepsKeepInv(lib: Library, s: State, e: Event)
    requires Inv(lib, s) && IsJobEvent(e)
    ensures Inv(lib, Step(lib, s, e))
  {
    JobEventIsJobStep(lib, s, e);
    if e.job in s.jobs {
      match e {
        case JobGates(j) => GateStepKeepsInv(lib, s, j);
        case JobPanics(j) => PanicStepKeepsInv(lib, s, j);
        case JobOpensBody(_, _) => BodyStepsKeepInv(lib, s, e);
        case JobPublishesBody(_, _, _) => BodyStepsKeepInv(lib, s, e);
        case JobSpillsBody(_, _) => BodyStepsKeepInv(lib, s, e);
        case _ => CountStepsKeepInv(lib, s, e);
      }
    }
  }

  lemma {:induction false} WarmPartsAreOk(lib: Library, disk: map<string, Files>, sources: seq<Source>)
    requires DiskOk(lib, disk)
    requires forall x :: x in sources ==> KnownSource(x)
    ensures forall i :: 0 <= i < |WarmParts(disk, sources)| ==>
              WarmParts(disk, sources)[i].Warm? && PartOk(lib, WarmParts(disk, sources)[i])
  {
    if sources != [] {
      var source := sources[|sources| - 1];
      assert source in sources;
      assert forall x :: x in sources[..|sources| - 1] ==> x in sources;
      WarmPartsAreOk(lib, disk, sources[..|sources| - 1]);
    }
  }

  lemma FreshCycleKeepsInv(lib: Library, s: State, selected: seq<Source>, seed: Seed)
    requires Inv(lib, s) && forall x :: x in selected ==> KnownSource(x)
    ensures Inv(lib, s.(cycle := Running(seed, selected, s.bundle.statuses, Fetching, [], [], [])))
  {
  }

  lemma BeginsCycleKeepsInv(lib: Library, s: State, config: Config, directoryOk: bool, seed: Seed)
    requires Inv(lib, s)
    ensures Inv(lib, BeginsCycle(s, config, directoryOk, seed))
  {
    SelectedSourcesAreKnown(config.sources);
    FreshCycleKeepsInv(lib, s, SelectedSources(BLOCKLIST_SOURCES, config.sources), seed);
  }

  lemma SpawnsJobKeepsInv(lib: Library, s: State, body: Body)
    requires Inv(lib, s) && IsFetching(s)
    ensures Inv(lib, SpawnsJob(s, body))
  {
  }

  lemma TakesResultKeepsInv(lib: Library, s: State)
    requires Inv(lib, s) && IsAwaiting(s)
    ensures Inv(lib, TakesResult(s))
  {
    if s.cycle.phase.job in s.jobs {
      var job := s.jobs[s.cycle.phase.job];
      if job.phase.Finished? && job.phase.result.Success? {
        AddsPartKeepsInv(lib, s, Fresh(job.source, job.body), Some(s.now), None);
      }
    }
  }

  lemma FallsBackKeepsInv(lib: Library, s: State, ok: bool)
    requires Inv(lib, s)
    requires CanFallBack(s)
    ensures Inv(lib, FallsBack(lib, s, ok))
  {
    var source := s.cycle.selected[|s.cycle.parts|];
    var read := if ok then DiskOf(s.disk, source.id).body else None;
    var status := FindStatus(s.cycle.previous, source.id);
    AddsPartKeepsInv(lib, s, Fallback(source, read, s.cycle.phase.error),
                     if status.Some? then status.value.lastUpdated else None, Some(s.cycle.phase.error));
  }

  lemma WarmBundleOfSourcesIsOk(lib: Library, s: State, sources: seq<Source>, seed: Seed)
    requires DiskOk(lib, s.disk) && forall x :: x in sources ==> KnownSource(x)
    ensures var parts := WarmParts(s.disk, sources);
            BundleOk(lib, Bundle(seed, Finalised(HashAll(lib, seed, AllEntries(lib, parts))),
                                 WarmStatuses(lib, parts), parts, sources))
  {
    WarmPartsAreOk(lib, s.disk, sources);
  }

  lemma WarmBundleIsOk(lib: Library, s: State, selected: Option<seq<string>>, seed: Seed)
    requires Inv(lib, s)
    ensures BundleOk(lib, WarmBundle(lib, s.disk, selected, seed))
  {
    SelectedSourcesAreKnown(selected);
    WarmBundleOfSourcesIsOk(lib, s, SelectedSources(BLOCKLIST_SOURCES, selected), seed);
  }

  lemma FailingKeepsInv(lib: Library, s: State, error: RefreshError)
    requires Inv(lib, s) && s.cycle.Running?
    ensures Inv(lib, FailsOver(s, error))
  {
  }

  lemma PublishedCycleKeepsInv(lib: Library, s: State)
    requires Inv(lib, s) && s.cycle.Running? && |s.cycle.parts| == |s.cycle.selected|
    ensures Inv(lib, PublishesCycle(s))
  {
  }

  lemma IdleKeepsInv(lib: Library, s: State)
    requires Inv(lib, s)
    ensures Inv(lib, s.(cycle := Idle))
  {
  }

  lemma PublishingStep(lib: Library, s: State, ok: bool)
    ensures Step(lib, s, Publishes(ok))
         == if !(s.cycle.Running? && |s.cycle.parts| == |s.cycle.selected|) then s
            else if ok then PublishesCycle(s) else s.(cycle := Idle)
  {
  }

  lemma PublishingKeepsInv(lib: Library, s: State, ok: bool)
    requires Inv(lib, s)
    ensures Inv(lib, Step(lib, s, Publishes(ok)))
  {
    PublishingStep(lib, s, ok);
    IdleKeepsInv(lib, s);
    if s.cycle.Running? && |s.cycle.parts| == |s.cycle.selected| {
      PublishedCycleKeepsInv(lib, s);
    }
  }

  lemma PublishedWarmKeepsInv(lib: Library, s: State, b: Bundle)
    requires Inv(lib, s) && BundleOk(lib, b)
    ensures Inv(lib, PublishedWarm(s, b))
  {
  }

  lemma WarmLoadedKeepsInv(lib: Library, s: State, selected: Option<seq<string>>, seed: Seed)
    requires Inv(lib, s)
    ensures Inv(lib, WarmLoaded(lib, s, selected, seed))
  {
    WarmBundleIsOk(lib, s, selected, seed);
    PublishedWarmKeepsInv(lib, s, WarmBundle(lib, s.disk, selected, seed));
  }

  lemma CrashKeepsInv(lib: Library, s: State)
    requires Inv(lib, s)
    ensures Inv(lib, Step(lib, s, Crashes))
  {
  }

  lemma FetchingKeepsInv(lib: Library, s: State, e: Event)
    requires Inv(lib, s) && (e.FetchFails? || e.FetchSucceeds? || e.AttemptTimesOut? || e.AwaitReturns?)
    ensures Inv(lib, Step(lib, s, e))
  {
    if IsFetching(s) && e.FetchSucceeds? {
      SpawnsJobKeepsInv(lib, s, e.body);
    } else if IsAwaiting(s) && e.AwaitReturns? {
      TakesResultKeepsInv(lib, s);
    } else if IsFetching(s) && e.FetchFails? {
      FailingKeepsInv(lib, s, if e.tooLarge then TooLarge else Http);
    } else if (IsFetching(s) || IsAwaiting(s)) && e.AttemptTimesOut? {
      FailingKeepsInv(lib, s, Timeout);
    }
  }

  lemma FallbackStep(lib: Library, s: State, ok: bool)
    ensures Step(lib, s, ReadsFallback(ok)) == if CanFallBack(s) then FallsBack(lib, s, ok) else s
  {
  }

  lemma FallbackKeepsInv(lib: Library, s: State, ok: bool)
    requires Inv(lib, s)
    ensures Inv(lib, Step(lib, s, ReadsFallback(ok)))
  {
    FallbackStep(lib, s, ok);
    if CanFallBack(s) {
      FallsBackKeepsInv(lib, s, ok);
    }
  }

  lemma ClockStepKeepsInv(lib: Library, s: State, to: int)
    requires Inv(lib, s)
    ensures Inv(lib, Step(lib, s, ClockMoves(to)))
  {
  }

  lemma BeginStepKeepsInv(lib: Library, s: State, config: Config, directoryOk: bool, seed: Seed)
    requires Inv(lib, s)
    ensures Inv(lib, Step(lib, s, BeginCycle(config, directoryOk, seed)))
  {
    BeginsCycleKeepsInv(lib, s, config, directoryOk, seed);
  }

  lemma WarmStep(lib: Library, s: State, selected: Option<seq<string>>, seed: Seed)
    ensures Step(lib, s, WarmLoads(selected, seed)) == WarmLoaded(lib, s, selected, seed)
  {
  }

  lemma WarmStepKeepsInv(lib: Library, s: State, selected: Option<seq<string>>, seed: Seed)
    requires Inv(lib, s)
    ensures Inv(lib, Step(lib, s, WarmLoads(selected, seed)))
  {
    WarmLoadedKeepsInv(lib, s, selected, seed);
    WarmStep(lib, s, selected, seed);
  }

  lemma UpdaterStepsKeepInv(lib: Library, s: State, e: Event)
    requires Inv(lib, s) && !IsJobEvent(e)
    ensures Inv(lib, Step(lib, s, e))
  {
    match e {
      case ClockMoves(to) => ClockStepKeepsInv(lib, s, to);
      case BeginCycle(config, directoryOk, seed) => BeginStepKeepsInv(lib, s, config, directoryOk, seed);
      case ReadsFallback(ok) => FallbackKeepsInv(lib, s, ok);
      case Publishes(ok) => PublishingKeepsInv(lib, s, ok);
      case WarmLoads(selected, seed) => WarmStepKeepsInv(lib, s, selected, seed);
      case Crashes => CrashKeepsInv(lib, s);
      case _ => FetchingKeepsInv(lib, s, e);
    }
  }

  function Boot(disk: map<string, Files>, now: int): State {
    State(disk, map[], 0, Idle, EMPTY_BUNDLE, now)
  }

  /** Last-known-good safety over all runs: whatever the interleaving, whatever fails and whenever
      the process dies, every body on disk whose write no other write of the same file overlapped,
      and every part of a bundle taken from one, passed the gates. */
  lemma EveryRunKeepsInv(lib: Library, disk: map<string, Files>, now: int, events: seq<Event>)
    requires DiskOk(lib, disk)
    ensures Inv(lib, Run(lib, Boot(disk, now), events))
  {
    RunKeepsInv(lib, Boot(disk, now), events);
  }

  lemma {:induction false} RunKeepsInv(lib: Library, s: State, events: seq<Event>)
    requires Inv(lib, s)
    ensures Inv(lib, Run(lib, s, events))
    decreases |events|
  {
    if events != [] {
      var before, e := Run(lib, s, events[..|events| - 1]), events[|events| - 1];
      RunKeepsInv(lib, s, events[..|events| - 1]);
      if IsJobEvent(e) {
        JobStepsKeepInv(lib, before, e);
      } else {
        UpdaterStepsKeepInv(lib, before, e);
      }
    }
  }
}

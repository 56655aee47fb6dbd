/** Where the files of the refresh protocol come from: what the runs fetched and accepted, and which
    runs never let two writes overlap. */
module BlocklistHistory {

  import opened Wrappers
  import opened BlocklistDownload
  import opened BlocklistRefresh
  import opened BlocklistLastKnownGood
  import Strings

  // ---------- bodies a run fetched and accepted ----------

  /** The updater, fetching this source, got this body. */
  predicate Fetches(s: State, e: Event, id: string, body: Body) {
    e == FetchSucceeds(body) && IsFetching(s) && s.cycle.selected[|s.cycle.parts|].id == id
  }

  /** A job of this source, holding this body, passed every gate. */
  predicate Accepts(lib: Library, s: State, e: Event, id: string, body: Body) {
    && e.JobGates? && e.job in s.jobs && s.jobs[e.job].phase.Fetched?
    && s.jobs[e.job].source.id == id && s.jobs[e.job].body == body
    && GateVerdict(lib, s.jobs[e.job], DiskOf(s.disk, id).count, s.now).Success?
  }

  predicate WasFetched(lib: Library, s: State, events: seq<Event>, id: string, body: Body) {
    events != [] &&
    var init, end := events[..|events| - 1], events[|events| - 1];
    WasFetched(lib, s, init, id, body) || Fetches(Run(lib, s, init), end, id, body)
  }

  /** Some job of the run was accepted with a body of this source that the run fetched before. */
  predicate WasAccepted(lib: Library, s: State, events: seq<Event>, id: string, body: Body) {
    events != [] &&
    var init, end := events[..|events| - 1], events[|events| - 1];
    || WasAccepted(lib, s, init, id, body)
    || (WasFetched(lib, s, init, id, body) && Accepts(lib, Run(lib, s, init), end, id, body))
  }

  /** A job holds a body the run fetched, and one past its gates a body the run accepted. */
  predicate JobIsTraced(lib: Library, s0: State, events: seq<Event>, job: Job) {
    && WasFetched(lib, s0, events, job.source.id, job.body)
    && (PassedTheGates(job.phase) ==> WasAccepted(lib, s0, events, job.source.id, job.body))
  }

  predicate BodyIsTraced(lib: Library, s0: State, events: seq<Event>, id: string, file: Option<BodyFile>) {
    file.Some? && file.value.alone && file != DiskOf(s0.disk, id).body ==>
      WasAccepted(lib, s0, events, id, file.value.body)
  }

  predicate CountIsTraced(lib: Library, s0: State, events: seq<Event>, id: string, file: Option<CountFile>) {
    file.Some? && file.value.alone && file != DiskOf(s0.disk, id).count ==>
      && WasAccepted(lib, s0, events, id, file.value.counted)
      && file.value.count == Some(|BodyEntries(lib, FormatOf(id), file.value.counted.lossyText)|)
  }

  predicate KnowsItsSources(s: State) {
    && (forall j :: j in s.jobs ==> KnownSource(s.jobs[j].source))
    && (s.cycle.Running? ==> forall i :: 0 <= i < |s.cycle.selected| ==> KnownSource(s.cycle.selected[i]))
  }

  ghost predicate Traced(lib: Library, s0: State, events: seq<Event>, s: State) {
    && KnowsItsSources(s)
    && (forall j :: j in s.jobs ==> JobIsTraced(lib, s0, events, s.jobs[j]))
    && (forall id :: BodyIsTraced(lib, s0, events, id, DiskOf(s.disk, id).body))
    && (forall id :: CountIsTraced(lib, s0, events, id, DiskOf(s.disk, id).count))
  }

  lemma OneMore(lib: Library, s: State, events: seq<Event>, e: Event)
    ensures (events + [e])[..|events|] == events
    ensures Run(lib, s, events + [e]) == Step(lib, Run(lib, s, events), e)
  {
    assert (events + [e])[..|events|] == events;
  }

  /** What was fetched or accepted stays so in every longer run. */
  lemma TracedStaysTraced(lib: Library, s0: State, events: seq<Event>, e: Event, s: State)
    requires Traced(lib, s0, events, s)
    ensures Traced(lib, s0, events + [e], s)
  {
    OneMore(lib, s0, events, e);
  }

  lemma StepKnowsItsSources(lib: Library, s: State, e: Event)
    requires KnowsItsSources(s) && !IsJobEvent(e)
    ensures KnowsItsSources(Step(lib, s, e))
  {
    match e {
      case BeginCycle(config, directoryOk, seed) => BeginningKnowsItsSources(s, config, directoryOk, seed);
      case WarmLoads(_, _) =>
      case _ =>
    }
  }

  lemma BeginningKnowsItsSources(s: State, config: Config, directoryOk: bool, seed: Seed)
    requires KnowsItsSources(s)
    ensures KnowsItsSources(BeginsCycle(s, config, directoryOk, seed))
  {
    SelectedSourcesAreKnown(config.sources);
  }

  /** Only a fetch adds a job. */
  lemma UpdaterStepAddsJobs(lib: Library, s: State, e: Event, j: nat)
    requires !IsJobEvent(e) && j in Step(lib, s, e).jobs
    ensures var job := Step(lib, s, e).jobs[j];
            (j in s.jobs && job == s.jobs[j]) || (job.phase.Fetched? && Fetches(s, e, job.source.id, job.body))
  {
    match e {
      case BeginCycle(_, _, _) =>
      case WarmLoads(_, _) =>
      case _ =>
    }
  }

  lemma UpdaterStepIsTraced(lib: Library, s0: State, events: seq<Event>, e: Event)
    requires Traced(lib, s0, events, Run(lib, s0, events)) && !IsJobEvent(e)
    ensures Traced(lib, s0, events + [e], Run(lib, s0, events + [e]))
  {
    var s := Run(lib, s0, events);
    OneMore(lib, s0, events, e);
    TracedStaysTraced(lib, s0, events, e, s);
    StepKnowsItsSources(lib, s, e);
    UpdaterStepsLeaveFiles(lib, s, e);
    forall j | j in Step(lib, s, e).jobs ensures JobIsTraced(lib, s0, events + [e], Step(lib, s, e).jobs[j]) {
      UpdaterStepAddsJobs(lib, s, e, j);
    }
  }

  lemma JobStepMovesJobs(lib: Library, s: State, e: Event, j: nat)
    requires IsJobEvent(e) && e.job in s.jobs && j in JobStep(lib, s, e.job, e).jobs
    ensures j in s.jobs
    ensures var job, job' := s.jobs[j], JobStep(lib, s, e.job, e).jobs[j];
            && job'.source == job.source && job'.body == job.body
            && (PassedTheGates(job'.phase) ==>
                  PassedTheGates(job.phase) || Accepts(lib, s, e, job.source.id, job.body))
  {
  }

  lemma JobStepWritesFiles(lib: Library, s: State, e: Event, id: string)
    requires IsJobEvent(e) && e.job in s.jobs && KnowsItsSources(s)
    ensures var files, files', job := DiskOf(s.disk, id), DiskOf(JobStep(lib, s, e.job, e).disk, id), s.jobs[e.job];
            && (files'.body != files.body && files'.body.value.alone ==>
                  PassedTheGates(job.phase) && job.source.id == id && files'.body.value.body == job.body)
            && (files'.count != files.count && files'.count.value.alone ==>
                  && PassedTheGates(job.phase) && job.source.id == id && files'.count.value.counted == job.body
                  && files'.count.value.count == Some(|BodyEntries(lib, FormatOf(id), job.body.lossyText)|))
  {
  }

  lemma JobStepIsTraced(lib: Library, s0: State, events: seq<Event>, e: Event)
    requires Traced(lib, s0, events, Run(lib, s0, events)) && IsJobEvent(e) && e.job in Run(lib, s0, events).jobs
    ensures Traced(lib, s0, events + [e], Run(lib, s0, events + [e]))
  {
    var s := Run(lib, s0, events);
    var s' := JobStep(lib, s, e.job, e);
    OneMore(lib, s0, events, e);
    TracedStaysTraced(lib, s0, events, e, s);
    forall j | j in s'.jobs ensures KnownSource(s'.jobs[j].source) && JobIsTraced(lib, s0, events + [e], s'.jobs[j]) {
      JobStepMovesJobs(lib, s, e, j);
    }
    forall id
      ensures BodyIsTraced(lib, s0, events + [e], id, DiskOf(s'.disk, id).body)
      ensures CountIsTraced(lib, s0, events + [e], id, DiskOf(s'.disk, id).count)
    {
      JobStepWritesFiles(lib, s, e, id);
    }
  }

  lemma {:induction false} EveryRunIsTraced(lib: Library, disk: map<string, Files>, now: int, events: seq<Event>)
    ensures Traced(lib, Boot(disk, now), events, Run(lib, Boot(disk, now), events))
    decreases |events|
  {
    if events != [] {
      var init, e, s0 := events[..|events| - 1], events[|events| - 1], Boot(disk, now);
      EveryRunIsTraced(lib, disk, now, init);
      Strings.Unsnoc(events);
      if !IsJobEvent(e) {
        UpdaterStepIsTraced(lib, s0, init, e);
      } else if e.job in Run(lib, s0, init).jobs {
        JobStepIsTraced(lib, s0, init, e);
      } else {
        OneMore(lib, s0, init, e);
        TracedStaysTraced(lib, s0, init, e, Run(lib, s0, init));
      }
    }
  }

  lemma {:induction false} AcceptedBodiesPassTheGates(lib: Library, disk: map<string, Files>, now: int,
                                                      events: seq<Event>, id: string, body: Body)
    requires WasAccepted(lib, Boot(disk, now), events, id, body)
    ensures WasFetched(lib, Boot(disk, now), events, id, body) && PassesGates(lib, FormatOf(id), body.lossyText)
    decreases |events|
  {
    var init, e := events[..|events| - 1], events[|events| - 1];
    if WasAccepted(lib, Boot(disk, now), init, id, body) {
      AcceptedBodiesPassTheGates(lib, disk, now, init, id, body);
    } else {
      EveryRunIsTraced(lib, disk, now, init);
      var job := Run(lib, Boot(disk, now), init).jobs[e.job];
      ValidationEnforcesTheGates(lib, job.source.format, job.body.lossyText, job.seed);
    }
  }

  /** Over every run, from any disk: a body file that is not the one found at the start, and whose
      write no other overlapped, holds a body that this run fetched for this source and accepted, and
      that passes the gates; a count file holds the number of entries of such a body. */
  lemma EveryFileComesFromAnAcceptedFetch(lib: Library, disk: map<string, Files>, now: int, events: seq<Event>,
                                          id: string)
    ensures var files := DiskOf(Run(lib, Boot(disk, now), events).disk, id);
            && (files.body.Some? && files.body.value.alone && files.body != DiskOf(disk, id).body ==>
                  ComesFromAFetch(lib, Boot(disk, now), events, id, files.body.value.body))
            && (files.count.Some? && files.count.value.alone && files.count != DiskOf(disk, id).count ==>
                  var body := files.count.value.counted;
                  && ComesFromAFetch(lib, Boot(disk, now), events, id, body)
                  && files.count.value.count == Some(|BodyEntries(lib, FormatOf(id), body.lossyText)|))
  {
    EveryRunIsTraced(lib, disk, now, events);
    var files := DiskOf(Run(lib, Boot(disk, now), events).disk, id);
    if files.body.Some? && files.body.value.alone && files.body != DiskOf(disk, id).body {
      AcceptedBodiesPassTheGates(lib, disk, now, events, id, files.body.value.body);
    }
    if files.count.Some? && files.count.value.alone && files.count != DiskOf(disk, id).count {
      AcceptedBodiesPassTheGates(lib, disk, now, events, id, files.count.value.counted);
    }
  }

  ghost predicate ComesFromAFetch(lib: Library, s0: State, events: seq<Event>, id: string, body: Body) {
    && WasFetched(lib, s0, events, id, body) && WasAccepted(lib, s0, events, id, body)
    && PassesGates(lib, FormatOf(id), body.lossyText)
  }

  // ---------- runs in which no attempt times out ----------

  predicate NoTimeout(events: seq<Event>) {
    forall e :: e in events ==> !e.AttemptTimesOut?
  }

  /** Whoever is still at work is the job the updater is waiting for. */
  predicate OnlyTheAwaitedJobWorks(s: State) {
    forall j :: j in s.jobs ==>
      && j < s.nextJob
      && (!s.jobs[j].phase.Finished? ==> IsAwaiting(s) && s.cycle.phase.job == j)
  }

  lemma UpdaterStepAwaitsItsJob(lib: Library, s: State, e: Event)
    requires OnlyTheAwaitedJobWorks(s) && !IsJobEvent(e) && !e.AttemptTimesOut?
    ensures OnlyTheAwaitedJobWorks(Step(lib, s, e))
  {
    match e {
      case BeginCycle(_, _, _) =>
      case WarmLoads(_, _) =>
      case _ =>
    }
  }

  lemma JobStepAwaitsItsJob(lib: Library, s: State, e: Event)
    requires OnlyTheAwaitedJobWorks(s) && IsJobEvent(e) && e.job in s.jobs
    ensures OnlyTheAwaitedJobWorks(JobStep(lib, s, e.job, e))
  {
  }

  lemma {:induction false} WithoutTimeoutsWritesNeverOverlap(lib: Library, disk: map<string, Files>, now: int,
                                                             events: seq<Event>)
    requires NoTimeout(events)
    ensures OnlyTheAwaitedJobWorks(Run(lib, Boot(disk, now), events))
    ensures AlwaysExclusive(lib, Boot(disk, now), events)
    decreases |events|
  {
    if events != [] {
      var init, e := events[..|events| - 1], events[|events| - 1];
      assert e in events;
      WithoutTimeoutsWritesNeverOverlap(lib, disk, now, init);
      var s := Run(lib, Boot(disk, now), init);
      if !IsJobEvent(e) {
        UpdaterStepAwaitsItsJob(lib, s, e);
      } else if e.job in s.jobs {
        JobStepAwaitsItsJob(lib, s, e);
      }
    }
  }

  /** As long as no attempt runs into its time limit, every body on disk passed the gates and every
      saved count is the size of the body it was counted from; crashes, failures and panics do no harm. */
  lemma WithoutTimeoutsEveryFilePassedTheGates(lib: Library, disk: map<string, Files>, now: int, events: seq<Event>,
                                               id: string)
    requires DiskOk(lib, disk) && AllFilesAlone(disk) && NoTimeout(events)
    ensures AllPassedTheGates(lib, DiskOf(Run(lib, Boot(disk, now), events).disk, id), FormatOf(id))
  {
    WithoutTimeoutsWritesNeverOverlap(lib, disk, now, events);
    EveryFilePassedTheGates(lib, disk, now, events, id);
  }
}

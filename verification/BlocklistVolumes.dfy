/** The body file of one source byte by byte: the jobs of the refresh protocol make their calls of
    `write_atomic` on one volume, each writing its bytes whenever it likes. Every such run is a run of
    the protocol with the same contents, which is why the protocol may take a file as two steps. */
module BlocklistVolumes {

  import opened Wrappers
  import opened BlocklistDownload
  import opened BlocklistRefresh
  import opened BlocklistLastKnownGood
  import opened BlocklistHistory
  import A = AtomicWrite
  import Strings

  /** The body some bytes are read as. Different bytes may be read alike, as invalid ones are. */
  type Decoder = string -> Body

  /** The volume's calls are the jobs that are writing this source's body, with bytes that are read as
      it; both agree on who is alone and on what is read from the target; and nobody can still write
      into a lone body. */
  ghost predicate Agrees(s: State, v: A.Volume, id: string, read: Decoder) {
    && A.Inv(v)
    && (forall j :: j in s.jobs ==> j < s.nextJob)
    && WritersAgree(s, v, id, read)
    && FileAgrees(DiskOf(s.disk, id).body, v, read)
  }

  ghost predicate WritersAgree(s: State, v: A.Volume, id: string, read: Decoder) {
    && (forall j :: j in v.writers <==> j in s.jobs && WritesBodyOf(s.jobs[j], id))
    && (forall j :: j in v.writers ==>
          read(v.writers[j].body) == s.jobs[j].body && v.writers[j].alone == s.jobs[j].phase.alone)
  }

  ghost predicate FileAgrees(file: Option<BodyFile>, v: A.Volume, read: Decoder)
    requires A.WellFormed(v)
  {
    && (A.TargetContent(v).Some? <==> file.Some?)
    && (file.Some? ==> read(A.TargetContent(v).value) == file.value.body)
    && (file.Some? && file.value.alone ==> forall j :: j in v.writers ==> v.target != Some(v.writers[j].inode))
  }

  // ---------- one step ----------

  /** A step of the protocol that concerns another file, or that makes no call on this one; or a call. */
  datatype Move =
    | Other(e: Event)
    | Call(a: A.Event)

  /** The steps that stand for calls on the body file of the source. */
  predicate IsFileWork(s: State, e: Event, id: string) {
    && ((e.JobOpensBody? && e.ok) || e.JobPublishesBody? || e.JobSpillsBody?)
    && e.job in s.jobs && s.jobs[e.job].source.id == id
  }

  /** A panic or a crash ends calls without a step of theirs. */
  function CallsEnded(s: State, e: Event, id: string): seq<A.Event> {
    match e
    case Crashes => [A.Crashes]
    case JobPanics(j) => if j in s.jobs && WritesBodyOf(s.jobs[j], id) then [A.Fails(j)] else []
    case _ => []
  }

  predicate IsEnabled(s: State, v: A.Volume, a: A.Event, id: string, read: Decoder) {
    match a
    case Creates(j, body) =>
      && j in s.jobs && s.jobs[j].phase.Accepted? && s.jobs[j].source.id == id
      && read(body) == s.jobs[j].body
    case Writes(j, _) => j in v.writers
    case Renames(j) => A.IsComplete(v, j)
    case Fails(j) => j in v.writers
    case Crashes => false
  }

  /** What the protocol sees of a call, with the contents it leaves. */
  function Seen(v: A.Volume, a: A.Event, read: Decoder): Option<Event>
    requires A.WellFormed(v)
  {
    match a
    case Creates(j, _) => Some(JobOpensBody(j, true))
    case Writes(j, _) =>
      if j in v.writers && v.target == Some(v.writers[j].inode)
      then Some(JobSpillsBody(j, read(A.TargetContent(A.Step(v, a)).value))) else None
    case Renames(j) =>
      Some(JobPublishesBody(j, true, if v.temp.Some? then Some(read(v.contents[v.temp.value])) else None))
    case Fails(j) => Some(JobPublishesBody(j, false, None))
    case Crashes => None
  }

  function EventOf(s: State, v: A.Volume, m: Move, id: string, read: Decoder): Option<Event>
    requires A.WellFormed(v)
  {
    match m
    case Other(e) => if IsFileWork(s, e, id) then None else Some(e)
    case Call(a) => if IsEnabled(s, v, a, id, read) then Seen(v, a, read) else None
  }

  function CallsOf(s: State, v: A.Volume, m: Move, id: string, read: Decoder): seq<A.Event> {
    match m
    case Other(e) => if IsFileWork(s, e, id) then [] else CallsEnded(s, e, id)
    case Call(a) => if IsEnabled(s, v, a, id, read) then [a] else []
  }

  function Moved(lib: Library, s: State, v: A.Volume, m: Move, id: string, read: Decoder): (r: (State, A.Volume))
    requires A.WellFormed(v)
    ensures A.WellFormed(r.1)
  {
    var e := EventOf(s, v, m, id, read);
    (if e.Some? then Step(lib, s, e.value) else s, A.Run(v, CallsOf(s, v, m, id, read)))
  }

  lemma VolumeRunOfOne(v: A.Volume, e: A.Event)
    requires A.WellFormed(v)
    ensures A.Run(v, [e]) == A.Step(v, e)
  {
    A.RunOfOneMore(v, [], e);
    assert [] + [e] == [e];
  }

  // ---------- calls ----------

  lemma CreatingKeepsTheTarget(v: A.Volume, j: nat, body: string)
    requires A.Inv(v) && j !in v.writers
    ensures var v' := A.Step(v, A.Creates(j, body));
            && v'.target == v.target && A.TargetContent(v') == A.TargetContent(v)
            && v'.target != Some(v'.writers[j].inode)
            && (forall k :: k in v.writers ==> v'.writers[k].inode == v.writers[k].inode)
  {
  }

  lemma CreatingWritersAgree(s: State, v: A.Volume, j: nat, body: string, id: string, read: Decoder)
    requires A.WellFormed(v) && WritersAgree(s, v, id, read) && IsEnabled(s, v, A.Creates(j, body), id, read)
    ensures WritersAgree(OpensBody(s, j), A.Step(v, A.Creates(j, body)), id, read)
  {
  }

  lemma CreatingAgrees(s: State, v: A.Volume, j: nat, body: string, id: string, read: Decoder)
    requires Agrees(s, v, id, read) && IsEnabled(s, v, A.Creates(j, body), id, read)
    ensures Agrees(OpensBody(s, j), A.Step(v, A.Creates(j, body)), id, read)
  {
    A.StepKeepsInv(v, A.Creates(j, body));
    CreatingKeepsTheTarget(v, j, body);
    CreatingWritersAgree(s, v, j, body, id, read);
  }

  /** A writer whose file has been renamed under it is not alone, and neither is the body it writes
      into. */
  lemma OvertakenWriter(s: State, v: A.Volume, j: nat, id: string, read: Decoder)
    requires Agrees(s, v, id, read) && j in v.writers && v.target == Some(v.writers[j].inode)
    ensures s.jobs[j].phase == WritingBody(false) && s.jobs[j].source.id == id
    ensures DiskOf(s.disk, id).body.Some? && !DiskOf(s.disk, id).body.value.alone
  {
  }

  lemma SpillingAgrees(s: State, v: A.Volume, j: nat, count: nat, id: string, read: Decoder)
    requires Agrees(s, v, id, read) && j in v.writers && v.target == Some(v.writers[j].inode)
    ensures var v' := A.Step(v, A.Writes(j, count));
            && v'.target == v.target
            && Agrees(PutsBody(s, id, BodyFile(read(A.TargetContent(v').value), s.now, false)), v', id, read)
  {
    var v' := A.Step(v, A.Writes(j, count));
    A.StepKeepsInv(v, A.Writes(j, count));
  }

  lemma TemporaryWriteAgrees(s: State, v: A.Volume, j: nat, count: nat, id: string, read: Decoder)
    requires Agrees(s, v, id, read) && j in v.writers && v.target != Some(v.writers[j].inode)
    ensures Agrees(s, A.Step(v, A.Writes(j, count)), id, read)
  {
    A.StepKeepsInv(v, A.Writes(j, count));
  }

  lemma SpillingStep(lib: Library, s: State, j: nat, id: string, spilt: Body)
    requires j in s.jobs && s.jobs[j].phase == WritingBody(false) && s.jobs[j].source.id == id
    requires DiskOf(s.disk, id).body.Some? && !DiskOf(s.disk, id).body.value.alone
    ensures Step(lib, s, JobSpillsBody(j, spilt)) == PutsBody(s, id, BodyFile(spilt, s.now, false))
  {
  }

  lemma WritingAgrees(lib: Library, s: State, v: A.Volume, j: nat, count: nat, id: string, read: Decoder)
    requires Agrees(s, v, id, read) && j in v.writers
    ensures var e := Seen(v, A.Writes(j, count), read);
            Agrees(if e.Some? then Step(lib, s, e.value) else s, A.Step(v, A.Writes(j, count)), id, read)
  {
    if v.target == Some(v.writers[j].inode) {
      OvertakenWriter(s, v, j, id, read);
      SpillingAgrees(s, v, j, count, id, read);
      SpillingStep(lib, s, j, id, read(A.TargetContent(A.Step(v, A.Writes(j, count))).value));
    } else {
      TemporaryWriteAgrees(s, v, j, count, id, read);
    }
  }

  lemma LeavingAgrees(s: State, v: A.Volume, j: nat, phase: JobPhase, id: string, read: Decoder)
    requires Agrees(s, v, id, read) && j in s.jobs && !phase.WritingBody?
    ensures Agrees(JobMoves(s, j, phase), A.Step(v, A.Fails(j)), id, read)
    ensures Agrees(s.(jobs := s.jobs - {j}), A.Step(v, A.Fails(j)), id, read)
  {
    A.StepKeepsInv(v, A.Fails(j));
  }

  lemma PuttingAgrees(s: State, v: A.Volume, v': A.Volume, j: nat, file: BodyFile, id: string, read: Decoder)
    requires Agrees(s, v, id, read) && j in v.writers && A.Inv(v') && v'.writers == v.writers - {j}
    requires FileAgrees(Some(file), v', read)
    ensures Agrees(JobMoves(PutsBody(s, id, file), j, BodyWritten), v', id, read)
  {
  }

  /** The rename that a complete writer's bytes are followed by; a lone job gives the target its own
      body, byte for byte. */
  lemma RenamingAgrees(lib: Library, s: State, v: A.Volume, j: nat, id: string, read: Decoder)
    requires Agrees(s, v, id, read) && A.IsComplete(v, j)
    ensures var s', v' := Step(lib, s, Seen(v, A.Renames(j), read).value), A.Step(v, A.Renames(j));
            && Agrees(s', v', id, read)
            && (s.jobs[j].phase.alone ==>
                  && DiskOf(s'.disk, id).body == Some(BodyFile(s.jobs[j].body, s.now, true))
                  && A.TargetContent(v') == Some(v.writers[j].body))
  {
    var job, v' := s.jobs[j], A.Step(v, A.Renames(j));
    A.StepKeepsInv(v, A.Renames(j));
    var mixed := if v.temp.Some? then Some(read(v.contents[v.temp.value])) else None;
    assert Step(lib, s, JobPublishesBody(j, true, mixed)) == PublishesBody(s, j, true, mixed);
    if job.phase.alone {
      LoneContent(v, j);
      PuttingAgrees(s, v, v', j, BodyFile(job.body, s.now, true), id, read);
    } else if v.temp.Some? {
      PuttingAgrees(s, v, v', j, BodyFile(mixed.value, s.now, false), id, read);
    } else {
      LeavingAgrees(s, v, j, Finished(Failure(Io)), id, read);
    }
  }

  lemma LoneContent(v: A.Volume, j: nat)
    requires A.Inv(v) && A.IsComplete(v, j) && v.writers[j].alone
    ensures v.temp == Some(v.writers[j].inode) && v.contents[v.temp.value] == v.writers[j].body
    ensures v.writers - {j} == map[]
  {
    var writer := v.writers[j];
    assert writer.body[..|writer.body|] == writer.body;
  }

  // ---------- other steps ----------

  lemma CrashAgrees(lib: Library, s: State, v: A.Volume, id: string, read: Decoder)
    requires Agrees(s, v, id, read)
    ensures Agrees(Step(lib, s, Crashes), A.Step(v, A.Crashes), id, read)
  {
    A.StepKeepsInv(v, A.Crashes);
  }

  /** The same jobs are writing this source's body, and none is less or more alone. */
  predicate SameWriters(s: State, s': State, id: string) {
    && (forall j :: j in s'.jobs && WritesBodyOf(s'.jobs[j], id) ==>
          j in s.jobs && WritesBodyOf(s.jobs[j], id)
          && s'.jobs[j].body == s.jobs[j].body && s'.jobs[j].phase == s.jobs[j].phase)
    && (forall j :: j in s.jobs && WritesBodyOf(s.jobs[j], id) ==> j in s'.jobs && WritesBodyOf(s'.jobs[j], id))
  }

  lemma SameWritersAgree(s: State, s': State, v: A.Volume, id: string, read: Decoder)
    requires Agrees(s, v, id, read) && SameWriters(s, s', id) && forall j :: j in s'.jobs ==> j < s'.nextJob
    requires DiskOf(s'.disk, id).body == DiskOf(s.disk, id).body
    ensures Agrees(s', v, id, read)
  {
  }

  lemma JobMovesElsewhere(s: State, id: string, j: nat, phase: JobPhase)
    requires j in s.jobs && !WritesBodyOf(s.jobs[j], id) && (phase.WritingBody? ==> s.jobs[j].source.id != id)
    ensures SameWriters(s, JobMoves(s, j, phase), id)
    ensures SameWriters(s, s.(jobs := s.jobs - {j}), id)
  {
  }

  lemma BodyOpensElsewhere(s: State, id: string, j: nat)
    requires j in s.jobs && !s.jobs[j].phase.WritingBody? && s.jobs[j].source.id != id
    ensures SameWriters(s, OpensBody(s, j), id)
  {
    assert forall k :: k in s.jobs && s.jobs[k].source.id == id ==> OpensBody(s, j).jobs[k] == s.jobs[k];
  }

  lemma CountOpensElsewhere(s: State, id: string, j: nat)
    requires j in s.jobs && !s.jobs[j].phase.WritingBody?
    ensures SameWriters(s, OpensCount(s, j), id)
  {
    assert forall k :: k in s.jobs && s.jobs[k].phase.WritingBody? ==> OpensCount(s, j).jobs[k] == s.jobs[k];
  }

  lemma OpeningKeepsWriters(lib: Library, s: State, e: Event, id: string)
    requires (e.JobOpensBody? || e.JobOpensCount?) && e.job in s.jobs && !IsFileWork(s, e, id)
    ensures SameWriters(s, JobStep(lib, s, e.job, e), id)
  {
    var j, job := e.job, s.jobs[e.job];
    if e.JobOpensBody? && job.phase.Accepted? {
      if e.ok {
        BodyOpensElsewhere(s, id, j);
      } else {
        JobMovesElsewhere(s, id, j, Finished(Failure(Io)));
      }
    } else if e.JobOpensCount? && job.phase.BodyWritten? {
      CountOpensElsewhere(s, id, j);
      JobMovesElsewhere(s, id, j, Finished(Success(JobHashes(lib, job))));
    }
  }

  /** A job that is writing the body and makes no call on the file stays as it is. */
  lemma SilentWriterStays(lib: Library, s: State, e: Event, id: string)
    requires IsJobEvent(e) && e.job in s.jobs && !IsFileWork(s, e, id) && !e.JobPanics?
    requires WritesBodyOf(s.jobs[e.job], id)
    ensures JobStep(lib, s, e.job, e).jobs == s.jobs
  {
  }

  lemma PublishingElsewhere(lib: Library, s: State, e: Event, id: string)
    requires (e.JobPublishesBody? || e.JobPublishesCount?) && e.job in s.jobs && !WritesBodyOf(s.jobs[e.job], id)
    ensures SameWriters(s, JobStep(lib, s, e.job, e), id)
  {
    var j := e.job;
    if e.JobPublishesBody? {
      JobMovesElsewhere(s, id, j, Finished(Failure(Io)));
      JobMovesElsewhere(s, id, j, BodyWritten);
    } else {
      JobMovesElsewhere(s, id, j, Finished(Success(JobHashes(lib, s.jobs[j]))));
    }
  }

  lemma JobStepKeepsWriters(lib: Library, s: State, e: Event, id: string)
    requires IsJobEvent(e) && e.job in s.jobs && !IsFileWork(s, e, id) && CallsEnded(s, e, id) == []
    ensures SameWriters(s, JobStep(lib, s, e.job, e), id)
  {
    if e.JobOpensBody? || e.JobOpensCount? {
      OpeningKeepsWriters(lib, s, e, id);
    } else if WritesBodyOf(s.jobs[e.job], id) {
      SilentWriterStays(lib, s, e, id);
    } else if e.JobPublishesBody? || e.JobPublishesCount? {
      PublishingElsewhere(lib, s, e, id);
    } else if e.JobGates? || e.JobPanics? {
      JobMovesElsewhere(s, id, e.job, Fetched);
    }
  }

  lemma JobStepAddsNoJob(lib: Library, s: State, e: Event)
    requires IsJobEvent(e) && e.job in s.jobs
    ensures JobStep(lib, s, e.job, e).jobs.Keys <= s.jobs.Keys && JobStep(lib, s, e.job, e).nextJob == s.nextJob
  {
  }

  lemma OtherJobStepAgrees(lib: Library, s: State, v: A.Volume, e: Event, id: string, read: Decoder)
    requires Agrees(s, v, id, read) && IsJobEvent(e) && e.job in s.jobs
    requires !IsFileWork(s, e, id) && CallsEnded(s, e, id) == []
    ensures Agrees(JobStep(lib, s, e.job, e), v, id, read)
  {
    JobStepKeepsWriters(lib, s, e, id);
    JobStepsLeaveOtherFiles(lib, s, e, id);
    JobStepAddsNoJob(lib, s, e);
    SameWritersAgree(s, JobStep(lib, s, e.job, e), v, id, read);
  }

  lemma UpdaterStepAgrees(lib: Library, s: State, v: A.Volume, e: Event, id: string, read: Decoder)
    requires Agrees(s, v, id, read) && !IsJobEvent(e) && !e.Crashes?
    ensures Agrees(Step(lib, s, e), v, id, read)
  {
    UpdaterStepsLeaveFiles(lib, s, e);
    UpdaterStepsKeepPhases(lib, s, e);
    UpdaterStepsKeepJobs(lib, s, e);
    SameWritersAgree(s, Step(lib, s, e), v, id, read);
  }

  lemma UpdaterStepsKeepJobs(lib: Library, s: State, e: Event)
    requires (forall j :: j in s.jobs ==> j < s.nextJob) && !IsJobEvent(e) && !e.Crashes?
    ensures forall j :: j in s.jobs ==> j in Step(lib, s, e).jobs && Step(lib, s, e).jobs[j] == s.jobs[j]
    ensures forall j :: j in Step(lib, s, e).jobs ==> j < Step(lib, s, e).nextJob
  {
    match e {
      case BeginCycle(_, _, _) =>
      case WarmLoads(_, _) =>
      case _ =>
    }
  }

  // ---------- whole runs ----------

  lemma PanicAgrees(lib: Library, s: State, v: A.Volume, j: nat, id: string, read: Decoder)
    requires Agrees(s, v, id, read) && j in s.jobs && WritesBodyOf(s.jobs[j], id)
    ensures Agrees(JobStep(lib, s, j, JobPanics(j)), A.Run(v, [A.Fails(j)]), id, read)
  {
    LeavingAgrees(s, v, j, Fetched, id, read);
    VolumeRunOfOne(v, A.Fails(j));
  }

  lemma JobStepAgrees(lib: Library, s: State, v: A.Volume, e: Event, id: string, read: Decoder)
    requires Agrees(s, v, id, read) && IsJobEvent(e) && e.job in s.jobs && !IsFileWork(s, e, id)
    ensures Agrees(JobStep(lib, s, e.job, e), A.Run(v, CallsEnded(s, e, id)), id, read)
  {
    if CallsEnded(s, e, id) == [] {
      OtherJobStepAgrees(lib, s, v, e, id, read);
    } else {
      PanicAgrees(lib, s, v, e.job, id, read);
    }
  }

  lemma OtherAgrees(lib: Library, s: State, v: A.Volume, e: Event, id: string, read: Decoder)
    requires Agrees(s, v, id, read) && !IsFileWork(s, e, id)
    ensures Agrees(Step(lib, s, e), A.Run(v, CallsEnded(s, e, id)), id, read)
  {
    if e.Crashes? {
      CrashAgrees(lib, s, v, id, read);
      VolumeRunOfOne(v, A.Crashes);
    } else if !IsJobEvent(e) {
      UpdaterStepAgrees(lib, s, v, e, id, read);
    } else {
      JobEventIsJobStep(lib, s, e);
      if e.job in s.jobs {
        JobStepAgrees(lib, s, v, e, id, read);
      }
    }
  }

  lemma CreateCallAgrees(lib: Library, s: State, v: A.Volume, a: A.Event, id: string, read: Decoder)
    requires Agrees(s, v, id, read) && IsEnabled(s, v, a, id, read) && a.Creates?
    ensures Agrees(Step(lib, s, Seen(v, a, read).value), A.Step(v, a), id, read)
  {
    CreatingAgrees(s, v, a.w, a.body, id, read);
    assert Step(lib, s, JobOpensBody(a.w, true)) == OpensBody(s, a.w);
  }

  lemma FailCallAgrees(lib: Library, s: State, v: A.Volume, j: nat, id: string, read: Decoder)
    requires Agrees(s, v, id, read) && j in v.writers
    ensures Agrees(Step(lib, s, Seen(v, A.Fails(j), read).value), A.Step(v, A.Fails(j)), id, read)
  {
    LeavingAgrees(s, v, j, Finished(Failure(Io)), id, read);
    assert Step(lib, s, JobPublishesBody(j, false, None)) == JobMoves(s, j, Finished(Failure(Io)));
  }

  lemma CallAgrees(lib: Library, s: State, v: A.Volume, a: A.Event, id: string, read: Decoder)
    requires Agrees(s, v, id, read) && IsEnabled(s, v, a, id, read)
    ensures var e := Seen(v, a, read);
            Agrees(if e.Some? then Step(lib, s, e.value) else s, A.Step(v, a), id, read)
  {
    match a
    case Creates(_, _) => CreateCallAgrees(lib, s, v, a, id, read);
    case Writes(j, count) => WritingAgrees(lib, s, v, j, count, id, read);
    case Renames(j) => RenamingAgrees(lib, s, v, j, id, read);
    case Fails(j) => FailCallAgrees(lib, s, v, j, id, read);
    case Crashes =>
  }

  lemma MoveAgrees(lib: Library, s: State, v: A.Volume, m: Move, id: string, read: Decoder)
    requires Agrees(s, v, id, read)
    ensures var (s', v') := Moved(lib, s, v, m, id, read); Agrees(s', v', id, read)
  {
    match m
    case Other(e) =>
      if !IsFileWork(s, e, id) {
        OtherAgrees(lib, s, v, e, id, read);
      }
    case Call(a) =>
      if IsEnabled(s, v, a, id, read) {
        CallAgrees(lib, s, v, a, id, read);
        VolumeRunOfOne(v, a);
      }
  }

  /** The protocol's state and the volume after a series of moves. */
  function After(lib: Library, s: State, v: A.Volume, moves: seq<Move>, id: string, read: Decoder)
    : (r: (State, A.Volume))
    requires A.WellFormed(v)
    ensures A.WellFormed(r.1)
  {
    if moves == [] then (s, v)
    else
      var (s', v') := After(lib, s, v, moves[..|moves| - 1], id, read);
      Moved(lib, s', v', moves[|moves| - 1], id, read)
  }

  /** The moves as a run of the protocol. */
  function Events(lib: Library, s: State, v: A.Volume, moves: seq<Move>, id: string, read: Decoder): seq<Event>
    requires A.WellFormed(v)
  {
    if moves == [] then []
    else
      var init := moves[..|moves| - 1];
      var (s', v') := After(lib, s, v, init, id, read);
      var e := EventOf(s', v', moves[|moves| - 1], id, read);
      Events(lib, s, v, init, id, read) + if e.Some? then [e.value] else []
  }

  /** The moves as a run of the calls on the file. */
  function Calls(lib: Library, s: State, v: A.Volume, moves: seq<Move>, id: string, read: Decoder): seq<A.Event>
    requires A.WellFormed(v)
  {
    if moves == [] then []
    else
      var init := moves[..|moves| - 1];
      var (s', v') := After(lib, s, v, init, id, read);
      Calls(lib, s, v, init, id, read) + CallsOf(s', v', moves[|moves| - 1], id, read)
  }

  lemma {:induction false} VolumeRunAppend(v: A.Volume, a: seq<A.Event>, b: seq<A.Event>)
    requires A.WellFormed(v)
    ensures A.Run(v, a + b) == A.Run(A.Run(v, a), b)
    decreases |b|
  {
    if b == [] {
      Strings.NothingAfter(a);
    } else {
      var init, end := b[..|b| - 1], b[|b| - 1];
      VolumeRunAppend(v, a, init);
      Strings.Unsnoc(b);
      Strings.Assoc(a, init, [end]);
      A.RunOfOneMore(v, a + init, end);
      A.RunOfOneMore(A.Run(v, a), init, end);
    }
  }

  lemma RunWithOneMore(lib: Library, s: State, events: seq<Event>, e: Option<Event>)
    ensures Run(lib, s, events + if e.Some? then [e.value] else [])
         == if e.Some? then Step(lib, Run(lib, s, events), e.value) else Run(lib, s, events)
  {
    if e.Some? {
      Strings.Snoc(events, e.value);
    } else {
      Strings.NothingAfter(events);
    }
  }

  /** Over every run in which the jobs write their bytes in any portions at any time between creating
      and renaming the file: it is a run of the protocol, and at each moment both agree on who is
      writing, on who is alone and on what is read from the target. */
  lemma {:induction false} EveryFileRunIsAProtocolRun(lib: Library, disk: map<string, Files>, now: int, v: A.Volume,
                                                      moves: seq<Move>, id: string, read: Decoder)
    requires A.IsAtRest(v) && FileAgrees(DiskOf(disk, id).body, v, read)
    ensures var s := Boot(disk, now);
            var (s', v') := After(lib, s, v, moves, id, read);
            && s' == Run(lib, s, Events(lib, s, v, moves, id, read))
            && v' == A.Run(v, Calls(lib, s, v, moves, id, read))
            && Agrees(s', v', id, read)
    decreases |moves|
  {
    if moves != [] {
      var s, init, m := Boot(disk, now), moves[..|moves| - 1], moves[|moves| - 1];
      EveryFileRunIsAProtocolRun(lib, disk, now, v, init, id, read);
      var (s', v') := After(lib, s, v, init, id, read);
      MoveAgrees(lib, s', v', m, id, read);
      RunWithOneMore(lib, s, Events(lib, s, v, init, id, read), EventOf(s', v', m, id, read));
      VolumeRunAppend(v, Calls(lib, s, v, init, id, read), CallsOf(s', v', m, id, read));
    }
  }

  /** A job that is alone when its bytes are complete leaves its own body in the target. */
  lemma LoneJobPublishesItsBody(lib: Library, disk: map<string, Files>, now: int, v: A.Volume, moves: seq<Move>,
                                j: nat, id: string, read: Decoder)
    requires A.IsAtRest(v) && FileAgrees(DiskOf(disk, id).body, v, read)
    requires var (s', v') := After(lib, Boot(disk, now), v, moves, id, read);
             A.IsComplete(v', j) && j in s'.jobs && s'.jobs[j].phase == WritingBody(true)
    ensures var (s', v') := After(lib, Boot(disk, now), v, moves, id, read);
            var (after, volume) := After(lib, Boot(disk, now), v, moves + [Call(A.Renames(j))], id, read);
            && A.TargetContent(volume) == Some(v'.writers[j].body) && read(v'.writers[j].body) == s'.jobs[j].body
            && DiskOf(after.disk, id).body == Some(BodyFile(s'.jobs[j].body, s'.now, true))
  {
    EveryFileRunIsAProtocolRun(lib, disk, now, v, moves, id, read);
    var (s', v') := After(lib, Boot(disk, now), v, moves, id, read);
    RenamingAgrees(lib, s', v', j, id, read);
    Strings.Snoc(moves, Call(A.Renames(j)));
    VolumeRunOfOne(v', A.Renames(j));
  }

  // ---------- what the bytes on disk are worth ----------

  predicate NeverTimesOut(moves: seq<Move>) {
    forall m :: m in moves ==> m != Other(AttemptTimesOut)
  }

  lemma EventIsNoTimeout(s: State, v: A.Volume, m: Move, id: string, read: Decoder)
    requires A.WellFormed(v) && m != Other(AttemptTimesOut)
    ensures EventOf(s, v, m, id, read).Some? ==> !EventOf(s, v, m, id, read).value.AttemptTimesOut?
  {
  }

  lemma NoTimeoutAppend(events: seq<Event>, e: Option<Event>)
    requires NoTimeout(events) && (e.Some? ==> !e.value.AttemptTimesOut?)
    ensures NoTimeout(events + if e.Some? then [e.value] else [])
  {
  }

  lemma {:induction false} EventsWithoutTimeout(lib: Library, s: State, v: A.Volume, moves: seq<Move>, id: string,
                                                read: Decoder)
    requires A.WellFormed(v) && NeverTimesOut(moves)
    ensures NoTimeout(Events(lib, s, v, moves, id, read))
    decreases |moves|
  {
    if moves != [] {
      var init, m := moves[..|moves| - 1], moves[|moves| - 1];
      assert m in moves && forall x :: x in init ==> x in moves;
      EventsWithoutTimeout(lib, s, v, init, id, read);
      var (s', v') := After(lib, s, v, init, id, read);
      EventIsNoTimeout(s', v', m, id, read);
      NoTimeoutAppend(Events(lib, s, v, init, id, read), EventOf(s', v', m, id, read));
    }
  }

  /** As long as no attempt runs into its time limit, what is read from the target passes the gates at
      every moment, however the writes are cut into portions and wherever the process dies. */
  lemma WithoutTimeoutsTheTargetPassedTheGates(lib: Library, disk: map<string, Files>, now: int, v: A.Volume,
                                               moves: seq<Move>, id: string, read: Decoder)
    requires A.IsAtRest(v) && FileAgrees(DiskOf(disk, id).body, v, read)
    requires DiskOk(lib, disk) && AllFilesAlone(disk) && NeverTimesOut(moves)
    ensures var target := A.TargetContent(After(lib, Boot(disk, now), v, moves, id, read).1);
            target.Some? ==> PassesGates(lib, FormatOf(id), read(target.value).lossyText)
  {
    EveryFileRunIsAProtocolRun(lib, disk, now, v, moves, id, read);
    EventsWithoutTimeout(lib, Boot(disk, now), v, moves, id, read);
    WithoutTimeoutsEveryFilePassedTheGates(lib, disk, now, Events(lib, Boot(disk, now), v, moves, id, read), id);
  }
}

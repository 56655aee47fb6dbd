/** The gates of `write_and_hash_blocking` told by the fields of the files: what the saved count is held
    against, when each gate rejects, and what a write leaves. */
module BlocklistGates {

  import opened Wrappers
  import opened BlocklistDownload
  import opened DeltaGate
  import opened BlocklistRefresh

  /** A baseline is there exactly if the count file is, its number can be read and it is not from the
      future; then it is that number and the file's age. */
  lemma PreviousCountIff(file: Option<CountFile>, now: int, b: Baseline)
    ensures PreviousCount(file, now) == Some(b)
       <==> file.Some? && file.value.count == Some(b.count) && file.value.writtenAt + b.elapsed == now
  {
  }

  /** The file holds this number, from the baseline size on, and is at most the grace period old. */
  predicate HoldsBaseline(file: Option<CountFile>, now: int, number: nat) {
    && file.Some? && file.value.count == Some(number) && number >= MIN_COUNT_BASELINE
    && 0 <= now - file.value.writtenAt <= DELTA_CHECK_GRACE_PERIOD
  }

  predicate IsWithinFactorFive(a: nat, b: nat) {
    a <= 5 * b && b <= 5 * a
  }

  /** Counts are what 64 bits hold. */
  predicate CountsFit(entries: nat, file: Option<CountFile>) {
    entries <= USIZE_MAX && (file.Some? && file.value.count.Some? ==> file.value.count.value <= USIZE_MAX)
  }

  lemma DeltaRejectsIff(current: nat, file: Option<CountFile>, now: int, why: ValidationFailure)
    requires CountsFit(current, file)
    ensures DeltaVerdict(current, PreviousCount(file, now)) == Failure(why)
       <==> && why.SuspiciousCountDelta? && why.current == current
            && HoldsBaseline(file, now, why.previous) && !IsWithinFactorFive(current, why.previous)
  {
    VerdictIsFactorFive(current, PreviousCount(file, now));
  }

  lemma ValidationRejectsIff(lib: Library, hashes: seq<Hash>, candidates: nat, seed: Seed, why: ValidationFailure)
    ensures var hits := CountIn(hashes, CanaryHashes(lib, seed));
            ValidateHashes(lib, hashes, candidates, seed) == Failure(why)
            <==> if 2 * |hashes| < candidates then why == LowParseSuccessRatio(|hashes|, candidates)
                 else hits >= 2 && why == CanaryDomainsPresent(hits)
  {
    if candidates > 0 {
      RatioIsInteger(|hashes|, candidates);
    }
  }

  /** The whole gate, reason by reason: too few of the candidate lines are domains; else at least two of
      the hashes are canaries'; else the saved number is a baseline and the counts differ by more than a
      factor of five. With none of these the body is accepted. */
  lemma GateRejectsIff(lib: Library, job: Job, file: Option<CountFile>, now: int, why: ValidationFailure)
    requires CountsFit(|BodyEntries(lib, job.source.format, job.body.lossyText)|, file)
    ensures var listed := |BodyEntries(lib, job.source.format, job.body.lossyText)|;
            var candidates := |BodyCandidates(job.source.format, job.body.lossyText)|;
            var hits := CountIn(JobHashes(lib, job), CanaryHashes(lib, job.seed));
            GateVerdict(lib, job, file, now) == Failure(why)
            <==> if 2 * listed < candidates then why == LowParseSuccessRatio(listed, candidates)
                 else if hits >= 2 then why == CanaryDomainsPresent(hits)
                 else && why.SuspiciousCountDelta? && why.current == listed
                      && HoldsBaseline(file, now, why.previous) && !IsWithinFactorFive(listed, why.previous)
  {
    var hashes := JobHashes(lib, job);
    var candidates := |BodyCandidates(job.source.format, job.body.lossyText)|;
    ValidationRejectsIff(lib, hashes, candidates, job.seed, why);
    ValidationAcceptsIff(lib, hashes, candidates, job.seed);
    DeltaRejectsIff(|hashes|, file, now, why);
  }

  lemma ValidationAcceptsIff(lib: Library, hashes: seq<Hash>, candidates: nat, seed: Seed)
    ensures ValidateHashes(lib, hashes, candidates, seed).Success?
       <==> 2 * |hashes| >= candidates && CountIn(hashes, CanaryHashes(lib, seed)) < 2
  {
    if candidates > 0 {
      RatioIsInteger(|hashes|, candidates);
    }
  }

  /** A body that validates is rejected exactly when the saved number is a baseline, at most the grace
      period old, and the counts differ by more than a factor of five. */
  lemma ValidBodyIsRejectedIff(lib: Library, job: Job, file: Option<CountFile>, now: int)
    requires CountsFit(|BodyEntries(lib, job.source.format, job.body.lossyText)|, file)
    requires ValidateBody(lib, job.source.format, job.body.lossyText, job.seed).Success?
    ensures GateVerdict(lib, job, file, now).Failure?
       <==> && file.Some? && file.value.count.Some?
            && HoldsBaseline(file, now, file.value.count.value)
            && !IsWithinFactorFive(|BodyEntries(lib, job.source.format, job.body.lossyText)|, file.value.count.value)
  {
    var listed := |BodyEntries(lib, job.source.format, job.body.lossyText)|;
    assert listed == |JobHashes(lib, job)|;
    if GateVerdict(lib, job, file, now).Failure? {
      DeltaRejectsIff(listed, file, now, GateVerdict(lib, job, file, now).error);
    } else if file.Some? && file.value.count.Some? {
      DeltaRejectsIff(listed, file, now, SuspiciousCountDelta(file.value.count.value, listed));
    }
  }

  /** After the grace period a list of any size is accepted again: a source that was away for eight days
      is not rejected for ever. */
  lemma GracePeriodEnds(lib: Library, job: Job, file: CountFile, now: int)
    requires CountsFit(|BodyEntries(lib, job.source.format, job.body.lossyText)|, Some(file))
    requires ValidateBody(lib, job.source.format, job.body.lossyText, job.seed).Success?
    requires now - file.writtenAt >= 8 * 24 * 3600 * 1_000_000_000
    ensures GateVerdict(lib, job, Some(file), now).Success?
  {
    ValidBodyIsRejectedIff(lib, job, Some(file), now);
  }

  /** What one whole write leaves: a rejected body touches nothing, a failed body write neither, and a
      failed count write loses the count alone. */
  lemma WriteLeaves(lib: Library, job: Job, files: Files, now: int, bodyOk: bool, countOk: bool)
    ensures var (files', result) := WriteAndHash(lib, job, files, now, bodyOk, countOk);
            var accepted := GateVerdict(lib, job, files.count, now).Success?;
            && (result.Success? <==> accepted && bodyOk)
            && (result.Success? ==> result.value == JobHashes(lib, job))
            && (!accepted ==> result == Failure(Rejected(GateVerdict(lib, job, files.count, now).error)))
            && (accepted && !bodyOk ==> result == Failure(Io))
            && files'.body == (if accepted && bodyOk then Some(BodyFile(job.body, now, true)) else files.body)
            && (if accepted && bodyOk && countOk
                then files'.count == Some(CountFile(Some(|BodyEntries(lib, job.source.format, job.body.lossyText)|),
                                                    now, true, job.body))
                else files'.count == files.count)
  {
  }

  // ---------- the warm load ----------

  /** A warm load serves the selected sources whose file can be read, each with its entries, the file's
      time as its last success and no error. */
  lemma {:induction false} WarmPartsAre(lib: Library, disk: map<string, Files>, sources: seq<Source>, part: Part)
    ensures part in WarmParts(disk, sources)
       <==> && part.Warm? && part.source in sources
            && DiskOf(disk, part.source.id).body == Some(part.file) && part.file.body.isUtf8
  {
    if sources != [] {
      WarmPartsAre(lib, disk, sources[..|sources| - 1], part);
      assert sources == sources[..|sources| - 1] + [sources[|sources| - 1]];
    }
  }

  lemma WarmLoadServes(lib: Library, s: State, selected: Option<seq<string>>, seed: Seed)
    requires s.cycle.Idle? && s.jobs == map[]
    ensures var s', sources := Step(lib, s, WarmLoads(selected, seed)), SelectedSources(BLOCKLIST_SOURCES, selected);
            var parts := WarmParts(s.disk, sources);
            && s' == s.(bundle := s'.bundle)
            && (parts == [] ==> s'.bundle == s.bundle)
            && (parts != [] ==>
                  && s'.bundle.seed == seed && s'.bundle.parts == parts && s'.bundle.selected == sources
                  && s'.bundle.domains == Finalised(HashAll(lib, seed, AllEntries(lib, parts)))
                  && |s'.bundle.statuses| == |parts|
                  && forall i :: 0 <= i < |parts| && parts[i].Warm? ==>
                       s'.bundle.statuses[i]
                       == Status(parts[i].source.id, parts[i].source.group, |PartEntries(lib, parts[i])|,
                                 Some(parts[i].file.writtenAt), None))
  {
    WarmStep(lib, s, selected, seed);
  }

  // ---------- temporary files that cannot be created ----------

  /** A temporary body file that cannot be created ends an accepted job as a failed write, with both files
      as they were; one for the count loses the count alone. */
  lemma FailedCreateEndsTheJob(lib: Library, s: State, j: nat)
    requires j in s.jobs
    ensures var s' := Step(lib, s, JobOpensBody(j, false));
            s.jobs[j].phase.Accepted? ==>
              s'.disk == s.disk && j in s'.jobs && s'.jobs[j].phase == Finished(Failure(Io))
    ensures var s' := Step(lib, s, JobOpensCount(j, false));
            s.jobs[j].phase.BodyWritten? ==>
              s'.disk == s.disk && j in s'.jobs && s'.jobs[j].phase == Finished(Success(JobHashes(lib, s.jobs[j])))
  {
  }
}

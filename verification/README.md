# Verified models of the DNS quorum service

This project models the parts of the service whose correctness is a statement about every input or
every run, and proves those statements. One module follows one source file or one protocol; code that
the service runs step by step is a method or a class proved against a specification function, and
concurrent code is a state machine whose steps may interleave in any order.

* **Calendar** turns a day count into a month by era arithmetic and is held against a proleptic
  Gregorian calendar (section 3.2.1 of ISO 8601:2004) that adds one month at a time.
* **DomainSuffix**, **BlocklistDownload**, **BlocklistFormats**, **BlocklistBundle** are the blocklist
  index: two feed parsers, three integrity gates, the sorted vector of hashes and the lookup that walks
  from label to label. The hash, domain normalisation and the public-suffix list are arbitrary
  functions, so every statement holds whatever they are.
* **DeltaGate**, **BlocklistRefresh**, **BlocklistLastKnownGood** are the refresh protocol: one updater
  task, write jobs that outlive their time limit, two files per source, crashes and failed writes
  anywhere. Replacing a file is two steps, creating the temporary file and renaming it; a write that
  another one overlapped may publish anything.
* **BlocklistGates** states the gates by the fields of the files; **BlocklistCycle** is a refresh cycle as a
  whole: its sequential description and what the bundle it publishes blocks from then on.
* **BlocklistHistory** traces each file to the fetch and the gates it went through and says which runs
  never let two writes overlap; **BlocklistOverlap** is a run that does.
* **AtomicWrite** is that replacement byte by byte: any number of writers with their own handles and
  offsets on one temporary file. **BlocklistVolumes** and **BlocklistCountVolumes** show that every
  byte-level run of the body writes and of the count writes is a run of the protocol, whatever decodes the
  bytes of a body; **CountText** is the decimal text of a count.
* **ChangeBus**, **PushStream**, **PushStreamSafety** are the change bus and the event streams: version
  channels, a cancellable select, a parking sampler, four slots, shutdown. **PushStreamHistory** tells what
  they hold and send by the events alone. A watch channel is a value
  with a hidden version; the sampler's `Notify` holds at most one permit.
* **Cache**, **CacheLifetime** are the verdict cache, its invalidation by suffix and the deadline an
  entry carries from one process to the next over two clocks.
* **BaselineSelector**, **Admission**, **LogThrottle**, **CredentialMigration** are four state machines
  with claims about whole histories.
* **TableCells**, **QaMatrix**, **QaRegeneration**, **QaColumns**, **QaVerdict** print, read back, merge and edit the
  quality matrix, a Markdown table. **QaEntries** orders the data file's entries and writes their
  coverage column; **QaFile** and **QaFileRecording** are the two scripts on the whole file, with the
  table between two markers, **QaMarkers** says what a marker printed in a cell does, and **QaScript** is
  the generator from the entries to the file.
* **Strings**, **TextSearch**, **Wrappers** hold the shared string operations and the option and result
  types.

## Where the code and its promise part

Each of these is a lemma, mostly with the exact condition.

* `Calendar.BothClocksNameTheCurrentMonth`: from the first day of year 2^31 on, the updater's calendar
  saturates and the curation tool's copy does not; before that day they agree and are right.
* `BlocklistLastKnownGood.FallbackServesTheAcceptedBodyIffUtf8`: a body is accepted with invalid bytes
  replaced but read back strictly, so one stray byte in an accepted body empties every fallback until
  the file is written again.
* `AtomicWrite.CreatingIsSafeIffNobodyElseWrites`: the temporary file has one fixed name, so two writes of
  one file share it, and each gets its own body published exactly when the other is not under way. What
  is left may be neither body exactly when they differ in two places
  (`AtomicWrite.OverlapCorruptsIffBodiesDifferTwice`).
* `BlocklistHistory.WithoutTimeoutsEveryFilePassedTheGates`: a refresh cycle overlaps two writes of one
  source only after an attempt ran into its time limit, since the abandoned job goes on; without that
  every body on disk passed the gates, and with it a body may be left that does not
  (`BlocklistOverlap.TimeoutLeavesABodyThatFailsTheGates`).
* `CacheLifetime.DeadlineMovesLaterIff`: the documented "never later" holds when each save and each
  restore reads both clocks at one moment (`DeadlineWithClocksReadTogether`); the code reads the wall
  clock once and the monotonic clock later, and the deadline moves by the difference.
* `BaselineSelector.AlternateLacksADeadlineIff`: an alternate is without a probe deadline exactly when the
  system clock could not represent one at the last cycle that set it; the primary is then not probed until
  a later switch sets one.
* `CredentialMigration.MigrationLosesTheOnlyCopyIff`: the migration asks whether the store holds
  anything, not whether it can be read, and erases a good file beside an unreadable entry.
* `CredentialMigration.ClearIsUndoneIffAReadableFileRemains`: a leftover file brings cleared credentials
  back at the next start.
* `QaMatrix.PrintedRowReadsBack`: only a line feed is escaped, so any other line break inside a cell
  (vertical tab, form feed, U+2028 and so on) makes the next run drop the whole row, verdict included;
  so does an ID that looks like the heading.
* `QaRegeneration.NothingRecordedIsLost`: for the same reason a line break in a data file's cell loses the
  verdict recorded for that ID, and no other.
* `QaMarkers.RecordIsKeptIffAbove`: the end marker inside a cell is not escaped, so the next run reads the
  rows above it and no others; a record stays exactly when its row prints whole above the first such cell
  (`MarkerLosesALaterRecord` has two rows of which the second is lost).
* `QaFileRecording.RecordedBeforeTheTable`: the verdict script searches the whole file, so a line before the
  table that begins like the row is edited instead.
* `QaVerdict.PrintedRowAnswersToItsIdIff`: the verdict script searches for the ID as it is given, so a row
  whose ID holds a pipe or a line feed is never found by it.
* `QaVerdict.RecordingChangesOneRow`: the verdict goes to the first line with the ID while reading keeps
  the last, so beside a later duplicate the recorded verdict is never seen.

## Model

| member | source | states |
|---|---|---|
| Calendar.CivilFromDaysIsTheUniqueMonth | crates/dnsqb-service/src/geoip_download.rs:129-143 | for every day count, the era arithmetic names a month exactly when that month begins at or before the day and the next one after it, in a calendar that counts month by month |
| Calendar.CivilFromDaysHoldsTheDay | crates/dnsqb-service/src/geoip_download.rs:129-143 | the computed month number is 1 to 12 and the month holds the day, for days before 1970 too |
| Calendar.MonthHoldingADayIsUnique | crates/dnsqb-service/src/geoip_download.rs:120-129 | no day lies in two months of the reference calendar |
| Calendar.FirstDayIsStrictlyMonotone | crates/dnsqb-service/src/geoip_download.rs:120-129 | later months of the reference calendar begin on later days |
| Calendar.YearOfEraInvertsCycleDays | crates/dnsqb-service/src/geoip_download.rs:129-143 | the year-of-era division names the last year begun by a day of the 400-year cycle, leap days included |
| Calendar.MonthInvertsMarchDays | crates/dnsqb-service/src/geoip_download.rs:129-143 | the month division inverts the table of month starts counted from March |
| Calendar.CivilYearMonthIsRightIffYearFits | crates/dnsqb-service/src/geoip_download.rs:129-143 | the saturating conversion gives the right month exactly when the year fits 32 bits |
| Calendar.MonthIsBeforeIffDayIsBefore | crates/dnsqb-service/src/geoip_download.rs:116-143 | the computed month is before a given month exactly when the day is before that month's first day |
| Calendar.PreviousMonthHoldsTheDayBefore | crates/dnsqb-service/src/geoip_download.rs:108-114 | the previous month is the one that holds the day before the given month's first day |
| Calendar.CandidatesAreTheLastTwoMonths | crates/dnsqb-service/src/geoip_download.rs:77-85 | for every clock value, one before 1970 counting as 0, the two download candidates are the month holding today and the month holding the day before it began |
| Calendar.BothClocksNameTheCurrentMonth | crates/dnsqb-service/examples/curate_topn.rs:342-361 | for every clock value the two copies of the calendar agree exactly up to the last day of year 2^31 - 1, and then name the month that holds today |
| Calendar.ClockIsHeldIn64Bits | crates/dnsqb-service/examples/curate_topn.rs:342-361 | past the largest 64-bit second the updater stays there and the curation tool goes back to 1970; before 1970 both name January 1970 |
| Calendar.ResolveLatestMonth | crates/dnsqb-service/examples/curate_topn.rs:311-338 | the walk-back answers with the newest of thirteen consecutive months whose file is not missing, exactly k months back on the k-th step, stops at a transport error, and fails only when all thirteen are missing |
| DomainSuffix.SuffixTestIsReachability | crates/dnsqb-service/src/cache.rs:419-437 | on all strings, a key equals a domain or ends with a dot and the domain exactly when dropping labels from the key reaches the domain |
| DomainSuffix.WalkIsSuffixTestOnDottedDomains | crates/dnsqb-service/src/blocklist_updater.rs:242-258 | the bundle's walk reaches exactly the domains with a dot for which the cache's test holds |
| DomainSuffix.LastLabelIsSuffixTestOnBareLabels | crates/dnsqb-service/src/cctld_block.rs:34-39 | for a dot-free domain the cache's test says that the last label is the domain |
| DomainSuffix.CountryCodeTestIsSuffixTest | crates/dnsqb-service/src/cctld_block.rs:34-39 | the country-code block is the dot-free case of the same test up to letter case, and a code with a dot blocks nothing |
| BlocklistDownload.HashBuffer.PushNormalized | crates/dnsqb-service/src/blocklist_download.rs:210-224 | every candidate is counted; exactly the hash of its normal form is appended when it has one that is no public suffix, and nothing otherwise |
| BlocklistDownload.BodyListsIff | crates/dnsqb-service/src/blocklist_download.rs:210-224 | for every body and format a domain is listed exactly when some candidate normalises to it and it is no public suffix |
| BlocklistDownload.HashBuffer.HashPlainDomains | crates/dnsqb-service/src/blocklist_download.rs:136-152 | the parser appends the hashes of the entries among the body's candidate lines in order and counts the candidates |
| BlocklistDownload.HashBuffer.HashAdblockDomains | crates/dnsqb-service/src/blocklist_download.rs:162-200 | the same for the adblock format, whose candidates are the plain network rules |
| BlocklistDownload.HashBuffer.HashSourceBody | crates/dnsqb-service/src/blocklist_updater.rs:302-319 | the dispatcher runs the parser of the source's format on the same two buffers |
| BlocklistDownload.HashBuffer.Finalize | crates/dnsqb-service/src/blocklist_download.rs:428-431 | sorting and dropping repeated neighbours leaves the strictly ascending listing of the same set of hashes |
| BlocklistDownload.Finalised | crates/dnsqb-service/src/blocklist_download.rs:428-431 | the result is strictly ascending and has exactly the members it started with |
| BlocklistDownload.StrictlyAscendingListingIsUnique | crates/dnsqb-service/src/blocklist_download.rs:428-431 | a set of hashes has one strictly ascending listing, so order and repetition of the input cannot be seen |
| BlocklistDownload.DedupKeepsMembers | crates/dnsqb-service/src/blocklist_download.rs:428-431 | on a sorted vector, dropping equal neighbours removes all repetitions and no value |
| BlocklistDownload.EntriesNeverOutnumberCandidates | crates/dnsqb-service/src/blocklist_download.rs:210-224 | hashes never outnumber candidate lines |
| BlocklistDownload.CanaryHitsCountEntries | crates/dnsqb-service/src/blocklist_download.rs:322-333 | the gate counts canary hits per listed entry; hashing can only add hits, and adds none without a collision |
| BlocklistDownload.CanaryNamesIff | crates/dnsqb-service/src/blocklist_download.rs:323-327 | a canary is known by the normal form of its name, if it has one |
| BlocklistDownload.ValidationEnforcesTheGates | crates/dnsqb-service/src/blocklist_download.rs:305-333 | a body that validates has at least half of its candidates as domains and at most one canary entry whatever the hash; without a collision on a canary, exactly those bodies validate |
| BlocklistDownload.RoundedRatioGivesTheSameVerdict | crates/dnsqb-service/src/blocklist_download.rs:312-320 | dividing 64-bit floats gives the verdict of exact division on counts up to 2^53, for every monotone rounding that leaves one half and the float below it alone |
| BlocklistFormats.LineContributesItsCandidate | crates/dnsqb-service/src/blocklist_download.rs:136-200 | a line inserted anywhere contributes exactly its own candidate, in its place |
| BlocklistFormats.InsertedCommentChangesNothing | crates/dnsqb-service/src/blocklist_download.rs:136-200 | blank lines, comments, headers and exception rules inserted anywhere change neither hashes nor candidate count |
| BlocklistFormats.RenderedNamesAreTheCandidates | crates/dnsqb-service/src/blocklist_download.rs:136-200 | rendering portable names in either format and parsing gives the names back |
| BlocklistFormats.FormatsAgree | crates/dnsqb-service/src/blocklist_download.rs:136-200 | a list of portable names yields the same hash sequence and candidate count in both formats |
| BlocklistFormats.AdblockCandidateIff | crates/dnsqb-service/src/blocklist_download.rs:162-200 | an adblock line has a candidate exactly when, trimmed, it is two bars, a name free of the signs that change a rule's meaning, a caret and any options; the candidate is the name |
| BlocklistFormats.PlainCandidateIff | crates/dnsqb-service/src/blocklist_download.rs:136-152 | a line of a plain list has a candidate exactly when something that is no comment is left of it without the white space around it, and that is the candidate |
| BlocklistFormats.LastLineNeedsNoLineFeed | crates/dnsqb-service/src/blocklist_download.rs:136-200 | the last line of a body counts the same with and without a line feed |
| BlocklistBundle.BinarySearch | crates/dnsqb-service/src/blocklist_updater.rs:242-258 | on a strictly ascending vector the search answers membership |
| BlocklistBundle.MatchesDomain | crates/dnsqb-service/src/blocklist_updater.rs:242-258 | the loop answers whether the query normalises and some suffix of it that has a dot hashes into the vector |
| BlocklistBundle.LookupAgreesWithPlainSet | crates/dnsqb-service/src/blocklist_updater.rs:206-258 | every listed domain of two or more labels and everything below it is blocked; anything else only by a hash collision |
| BlocklistBundle.LookupIsPlainSetWithoutCollisions | crates/dnsqb-service/src/blocklist_updater.rs:206-258 | without collisions the lookup is plain suffix membership, and single-label entries could as well not be listed |
| BlocklistBundle.BodyBlocksIff | crates/dnsqb-service/src/blocklist_updater.rs:206-258 | from the lines of a body to the answer: without collisions a query is blocked exactly when it is at or below a listed domain of two or more labels that is no public suffix |
| BlocklistBundle.PublicSuffixesBlockNothing | crates/dnsqb-service/src/blocklist_download.rs:219-221 | a body that lists nothing but public suffixes blocks none of the names below them |
| BlocklistBundle.BareNamesAreNeverBlocked | crates/dnsqb-service/src/blocklist_updater.rs:232-258 | a query without a dot is never blocked, not even by a collision |
| BlocklistBundle.OrderAndDuplicatesDoNotMatter | crates/dnsqb-service/src/blocklist_updater.rs:206-212 | two lists of the same domains finalise to the same vector |
| DeltaGate.VerdictIsFactorFive | crates/dnsqb-service/src/blocklist_download.rs:400-422 | on 64-bit counts saturation never shows: a binding baseline accepts exactly the counts within a factor of five, any other baseline everything |
| DeltaGate.DriftIsBoundedBySavedBaselines | crates/dnsqb-service/src/blocklist_updater.rs:360-397 | along a chain of accepted cycles the count drifts by at most a factor of five per saved baseline, plus one |
| DeltaGate.DriftOverNCycles | crates/dnsqb-service/src/blocklist_updater.rs:360-397 | when every baseline is saved, n cycles keep the count between the first divided by 5^n and the first times 5^n |
| DeltaGate.DriftBoundIsReached | crates/dnsqb-service/src/blocklist_download.rs:343-422 | the bound is tight: a chain of accepted cycles reaches it for every n that fits the counter |
| BlocklistRefresh.SourceFiles.WriteAndHashBlocking | crates/dnsqb-service/src/blocklist_updater.rs:343-366 | every gate runs before the first write; the two files and the answer are those of the sequential specification for every combination of gate and write failures, which `BlocklistGates.WriteLeaves` and `GateRejectsIff` state by the fields |
| BlocklistGates.PreviousCountIff | crates/dnsqb-service/src/blocklist_updater.rs:375-387 | a baseline is there exactly when the count file is, its number parses and it is not from the future; it is that number, and its age is now minus the file's time |
| BlocklistGates.GateRejectsIff | crates/dnsqb-service/src/blocklist_updater.rs:343-360 | the whole gate reason by reason and in its order: too few candidates are domains, two or more canary hashes, a saved number that binds and differs by more than a factor of five; each with the numbers it reports |
| BlocklistGates.ValidBodyIsRejectedIff | crates/dnsqb-service/src/blocklist_download.rs:400-422 | a body that validates is rejected exactly when the saved number is at least 5000, at most seven days old and not from the future, and the counts differ by more than a factor of five |
| BlocklistGates.GracePeriodEnds | crates/dnsqb-service/src/blocklist_download.rs:343-422 | eight days after the last accepted count a valid body of any size is accepted |
| BlocklistGates.WriteLeaves | crates/dnsqb-service/src/blocklist_updater.rs:360-366 | what each combination of gate and write failures leaves in the two files and answers |
| BlocklistGates.FailedCreateEndsTheJob | crates/dnsqb-service/src/blocklist_updater.rs:361-395 | a temporary body file that cannot be created ends the job as a failed write with both files as they were; one for the count loses the count alone |
| BlocklistRefresh.SourceFiles.ReadAndHashBlocking | crates/dnsqb-service/src/blocklist_updater.rs:418-424 | the fallback hashes the file's entries, or nothing when it is missing or not valid UTF-8 |
| BlocklistRefresh.LoadBlocklistBundlesFromDisk | crates/dnsqb-service/src/blocklist_updater.rs:438-477 | the warm load builds the finalised union of the readable files of the selected sources, with a status for each |
| BlocklistGates.WarmPartsAre | crates/dnsqb-service/src/blocklist_updater.rs:438-477 | a warm load uses a file exactly when its source is selected and the file can be read as UTF-8 |
| BlocklistGates.WarmLoadServes | crates/dnsqb-service/src/blocklist_updater.rs:589-611 | a warm load with anything to serve replaces the bundle by its own, with each file's time as the last success and no error; with nothing it changes nothing |
| BlocklistCycle.SelectionIs | crates/dnsqb-service/src/blocklist_updater.rs:670-682 | a cycle works on exactly the selected built-in sources, all of them without a selection, in the built-in order |
| BlocklistCycle.CycleBeginsIff | crates/dnsqb-service/src/blocklist_updater.rs:644-666 | an idle updater starts a cycle exactly when the bundles are enabled, the selection is not an empty list and the directory is there |
| BlocklistCycle.UndisturbedCycleIsSequential | crates/dnsqb-service/src/blocklist_updater.rs:644-760 | a whole cycle that begins with every write job done, whatever becomes of each download, write and fallback, is the sequential refresh of the sources one after the other: files, parts, statuses with times and errors, and the published union |
| BlocklistCycle.PublishesIff | crates/dnsqb-service/src/blocklist_updater.rs:741-760 | a cycle is published exactly when every selected source has its part, and the bundle then has that cycle's seed, selection, parts and statuses; a failed publish keeps the old bundle |
| BlocklistCycle.PublishedCycleIsServed | crates/dnsqb-service/src/blocklist_updater.rs:755-760 | over every run, a domain of two or more labels listed by a body accepted in a published cycle is blocked with everything below it until the next publish, warm load or crash |
| BlocklistCycle.CrashForgets | crates/dnsqb-service/src/blocklist_updater.rs:206-212 | a crash keeps the files and nothing else, and the new process blocks nothing until it loads or publishes |
| BlocklistCycle.ClockShowsItsLastReading | crates/dnsqb-service/src/blocklist_updater.rs:375-387 | over every run the time that ages and success times are taken from is the clock's last reading |
| BlocklistRefresh.EveryRunKeepsInv | crates/dnsqb-service/src/blocklist_updater.rs:647-761 | over all runs with crashes, timeouts, detached writers, failed and overlapping writes, unless another write of the same file overlapped its own: every body on disk passed the ratio and canary gates, and every saved count is the number of entries of the body it was counted from, which passed them too; every bundle is the finalised union under one seed of each selected source's accepted hashes or its fallback |
| BlocklistRefresh.JobStepsKeepInv | crates/dnsqb-service/src/blocklist_updater.rs:343-398 | no step of a write job, awaited or detached, breaks that invariant; creating the temporary file and renaming it are two steps, and a job that is overtaken may publish or spill anything |
| BlocklistRefresh.UpdaterStepsKeepInv | crates/dnsqb-service/src/blocklist_updater.rs:513-761 | no step of the updater, of the warm load, of a crash or of the clock breaks it |
| BlocklistLastKnownGood.FilesChangeOnlyByAcceptedJobs | crates/dnsqb-service/src/blocklist_updater.rs:343-398 | a file that no other write overlapped changes only when a job of its own source that passed every gate renames it, and to that job's own body or count if the job was alone |
| BlocklistHistory.EveryFileComesFromAnAcceptedFetch | crates/dnsqb-service/src/blocklist_updater.rs:329-398 | over every run from any disk: a body file not found at the start, and not overlapped, holds a body that this run fetched for this source and a job of it accepted, and that passes the gates; a count file holds the number of entries of such a body |
| BlocklistLastKnownGood.EveryFilePassedTheGates | crates/dnsqb-service/src/blocklist_updater.rs:329-398 | as long as no two jobs of one source write the same file at once, every body on disk passed the gates and every saved count is the number of entries of a body that did, without exception |
| BlocklistHistory.WithoutTimeoutsWritesNeverOverlap | crates/dnsqb-service/src/blocklist_updater.rs:513-543 | in a run without an attempt that times out, the only job at work is the one the updater waits for, so no two writes overlap |
| BlocklistHistory.WithoutTimeoutsEveryFilePassedTheGates | crates/dnsqb-service/src/blocklist_updater.rs:513-543 | in a run without an attempt that times out, whatever crashes, fails or panics, every body on disk passed the gates and every saved count is the number of entries of a body that did |
| BlocklistOverlap.TimeoutLeavesABodyThatFailsTheGates | crates/dnsqb-service/src/blocklist_updater.rs:528-543 | with one: two lists that pass the gates, the first one's attempt timing out while it writes, leave bytes on disk that are read as a list that names a canary twice and fails the gates, for every decoder that reads ASCII as it stands |
| BlocklistOverlap.AbandonedWriteMixesBodies | crates/dnsqb-service/src/blocklist_updater.rs:528-543 | the same run, for any two byte strings that any decoder reads as acceptable bodies, leaves the longer one with the shorter one's bytes over its beginning, and the protocol's file is what is read from that |
| BlocklistLastKnownGood.RejectionIsFinal | crates/dnsqb-service/src/blocklist_updater.rs:343-366 | a job that fails a gate has written nothing, and in any continuation none of its later steps changes anything |
| BlocklistLastKnownGood.FinishedJobsStayFinished | crates/dnsqb-service/src/blocklist_updater.rs:513-543 | a finished job stays as it is in any continuation |
| BlocklistLastKnownGood.UndisturbedJobIsOneWrite | crates/dnsqb-service/src/blocklist_updater.rs:343-366 | the steps of a job that no other job of its source disturbs are the sequential method |
| BlocklistLastKnownGood.CrashBetweenTheWritesKeepsTheBody | crates/dnsqb-service/src/blocklist_updater.rs:360-366 | a crash between the two renames leaves the new body with the old count |
| BlocklistLastKnownGood.EveryPublishedBundleIsAnIndex | crates/dnsqb-service/src/blocklist_updater.rs:206-258 | every bundle any run publishes blocks the domains its parts list and what is below them, and nothing else but by collision |
| BlocklistLastKnownGood.FallbackServesTheAcceptedBodyIffUtf8 | crates/dnsqb-service/src/blocklist_updater.rs:399-424 | after any run that follows the rename of an accepted body and does not change the file again (failed renames and rejected bodies of the source included), a fallback to that source serves the accepted entries exactly when the body is valid UTF-8 or lists nothing |
| BlocklistLastKnownGood.StrayByteEmptiesTheFallback | crates/dnsqb-service/src/blocklist_updater.rs:343-366 | a two-line body with one stray byte in a comment is accepted with its entry, written, and then served as nothing |
| BlocklistLastKnownGood.WarmLoadServesTheAcceptedBodyIffUtf8 | crates/dnsqb-service/src/blocklist_updater.rs:438-477 | the next process loads a part with the accepted entries for a selected source exactly when its last body was valid UTF-8, and no part otherwise |
| BlocklistLastKnownGood.SavedCountIsGated | crates/dnsqb-service/src/blocklist_updater.rs:360-397 | in every run a saved count is within a factor of five of the binding baseline its own gate read, whatever other jobs have saved meanwhile |
| BlocklistLastKnownGood.UndisturbedWriteIsACycle | crates/dnsqb-service/src/blocklist_updater.rs:343-397 | when no other job changes the count file between gate and rename, the count that is replaced is the one the gate read, and the delta check holds between them |
| BlocklistLastKnownGood.UndisturbedRunIsAChain | crates/dnsqb-service/src/blocklist_updater.rs:343-397 | a run of such writes, with anything else in between, is an accepted chain from the count on disk before it to the count on disk after it |
| BlocklistLastKnownGood.SavedCountDriftsByFactorFive | crates/dnsqb-service/src/blocklist_updater.rs:360-397 | over n such writes the count on disk drifts by at most a factor of 5^n either way |
| BlocklistVolumes.EveryFileRunIsAProtocolRun | crates/dnsqb-service/src/blocklist_updater.rs:343-366 | for every decoder of bytes: every run in which the jobs write their bytes in any portions at any time between creating and renaming the file is a run of the protocol, and at each moment both agree on who writes, who is alone and what is read from the target |
| BlocklistVolumes.LoneJobPublishesItsBody | crates/dnsqb-service/src/blocklist_updater.rs:360-366 | after any such run, a job alone with its bytes complete leaves exactly these bytes in the target, and its body in the protocol's file |
| BlocklistVolumes.WithoutTimeoutsTheTargetPassedTheGates | crates/dnsqb-service/src/blocklist_updater.rs:343-366 | without an attempt that times out, what is read from the target passes the gates at every moment, whatever the decoder, however the writes are cut into portions and wherever the process dies |
| CountText.CountReadsBack | crates/dnsqb-service/src/blocklist_updater.rs:375-395 | the decimal text of a count is read back as that count, trimming and parsing included, exactly when it fits 64 bits |
| CountText.PaddedCountReads | crates/dnsqb-service/src/blocklist_updater.rs:381-387 | white space around the number, a plus sign and leading zeros change nothing |
| CountText.OnlyDigitsRead | crates/dnsqb-service/src/blocklist_updater.rs:381-387 | whatever is read as a count is, without the white space around it, digits behind at most one plus sign |
| BlocklistCountVolumes.EveryCountRunIsAProtocolRun | crates/dnsqb-service/src/blocklist_updater.rs:366-395 | the same for the count file: every run in which the jobs write the digits of their counts in any portions is a run of the protocol, and at each moment both agree on who writes, who is alone and which number is read from the target |
| BlocklistCountVolumes.LoneJobSavesItsCount | crates/dnsqb-service/src/blocklist_updater.rs:389-395 | after any such run, a job alone with its digits complete leaves the decimal text of its own entry count in the target, and that count in the protocol's file |
| BlocklistCountVolumes.WithoutTimeoutsTheTargetIsACount | crates/dnsqb-service/src/blocklist_updater.rs:366-395 | without an attempt that times out, any number read from the count file at any moment is the entry count of a body that passed the gates |
| AtomicWrite.EveryRunKeepsInv | crates/dnsqb-service/src/paths.rs:106-116 | over all runs of any number of writers with their own handles and offsets, crashes and failures: a lone writer's temporary file holds exactly the bytes it has written, and what a lone writer published is intact |
| AtomicWrite.LoneWriterPublishesItsBody | crates/dnsqb-service/src/paths.rs:106-116 | a writer with no other call under way from its create to its rename publishes exactly the bytes it was given |
| AtomicWrite.PublishedBodyStays | crates/dnsqb-service/src/paths.rs:95-116 | what a lone writer published stays in the target, byte for byte, through any steps and crashes until the next rename |
| AtomicWrite.CreatingIsSafeIffNobodyElseWrites | crates/dnsqb-service/src/paths.rs:106-116 | that every call which gets to its rename publishes its own body, for every body and every interleaving that follows, holds when a call starts exactly if no other call for the same file is under way |
| AtomicWrite.OverlapPublishesAMixture | crates/dnsqb-service/src/paths.rs:106-116 | a writer created earlier that writes later at its own offset makes the other publish "cb" for "ab" |
| AtomicWrite.OverlapChangesAPublishedFile | crates/dnsqb-service/src/paths.rs:106-116 | a writer overtaken by another one's rename goes on writing into the live target |
| AtomicWrite.OverlapPublishesAnEmptyFile | crates/dnsqb-service/src/paths.rs:106-116 | a second writer that starts between the first one's last byte and its rename makes the first publish an empty file |
| AtomicWrite.OverlapCorruptsIffBodiesDifferTwice | crates/dnsqb-service/src/paths.rs:106-116 | two calls that run at once can leave a target that is neither one's body exactly when the bodies differ in two places, a byte only one of them has counting as a difference |
| ChangeBus.BumpKeepsBusOk | crates/dnsqb-service/src/change_bus.rs:82-89 | a bump moves exactly its own topic one version on, and the value stays the version modulo 2^64 |
| ChangeBus.Index | crates/dnsqb-service/src/change_bus.rs:32-67 | every topic sits at its own index of the list of all topics |
| ChangeBus.Bus.Bump | crates/dnsqb-service/src/change_bus.rs:86-89 | the array of senders changes in the topic's slot only, in place |
| PushStream.EventStream.NextFrame | crates/dnsqb-service/src/events.rs:129-164 | one call marks as seen exactly the version it reads, sends the status first on the first call, and changes no other mark |
| PushStreamSafety.EveryRunKeepsInv | crates/dnsqb-service/src/events.rs:78-211 | the streams' invariant holds in every reachable state |
| PushStreamSafety.NoChangeIsLost | crates/dnsqb-service/src/events.rs:129-181 | an open stream with nothing pending on a topic has last sent that topic's current value, or the topic was not bumped since it subscribed |
| PushStreamSafety.FramesNeverOutnumberBumps | crates/dnsqb-service/src/events.rs:171-181 | each frame of a topic carries a newer version than the one before it, so a burst becomes one frame, wrapped counters or not |
| PushStreamSafety.NoStatusIsLost | crates/dnsqb-service/src/events.rs:129-150 | a stream with no status pending has last sent the status in the feed |
| PushStreamSafety.SamplerNeverSleepsThroughASubscriber | crates/dnsqb-service/src/events.rs:186-211 | whenever the sampler is about to park or parked while a receiver exists, a wake permit is stored or some opener has subscribed and not yet notified |
| PushStreamSafety.AtMostFourStreams | crates/dnsqb-service/src/events.rs:88-97 | in every reachable state at most four requests hold a slot, and slots held plus slots free are four |
| PushStreamSafety.LeavingFreesOneSlot | crates/dnsqb-service/src/events.rs:78-86 | a stream that ends or is dropped frees exactly its own slot and leaves every other stream as it was |
| PushStreamSafety.AtMostOneFrameAfterShutdown | crates/dnsqb-service/src/events.rs:129-164 | once shutdown has fired a stream sends at most one more frame |
| PushStreamSafety.ShutdownStepsAreFinite | crates/dnsqb-service/src/events.rs:129-164 | after shutdown every step a request takes lowers its rank |
| PushStreamSafety.ShutdownNeverLeavesAStreamStuck | crates/dnsqb-service/src/events.rs:129-164 | after shutdown each request always has a step of its own that ends it or lowers its rank, so none is left waiting |
| PushStreamSafety.NextFrameIsARunOfSteps | crates/dnsqb-service/src/events.rs:129-181 | one call of the method, whichever branch completes (status, topic, ping, shutdown), is the run of its atomic steps whatever the channels do between wake-up and read; a call that returns no frame has freed its slot |
| PushStreamHistory.FeedIsTheNewestSample | crates/dnsqb-service/src/events.rs:193-201 | over every run, told by the events alone, the status feed holds the newest text the sampler sampled, and its version counts the samples that differed from the one before |
| PushStreamHistory.NewestStatusIsShown | crates/dnsqb-service/src/events.rs:129-201 | a stream with nothing pending has last sent the newest sampled status |
| PushStreamHistory.SamplerSamplesForASubscriber | crates/dnsqb-service/src/events.rs:186-211 | while somebody subscribes and nobody is about to tell it, the sampler is at most three of its own steps from storing a new sample |
| PushStreamHistory.SamplerSleepsBetweenSamples | crates/dnsqb-service/src/events.rs:193-209 | over every run there is at most one sample more than there are ends of a sleep |
| PushStreamHistory.CountersCountBumps | crates/dnsqb-service/src/change_bus.rs:82-89 | over every run each topic's counter is the number of its bumps, modulo 2^64 |
| PushStreamHistory.NewestCounterIsShown | crates/dnsqb-service/src/events.rs:129-181 | a stream with nothing pending on a topic has last sent the number of its bumps, or saw none since it subscribed |
| PushStreamHistory.ShutdownHasFiredIff | crates/dnsqb-service/src/events.rs:92-95 | over every run shutdown is seen exactly after it fired |
| PushStreamHistory.RequestIsTakenIff | crates/dnsqb-service/src/events.rs:88-91 | a request gets a slot exactly when fewer than four are taken |
| PushStreamHistory.ClientCanLeave | crates/dnsqb-service/src/events.rs:78-86 | a waiting stream whose client leaves frees its slot |
| PushStreamHistory.RequestOpens | crates/dnsqb-service/src/events.rs:88-121 | before shutdown the steps of a request that got a slot leave it waiting, subscribed to every topic as it stands and with the status to be sent first |
| PushStreamHistory.NoFrameForAnEarlierBump | crates/dnsqb-service/src/events.rs:98-104 | every frame of a topic carries a bump made after the stream's request came |
| Cache.VerdictCache.Insert | crates/dnsqb-service/src/cache.rs:398-403 | an entry with a zero lifetime never enters, any other replaces its key |
| Cache.NewEntryIsFreshForItsLifetime | crates/dnsqb-service/src/cache.rs:83-99 | a new entry is fresh for exactly its lifetime, capped at twice the largest configurable one, and never past the platform's last instant |
| Cache.VerdictCache.InvalidateMatching | crates/dnsqb-service/src/cache.rs:419-437 | a key goes exactly when it is an exact rule's name or reaches a wildcard rule's domain by dropping labels; every other entry stays as it is |
| Cache.VerdictCache.Snapshot | crates/dnsqb-service/src/cache.rs:458-463 | every pair of the cache is listed once, in some order |
| Cache.VerdictCache.Restore | crates/dnsqb-service/src/cache.rs:469-473 | the pairs are inserted in order over what is there |
| Cache.BatchIsOneByOne | crates/dnsqb-service/src/cache.rs:419-437 | one batch removes what its rules remove one after the other |
| Cache.AnyOrderInvalidatesTheSame | crates/dnsqb-service/src/cache.rs:419-437 | rules in any order, with any repetition, remove the same keys |
| Cache.InvalidationByLabels | crates/dnsqb-service/src/cache.rs:419-437 | an exact rule removes its own name, a wildcard every name that reaches its domain by dropping labels, and nothing else goes |
| CacheLifetime.ComesBackIff | crates/dnsqb-service/src/cache_persist_dto.rs:99-144 | an entry comes back exactly if it was an allow verdict, fresh when saved, and its saved deadline is still ahead; key and verdict are unchanged |
| CacheLifetime.SavedIff | crates/dnsqb-service/src/cache_persist_dto.rs:99-120 | an entry is saved exactly when it is a fresh allow verdict whose end the wall clock can hold, with that moment in whole milliseconds |
| CacheLifetime.RebuiltIff | crates/dnsqb-service/src/cache_persist_dto.rs:122-144 | an entry is rebuilt exactly when its end lies ahead and in range and its domain normalises, with what is left of its lifetime |
| CacheLifetime.DeadlineAfterRestart | crates/dnsqb-service/src/cache_persist_dto.rs:99-144 | the lifetime cap never bites, and the new deadline is the saved one plus the gap of the rebuild |
| CacheLifetime.DeadlineMovesLaterIff | crates/dnsqb-service/src/cache_persist_dto.rs:99-144 | the entry that comes back has a later deadline exactly when the rebuilding gap exceeds the saving gap plus the cut-off fraction |
| CacheLifetime.DeadlineCanMoveLater | crates/dnsqb-service/src/cache_persist_dto.rs:122-144 | a concrete entry whose deadline moves later by one nanosecond |
| CacheLifetime.DeadlineOverRestarts | crates/dnsqb-service/src/cache_persist_dto.rs:99-144 | over any number of restarts the deadline gains the rebuilding gaps, loses the saving gaps and under a millisecond each |
| CacheLifetime.WholeMillisecondsAreKept | crates/dnsqb-service/src/cache_persist_dto.rs:99-144 | a deadline on a whole millisecond survives any number of restarts exactly, with the clocks read together |
| CacheLifetime.DeadlineWithClocksReadTogether | crates/dnsqb-service/src/cache_persist_dto.rs:99-144 | with the clocks read together the deadline never moves later and loses under one millisecond in total |
| CacheLifetime.FreshEntryIsBounded | crates/dnsqb-service/src/cache.rs:83-99 | every new entry starts within the bound the run-level statements need |
| CacheLifetime.ReloadedPairs | crates/dnsqb-service/src/cache_persist_dto.rs:155-187 | each pair of a snapshot is in the reloaded cache exactly if it survives, with what was left of its lifetime |
| CacheLifetime.RestoredCacheIsTheSurvivors | crates/dnsqb-service/src/cache_persist_dto.rs:155-187 | save, restart, restore leaves exactly the allow entries that were fresh and whose deadline is ahead, whatever order the snapshot had |
| BaselineSelector.BaselineSelector.Record | crates/dnsqb-service/src/baseline_selector.rs:125-142 | the fields and the event after a report are those of the specification |
| BaselineSelector.ReplayIsTheTrace | crates/dnsqb-service/src/baseline_selector.rs:125-180 | folding any history gives the index and counter read off the trace: thirds of the failure runs since the last recovery, and the unspent part of the last run |
| BaselineSelector.IndexIsPaidFor | crates/dnsqb-service/src/baseline_selector.rs:125-180 | three times the index plus the current run never exceeds the ordinary failures since the last recovery, and the index is in bounds |
| BaselineSelector.SwitchNeedsThreeFailures | crates/dnsqb-service/src/baseline_selector.rs:163-180 | the index rises by one at a time and only after three ordinary failures with no ordinary success between them |
| BaselineSelector.FailedProbesDoNotCount | crates/dnsqb-service/src/baseline_selector.rs:144-161 | a failed probe of the primary moves only the deadline |
| BaselineSelector.RecoveryForgetsEverything | crates/dnsqb-service/src/baseline_selector.rs:144-161 | after one successful probe the selector is a fresh one, now and after anything that follows |
| BaselineSelector.ProbesAreSpaced | crates/dnsqb-service/src/reachability.rs:254-280 | probes of the primary made from an alternate are at least 300 s after every earlier probe and every earlier switch |
| BaselineSelector.CycleIsOneRecord | crates/dnsqb-service/src/reachability.rs:254-280 | the prober's choice of URL and the selector's reading of it agree, so a cycle is one record |
| BaselineSelector.AlternateLacksADeadlineIff | crates/dnsqb-service/src/baseline_selector.rs:144-180 | for every run: on the primary there is no deadline; an alternate has none exactly when the clock could not represent the retry interval after the last cycle that switched or failed a probe |
| BaselineSelector.AlternateHasADeadline | crates/dnsqb-service/src/baseline_selector.rs:109-113 | while the clock can represent it, the selector has a probe deadline exactly when it is on an alternate |
| BaselineSelector.ClockEndLosesTheDeadline | crates/dnsqb-service/src/baseline_selector.rs:163-180 | it happens: three failures near the end of the clock leave an alternate without a deadline |
| BaselineSelector.ChangeIsReportedIff | crates/dnsqb-service/src/baseline_selector.rs:125-180 | a change is reported exactly when the index changes, with the index it changes to |
| BaselineSelector.CurrentIsTheEntryAtTheIndex | crates/dnsqb-service/src/baseline_selector.rs:101-104 | over every run the URL in use is the chain's entry at the index |
| BaselineSelector.PrimaryIsAskedIff | crates/dnsqb-service/src/reachability.rs:254-262 | over every run the prober asks the primary exactly when it is in use, or 300 s have passed since the last cycle that asked it or switched and the clock can hold that moment |
| Admission.ConnectionGate.TryAdmit | crates/dnsqb-service/src/admission.rs:83-92 | a permit is handed out exactly when fewer than the ceiling are held; the call is one acquiring step of the interleaved machine, followed by one counting step if it fails |
| Admission.ConnectionGate.Active | crates/dnsqb-service/src/admission.rs:104-110 | the answer is the number of permits handed out and not yet dropped |
| Admission.ConnectionGate.RejectedCount | crates/dnsqb-service/src/admission.rs:94-96 | the answer is the number of failed attempts, up to the counter's wrap-around |
| Admission.ConnectionGate.DropPermit | crates/dnsqb-service/src/admission.rs:78-92 | dropping a permit is one dropping step of the interleaved machine |
| Admission.EveryRunKeepsInv | crates/dnsqb-service/src/admission.rs:70-107 | the conservation invariant holds under every interleaving of attempts, late counts and drops |
| Admission.PermitsAndRejectionsAreConserved | crates/dnsqb-service/src/admission.rs:70-107 | held plus free permits are the ceiling; rejections counted plus those still to be counted are the failed attempts |
| Admission.AttemptsWithoutDrops | crates/dnsqb-service/src/admission.rs:83-92 | while nobody drops a permit, N attempts admit exactly the smaller of N and the ceiling |
| Admission.GateFollowsItsEvents | crates/dnsqb-service/src/admission.rs:70-107 | over every run the permits that are out, the attempts, the refusals and the counter are those read off the events: who tries below the ceiling gets a permit, who tries at it is refused |
| LogThrottle.WarnThrottle.Admit | crates/dnsqb-service/src/log_throttle.rs:24-33 | the fields and the reported count after a call are those of the specification |
| LogThrottle.EveryCallIsAccountedFor | crates/dnsqb-service/src/log_throttle.rs:24-33 | for any instants, calls are lines logged plus counts reported plus the pending count, below the counter's saturation; past it, none is made up |
| LogThrottle.LinesAreSpaced | crates/dnsqb-service/src/log_throttle.rs:24-33 | logged lines are at least 60 s apart and in time order even if the clock jumps back |
| LogThrottle.LastLineIsRemembered | crates/dnsqb-service/src/log_throttle.rs:24-33 | the stored instant is the last logged line's |
| LogThrottle.CallIsLoggedIff | crates/dnsqb-service/src/log_throttle.rs:24-33 | a call is logged exactly when it is the first or comes at least 60 s after the last line, and its line reports the calls since that one |
| CredentialMigration.Installation.Load | crates/dnsqb-service/src/geoip_credentials.rs:133-158 | an absent entry is no credentials, an entry that does not parse or has a blank field is malformed |
| CredentialMigration.Installation.Save | crates/dnsqb-service/src/geoip_credentials.rs:160-184 | blank credentials are refused and nothing is stored; a failed store leaves the old entry |
| CredentialMigration.Installation.MigrateLegacyCredentialsFile | crates/dnsqb-service/src/geoip_credentials.rs:237-273 | store, file and answer after an attempt are those of the specification for every failing operation |
| CredentialMigration.Installation.EraseAndRemove | crates/dnsqb-service/src/key_store.rs:330-350 | a failed overwrite is passed over, the answer is whether the file was removed |
| CredentialMigration.AttemptIsTheMigration | crates/dnsqb-service/src/geoip_credentials.rs:237-273 | the step machine run to its end is the method |
| CredentialMigration.StepKeepsCredentials | crates/dnsqb-service/src/geoip_credentials.rs:237-273 | no step and no crash, between zeroing and removing included, loses or changes the credentials while the store holds only readable entries |
| CredentialMigration.RunKeepsCredentials | crates/dnsqb-service/src/geoip_credentials.rs:237-273 | the same over any run of attempts and crashes |
| CredentialMigration.RerunsEndAlike | crates/dnsqb-service/src/orchestrate.rs:795-818 | wherever attempts stop, a rerun that finishes ends where an undisturbed first run would have |
| CredentialMigration.SuccessIsTheEndPoint | crates/dnsqb-service/src/geoip_credentials.rs:237-273 | an attempt that reports success has left no file and the end point's store |
| CredentialMigration.LegacyReadsIff | crates/dnsqb-service/src/geoip_credentials.rs:275-297 | a leftover file is read exactly when it is UTF-8 of at most 8 KiB that parses with neither field blank; otherwise the reason says which of these failed |
| CredentialMigration.StoreLoadsIff | crates/dnsqb-service/src/geoip_credentials.rs:133-158 | the store's entry is read exactly when it parses with neither field blank |
| CredentialMigration.ErasedFileHoldsNoText | crates/dnsqb-service/src/key_store.rs:330-350 | the file is gone exactly when it could be removed, and otherwise holds nothing of its text if it could be truncated |
| CredentialMigration.AnswerIff | crates/dnsqb-service/src/geoip_credentials.rs:237-273 | each answer of an attempt with its exact condition, and what it has done to store and file |
| CredentialMigration.RestartIsTheMigration | crates/dnsqb-service/src/geoip_credentials.rs:237-273 | wherever a process dies, the next one's attempt is the migration of the store and the file it finds |
| CredentialMigration.SavedCredentialsAreLoaded | crates/dnsqb-service/src/geoip_credentials.rs:160-184 | what the operator saves is what is loaded exactly when the store takes it and no field is blank, and otherwise nothing changes |
| CredentialMigration.UnreadableFilesAreNeverErased | crates/dnsqb-service/src/geoip_credentials.rs:275-297 | malformed, blank, oversized or non-UTF-8 files found with an empty store are never touched by any run |
| CredentialMigration.MigrationLosesTheOnlyCopyIff | crates/dnsqb-service/src/geoip_credentials.rs:237-273 | an undisturbed attempt loses the only readable copy exactly when the store's entry is unreadable and the file is not |
| CredentialMigration.ClearIsUndoneIffAReadableFileRemains | crates/dnsqb-service/src/geoip_credentials.rs:199-203 | after a clear the next start restores credentials exactly when a readable file is still there |
| TableCells.PrintedRowIsCutWhereItWasJoined | review/qa-matrix-gen.py:43-59 | whatever the cells hold, a printed row is cut into as many cells as it was joined from, each in its own column |
| TableCells.PrintedIsIdentityIff | review/qa-matrix-gen.py:43-59 | a cell survives printing and reading exactly when it has no white space around it, no line feed, and no backslash directly before a pipe |
| TableCells.PrintedIsIdempotent | review/qa-matrix-gen.py:43-59 | printing and reading normalises a cell once and for all |
| TableCells.CollapseUndoesEscape | review/qa-matrix-gen.py:43-59 | unescaping undoes escaping up to backslashes that stood before a pipe already |
| TableCells.StripFindsTheCore | review/qa-matrix-gen.py:58 | stripping removes the white space around a core that has none at its ends, and nothing of the core |
| QaMatrix.ParseExisting | review/qa-matrix-gen.py:47-61 | the loop reads the body line by line into a dict with distinct keys, each row taken from a line of the body and keyed by its ID |
| QaMatrix.SplitLinesAtLineFeed | review/qa-matrix-gen.py:50-54 | a line feed always ends a line, so a text splits as its two halves do |
| QaMatrix.ReturnAndFeedEndOneLine | review/qa-matrix-gen.py:52 | a carriage return and a line feed together end one line |
| QaMatrix.PrintedRowReadsBack | review/qa-matrix-gen.py:43-60 | a printed row is read back whole and normalised exactly when no cell holds a line break other than a line feed and the ID does not look like the heading; otherwise no part of it is read |
| QaMatrix.RowRoundTripsIff | review/qa-matrix-gen.py:43-60 | a row is printed and read back unchanged exactly when every cell is plain and on one line and the ID does not look like the heading |
| QaRegeneration.BodyReads | review/qa-matrix-gen.py:100-103 | reading a printed table is reading its rows; heading and ruler add nothing |
| QaRegeneration.ReadBodyIsFromFile | review/qa-matrix-gen.py:47-60 | whatever text is read, the rows are well-keyed and their cells already normalised |
| QaRegeneration.OneRunKeepsTheRecord | review/qa-matrix-gen.py:73-103 | after one run the table holds exactly the data's IDs and the IDs it held before that do not look like the heading, with verdict and evidence untouched (the table as the text between the markers) |
| QaRegeneration.NothingRecordedIsLost | review/qa-matrix-gen.py:73-103 | through any series of data files, a verdict and its evidence are held after every run exactly when the row of that ID is printed without line breaks other than line feeds and is not taken for the heading, whatever the other rows hold |
| QaRegeneration.RecordIsKeptIff | review/qa-matrix-gen.py:73-103 | in one run a recorded row stays in the table exactly when it prints whole, and then with its verdict and evidence |
| QaRegeneration.CleanDataPrintsWhole | review/qa-matrix-gen.py:73-103 | data files whose cells hold no line break other than line feeds keep every recorded row whose ID is not taken for the heading |
| QaRegeneration.RegeneratingSettles | review/qa-matrix-gen.py:73-103 | with no row gone, regenerating is idempotent on what is read |
| QaColumns.DataRowHasItsColumns | review/qa-matrix-gen.py:86-97 | what the next run reads of an entry, new or recorded: the data file's facts, the recorded verdict and evidence or a dash and nothing, and the recorded bug if there is one, else the data file's |
| QaColumns.GoneRowHasItsColumns | review/qa-matrix-gen.py:95-99 | a recorded row that the data file no longer names keeps every column but the bug, which gets the note behind it |
| QaColumns.NewRowsAreInOrder | review/qa-matrix-gen.py:74-99 | the data file's rows come first in its order, then exactly the recorded IDs it no longer names, in the order they were read in |
| QaColumns.BugIsCarried | review/qa-matrix-gen.py:89-99 | a recorded bug is carried through any series of runs that holds the row, with one note for each run that did not name the ID |
| QaColumns.BugIsCarriedInTheFile | review/qa-matrix-gen.py:62-109 | the same for the script on the whole file, whatever the cells print |
| QaEntries.SortIsStable | review/qa-matrix-gen.py:74 | the rows are in the order of their surfaces, and rows of one surface stay in the order of the data file |
| QaEntries.StableOrderIsUnique | review/qa-matrix-gen.py:74 | no other order of the rows has both properties |
| QaEntries.CoverageIsMissingIff | review/qa-matrix-gen.py:75-87 | the coverage cell is the word for no coverage exactly when the entry names no test, or one reference that prints that word itself |
| QaEntries.EntryIsPrintedUnderItsHeadings | review/qa-matrix-gen.py:19-97 | which field of an entry is printed in which column |
| QaEntries.EarlierSurfaceStandsAbove | review/qa-matrix-gen.py:24-74 | entries stand in the order of their surfaces A, E, B, C, D, F, H, I, G |
| QaEntries.KnownIff | review/qa-matrix-gen.py:21-85 | an entry is refused unless its surface is part of the order and its category and executor have a name |
| QaEntries.ReferencesOfConcat | review/qa-matrix-gen.py:75-87 | the coverage cell lists its references one after the other with a comma and a space between |
| QaEntries.ReferenceIs | review/qa-matrix-gen.py:75-87 | a reference is printed between backticks, or behind a tilde as it stands |
| QaEntries.CoverageOfOne | review/qa-matrix-gen.py:75-87 | one reference is the whole cell, and without references the cell is the word for no coverage |
| QaEntries.ReportedIff | review/qa-matrix-gen.py:75-87 | a reference is reported exactly when some entry has it and the source tree does not |
| QaEntries.UnknownIs | review/qa-matrix-gen.py:75-87 | behind a tilde nothing is unknown; a call of the smoke script or a function is unknown when the tree has none of that name |
| QaEntries.Merge | review/qa-matrix-gen.py:63-98 | a repeated ID or an unknown code is refused before anything is written; otherwise the rows are those whose columns and order `QaColumns` states, and exactly the unknown references are reported |
| QaFile.ParseFileIsFromFile | review/qa-matrix-gen.py:47-59 | whatever file is read, markers or not, the rows are well-keyed and their cells normalised |
| QaFile.FileIsItsTable | review/qa-matrix-gen.py:47-59 | of a file whose first markers stand around the table, in order, exactly the table is read |
| QaFile.RewritingKeepsTheFile | review/qa-matrix-gen.py:100-109 | writing a table without the end marker keeps the text on both sides, and the new table is what the next run reads |
| QaFile.EndInACellCutsTheTable | review/qa-matrix-gen.py:50-107 | a cell that prints the end marker cuts the table short: the next run reads only the text before it |
| QaFile.RunFailsIff | review/qa-matrix-gen.py:62-107 | a run fails exactly on a repeated ID or on a file with an opening marker and no closing one |
| QaFile.WithoutEndTheRestIsRead | review/qa-matrix-gen.py:47-50 | with no closing marker behind the opening one everything behind it is read |
| QaFile.WithoutBeginNothingIsRead | review/qa-matrix-gen.py:47-49 | a file without an opening marker holds nothing to read |
| QaFile.FirstTableMakesAFile | review/qa-matrix-gen.py:103-108 | a file without markers gets its table at the end and is a file with a table from then on |
| QaFile.ScriptsKeepTheFile | review/qa-matrix-gen.py:62-109 | however often the script runs, the text around the table stays and what is read is what the table alone says |
| QaFile.NothingIsLostWithoutMarkers | review/qa-matrix-gen.py:62-109 | with data files whose cells print no end marker a record outlives a series of runs on the file exactly when its row prints whole in each, and nothing but the table changes |
| QaMarkers.RowsAboveAreRead | review/qa-matrix-gen.py:47-59 | of a printed table up to its first end marker exactly the rows above the row with that marker are read, wherever the marker cuts that row and on however many lines it stands |
| QaMarkers.EveryRunLeavesAFile | review/qa-matrix-gen.py:100-109 | whatever the cells print, the file a run leaves is a file again, its table reaching to the first printed end marker, with the text on both sides as it was |
| QaMarkers.RecordIsKeptIffAbove | review/qa-matrix-gen.py:47-109 | one run, whatever the cells print: a recorded row stays exactly when it prints whole above the first end marker that is printed, and then its verdict and evidence are untouched |
| QaMarkers.NothingRecordedIsLostInTheFile | review/qa-matrix-gen.py:62-109 | through any series of runs on the file, whatever the cells print, a record is held exactly when in each run its row prints whole above the first printed end marker, and the text around the table stays |
| QaMarkers.MarkerLosesALaterRecord | review/qa-matrix-gen.py:47-109 | two data files: the first puts two rows into an empty file, the second prints the end marker in a cell of the first row, and the record of the second row, which prints whole, is gone |
| QaScript.Generate | review/qa-matrix-gen.py:62-109 | the script from the entries of the data file to the text it writes: it stops without writing on a repeated ID, an unknown code or a missing end marker |
| QaScript.NothingRecordedIsLostOnEntries | review/qa-matrix-gen.py:62-109 | through any series of data files, refused ones among them, a recorded verdict and its evidence stay in the matrix exactly when with every accepted file the row prints whole above the first end marker that a cell prints, and the text around the table never changes |
| QaVerdict.Matrix.Apply | review/qa-matrix-verdict.py:20-31 | the first line of the ID is rewritten in place with all other lines unchanged, or nothing changes and the problem is reported |
| QaVerdict.RecordedIff | review/qa-matrix-verdict.py:20-31 | a verdict is recorded exactly when it is a known one, some line begins as the row, and the first such line has ten cells, or eleven if a bug is given; otherwise the reason says which failed |
| QaVerdict.RecordBatch | review/qa-matrix-verdict.py:34-47 | a batch is applied item by item and written only if every item succeeds |
| QaVerdict.RewrittenLineReads | review/qa-matrix-verdict.py:20-31 | the rewritten line reads as the old row with only verdict, evidence and a given bug replaced, exactly when those hold no line break but line feeds; otherwise the row is no longer read |
| QaVerdict.RecordingChangesOneRow | review/qa-matrix-verdict.py:20-31 | recording changes what is read in one row and three columns, unless a later line holds the same ID, when it changes nothing |
| QaVerdict.RecordingInAPrintedTable | review/qa-matrix-verdict.py:20-31 | print, record, read: in a printed table where no other row prints the ID, what is read is the printed rows with the recorded columns of that one row replaced, whatever the other rows hold |
| QaVerdict.PrintedRowAnswersToItsIdIff | review/qa-matrix-verdict.py:23-24 | the script finds a printed row by its own ID exactly when that holds no pipe and no line feed |
| QaVerdict.RecordedVerdictSurvives | review/qa-matrix-verdict.py:20-31 | a recorded verdict is read with its evidence, and stays in the table through a series of regenerations exactly when its row prints whole in each |
| QaFileRecording.RecordedInTheTable | review/qa-matrix-verdict.py:20-46 | the search goes through the whole file; with no such line before the table it edits the table as if that were the whole file |
| QaFileRecording.RecordedBeforeTheTable | review/qa-matrix-verdict.py:20-46 | with a line before the table that begins like the row, that line is edited and the table is not |
| QaFileRecording.RecordingInTheFile | review/qa-matrix-verdict.py:20-46 | recording in the file keeps the text around the table and changes what the generator reads in one row and three columns |
| QaFileRecording.RecordedVerdictSurvivesInTheFile | review/qa-matrix-verdict.py:20-46 | from recording in the file to later runs of the generator on any data the verdict and its evidence are read, unless a later line of the table repeats the ID, and stay so exactly when in each run the row prints whole above the first printed end marker; the text around the table is as it was |

## Left out

- HTTP, TLS, the bytes of server-sent events, tracing, timers and the allocation of time to steps: only
  the order they impose is kept, and any step may come at any time.
- Domain normalisation, the public-suffix list, the hash function, lossy UTF-8 decoding, TOML and JSON
  parsing, encryption: arbitrary functions or parameters; where something is needed of one of them the
  lemma names it.
- BlocklistDownload.ValidationEnforcesTheGates: the parse ratio is a real number, not a 64-bit float; that
  the verdict is the same on counts up to 2^53 is `RoundedRatioGivesTheSameVerdict`.
- BlocklistRefresh.EveryRunKeepsInv: the run starts from files that passed the gates (a file left from
  before the gates existed stays until the next accepted cycle), and nothing is promised of a file whose
  write another one overlapped: in the model such a write may leave any content, as bytes and times of
  two writers may mix in more ways than are listed. A file's modification time is that of its rename.
- AtomicWrite.EveryRunKeepsInv: a crash ends all calls and keeps the bytes written so far; what a loss of
  power does to unsynced data or to the directory is not modelled.
- BlocklistVolumes.EveryFileRunIsAProtocolRun: a text of characters stands for the bytes of a file, and the
  decoder is a function from such texts to bodies.
- BlocklistCountVolumes.EveryCountRunIsAProtocolRun: each file is followed on its own; that the two files
  of one job are written one after the other is the protocol's part. A job has no more entries than 64
  bits count, as a vector has.
- BlocklistHistory.WithoutTimeoutsEveryFilePassedTheGates: any time limit counts, also one that strikes
  before a job exists and so does no harm.
- AtomicWrite.OverlapCorruptsIffBodiesDifferTwice: two calls that have both created the file and written
  nothing yet, on a volume without a target.
- BlocklistRefresh.LoadBlocklistBundlesFromDisk: a readable file always has a modification time, and an
  installation without a data directory (which loads nothing) is not modelled; neither is the size limit
  of a download, which is one of the ways a fetch fails.
- PushStream.EventStream.NextFrame: one call takes the select's branch as a parameter; which ready
  branch the runtime picks is free. The hidden version of a watch channel does not wrap.
- BlocklistCycle.UndisturbedCycleIsSequential: the clock stands still during the cycle, and no other job works
  beside the awaited one; runs in which they do are those of `EveryRunKeepsInv`.
- QaColumns.BugIsCarried: a bug that is empty when the series begins; `DataRowHasItsColumns` says for each run
  what is filled in.
- PushStreamSafety.EveryRunKeepsInv: dropping the whole service state while streams are open is not
  modelled.
- Cache eviction by capacity and by the expiry policy: the cache is a map, so eviction may only remove
  what these models keep.
- CacheLifetime.DeadlineWithClocksReadTogether: deadlines stay within the platform's clock range, the
  wall clock never runs back and moves in step with the monotonic one inside a process.
- CredentialMigration.Installation.MigrateLegacyCredentialsFile: the size limit counts characters of the
  file's text, one byte each; the store holds one entry, and its own crash safety is not modelled.
- CredentialMigration.RunKeepsCredentials: the store holds only entries that can be read back, as it
  does when only saving and migrating write it; the other case is `MigrationLosesTheOnlyCopyIff`.
- QaEntries.Merge: loading the data file and collecting the names of functions and smoke calls from the
  source tree (the two sets are parameters); the summary that is printed at the end and the exit code.
- QaRegeneration.NothingRecordedIsLost: no other ID of a data file prints as the recorded one; where two
  do, the later row is read.
- QaRegeneration.OneRunKeepsTheRecord: data files whose IDs are plain cells and whose cells hold no line
  break other than line feeds; `RecordIsKeptIff` has no such condition but says nothing of new IDs.
- QaRegeneration.RegeneratingSettles: not for rows gone from the data file, whose marker the code
  appends again on every run.
- QaMarkers.NothingRecordedIsLostInTheFile: the file's first two markers stand around the table, in order; a
  file with the end marker before the opening one is rewritten as the code does (`Rewritten`) and nothing
  more is claimed about it. The text is what Python's text mode reads, where every line ends in a line
  feed. No other ID of a data file prints as the recorded one.
- QaFileRecording.RecordedVerdictSurvivesInTheFile: the evidence and the bug that are recorded hold no end
  marker.
- QaVerdict.RecordingInAPrintedTable: a row the script can find by its ID and read back, which
  `PrintedRowAnswersToItsIdIff` and `QaMatrix.PrintedRowReadsBack` delimit.
- Clearing the cache by hand, which empties the map.
- The text of the download addresses, decompression, checksums, GeoIP lookups, the admin data objects,
  configuration limits, certificate rotation and the user interface: input and output, or members that
  are settled by reading.

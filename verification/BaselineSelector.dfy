/** The failover selector of the baseline resolver (`baseline_selector.rs`) and the prober that
    drives it. Times are nanoseconds; `lastTime` is the last moment the system clock can hold. */
module BaselineSelector {

  import opened Wrappers

  const BASELINE_CHAIN: seq<string> := [
    "https://cloudflare-dns.com/dns-query",
    "https://dns10.quad9.net/dns-query",
    "https://dns.google/dns-query"]

  const SWITCH_THRESHOLD: nat := 3
  const RETRY_PRIMARY_AFTER: nat := 300 * 1_000_000_000
  const U32_MAX: nat := 0xffff_ffff
  const LAST_INDEX: nat := 2

  datatype Health = Responded | Failed

  datatype Change = SwitchedTo(index: nat) | RecoveredToPrimary

  datatype Selector = Selector(activeIndex: nat, consecutiveFailures: nat, retryPrimaryAfter: Option<int>)

  const FRESH := Selector(0, 0, None)

  function Min(a: nat, b: nat): nat {
    if a <= b then a else b
  }

  /** `checked_add`. */
  function Deadline(now: int, lastTime: int): Option<int> {
    if now + RETRY_PRIMARY_AFTER <= lastTime then Some(now + RETRY_PRIMARY_AFTER) else None
  }

  function Current(s: Selector): (url: string)
    ensures url in BASELINE_CHAIN
  {
    BASELINE_CHAIN[Min(s.activeIndex, |BASELINE_CHAIN| - 1)]
  }

  predicate ShouldRetryPrimary(s: Selector, now: int) {
    s.activeIndex > 0 && s.retryPrimaryAfter.Some? && now >= s.retryPrimaryAfter.value
  }

  predicate IsPrimaryProbe(s: Selector, url: string) {
    s.activeIndex > 0 && url == BASELINE_CHAIN[0]
  }

  function ProbeRecorded(s: Selector, now: int, health: Health, lastTime: int): (Selector, Option<Change>) {
    match health
    case Responded => (FRESH, Some(RecoveredToPrimary))
    case Failed => (s.(retryPrimaryAfter := Deadline(now, lastTime)), None)
  }

  function FailureRecorded(s: Selector, now: int, lastTime: int): (Selector, Option<Change>) {
    var counted := s.(consecutiveFailures := Min(s.consecutiveFailures + 1, U32_MAX));
    if counted.consecutiveFailures < SWITCH_THRESHOLD || s.activeIndex >= |BASELINE_CHAIN| - 1 then (counted, None)
    else (Selector(s.activeIndex + 1, 0, Deadline(now, lastTime)), Some(SwitchedTo(s.activeIndex + 1)))
  }

  function Recorded(s: Selector, now: int, url: string, health: Health, lastTime: int): (Selector, Option<Change>) {
    if IsPrimaryProbe(s, url) then ProbeRecorded(s, now, health, lastTime)
    else
      match health
      case Responded => (s.(consecutiveFailures := 0), None)
      case Failed => FailureRecorded(s, now, lastTime)
  }

  class BaselineSelector {
    var activeIndex: nat
    var consecutiveFailures: nat
    var retryPrimaryAfter: Option<int>

    constructor ()
      ensures Contents() == FRESH
    {
      activeIndex, consecutiveFailures, retryPrimaryAfter := 0, 0, None;
    }

    ghost function Contents(): Selector
      reads this
    {
      Selector(activeIndex, consecutiveFailures, retryPrimaryAfter)
    }

    method Record(now: int, url: string, health: Health, lastTime: int) returns (change: Option<Change>)
      modifies this
      ensures (Contents(), change) == Recorded(old(Contents()), now, url, health, lastTime)
    {
      var isPrimaryProbe := activeIndex > 0 && url == BASELINE_CHAIN[0];
      if isPrimaryProbe {
        change := RecordPrimaryProbe(now, health, lastTime);
        return;
      }
      match health {
        case Responded =>
          consecutiveFailures := 0;
          change := None;
        case Failed =>
          change := RecordActiveFailure(now, lastTime);
      }
    }

    method RecordPrimaryProbe(now: int, health: Health, lastTime: int) returns (change: Option<Change>)
      modifies this
      ensures (Contents(), change) == ProbeRecorded(old(Contents()), now, health, lastTime)
    {
      match health {
        case Responded =>
          activeIndex, consecutiveFailures, retryPrimaryAfter := 0, 0, None;
          change := Some(RecoveredToPrimary);
        case Failed =>
          retryPrimaryAfter := Deadline(now, lastTime);
          change := None;
      }
    }

    method RecordActiveFailure(now: int, lastTime: int) returns (change: Option<Change>)
      modifies this
      ensures (Contents(), change) == FailureRecorded(old(Contents()), now, lastTime)
    {
      consecutiveFailures := Min(consecutiveFailures + 1, U32_MAX);
      if consecutiveFailures < SWITCH_THRESHOLD {
        return None;
      }
      if activeIndex >= |BASELINE_CHAIN| - 1 {
        return None;
      }
      activeIndex := activeIndex + 1;
      consecutiveFailures := 0;
      retryPrimaryAfter := Deadline(now, lastTime);
      change := Some(SwitchedTo(activeIndex));
    }
  }

  // ---------- the specification on the trace ----------

  datatype Report = Report(now: int, url: string, health: Health)

  function Replay(reports: seq<Report>, lastTime: int): Selector {
    if reports == [] then FRESH
    else
      var r := reports[|reports| - 1];
      Recorded(Replay(reports[..|reports| - 1], lastTime), r.now, r.url, r.health, lastTime).0
  }

  /** How many failures a history of outcomes ends with. */
  function TrailingFailures(outcomes: seq<Health>): (n: nat)
    ensures n <= |outcomes|
  {
    if outcomes == [] || outcomes[|outcomes| - 1].Responded? then 0
    else 1 + TrailingFailures(outcomes[..|outcomes| - 1])
  }

  function BeforeTrailingFailures(outcomes: seq<Health>): seq<Health> {
    outcomes[..|outcomes| - TrailingFailures(outcomes)]
  }

  /** The sum, over the maximal runs of failures, of a third of the run's length. */
  function Thirds(outcomes: seq<Health>): nat
    decreases |outcomes|
  {
    if outcomes == [] then 0
    else if outcomes[|outcomes| - 1].Responded? then Thirds(outcomes[..|outcomes| - 1])
    else TrailingFailures(outcomes) / SWITCH_THRESHOLD + Thirds(BeforeTrailingFailures(outcomes))
  }

  /** The outcomes that count: those since the last recovery that were not probes of the primary.
      A report is a probe when the index reached so far is an alternate's. */
  function CountedOutcomes(reports: seq<Report>): seq<Health>
    decreases |reports|, 0
  {
    if reports == [] then []
    else
      var before, r := reports[..|reports| - 1], reports[|reports| - 1];
      if TraceIndex(before) > 0 && r.url == BASELINE_CHAIN[0]
      then (if r.health.Responded? then [] else CountedOutcomes(before))
      else CountedOutcomes(before) + [r.health]
  }

  function TraceIndex(reports: seq<Report>): nat
    decreases |reports|, 1
  {
    Min(LAST_INDEX, Thirds(CountedOutcomes(reports)))
  }

  /** What is left of a run of failures once each switch it could cause has taken three. */
  function Unspent(run: nat, earlierThirds: nat): nat {
    run - SWITCH_THRESHOLD * Min(run / SWITCH_THRESHOLD, LAST_INDEX - Min(LAST_INDEX, earlierThirds))
  }

  function UnspentRun(outcomes: seq<Health>): nat {
    Unspent(TrailingFailures(outcomes), Thirds(BeforeTrailingFailures(outcomes)))
  }

  function CountFailed(outcomes: seq<Health>): nat {
    if outcomes == [] then 0
    else CountFailed(outcomes[..|outcomes| - 1]) + if outcomes[|outcomes| - 1].Failed? then 1 else 0
  }

  lemma TrailingAfterOneMore(outcomes: seq<Health>, health: Health)
    ensures var more := outcomes + [health];
            if health.Responded?
            then TrailingFailures(more) == 0 && BeforeTrailingFailures(more) == more
            else TrailingFailures(more) == TrailingFailures(outcomes) + 1
                 && BeforeTrailingFailures(more) == BeforeTrailingFailures(outcomes)
  {
    assert (outcomes + [health])[..|outcomes|] == outcomes;
  }

  lemma {:induction false} ThirdsByTrailingRun(outcomes: seq<Health>)
    ensures Thirds(outcomes) == TrailingFailures(outcomes) / SWITCH_THRESHOLD + Thirds(BeforeTrailingFailures(outcomes))
    ensures BeforeTrailingFailures(outcomes) != [] ==>
              BeforeTrailingFailures(outcomes)[|BeforeTrailingFailures(outcomes)| - 1].Responded?
    decreases |outcomes|
  {
    if outcomes != [] {
      if outcomes[|outcomes| - 1].Failed? {
        var init := outcomes[..|outcomes| - 1];
        ThirdsByTrailingRun(init);
        assert init + [Failed] == outcomes;
        TrailingAfterOneMore(init, Failed);
      } else {
        assert BeforeTrailingFailures(outcomes) == outcomes;
      }
    }
  }

  lemma ThirdsAfterOneMore(outcomes: seq<Health>, health: Health)
    ensures health.Responded?
            ==> Thirds(outcomes + [health]) == Thirds(outcomes) && UnspentRun(outcomes + [health]) == 0
    ensures var run, earlier := TrailingFailures(outcomes) + 1, Thirds(BeforeTrailingFailures(outcomes));
            health.Failed? ==>
              && Thirds(outcomes + [health]) == run / SWITCH_THRESHOLD + earlier
              && UnspentRun(outcomes + [health]) == Unspent(run, earlier)
  {
    assert (outcomes + [health])[..|outcomes|] == outcomes;
    TrailingAfterOneMore(outcomes, health);
  }

  /** One more failure in a run: `record_active_failure` in the trace's terms. */
  lemma FailureRecordedOnTrace(s: Selector, run: nat, earlier: nat, now: int, lastTime: int)
    requires s.activeIndex == Min(LAST_INDEX, run / SWITCH_THRESHOLD + earlier)
    requires s.consecutiveFailures == Min(Unspent(run, earlier), U32_MAX)
    ensures var after := FailureRecorded(s, now, lastTime).0;
            && after.activeIndex == Min(LAST_INDEX, (run + 1) / SWITCH_THRESHOLD + earlier)
            && after.consecutiveFailures == Min(Unspent(run + 1, earlier), U32_MAX)
  {
    if earlier < LAST_INDEX && run / SWITCH_THRESHOLD < LAST_INDEX - earlier {
      assert Unspent(run, earlier) == run % SWITCH_THRESHOLD;
    }
  }

  /** A selector shows what a history of counted outcomes says. */
  predicate Shows(s: Selector, outcomes: seq<Health>) {
    && s.activeIndex == Min(LAST_INDEX, Thirds(outcomes))
    && s.consecutiveFailures == Min(UnspentRun(outcomes), U32_MAX)
  }

  lemma CountedOutcomeOnTrace(s: Selector, outcomes: seq<Health>, health: Health, now: int, lastTime: int)
    requires Shows(s, outcomes)
    ensures Shows(if health.Responded? then s.(consecutiveFailures := 0) else FailureRecorded(s, now, lastTime).0,
                  outcomes + [health])
  {
    ThirdsByTrailingRun(outcomes);
    ThirdsAfterOneMore(outcomes, health);
    if health.Failed? {
      FailureRecordedOnTrace(s, TrailingFailures(outcomes), Thirds(BeforeTrailingFailures(outcomes)), now, lastTime);
    }
  }

  /** Folding `record` over any history gives what the trace says: the index is the capped number
      of thirds of the failure runs, and the counter is the unspent part of the last run. */
  lemma {:induction false} ReplayIsTheTrace(reports: seq<Report>, lastTime: int)
    ensures Shows(Replay(reports, lastTime), CountedOutcomes(reports))
    ensures Replay(reports, lastTime).activeIndex == TraceIndex(reports)
    decreases |reports|
  {
    if reports != [] {
      var before, r := reports[..|reports| - 1], reports[|reports| - 1];
      ReplayIsTheTrace(before, lastTime);
      CountedOutcomeOnTrace(Replay(before, lastTime), CountedOutcomes(before), r.health, r.now, lastTime);
    }
  }

  lemma {:induction false} FailuresPayForThirds(outcomes: seq<Health>)
    ensures SWITCH_THRESHOLD * Thirds(BeforeTrailingFailures(outcomes)) + TrailingFailures(outcomes)
         <= CountFailed(outcomes)
    ensures SWITCH_THRESHOLD * Thirds(outcomes) <= CountFailed(outcomes)
    decreases |outcomes|
  {
    if outcomes != [] {
      var init, health := outcomes[..|outcomes| - 1], outcomes[|outcomes| - 1];
      FailuresPayForThirds(init);
      assert init + [health] == outcomes;
      TrailingAfterOneMore(init, health);
      ThirdsByTrailingRun(outcomes);
      ThirdsAfterOneMore(init, health);
    }
  }

  /** Every step along the chain has cost three failures: three times the index plus the current
      run never exceeds the counted failures since the last recovery. The index stays in bounds. */
  lemma IndexIsPaidFor(reports: seq<Report>, lastTime: int)
    ensures var s := Replay(reports, lastTime);
            && s.activeIndex < |BASELINE_CHAIN|
            && SWITCH_THRESHOLD * s.activeIndex + s.consecutiveFailures <= CountFailed(CountedOutcomes(reports))
  {
    var outcomes := CountedOutcomes(reports);
    ReplayIsTheTrace(reports, lastTime);
    ThirdsByTrailingRun(outcomes);
    FailuresPayForThirds(outcomes);
    var run, earlier := TrailingFailures(outcomes), Thirds(BeforeTrailingFailures(outcomes));
    if earlier < LAST_INDEX {
      assert SWITCH_THRESHOLD * Min(LAST_INDEX, run / SWITCH_THRESHOLD + earlier) + Unspent(run, earlier)
          == SWITCH_THRESHOLD * earlier + run;
    }
  }

  /** A failure that raises the index completes a third of its run. */
  lemma RaisingFailureCompletesAThird(s: Selector, run: nat, earlier: nat, now: int, lastTime: int)
    requires s.activeIndex == Min(LAST_INDEX, run / SWITCH_THRESHOLD + earlier)
    requires s.consecutiveFailures == Min(Unspent(run, earlier), U32_MAX)
    requires FailureRecorded(s, now, lastTime).0.activeIndex > s.activeIndex
    ensures FailureRecorded(s, now, lastTime).0.activeIndex == s.activeIndex + 1
    ensures FailureRecorded(s, now, lastTime).1 == Some(SwitchedTo(s.activeIndex + 1))
    ensures run + 1 >= SWITCH_THRESHOLD
  {
    FailureRecordedOnTrace(s, run, earlier, now, lastTime);
  }

  lemma ReplayOneMore(reports: seq<Report>, r: Report, lastTime: int)
    ensures Replay(reports + [r], lastTime) == Recorded(Replay(reports, lastTime), r.now, r.url, r.health, lastTime).0
  {
    assert (reports + [r])[..|reports|] == reports;
  }

  lemma CountedOneMore(reports: seq<Report>, r: Report, lastTime: int)
    requires !IsPrimaryProbe(Replay(reports, lastTime), r.url)
    ensures CountedOutcomes(reports + [r]) == CountedOutcomes(reports) + [r.health]
  {
    assert (reports + [r])[..|reports|] == reports;
    ReplayIsTheTrace(reports, lastTime);
  }

  /** The index rises only by one, and only after three counted failures with no counted success
      between them; a failed probe of the primary changes neither the index nor the run. */
  lemma SwitchNeedsThreeFailures(reports: seq<Report>, r: Report, lastTime: int)
    requires Replay(reports + [r], lastTime).activeIndex > Replay(reports, lastTime).activeIndex
    ensures Replay(reports + [r], lastTime).activeIndex == Replay(reports, lastTime).activeIndex + 1
    ensures TrailingFailures(CountedOutcomes(reports + [r])) >= SWITCH_THRESHOLD
    ensures Recorded(Replay(reports, lastTime), r.now, r.url, r.health, lastTime).1
         == Some(SwitchedTo(Replay(reports + [r], lastTime).activeIndex))
  {
    var s, outcomes := Replay(reports, lastTime), CountedOutcomes(reports);
    ReplayOneMore(reports, r, lastTime);
    assert !IsPrimaryProbe(s, r.url) && r.health.Failed?;
    CountedOneMore(reports, r, lastTime);
    ReplayIsTheTrace(reports, lastTime);
    ThirdsByTrailingRun(outcomes);
    TrailingAfterOneMore(outcomes, r.health);
    RaisingFailureCompletesAThird(s, TrailingFailures(outcomes), Thirds(BeforeTrailingFailures(outcomes)), r.now,
      lastTime);
  }

  lemma FailedProbesDoNotCount(reports: seq<Report>, r: Report, lastTime: int)
    requires IsPrimaryProbe(Replay(reports, lastTime), r.url) && r.health.Failed?
    ensures var before, after := Replay(reports, lastTime), Replay(reports + [r], lastTime);
            after == before.(retryPrimaryAfter := Deadline(r.now, lastTime))
    ensures CountedOutcomes(reports + [r]) == CountedOutcomes(reports)
  {
    assert (reports + [r])[..|reports|] == reports;
    ReplayIsTheTrace(reports, lastTime);
  }

  /** One successful probe forgets everything: the state is that of a fresh selector, now and after
      anything that follows. */
  lemma {:induction false} RecoveryForgetsEverything(reports: seq<Report>, r: Report, later: seq<Report>, lastTime: int)
    requires IsPrimaryProbe(Replay(reports, lastTime), r.url) && r.health.Responded?
    ensures Replay(reports + [r] + later, lastTime) == Replay(later, lastTime)
    decreases |later|
  {
    var all := reports + [r] + later;
    if later == [] {
      assert all == reports + [r] && (reports + [r])[..|reports|] == reports;
    } else {
      RecoveryForgetsEverything(reports, r, later[..|later| - 1], lastTime);
      assert all[..|all| - 1] == reports + [r] + later[..|later| - 1];
      assert all[|all| - 1] == later[|later| - 1];
    }
  }

  // ---------- the prober ----------

  /** One cycle of the prober: the time it reads and the outcome of its one query. */
  datatype Cycle = Cycle(now: int, health: Health)

  function UrlFor(s: Selector, now: int): string {
    if ShouldRetryPrimary(s, now) then BASELINE_CHAIN[0] else Current(s)
  }

  /** What one cycle records: a probe of the primary when one is due, else an ordinary outcome. */
  function AfterCycle(s: Selector, c: Cycle, lastTime: int): Selector {
    if ShouldRetryPrimary(s, c.now) then ProbeRecorded(s, c.now, c.health, lastTime).0
    else
      match c.health
      case Responded => s.(consecutiveFailures := 0)
      case Failed => FailureRecorded(s, c.now, lastTime).0
  }

  /** The prober's choice of URL and the selector's reading of it agree: a cycle is one `record`. */
  lemma CycleIsOneRecord(s: Selector, c: Cycle, lastTime: int)
    ensures Recorded(s, c.now, UrlFor(s, c.now), c.health, lastTime).0 == AfterCycle(s, c, lastTime)
    ensures IsPrimaryProbe(s, UrlFor(s, c.now)) <==> ShouldRetryPrimary(s, c.now)
  {
    CurrentIsPrimaryIff(s);
  }

  /** The selector after the first `n` cycles. */
  function Probed(cycles: seq<Cycle>, n: nat, lastTime: int): Selector
    requires n <= |cycles|
  {
    if n == 0 then FRESH else AfterCycle(Probed(cycles, n - 1, lastTime), cycles[n - 1], lastTime)
  }

  predicate TimeNeverGoesBack(cycles: seq<Cycle>) {
    forall i, j :: 0 <= i < j < |cycles| ==> cycles[i].now <= cycles[j].now
  }

  predicate ProbesPrimary(cycles: seq<Cycle>, i: nat, lastTime: int)
    requires i < |cycles|
  {
    ShouldRetryPrimary(Probed(cycles, i, lastTime), cycles[i].now)
  }

  predicate Switches(cycles: seq<Cycle>, i: nat, lastTime: int)
    requires i < |cycles|
  {
    Probed(cycles, i + 1, lastTime).activeIndex > Probed(cycles, i, lastTime).activeIndex
  }

  lemma CurrentIsPrimaryIff(s: Selector)
    ensures Current(s) == BASELINE_CHAIN[0] <==> s.activeIndex == 0
  {
    assert BASELINE_CHAIN[0] != BASELINE_CHAIN[1] && BASELINE_CHAIN[0] != BASELINE_CHAIN[2] by {
      assert BASELINE_CHAIN[0][8] == 'c' && BASELINE_CHAIN[1][8] == 'd' && BASELINE_CHAIN[2][8] == 'd';
    }
  }

  /** The deadline, if an alternate has one, is no earlier than the retry interval after `mark`. */
  predicate DeadlineIsAfter(s: Selector, mark: int) {
    s.activeIndex > 0 && s.retryPrimaryAfter.Some? ==> s.retryPrimaryAfter.value >= mark + RETRY_PRIMARY_AFTER
  }

  lemma RecordKeepsDeadlineAfter(s: Selector, c: Cycle, mark: int, lastTime: int)
    requires mark <= c.now
    ensures var after := AfterCycle(s, c, lastTime);
            && (DeadlineIsAfter(s, mark) ==> DeadlineIsAfter(after, mark))
            && (ShouldRetryPrimary(s, c.now) || after.activeIndex > s.activeIndex ==> DeadlineIsAfter(after, mark))
  {
  }

  lemma DeadlineStaysAfter(cycles: seq<Cycle>, n: nat, mark: int, lastTime: int)
    requires n < |cycles| && mark <= cycles[n].now && DeadlineIsAfter(Probed(cycles, n, lastTime), mark)
    ensures DeadlineIsAfter(Probed(cycles, n + 1, lastTime), mark)
  {
    RecordKeepsDeadlineAfter(Probed(cycles, n, lastTime), cycles[n], mark, lastTime);
  }

  lemma DeadlineIsAfterItsMark(cycles: seq<Cycle>, i: nat, lastTime: int)
    requires i < |cycles| && (ProbesPrimary(cycles, i, lastTime) || Switches(cycles, i, lastTime))
    ensures DeadlineIsAfter(Probed(cycles, i + 1, lastTime), cycles[i].now)
  {
    RecordKeepsDeadlineAfter(Probed(cycles, i, lastTime), cycles[i], cycles[i].now, lastTime);
  }

  /** While on an alternate, the deadline is after every earlier switch and every earlier probe. */
  lemma {:induction false} DeadlineIsAfterEveryMark(cycles: seq<Cycle>, i: nat, k: nat, lastTime: int)
    requires i + k < |cycles| && TimeNeverGoesBack(cycles)
    requires ProbesPrimary(cycles, i, lastTime) || Switches(cycles, i, lastTime)
    ensures DeadlineIsAfter(Probed(cycles, i + k + 1, lastTime), cycles[i].now)
    decreases k
  {
    if k == 0 {
      DeadlineIsAfterItsMark(cycles, i, lastTime);
    } else {
      DeadlineIsAfterEveryMark(cycles, i, k - 1, lastTime);
      DeadlineStaysAfter(cycles, i + k, cycles[i].now, lastTime);
    }
  }

  /** Probes of the primary made from an alternate are at least the retry interval after every
      earlier probe and after every earlier switch. */
  lemma ProbesAreSpaced(cycles: seq<Cycle>, i: nat, j: nat, lastTime: int)
    requires i < j < |cycles| && TimeNeverGoesBack(cycles)
    requires ProbesPrimary(cycles, j, lastTime)
    requires ProbesPrimary(cycles, i, lastTime) || Switches(cycles, i, lastTime)
    ensures cycles[j].now >= cycles[i].now + RETRY_PRIMARY_AFTER
  {
    DeadlineIsAfterEveryMark(cycles, i, j - i - 1, lastTime);
    assert i + (j - i - 1) + 1 == j;
  }

  /** The cycle sets a new probe deadline, by probing the primary or by switching. */
  predicate SetsDeadline(cycles: seq<Cycle>, i: nat, lastTime: int)
    requires i < |cycles|
  {
    ProbesPrimary(cycles, i, lastTime) || Switches(cycles, i, lastTime)
  }

  /** The last cycle that sets a deadline. */
  function LastMark(cycles: seq<Cycle>, n: nat, lastTime: int): (mark: Option<nat>)
    requires n <= |cycles|
    ensures mark.Some? ==> mark.value < n && SetsDeadline(cycles, mark.value, lastTime)
    ensures forall i :: (if mark.Some? then mark.value else -1) < i < n ==> !SetsDeadline(cycles, i, lastTime)
  {
    if n == 0 then None
    else if SetsDeadline(cycles, n - 1, lastTime) then Some(n - 1)
    else LastMark(cycles, n - 1, lastTime)
  }

  /** What a selector on the primary or on an alternate has for a deadline. */
  predicate DeadlineIs(s: Selector, mark: Option<int>, lastTime: int) {
    if s.activeIndex == 0 then s.retryPrimaryAfter.None?
    else mark.Some? && s.retryPrimaryAfter == Deadline(mark.value, lastTime)
  }

  lemma RecordSetsTheDeadline(s: Selector, c: Cycle, mark: Option<int>, lastTime: int)
    requires DeadlineIs(s, mark, lastTime)
    ensures var after := AfterCycle(s, c, lastTime);
            if ShouldRetryPrimary(s, c.now) || after.activeIndex > s.activeIndex
            then DeadlineIs(after, Some(c.now), lastTime)
            else DeadlineIs(after, mark, lastTime)
  {
  }

  function MarkTime(cycles: seq<Cycle>, n: nat, lastTime: int): Option<int>
    requires n <= |cycles|
  {
    match LastMark(cycles, n, lastTime)
    case None => None
    case Some(i) => Some(cycles[i].now)
  }

  lemma DeadlineAfterOneMore(cycles: seq<Cycle>, n: nat, lastTime: int)
    requires n < |cycles| && DeadlineIs(Probed(cycles, n, lastTime), MarkTime(cycles, n, lastTime), lastTime)
    ensures DeadlineIs(Probed(cycles, n + 1, lastTime), MarkTime(cycles, n + 1, lastTime), lastTime)
  {
    var s := Probed(cycles, n, lastTime);
    RecordSetsTheDeadline(s, cycles[n], MarkTime(cycles, n, lastTime), lastTime);
    assert Probed(cycles, n + 1, lastTime) == AfterCycle(s, cycles[n], lastTime);
    assert LastMark(cycles, n + 1, lastTime)
        == if SetsDeadline(cycles, n, lastTime) then Some(n) else LastMark(cycles, n, lastTime);
  }

  lemma {:induction false} DeadlineIsTheLastMarks(cycles: seq<Cycle>, n: nat, lastTime: int)
    requires n <= |cycles|
    ensures DeadlineIs(Probed(cycles, n, lastTime), MarkTime(cycles, n, lastTime), lastTime)
  {
    if n > 0 {
      DeadlineIsTheLastMarks(cycles, n - 1, lastTime);
      DeadlineAfterOneMore(cycles, n - 1, lastTime);
    }
  }

  /** The exact condition, for every run: a selector on an alternate is without a probe deadline
      exactly when the clock could not represent the retry interval after the last cycle that set
      one; on the primary there is never a deadline. */
  lemma AlternateLacksADeadlineIff(cycles: seq<Cycle>, lastTime: int)
    ensures var s, mark := Probed(cycles, |cycles|, lastTime), LastMark(cycles, |cycles|, lastTime);
            && (s.activeIndex == 0 ==> s.retryPrimaryAfter.None?)
            && (s.activeIndex > 0 ==>
                  && mark.Some?
                  && (s.retryPrimaryAfter.None? <==> cycles[mark.value].now + RETRY_PRIMARY_AFTER > lastTime)
                  && (s.retryPrimaryAfter.Some? ==>
                        s.retryPrimaryAfter.value == cycles[mark.value].now + RETRY_PRIMARY_AFTER))
  {
    DeadlineIsTheLastMarks(cycles, |cycles|, lastTime);
  }

  /** As long as the clock can represent the retry interval after every cycle, a selector has a
      probe deadline exactly when it is on an alternate. */
  lemma AlternateHasADeadline(cycles: seq<Cycle>, lastTime: int)
    requires forall c :: c in cycles ==> c.now + RETRY_PRIMARY_AFTER <= lastTime
    ensures var s := Probed(cycles, |cycles|, lastTime);
            (s.activeIndex > 0 <==> s.retryPrimaryAfter.Some?)
  {
    AlternateLacksADeadlineIff(cycles, lastTime);
  }

  /** Near the end of the clock's range the deadline is lost: three failures there leave an
      alternate with no time at which the primary would be probed. */
  lemma ClockEndLosesTheDeadline(lastTime: int, now: int)
    ensures var c := Cycle(now, Failed);
            var s := Probed([c, c, c], 3, lastTime);
            s.activeIndex == 1 && (s.retryPrimaryAfter.None? <==> now + RETRY_PRIMARY_AFTER > lastTime)
  {
    var cycles := [Cycle(now, Failed), Cycle(now, Failed), Cycle(now, Failed)];
    assert Probed(cycles, 1, lastTime) == Selector(0, 1, None);
    assert Probed(cycles, 2, lastTime) == Selector(0, 2, None);
    assert Probed(cycles, 3, lastTime) == Selector(1, 0, Deadline(now, lastTime));
  }

  // ---------- what is reported and what is asked ----------

  /** A change is reported exactly when the index changes, with the index it changes to. */
  lemma ChangeIsReportedIff(s: Selector, r: Report, lastTime: int)
    requires s.activeIndex < |BASELINE_CHAIN|
    ensures var (after, change) := Recorded(s, r.now, r.url, r.health, lastTime);
            && (change.None? <==> after.activeIndex == s.activeIndex)
            && (change == Some(RecoveredToPrimary) <==> after.activeIndex < s.activeIndex)
            && (change == Some(RecoveredToPrimary) ==> after.activeIndex == 0)
            && (after.activeIndex > s.activeIndex ==> change == Some(SwitchedTo(after.activeIndex)))
  {
  }

  /** Over every run the URL in use is the chain's entry at the index. */
  lemma CurrentIsTheEntryAtTheIndex(reports: seq<Report>, lastTime: int)
    ensures var s := Replay(reports, lastTime);
            s.activeIndex < |BASELINE_CHAIN| && Current(s) == BASELINE_CHAIN[s.activeIndex]
  {
    IndexIsPaidFor(reports, lastTime);
  }

  /** The cycle asks the primary although an alternate is in use, or switches to an alternate. */
  predicate AsksOrSwitches(cycles: seq<Cycle>, i: nat, lastTime: int)
    requires i < |cycles|
  {
    var before, after := Probed(cycles, i, lastTime), Probed(cycles, i + 1, lastTime);
    || (before.activeIndex > 0 && UrlFor(before, cycles[i].now) == BASELINE_CHAIN[0])
    || after.activeIndex > before.activeIndex
  }

  lemma AsksOrSwitchesIsAMark(cycles: seq<Cycle>, i: nat, lastTime: int)
    requires i < |cycles|
    ensures AsksOrSwitches(cycles, i, lastTime) <==> SetsDeadline(cycles, i, lastTime)
  {
    CurrentIsPrimaryIff(Probed(cycles, i, lastTime));
  }

  /** The last cycle before the `n`-th that asked the primary from an alternate or switched. */
  function LastAsk(cycles: seq<Cycle>, n: nat, lastTime: int): (ask: Option<nat>)
    requires n <= |cycles|
    ensures ask.Some? ==> ask.value < n
  {
    if n == 0 then None
    else if AsksOrSwitches(cycles, n - 1, lastTime) then Some(n - 1)
    else LastAsk(cycles, n - 1, lastTime)
  }

  lemma {:induction false} LastAskIsTheLastMark(cycles: seq<Cycle>, n: nat, lastTime: int)
    requires n <= |cycles|
    ensures LastAsk(cycles, n, lastTime) == LastMark(cycles, n, lastTime)
  {
    if n > 0 {
      AsksOrSwitchesIsAMark(cycles, n - 1, lastTime);
      LastAskIsTheLastMark(cycles, n - 1, lastTime);
    }
  }

  lemma AskedUrl(s: Selector, mark: Option<int>, now: int, lastTime: int)
    requires DeadlineIs(s, mark, lastTime)
    ensures UrlFor(s, now) == BASELINE_CHAIN[0]
       <==> s.activeIndex == 0
            || (mark.Some? && mark.value + RETRY_PRIMARY_AFTER <= lastTime && mark.value + RETRY_PRIMARY_AFTER <= now)
  {
    CurrentIsPrimaryIff(s);
  }

  /** When the prober asks the primary: always while it is in use, and from an alternate exactly when the
      retry interval has passed since the last cycle that asked it or switched, if the clock can
      represent that moment. */
  lemma PrimaryIsAskedIff(cycles: seq<Cycle>, n: nat, lastTime: int)
    requires n < |cycles|
    ensures var s, ask := Probed(cycles, n, lastTime), LastAsk(cycles, n, lastTime);
            && (s.activeIndex > 0 ==> ask.Some?)
            && (UrlFor(s, cycles[n].now) == BASELINE_CHAIN[0]
                <==> s.activeIndex == 0
                     || (ask.Some? && cycles[ask.value].now + RETRY_PRIMARY_AFTER <= lastTime
                         && cycles[ask.value].now + RETRY_PRIMARY_AFTER <= cycles[n].now))
  {
    LastAskIsTheLastMark(cycles, n, lastTime);
    DeadlineIsTheLastMarks(cycles, n, lastTime);
    AskedUrl(Probed(cycles, n, lastTime), MarkTime(cycles, n, lastTime), cycles[n].now, lastTime);
  }
}

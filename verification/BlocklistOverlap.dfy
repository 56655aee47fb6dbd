/** What an abandoned write can do: two bodies that both pass the gates leave one behind that does not. */
module BlocklistOverlap {

  import opened Wrappers
  import opened Strings
  import opened BlocklistDownload
  import opened BlocklistFormats
  import opened BlocklistRefresh
  import opened BlocklistVolumes
  import A = AtomicWrite

  predicate IsAscii(text: string) {
    forall i :: 0 <= i < |text| ==> text[i] < '\U{80}'
  }

  /** A decoder of UTF-8 reads ASCII as it stands. */
  ghost predicate ReadsAscii(read: Decoder) {
    forall x :: IsAscii(x) ==> read(x) == Bytes(x, true)
  }

  const LITE := Source("1hosts-lite", "1hosts-lite", PlainDomain)
  const ONLY_LITE := Config(true, Some(["1hosts-lite"]))

  lemma {:induction false} OthersAreNotSelected(sources: seq<Source>, id: string, n: nat)
    requires n <= |sources| && forall i :: 0 <= i < n ==> |sources[i].id| != |id|
    ensures SelectedUpTo(sources, Some([id]), n) == []
    decreases n
  {
    if n > 0 {
      OthersAreNotSelected(sources, id, n - 1);
    }
  }

  lemma LastIsSelected(sources: seq<Source>, source: Source)
    requires sources != [] && sources[|sources| - 1] == source
    requires forall i :: 0 <= i < |sources| - 1 ==> |sources[i].id| != |source.id|
    ensures SelectedSources(sources, Some([source.id])) == [source]
  {
    OthersAreNotSelected(sources, source.id, |sources| - 1);
  }

  lemma LiteIsSelected()
    ensures SelectedSources(BLOCKLIST_SOURCES, ONLY_LITE.sources) == [LITE]
  {
    LastIsSelected(BLOCKLIST_SOURCES, LITE);
  }

  lemma BeginsWithSelection(s: State, config: Config, selected: seq<Source>)
    requires s.cycle.Idle? && config.enabled && config.sources != Some([])
    requires SelectedSources(BLOCKLIST_SOURCES, config.sources) == selected
    ensures BeginsCycle(s, config, true, 0)
         == s.(cycle := Running(0, selected, s.bundle.statuses, Fetching, [], [], []))
  {
  }

  lemma LiteCycleBegins(lib: Library, s: State)
    requires s.cycle.Idle?
    ensures Step(lib, s, BeginCycle(ONLY_LITE, true, 0))
         == s.(cycle := Running(0, [LITE], s.bundle.statuses, Fetching, [], [], []))
  {
    LiteIsSelected();
    assert ONLY_LITE.sources.value != [];
    BeginsWithSelection(s, ONLY_LITE, [LITE]);
  }

  /** Between cycles, with nothing on disk yet. */
  predicate IsBetweenCycles(s: State) {
    s.cycle.Idle? && s.nextJob == |s.jobs| && |s.jobs| !in s.jobs && s.disk == map[] && s.now == 0
  }

  /** The updater waits for a job of its one source. */
  predicate IsWaitingFor(s: State, j: nat, source: Source) {
    && s.cycle.Running? && s.cycle.selected == [source] && s.cycle.parts == [] && s.cycle.phase == Awaiting(j)
    && s.disk == map[] && s.now == 0
  }

  predicate IsAcceptable(lib: Library, source: Source, body: Body) {
    GateVerdict(lib, Job(source, body, 0, Fetched, None), None, 0).Success?
  }

  lemma Fetches(lib: Library, s: State, source: Source, body: Body)
    requires IsBetweenCycles(s)
    ensures var begun := s.(cycle := Running(0, [source], s.bundle.statuses, Fetching, [], [], []));
            var s' := Step(lib, begun, FetchSucceeds(body));
            && IsWaitingFor(s', |s.jobs|, source) && s'.nextJob == |s.jobs| + 1
            && s'.jobs == s.jobs[|s.jobs| := Job(source, body, 0, Fetched, None)]
  {
  }

  lemma PassesTheGate(lib: Library, s: State, j: nat, source: Source, body: Body)
    requires IsWaitingFor(s, j, source) && j in s.jobs && s.jobs[j] == Job(source, body, 0, Fetched, None)
    requires IsAcceptable(lib, source, body)
    ensures var s' := Step(lib, s, JobGates(j));
            && IsWaitingFor(s', j, source) && s'.nextJob == s.nextJob
            && s'.jobs == s.jobs[j := Job(source, body, 0, Accepted, None)]
  {
    assert JobHashes(lib, s.jobs[j]) == JobHashes(lib, Job(source, body, 0, Fetched, None));
    assert Step(lib, s, JobGates(j)) == Gated(lib, s, j);
  }

  lemma TimesOut(lib: Library, s: State, j: nat, source: Source)
    requires IsWaitingFor(s, j, source)
    ensures var s' := Step(lib, Step(lib, Step(lib, s, AttemptTimesOut), ReadsFallback(true)), Publishes(true));
            s'.cycle.Idle? && s'.jobs == s.jobs && s'.nextJob == s.nextJob && s'.disk == map[] && s'.now == 0
  {
    var failed := Step(lib, s, AttemptTimesOut);
    assert failed == FailsOver(s, Timeout);
    var fallen := Step(lib, failed, ReadsFallback(true));
    assert fallen == FallsBack(lib, failed, true);
    assert Step(lib, fallen, Publishes(true)) == PublishesCycle(fallen);
  }

  // ---------- as moves ----------

  lemma {:induction false} AfterBoth(lib: Library, s: State, v: A.Volume, a: seq<Move>, b: seq<Move>,
                                     id: string, read: Decoder)
    requires A.WellFormed(v)
    ensures After(lib, s, v, a + b, id, read)
         == (var (s', v') := After(lib, s, v, a, id, read); After(lib, s', v', b, id, read))
    decreases |b|
  {
    if b == [] {
      NothingAfter(a);
    } else {
      var init, end := b[..|b| - 1], b[|b| - 1];
      AfterBoth(lib, s, v, a, init, id, read);
      Unsnoc(b);
      Assoc(a, init, [end]);
      Snoc(a + init, end);
    }
  }

  lemma FirstMove(lib: Library, s: State, v: A.Volume, m: Move, rest: seq<Move>, id: string, read: Decoder)
    requires A.WellFormed(v)
    ensures After(lib, s, v, [m] + rest, id, read)
         == (var (s', v') := Moved(lib, s, v, m, id, read); After(lib, s', v', rest, id, read))
  {
    assert [m][..0] == [];
    AfterBoth(lib, s, v, [m], rest, id, read);
  }

  /** A step that makes no call. */
  lemma QuietMove(lib: Library, s: State, v: A.Volume, e: Event, id: string, read: Decoder)
    requires A.WellFormed(v) && !e.Crashes? && (e.JobGates? || !IsJobEvent(e))
    ensures Moved(lib, s, v, Other(e), id, read) == (Step(lib, s, e), v)
  {
  }

  lemma ThreeMoves(lib: Library, s: State, v: A.Volume, x: Move, y: Move, z: Move, id: string, read: Decoder)
    requires A.WellFormed(v)
    ensures After(lib, s, v, [x, y, z], id, read)
         == (var (s1, v1) := Moved(lib, s, v, x, id, read);
             var (s2, v2) := Moved(lib, s1, v1, y, id, read);
             Moved(lib, s2, v2, z, id, read))
  {
    var (s1, v1) := Moved(lib, s, v, x, id, read);
    var (s2, v2) := Moved(lib, s1, v1, y, id, read);
    assert [x, y, z] == [x] + ([y] + ([z] + []));
    FirstMove(lib, s, v, x, [y] + ([z] + []), id, read);
    FirstMove(lib, s1, v1, y, [z] + [], id, read);
    FirstMove(lib, s2, v2, z, [], id, read);
  }

  predicate IsQuiet(e: Event) {
    !e.Crashes? && (e.JobGates? || !IsJobEvent(e))
  }

  lemma ThreeQuietMoves(lib: Library, s: State, v: A.Volume, x: Event, y: Event, z: Event, id: string, read: Decoder)
    requires A.WellFormed(v) && IsQuiet(x) && IsQuiet(y) && IsQuiet(z)
    ensures After(lib, s, v, [Other(x), Other(y), Other(z)], id, read)
         == (Step(lib, Step(lib, Step(lib, s, x), y), z), v)
  {
    ThreeMoves(lib, s, v, Other(x), Other(y), Other(z), id, read);
    QuietMove(lib, s, v, x, id, read);
    QuietMove(lib, Step(lib, s, x), v, y, id, read);
    QuietMove(lib, Step(lib, Step(lib, s, x), y), v, z, id, read);
  }

  /** Fetching a body and letting its job pass the gates. */
  function AcceptMoves(config: Config, j: nat, body: Body): seq<Move> {
    [Other(BeginCycle(config, true, 0)), Other(FetchSucceeds(body)), Other(JobGates(j))]
  }

  /** Giving the attempt up and publishing the cycle without it. */
  function TimeoutMoves(): seq<Move> {
    [Other(AttemptTimesOut), Other(ReadsFallback(true)), Other(Publishes(true))]
  }

  lemma AcceptedState(lib: Library, s: State, begun: State, source: Source, body: Body)
    requires IsBetweenCycles(s) && IsAcceptable(lib, source, body)
    requires begun == s.(cycle := Running(0, [source], s.bundle.statuses, Fetching, [], [], []))
    ensures var s' := Step(lib, Step(lib, begun, FetchSucceeds(body)), JobGates(|s.jobs|));
            && IsWaitingFor(s', |s.jobs|, source) && s'.nextJob == |s.jobs| + 1
            && s'.jobs == s.jobs[|s.jobs| := Job(source, body, 0, Accepted, None)]
  {
    Fetches(lib, s, source, body);
    PassesTheGate(lib, Step(lib, begun, FetchSucceeds(body)), |s.jobs|, source, body);
  }

  lemma Accepting(lib: Library, s: State, v: A.Volume, config: Config, source: Source, body: Body, read: Decoder)
    requires A.WellFormed(v) && IsBetweenCycles(s) && IsAcceptable(lib, source, body)
    requires Step(lib, s, BeginCycle(config, true, 0))
          == s.(cycle := Running(0, [source], s.bundle.statuses, Fetching, [], [], []))
    ensures var (s', v') := After(lib, s, v, AcceptMoves(config, |s.jobs|, body), source.id, read);
            && v' == v && IsWaitingFor(s', |s.jobs|, source) && s'.nextJob == |s.jobs| + 1
            && s'.jobs == s.jobs[|s.jobs| := Job(source, body, 0, Accepted, None)]
  {
    var begin := BeginCycle(config, true, 0);
    ThreeQuietMoves(lib, s, v, begin, FetchSucceeds(body), JobGates(|s.jobs|), source.id, read);
    AcceptedState(lib, s, Step(lib, s, begin), source, body);
  }

  lemma GivingUp(lib: Library, s: State, v: A.Volume, j: nat, source: Source, read: Decoder)
    requires A.WellFormed(v) && IsWaitingFor(s, j, source)
    ensures var (s', v') := After(lib, s, v, TimeoutMoves(), source.id, read);
            && v' == v && s'.cycle.Idle? && s'.jobs == s.jobs && s'.nextJob == s.nextJob && s'.disk == map[]
            && s'.now == 0
  {
    ThreeQuietMoves(lib, s, v, AttemptTimesOut, ReadsFallback(true), Publishes(true), source.id, read);
    TimesOut(lib, s, j, source);
  }

  // ---------- the overlap ----------

  /** A cycle under this configuration fetches one source. */
  ghost predicate SelectsOnly(lib: Library, config: Config, source: Source) {
    forall s: State :: s.cycle.Idle? ==>
      Step(lib, s, BeginCycle(config, true, 0))
      == s.(cycle := Running(0, [source], s.bundle.statuses, Fetching, [], [], []))
  }

  lemma LiteIsSelectedAlone(lib: Library)
    ensures SelectsOnly(lib, ONLY_LITE, LITE)
  {
    forall s: State | s.cycle.Idle?
      ensures Step(lib, s, BeginCycle(ONLY_LITE, true, 0))
           == s.(cycle := Running(0, [LITE], s.bundle.statuses, Fetching, [], [], []))
    {
      LiteCycleBegins(lib, s);
    }
  }

  lemma CreateMove(lib: Library, s: State, v: A.Volume, j: nat, body: string, id: string, read: Decoder)
    requires A.WellFormed(v) && j in s.jobs && s.jobs[j].phase.Accepted? && s.jobs[j].source.id == id
    requires read(body) == s.jobs[j].body
    ensures Moved(lib, s, v, Call(A.Creates(j, body)), id, read) == (OpensBody(s, j), A.Step(v, A.Creates(j, body)))
  {
    VolumeRunOfOne(v, A.Creates(j, body));
  }

  /** The first attempt: accepted, writing, and then given up. */
  function FirstAttempt(config: Config, a: string, read: Decoder): seq<Move> {
    AcceptMoves(config, 0, read(a)) + ([Call(A.Creates(0, a))] + TimeoutMoves())
  }

  lemma LoneOpening(s: State, job: Job)
    requires s.jobs == map[0 := job] && job.phase.Accepted?
    ensures OpensBody(s, 0) == s.(jobs := map[0 := job.(phase := WritingBody(true))])
  {
    assert OpensBody(s, 0).jobs == map[0 := job.(phase := WritingBody(true))];
  }

  lemma SecondOpening(s: State, first: Job, second: Job)
    requires s.jobs == map[0 := first, 1 := second] && second.phase.Accepted? && first.phase.WritingBody?
    requires first.source.id == second.source.id
    ensures OpensBody(s, 1)
         == s.(jobs := map[0 := first.(phase := WritingBody(false)), 1 := second.(phase := WritingBody(false))])
  {
    assert s.jobs[0] == first && s.jobs[1] == second;
    assert WritesBodyOf(s.jobs[0], second.source.id);
    assert OpensBody(s, 1).jobs
        == map[0 := first.(phase := WritingBody(false)), 1 := second.(phase := WritingBody(false))];
  }

  lemma CreatesAndGivesUp(lib: Library, s: State, source: Source, a: string, read: Decoder)
    requires IsWaitingFor(s, 0, source) && s.nextJob == 1
    requires s.jobs == map[0 := Job(source, read(a), 0, Accepted, None)]
    ensures var (s', v') := After(lib, s, A.FRESH, [Call(A.Creates(0, a))] + TimeoutMoves(), source.id, read);
            && v' == A.Step(A.FRESH, A.Creates(0, a))
            && IsBetweenCycles(s') && s'.jobs == map[0 := Job(source, read(a), 0, WritingBody(true), None)]
  {
    FirstMove(lib, s, A.FRESH, Call(A.Creates(0, a)), TimeoutMoves(), source.id, read);
    CreateMove(lib, s, A.FRESH, 0, a, source.id, read);
    LoneOpening(s, s.jobs[0]);
    GivingUp(lib, OpensBody(s, 0), A.Step(A.FRESH, A.Creates(0, a)), 0, source, read);
  }

  lemma FirstAttemptGoesOn(lib: Library, config: Config, source: Source, a: string, read: Decoder)
    requires SelectsOnly(lib, config, source) && IsAcceptable(lib, source, read(a))
    ensures var (s, v) := After(lib, Boot(map[], 0), A.FRESH, FirstAttempt(config, a, read), source.id, read);
            && v == A.Step(A.FRESH, A.Creates(0, a))
            && IsBetweenCycles(s) && s.jobs == map[0 := Job(source, read(a), 0, WritingBody(true), None)]
  {
    var s0, accept := Boot(map[], 0), AcceptMoves(config, 0, read(a));
    AfterBoth(lib, s0, A.FRESH, accept, [Call(A.Creates(0, a))] + TimeoutMoves(), source.id, read);
    Accepting(lib, s0, A.FRESH, config, source, read(a), read);
    CreatesAndGivesUp(lib, After(lib, s0, A.FRESH, accept, source.id, read).0, source, a, read);
  }

  lemma SecondCreates(lib: Library, s: State, v: A.Volume, source: Source, first: Body, b: string, read: Decoder)
    requires A.WellFormed(v) && s.disk == map[] && s.now == 0
    requires s.jobs == map[0 := Job(source, first, 0, WritingBody(true), None),
                           1 := Job(source, read(b), 0, Accepted, None)]
    ensures var (s', v') := Moved(lib, s, v, Call(A.Creates(1, b)), source.id, read);
            v' == A.Step(v, A.Creates(1, b)) && AreBothWriting(s', source, first, read(b))
  {
    CreateMove(lib, s, v, 1, b, source.id, read);
    SecondOpening(s, s.jobs[0], s.jobs[1]);
  }

  predicate AreBothWriting(s: State, source: Source, first: Body, second: Body) {
    && s.jobs == map[0 := Job(source, first, 0, WritingBody(false), None),
                     1 := Job(source, second, 0, WritingBody(false), None)]
    && s.disk == map[] && s.now == 0
  }

  lemma SecondAttemptBegins(lib: Library, s: State, v: A.Volume, config: Config, source: Source,
                            first: Body, b: string, read: Decoder)
    requires SelectsOnly(lib, config, source) && IsAcceptable(lib, source, read(b)) && A.WellFormed(v)
    requires IsBetweenCycles(s) && s.jobs == map[0 := Job(source, first, 0, WritingBody(true), None)]
    ensures var (s', v') := After(lib, s, v, AcceptMoves(config, 1, read(b)), source.id, read);
            var (s'', v'') := Moved(lib, s', v', Call(A.Creates(1, b)), source.id, read);
            v'' == A.Step(v, A.Creates(1, b)) && AreBothWriting(s'', source, first, read(b))
  {
    Accepting(lib, s, v, config, source, read(b), read);
    SecondCreates(lib, After(lib, s, v, AcceptMoves(config, 1, read(b)), source.id, read).0, v, source, first, b, read);
  }

  lemma OverwrittenStart(a: string, b: string)
    requires 0 < |a| <= |b|
    ensures A.WriteAt([], 0, b) == b && A.WriteAt(b, 0, a) == a + b[|a|..]
  {
  }

  lemma OverlapMixes(a: string, b: string)
    requires 0 < |a| <= |b|
    ensures var v := A.TwoCalls(a, b);
            var v1 := A.Step(v, A.Writes(1, |b|));
            var v2 := A.Step(v1, A.Writes(0, |a|));
            && v1.target.None? && 0 in v1.writers
            && A.IsComplete(v2, 1) && v2.temp == Some(0) && v2.contents[0] == a + b[|a|..]
            && A.TargetContent(A.Step(v2, A.Renames(1))) == Some(a + b[|a|..])
  {
    var v := A.TwoCalls(a, b);
    var v1 := A.Step(v, A.Writes(1, |b|));
    OverwrittenStart(a, b);
    assert b[0..|b|] == b && a[0..|a|] == a;
    assert v1.contents[0] == b && v1.writers[1] == A.Writer(b, 0, |b|, false);
    var v2 := A.Step(v1, A.Writes(0, |a|));
    assert v2.contents[0] == a + b[|a|..];
  }

  /** A write that the target does not feel. */
  lemma SilentWriteMove(lib: Library, s: State, v: A.Volume, j: nat, count: nat, id: string, read: Decoder)
    requires A.WellFormed(v) && j in v.writers && v.target.None?
    ensures Moved(lib, s, v, Call(A.Writes(j, count)), id, read) == (s, A.Step(v, A.Writes(j, count)))
  {
    VolumeRunOfOne(v, A.Writes(j, count));
  }

  lemma MixedRenameMove(lib: Library, s: State, v: A.Volume, source: Source, first: Body, second: Body, read: Decoder)
    requires A.WellFormed(v) && A.IsComplete(v, 1) && v.temp.Some? && AreBothWriting(s, source, first, second)
    ensures var (s', v') := Moved(lib, s, v, Call(A.Renames(1)), source.id, read);
            && v' == A.Step(v, A.Renames(1))
            && DiskOf(s'.disk, source.id).body == Some(BodyFile(read(v.contents[v.temp.value]), 0, false))
  {
    VolumeRunOfOne(v, A.Renames(1));
    var e := JobPublishesBody(1, true, Some(read(v.contents[v.temp.value])));
    assert Step(lib, s, e) == PublishesBody(s, 1, true, e.mixed);
  }

  /** Both bodies whole, the earlier writer's bytes last, and the later writer's rename. */
  function OverlapCalls(a: string, b: string): seq<Move> {
    [Call(A.Writes(1, |b|)), Call(A.Writes(0, |a|)), Call(A.Renames(1))]
  }

  lemma OverlapMoves(lib: Library, s: State, source: Source, a: string, b: string, read: Decoder)
    requires AreBothWriting(s, source, read(a), read(b)) && 0 < |a| <= |b|
    ensures var (s', v') := After(lib, s, A.TwoCalls(a, b), OverlapCalls(a, b), source.id, read);
            && A.TargetContent(v') == Some(a + b[|a|..])
            && DiskOf(s'.disk, source.id).body == Some(BodyFile(read(a + b[|a|..]), 0, false))
  {
    var v := A.TwoCalls(a, b);
    var v1 := A.Step(v, A.Writes(1, |b|));
    OverlapMixes(a, b);
    ThreeMoves(lib, s, v, Call(A.Writes(1, |b|)), Call(A.Writes(0, |a|)), Call(A.Renames(1)), source.id, read);
    SilentWriteMove(lib, s, v, 1, |b|, source.id, read);
    SilentWriteMove(lib, s, v1, 0, |a|, source.id, read);
    MixedRenameMove(lib, s, A.Step(v1, A.Writes(0, |a|)), source, read(a), read(b), read);
  }

  /** The first attempt is given up while its job writes; the next cycle's job creates the file again
      and writes its whole body, the abandoned job writes its own over it, and the later job renames. */
  function OverlapRun(config: Config, a: string, b: string, read: Decoder): seq<Move> {
    FirstAttempt(config, a, read)
    + (AcceptMoves(config, 1, read(b)) + ([Call(A.Creates(1, b))] + OverlapCalls(a, b)))
  }

  /** Whatever the bytes of two acceptable bodies, this run leaves the longer ones with the shorter ones
      over their beginning. */
  lemma AbandonedWriteMixesBodies(lib: Library, config: Config, source: Source, a: string, b: string, read: Decoder)
    requires SelectsOnly(lib, config, source)
    requires IsAcceptable(lib, source, read(a)) && IsAcceptable(lib, source, read(b)) && 0 < |a| <= |b|
    ensures var (s, v) := After(lib, Boot(map[], 0), A.FRESH, OverlapRun(config, a, b, read), source.id, read);
            var mixed := a + b[|a|..];
            && A.TargetContent(v) == Some(mixed)
            && DiskOf(s.disk, source.id).body == Some(BodyFile(read(mixed), 0, false))
  {
    var s0, create, ends := Boot(map[], 0), Call(A.Creates(1, b)), OverlapCalls(a, b);
    var accept := AcceptMoves(config, 1, read(b));
    AfterBoth(lib, s0, A.FRESH, FirstAttempt(config, a, read), accept + ([create] + ends), source.id, read);
    FirstAttemptGoesOn(lib, config, source, a, read);
    var (s1, v1) := After(lib, s0, A.FRESH, FirstAttempt(config, a, read), source.id, read);
    AfterBoth(lib, s1, v1, accept, [create] + ends, source.id, read);
    SecondAttemptBegins(lib, s1, v1, config, source, read(a), b, read);
    var (s2, v2) := After(lib, s1, v1, accept, source.id, read);
    FirstMove(lib, s2, v2, create, ends, source.id, read);
    OverlapMoves(lib, Moved(lib, s2, v2, create, source.id, read).0, source, a, b, read);
  }

  // ---------- two lists ----------

  const CANARY := "google.com"
  const OTHER := "aaaaaaa.bb"

  const THREE_HASHES :=
    Library(s => Some(s), _ => false, (_, s) => if s == OTHER then 1 else if s == CANARY then 2 else 0)

  const ONE_CANARY := Bytes("google.com\n", true)
  const OTHER_AND_CANARY := Bytes("aaaaaaa.bb\ngoogle.com\n", true)
  const CANARY_TWICE := Bytes("google.com\ngoogle.com\n", true)

  lemma {:induction false} EveryNameIsAnEntry(names: seq<string>)
    ensures Entries(THREE_HASHES, names) == names
  {
    if names != [] {
      EveryNameIsAnEntry(names[1..]);
      assert names == [names[0]] + names[1..];
    }
  }

  lemma ListedNames(names: seq<string>, text: string)
    requires forall n :: n in names ==> n == OTHER || n == CANARY
    requires text == RenderPlain(names)
    ensures BodyCandidates(PlainDomain, text) == names && BodyEntries(THREE_HASHES, PlainDomain, text) == names
  {
    assert IsPortableName(OTHER) && IsPortableName(CANARY);
    RenderedNamesAreTheCandidates(names);
    EveryNameIsAnEntry(names);
  }

  lemma CanaryIsOne()
    ensures CANARY in CanaryNames(THREE_HASHES) && OTHER !in CanaryNames(THREE_HASHES)
  {
    assert BLOCKLIST_CANARY_DOMAINS[0] == CANARY;
    assert CANARY in BLOCKLIST_CANARY_DOMAINS && THREE_HASHES.normalize(CANARY) == Some(CANARY);
    forall d | d in BLOCKLIST_CANARY_DOMAINS ensures d != OTHER {
      var i :| 0 <= i < |BLOCKLIST_CANARY_DOMAINS| && BLOCKLIST_CANARY_DOMAINS[i] == d;
      assert OTHER[0] == 'a' && OTHER[1] == 'a';
    }
  }

  lemma Counts(among: set<string>)
    requires CANARY in among && OTHER !in among
    ensures CountIn([CANARY], among) == 1
    ensures CountIn([OTHER, CANARY], among) == 1
    ensures CountIn([CANARY, CANARY], among) == 2
  {
    assert [CANARY][1..] == [] && [OTHER, CANARY][1..] == [CANARY] && [CANARY, CANARY][1..] == [CANARY];
  }

  lemma RenderedOne(a: string)
    ensures RenderPlain([a]) == a + "\n"
  {
    assert [a][1..] == [];
    NothingAfter(AsLine(a));
  }

  lemma RenderedTwo(a: string, b: string)
    ensures RenderPlain([a, b]) == a + "\n" + (b + "\n")
  {
    assert [a, b][1..] == [b];
    RenderedOne(b);
  }

  lemma PassesGatesIff(names: seq<string>, body: Body)
    requires forall n :: n in names ==> n == OTHER || n == CANARY
    requires body.lossyText == RenderPlain(names)
    ensures PassesGates(THREE_HASHES, PlainDomain, body.lossyText)
       <==> CountIn(names, CanaryNames(THREE_HASHES)) < MIN_CANARY_HITS_TO_REJECT
    ensures IsAcceptable(THREE_HASHES, LITE, body) <==> PassesGates(THREE_HASHES, PlainDomain, body.lossyText)
  {
    ListedNames(names, body.lossyText);
    CanaryIsOne();
    assert NoCanaryCollision(THREE_HASHES, 0, names);
    ValidationEnforcesTheGates(THREE_HASHES, PlainDomain, body.lossyText, 0);
  }

  lemma OneCanaryIsAccepted()
    ensures PassesGates(THREE_HASHES, PlainDomain, ONE_CANARY.lossyText) && IsAcceptable(THREE_HASHES, LITE, ONE_CANARY)
  {
    RenderedOne(CANARY);
    CanaryIsOne();
    Counts(CanaryNames(THREE_HASHES));
    PassesGatesIff([CANARY], ONE_CANARY);
  }

  lemma OtherAndCanaryAreAccepted()
    ensures PassesGates(THREE_HASHES, PlainDomain, OTHER_AND_CANARY.lossyText)
    ensures IsAcceptable(THREE_HASHES, LITE, OTHER_AND_CANARY)
  {
    RenderedTwo(OTHER, CANARY);
    CanaryIsOne();
    Counts(CanaryNames(THREE_HASHES));
    PassesGatesIff([OTHER, CANARY], OTHER_AND_CANARY);
  }

  lemma CanaryTwiceIsRejected()
    ensures !PassesGates(THREE_HASHES, PlainDomain, CANARY_TWICE.lossyText)
  {
    RenderedTwo(CANARY, CANARY);
    CanaryIsOne();
    Counts(CanaryNames(THREE_HASHES));
    PassesGatesIff([CANARY, CANARY], CANARY_TWICE);
  }

  lemma TextsAreAscii()
    ensures IsAscii(ONE_CANARY.lossyText) && IsAscii(OTHER_AND_CANARY.lossyText) && IsAscii(CANARY_TWICE.lossyText)
  {
  }

  lemma MixedTexts()
    ensures var a, b := ONE_CANARY.lossyText, OTHER_AND_CANARY.lossyText;
            0 < |a| <= |b| && a + b[|a|..] == CANARY_TWICE.lossyText
  {
    assert ONE_CANARY.lossyText + OTHER_AND_CANARY.lossyText[11..] == CANARY_TWICE.lossyText;
  }

  /** Two lists with one canary each pass the gates; when the first one's attempt runs into its time
      limit, the next cycle's write may leave a list that names the canary twice, which they reject. */
  lemma TimeoutLeavesABodyThatFailsTheGates(read: Decoder)
    requires ReadsAscii(read)
    ensures PassesGates(THREE_HASHES, PlainDomain, ONE_CANARY.lossyText)
    ensures PassesGates(THREE_HASHES, PlainDomain, OTHER_AND_CANARY.lossyText)
    ensures !PassesGates(THREE_HASHES, PlainDomain, CANARY_TWICE.lossyText)
    ensures LeavesBehind(THREE_HASHES, OverlapRun(ONLY_LITE, ONE_CANARY.lossyText, OTHER_AND_CANARY.lossyText, read),
                         LITE.id, CANARY_TWICE, read)
  {
    OneCanaryIsAccepted();
    OtherAndCanaryAreAccepted();
    CanaryTwiceIsRejected();
    LiteIsSelectedAlone(THREE_HASHES);
    MixedTexts();
    TextsAreAscii();
    MixtureIsLeft(THREE_HASHES, ONLY_LITE, LITE, ONE_CANARY, OTHER_AND_CANARY, CANARY_TWICE, read);
  }

  /** The moves, from an empty disk, end with this text in the target and in the protocol's body file. */
  predicate LeavesBehind(lib: Library, moves: seq<Move>, id: string, body: Body, read: Decoder) {
    var (s, v) := After(lib, Boot(map[], 0), A.FRESH, moves, id, read);
    A.TargetContent(v) == Some(body.lossyText) && DiskOf(s.disk, id).body == Some(BodyFile(body, 0, false))
  }

  lemma MixtureIsLeft(lib: Library, config: Config, source: Source, first: Body, second: Body, mixed: Body,
                      read: Decoder)
    requires SelectsOnly(lib, config, source) && IsAcceptable(lib, source, first) && IsAcceptable(lib, source, second)
    requires read(first.lossyText) == first && read(second.lossyText) == second && read(mixed.lossyText) == mixed
    requires var a, b := first.lossyText, second.lossyText;
             0 < |a| <= |b| && a + b[|a|..] == mixed.lossyText
    ensures LeavesBehind(lib, OverlapRun(config, first.lossyText, second.lossyText, read), source.id, mixed, read)
  {
    AbandonedWriteMixesBodies(lib, config, source, first.lossyText, second.lossyText, read);
  }
}

/** The file replacement every persisted file goes through (`write_atomic`): create a temporary
    file next to the target, write all bytes, sync, rename. The temporary name is fixed, so all
    writers of one target share it, each with its own handle and offset. Steps of any number of
    writers interleave freely; this module says exactly when that is safe. */
module AtomicWrite {

  import opened Wrappers

  /** One call under way. `alone` is history: no other call has been under way at any time since
      this one created the temporary file. */
  datatype Writer = Writer(body: string, inode: nat, offset: nat, alone: bool)

  /** The two directory entries and the files behind them. `published` is history: the body of the
      last rename, if its writer was alone. */
  datatype Volume = Volume(temp: Option<nat>, target: Option<nat>, contents: map<nat, string>, nextInode: nat,
                           writers: map<nat, Writer>, published: Option<string>)

  datatype Event =
    | Creates(w: nat, body: string)
    | Writes(w: nat, count: nat)
    | Renames(w: nat)
    | Fails(w: nat)
    | Crashes

  function Zeros(n: nat): string {
    seq(n, i => '\0')
  }

  /** Bytes past the end of a file are written after a gap of zeros; writing none changes nothing. */
  function WriteAt(content: string, offset: nat, data: string): string {
    if data == [] then content
    else if offset <= |content|
    then content[..offset] + data + (if offset + |data| <= |content| then content[offset + |data|..] else [])
    else content + Zeros(offset - |content|) + data
  }

  // ---------- the steps ----------

  function NotAlone(writers: map<nat, Writer>): map<nat, Writer> {
    map w | w in writers :: writers[w].(alone := false)
  }

  /** `File::create`: an existing temporary file is truncated, whoever else writes to it. */
  function Created(v: Volume, w: nat, body: string): Volume {
    var inode := if v.temp.Some? then v.temp.value else v.nextInode;
    v.(temp := Some(inode),
       contents := v.contents[inode := []],
       nextInode := if v.temp.Some? then v.nextInode else v.nextInode + 1,
       writers := NotAlone(v.writers)[w := Writer(body, inode, 0, v.writers == map[])])
  }

  /** A part of `write_all`: the next bytes of the writer's own body at its own offset. */
  function Written(v: Volume, w: nat, count: nat): Volume
    requires w in v.writers && v.writers[w].inode in v.contents && v.writers[w].offset <= |v.writers[w].body|
  {
    var writer := v.writers[w];
    var end := if writer.offset + count <= |writer.body| then writer.offset + count else |writer.body|;
    v.(contents := v.contents[writer.inode :=
                                WriteAt(v.contents[writer.inode], writer.offset, writer.body[writer.offset..end])],
       writers := v.writers[w := writer.(offset := end)])
  }

  function Gone(v: Volume, w: nat): Volume {
    v.(writers := v.writers - {w})
  }

  predicate IsComplete(v: Volume, w: nat) {
    w in v.writers && v.writers[w].offset == |v.writers[w].body|
  }

  /** `fs::rename`: whatever now stands under the temporary name becomes the target; with nothing
      there the call fails. */
  function Renamed(v: Volume, w: nat): Volume
    requires w in v.writers
  {
    if v.temp.None? then Gone(v, w)
    else Gone(v, w).(temp := None, target := v.temp,
                     published := if v.writers[w].alone then Some(v.writers[w].body) else None)
  }

  predicate WellFormed(v: Volume) {
    && (v.temp.Some? ==> v.temp.value in v.contents && v.temp != v.target)
    && (v.target.Some? ==> v.target.value in v.contents)
    && (forall i :: i in v.contents ==> i < v.nextInode)
    && (forall w :: w in v.writers ==> v.writers[w].inode in v.contents && v.writers[w].offset <= |v.writers[w].body|)
  }

  /** A step that is not enabled changes nothing. */
  function Step(v: Volume, e: Event): (v': Volume)
    requires WellFormed(v)
    ensures WellFormed(v')
  {
    match e
    case Creates(w, body) => if w in v.writers then v else Created(v, w, body)
    case Writes(w, count) => if w in v.writers then Written(v, w, count) else v
    case Renames(w) => if IsComplete(v, w) then Renamed(v, w) else v
    case Fails(w) => Gone(v, w)
    case Crashes => v.(writers := map[])
  }

  function Run(v: Volume, events: seq<Event>): (v': Volume)
    requires WellFormed(v)
    ensures WellFormed(v')
  {
    if events == [] then v else Step(Run(v, events[..|events| - 1]), events[|events| - 1])
  }

  function TargetContent(v: Volume): Option<string>
    requires WellFormed(v)
  {
    if v.target.None? then None else Some(v.contents[v.target.value])
  }

  /** A rename at this moment would give the target this writer's own body. */
  predicate PublishesOwnBody(v: Volume, w: nat)
    requires WellFormed(v) && w in v.writers
  {
    v.temp.Some? && v.contents[v.temp.value] == v.writers[w].body
  }

  // ---------- what every step keeps ----------

  /** A writer that is alone is the only one, and the temporary file is exactly what it has written
      so far. */
  predicate AloneOk(v: Volume)
    requires WellFormed(v)
  {
    forall w :: w in v.writers && v.writers[w].alone ==>
      && v.writers == map[w := v.writers[w]]
      && v.temp == Some(v.writers[w].inode)
      && v.contents[v.writers[w].inode] == v.writers[w].body[..v.writers[w].offset]
  }

  /** What a lone writer published is what the target holds, and nobody can still write to it. */
  predicate PublishedOk(v: Volume)
    requires WellFormed(v)
  {
    v.published.Some? ==>
      && TargetContent(v) == v.published
      && forall w :: w in v.writers ==> Some(v.writers[w].inode) != v.target
  }

  ghost predicate Inv(v: Volume) {
    WellFormed(v) && AloneOk(v) && PublishedOk(v)
  }

  lemma NextBytes(body: string, offset: nat, end: nat)
    requires offset <= end <= |body|
    ensures WriteAt(body[..offset], offset, body[offset..end]) == body[..end]
  {
    assert body[..offset][..offset] == body[..offset];
    assert body[..offset] + body[offset..end] == body[..end];
  }

  lemma CreatesKeepsInv(v: Volume, w: nat, body: string)
    requires Inv(v) && w !in v.writers
    ensures Inv(Created(v, w, body))
  {
    var v' := Created(v, w, body);
    if v.writers == map[] {
      assert v'.writers == map[w := v'.writers[w]];
    }
  }

  lemma WritesKeepsInv(v: Volume, w: nat, count: nat)
    requires Inv(v) && w in v.writers
    ensures Inv(Written(v, w, count))
  {
    var writer, v' := v.writers[w], Written(v, w, count);
    if writer.alone {
      NextBytes(writer.body, writer.offset, v'.writers[w].offset);
      assert v'.writers == map[w := v'.writers[w]];
    } else {
      assert forall k :: k in v.writers ==> !v.writers[k].alone;
    }
  }

  lemma RenamesKeepsInv(v: Volume, w: nat)
    requires Inv(v) && IsComplete(v, w)
    ensures Inv(Renamed(v, w))
  {
    var writer := v.writers[w];
    if writer.alone {
      assert writer.body[..|writer.body|] == writer.body;
      assert (v.writers - {w}) == map[];
    } else {
      assert forall k :: k in v.writers ==> !v.writers[k].alone;
    }
  }

  lemma GoneKeepsInv(v: Volume, w: nat)
    requires Inv(v)
    ensures Inv(Gone(v, w))
  {
    forall k | k in Gone(v, w).writers && v.writers[k].alone ensures Gone(v, w).writers == v.writers {
      assert k != w && w !in v.writers;
    }
  }

  lemma StepKeepsInv(v: Volume, e: Event)
    requires Inv(v)
    ensures Inv(Step(v, e))
  {
    match e
    case Creates(w, body) => if w !in v.writers { CreatesKeepsInv(v, w, body); }
    case Writes(w, count) => if w in v.writers { WritesKeepsInv(v, w, count); }
    case Renames(w) => if IsComplete(v, w) { RenamesKeepsInv(v, w); }
    case Fails(w) => GoneKeepsInv(v, w);
    case Crashes =>
  }

  lemma {:induction false} EveryRunKeepsInv(v: Volume, events: seq<Event>)
    requires Inv(v)
    ensures Inv(Run(v, events))
    decreases |events|
  {
    if events != [] {
      EveryRunKeepsInv(v, events[..|events| - 1]);
      StepKeepsInv(Run(v, events[..|events| - 1]), events[|events| - 1]);
    }
  }

  // ---------- what the runs promise ----------

  /** Any target, with or without a temporary file that a crash left behind. */
  predicate IsAtRest(v: Volume) {
    WellFormed(v) && v.writers == map[] && v.published.None?
  }

  /** Over all runs: a writer that was alone from its create to its rename publishes exactly the
      bytes it was given. */
  lemma LoneWriterPublishesItsBody(v: Volume, events: seq<Event>, w: nat)
    requires IsAtRest(v) && IsComplete(Run(v, events), w) && Run(v, events).writers[w].alone
    ensures TargetContent(Step(Run(v, events), Renames(w))) == Some(Run(v, events).writers[w].body)
  {
    EveryRunKeepsInv(v, events);
    StepKeepsInv(Run(v, events), Renames(w));
  }

  /** Over all runs: what a lone writer published stays in the target, byte for byte, until the
      next rename. */
  lemma PublishedBodyStays(v: Volume, events: seq<Event>, e: Event)
    requires IsAtRest(v) && Run(v, events).published.Some?
    ensures TargetContent(Run(v, events)) == Run(v, events).published
    ensures !e.Renames? ==> TargetContent(Step(Run(v, events), e)) == TargetContent(Run(v, events))
  {
    EveryRunKeepsInv(v, events);
    StepKeepsInv(Run(v, events), e);
  }

  /** However the calls under way go on, each one that gets to its rename publishes its own body. */
  ghost predicate EveryFinishIsOwn(v: Volume)
    requires WellFormed(v)
  {
    forall events: seq<Event>, w: nat ::
      (forall e :: e in events ==> !e.Creates?) && IsComplete(Run(v, events), w) ==> PublishesOwnBody(Run(v, events), w)
  }

  predicate AllAlone(v: Volume) {
    forall w :: w in v.writers ==> v.writers[w].alone
  }

  lemma StepKeepsAllAlone(v: Volume, e: Event)
    requires WellFormed(v) && AllAlone(v) && !e.Creates?
    ensures AllAlone(Step(v, e))
  {
  }

  lemma {:induction false} NobodyJoins(v: Volume, events: seq<Event>)
    requires Inv(v) && AllAlone(v) && forall e :: e in events ==> !e.Creates?
    ensures Inv(Run(v, events)) && AllAlone(Run(v, events))
    decreases |events|
  {
    if events != [] {
      var init, end := events[..|events| - 1], events[|events| - 1];
      assert end in events;
      NobodyJoins(v, init);
      StepKeepsInv(Run(v, init), end);
      StepKeepsAllAlone(Run(v, init), end);
    }
  }

  lemma LoneCallsFinishAsTheirOwn(v: Volume)
    requires Inv(v) && AllAlone(v)
    ensures EveryFinishIsOwn(v)
  {
    forall events: seq<Event>, w: nat | (forall e :: e in events ==> !e.Creates?) && IsComplete(Run(v, events), w)
      ensures PublishesOwnBody(Run(v, events), w)
    {
      NobodyJoins(v, events);
      var writer := Run(v, events).writers[w];
      assert writer.body[..|writer.body|] == writer.body;
    }
  }

  lemma RunOfOneMore(v: Volume, events: seq<Event>, e: Event)
    requires WellFormed(v)
    ensures Run(v, events + [e]) == Step(Run(v, events), e)
  {
    assert (events + [e])[..|events|] == events;
  }

  /** Two calls under way: one of them finishes and renames, and the other one's rename finds
      nothing under the temporary name. */
  lemma SecondRenameFindsNothing(v: Volume, a: nat, b: nat)
    requires Inv(v) && v.temp.Some? && a in v.writers && b in v.writers && a != b
    ensures !EveryFinishIsOwn(v)
  {
    var first := [Writes(a, |v.writers[a].body|)];
    var second := first + [Writes(b, |v.writers[b].body|)];
    var third := second + [Renames(a)];
    assert [] + [first[0]] == first;
    RunOfOneMore(v, [], first[0]);
    RunOfOneMore(v, first, second[1]);
    RunOfOneMore(v, second, third[2]);
    assert IsComplete(Run(v, second), a) && IsComplete(Run(v, second), b);
    var end := Run(v, third);
    assert end == Renamed(Run(v, second), a);
    assert IsComplete(end, b) && end.temp.None?;
    assert !PublishesOwnBody(end, b);
    assert forall e :: e in third ==> !e.Creates?;
  }

  /** The exact condition: starting a call is safe, whatever the bodies and however the steps fall,
      exactly when no other call for the same file is under way. */
  lemma CreatingIsSafeIffNobodyElseWrites(v: Volume, w: nat, body: string)
    requires Inv(v) && w !in v.writers
    ensures EveryFinishIsOwn(Step(v, Creates(w, body))) <==> v.writers == map[]
  {
    var v' := Step(v, Creates(w, body));
    StepKeepsInv(v, Creates(w, body));
    if v.writers == map[] {
      LoneCallsFinishAsTheirOwn(v');
    } else {
      var other :| other in v.writers;
      assert other in v'.writers;
      SecondRenameFindsNothing(v', w, other);
    }
  }

  // ---------- what an overlap does ----------

  const FRESH := Volume(None, None, map[], 0, map[], None)

  /** A later writer's bytes: created earlier, written after, at its own offset 0. The target holds
      a mixture that nobody asked to be written. */
  lemma OverlapPublishesAMixture()
    ensures var created := Step(Step(FRESH, Creates(1, "c")), Creates(0, "ab"));
            var written := Step(Step(created, Writes(0, 2)), Writes(1, 1));
            TargetContent(Step(written, Renames(0))) == Some("cb")
  {
    var created := Step(Step(FRESH, Creates(1, "c")), Creates(0, "ab"));
    var one := Step(created, Writes(0, 2));
    assert one.contents[0] == "ab";
    assert Step(one, Writes(1, 1)).contents[0] == "cb";
  }

  /** A second writer that starts while the first one syncs leaves an empty target behind. */
  lemma OverlapPublishesAnEmptyFile(body: string, other: string)
    ensures var written := Step(Step(FRESH, Creates(0, body)), Writes(0, |body|));
            TargetContent(Step(Step(written, Creates(1, other)), Renames(0))) == Some([])
  {
  }

  /** A writer that is overtaken by another one's rename goes on writing to the live target. */
  lemma OverlapChangesAPublishedFile()
    ensures var created := Step(Step(FRESH, Creates(0, "ab")), Creates(1, "c"));
            var renamed := Step(Step(created, Writes(0, 2)), Renames(0));
            TargetContent(renamed) == Some("ab") && TargetContent(Step(renamed, Writes(1, 1))) == Some("cb")
  {
    var created := Step(Step(FRESH, Creates(0, "ab")), Creates(1, "c"));
    var renamed := Step(Step(created, Writes(0, 2)), Renames(0));
    assert renamed.contents[0] == "ab";
    assert Step(renamed, Writes(1, 1)).contents[0] == "cb";
  }

  // ---------- when an overlap corrupts ----------

  /** Two calls that have created the temporary file and written nothing yet. */
  function TwoCalls(a: string, b: string): (v: Volume)
    ensures WellFormed(v) && v.temp == Some(0) && v.target.None? && v.contents == map[0 := []]
    ensures v.writers == map[0 := Writer(a, 0, 0, false), 1 := Writer(b, 0, 0, false)]
  {
    Step(Step(FRESH, Creates(0, a)), Creates(1, b))
  }

  /** The bodies differ at this position, or only one of them has it. */
  predicate Differ(a: string, b: string, p: nat) {
    (p < |a| || p < |b|) && !(p < |a| && p < |b| && a[p] == b[p])
  }

  ghost predicate DifferTwice(a: string, b: string) {
    exists j: nat, k: nat :: j < k && Differ(a, b, j) && Differ(a, b, k)
  }

  /** However far two calls go on, the target is without content or holds one of their bodies. */
  ghost predicate NeverCorrupts(a: string, b: string) {
    forall events: seq<Event> :: (forall e :: e in events ==> !e.Creates?) ==>
      TargetContent(Run(TwoCalls(a, b), events)) in {None, Some(a), Some(b)}
  }

  /** Each byte is one that one of the bodies has in that place. */
  predicate IsMix(c: string, a: string, b: string) {
    forall p :: 0 <= p < |c| ==> (p < |a| && c[p] == a[p]) || (p < |b| && c[p] == b[p])
  }

  predicate IsCallOf(writer: Writer, body: string, c: string) {
    writer.body == body && writer.inode == 0 && writer.offset <= |body| && writer.offset <= |c|
  }

  /** What both calls keep: one file, a mixture, published once one body is complete. */
  predicate Mixes(v: Volume, a: string, b: string) {
    && WellFormed(v) && 0 in v.contents
    && (forall w :: w in v.writers ==> w == 0 || w == 1)
    && (0 in v.writers ==> IsCallOf(v.writers[0], a, v.contents[0]))
    && (1 in v.writers ==> IsCallOf(v.writers[1], b, v.contents[0]))
    && IsMix(v.contents[0], a, b)
    && (v.temp.Some? ==> v.temp == Some(0)) && (v.target.Some? ==> v.target == Some(0))
    && (v.target.Some? ==> |v.contents[0]| >= |a| || |v.contents[0]| >= |b|)
  }

  lemma OverwrittenMix(c: string, a: string, b: string, body: string, i: nat, j: nat)
    requires IsMix(c, a, b) && (body == a || body == b) && i <= j <= |body| && i <= |c|
    ensures var c' := WriteAt(c, i, body[i..j]); IsMix(c', a, b) && |c| <= |c'| && j <= |c'|
  {
  }

  lemma StepKeepsMix(v: Volume, a: string, b: string, e: Event)
    requires Mixes(v, a, b) && !e.Creates?
    ensures Mixes(Step(v, e), a, b)
  {
    if e.Writes? && e.w in v.writers {
      var writer := v.writers[e.w];
      OverwrittenMix(v.contents[0], a, b, writer.body, writer.offset, Written(v, e.w, e.count).writers[e.w].offset);
    }
  }

  lemma {:induction false} RunKeepsMix(v: Volume, a: string, b: string, events: seq<Event>)
    requires Mixes(v, a, b) && forall e :: e in events ==> !e.Creates?
    ensures Mixes(Run(v, events), a, b)
    decreases |events|
  {
    if events != [] {
      assert events[|events| - 1] in events;
      RunKeepsMix(v, a, b, events[..|events| - 1]);
      StepKeepsMix(Run(v, events[..|events| - 1]), a, b, events[|events| - 1]);
    }
  }

  lemma MixIsNoLonger(c: string, a: string, b: string)
    requires IsMix(c, a, b)
    ensures |c| <= |a| || |c| <= |b|
  {
    var p := |c| - 1;
    assert c == [] || (p < |a| && c[p] == a[p]) || (p < |b| && c[p] == b[p]);
  }

  /** A mixture as long as one of the bodies, and neither of them, shows two differences. */
  lemma MixtureDiffersTwice(c: string, a: string, b: string)
    requires IsMix(c, a, b) && (|c| >= |a| || |c| >= |b|) && c != a && c != b
    ensures DifferTwice(a, b)
  {
    MixIsNoLonger(c, a, b);
    var low, high := if |a| <= |b| then |a| else |b|, if |a| <= |b| then |b| else |a|;
    if low < |c| < high {
      assert Differ(a, b, low) && Differ(a, b, |c|);
    } else if |c| == |a| && |c| == |b| {
      var p: nat :| p < |c| && c[p] != a[p];
      var q: nat :| q < |c| && c[q] != b[q];
      assert Differ(a, b, p) && Differ(a, b, q) && p != q;
    } else {
      var near := if |c| == |a| then a else b;
      var p: nat :| p < |c| && c[p] != near[p];
      assert Differ(a, b, p) && Differ(a, b, low) && p < low;
    }
  }

  lemma WholeWrite(v: Volume, w: nat)
    requires WellFormed(v) && v.temp == Some(0) && v.contents == map[0 := []] && w in v.writers
    requires v.writers[w].inode == 0 && v.writers[w].offset == 0
    ensures var body, v' := v.writers[w].body, Step(v, Writes(w, |v.writers[w].body|));
            v' == v.(contents := map[0 := body], writers := v.writers[w := v.writers[w].(offset := |body|)])
  {
    var body := v.writers[w].body;
    assert body[0..|body|] == body;
    assert WriteAt([], 0, body) == body;
    assert Step(v, Writes(w, |body|)).contents == map[0 := body];
  }

  lemma OverWrite(v: Volume, w: nat, n: nat, content: string)
    requires WellFormed(v) && v.contents == map[0 := content] && w in v.writers && n <= |v.writers[w].body|
    requires v.writers[w].inode == 0 && v.writers[w].offset == 0
    ensures var body, v' := v.writers[w].body, Step(v, Writes(w, n));
            && v'.contents == map[0 := Overwritten(content, body[..n])]
            && v' == v.(contents := v'.contents, writers := v.writers[w := v.writers[w].(offset := n)])
  {
    assert v.writers[w].body[0..n] == v.writers[w].body[..n];
    assert WriteAt(content, 0, v.writers[w].body[..n]) == Overwritten(content, v.writers[w].body[..n]);
  }

  /** A text with some bytes over its beginning. */
  function Overwritten(content: string, start: string): string {
    start + if |start| <= |content| then content[|start|..] else []
  }

  /** One call writes all its bytes, the other one its first ones over them, and the first renames. */
  function Overtaking(a: string, first: nat, second: nat, n: nat): seq<Event> {
    [Writes(first, |a|), Writes(second, n), Renames(first)]
  }

  lemma RunOfThree(v: Volume, x: Event, y: Event, z: Event)
    requires WellFormed(v)
    ensures Run(v, [x, y, z]) == Step(Step(Step(v, x), y), z)
  {
    assert [] + [x] == [x] && [x] + [y] == [x, y] && [x, y] + [z] == [x, y, z];
    RunOfOneMore(v, [], x);
    RunOfOneMore(v, [x], y);
    RunOfOneMore(v, [x, y], z);
  }

  lemma OvertakingLeaves(v: Volume, first: nat, second: nat, n: nat)
    requires WellFormed(v) && v.temp == Some(0) && v.contents == map[0 := []]
    requires first in v.writers && second in v.writers && first != second && n <= |v.writers[second].body|
    requires v.writers[first].inode == v.writers[second].inode == 0
    requires v.writers[first].offset == v.writers[second].offset == 0
    ensures var a, b := v.writers[first].body, v.writers[second].body;
            TargetContent(Run(v, Overtaking(a, first, second, n))) == Some(Overwritten(a, b[..n]))
  {
    var a := v.writers[first].body;
    WholeWrite(v, first);
    OverWrite(Step(v, Writes(first, |a|)), second, n, a);
    RunOfThree(v, Writes(first, |a|), Writes(second, n), Renames(first));
  }

  /** How far the longer body has to be written over the shorter one. */
  lemma CorruptingLength(a: string, b: string) returns (n: nat)
    requires DifferTwice(a, b) && |a| <= |b|
    ensures n <= |b| && Overwritten(a, b[..n]) != a && Overwritten(a, b[..n]) != b
  {
    var j: nat, k: nat :| j < k && Differ(a, b, j) && Differ(a, b, k);
    n := if |a| == |b| then j + 1 else if j < |a| then |a| else |a| + 1;
    var c := Overwritten(a, b[..n]);
    if j < |a| {
      assert c[j] == b[j];
      if |a| == |b| {
        assert c[k] == a[k];
      }
    }
  }

  lemma CorruptedByOvertaking(a: string, b: string, first: nat, second: nat)
    requires (first == 0 && second == 1) || (first == 1 && second == 0)
    requires var v := TwoCalls(a, b);
             |v.writers[first].body| <= |v.writers[second].body|
             && DifferTwice(v.writers[first].body, v.writers[second].body)
    ensures !NeverCorrupts(a, b)
  {
    var v := TwoCalls(a, b);
    var x, y := v.writers[first].body, v.writers[second].body;
    var n := CorruptingLength(x, y);
    OvertakingLeaves(v, first, second, n);
    var events := Overtaking(x, first, second, n);
    OvertakingCreatesNothing(x, first, second, n);
    assert TargetContent(Run(v, events)) !in {None, Some(a), Some(b)};
  }

  lemma OvertakingCreatesNothing(a: string, first: nat, second: nat, n: nat)
    ensures forall e :: e in Overtaking(a, first, second, n) ==> !e.Creates?
  {
  }

  lemma DifferBothWays(a: string, b: string)
    requires DifferTwice(a, b)
    ensures DifferTwice(b, a)
  {
    var j: nat, k: nat :| j < k && Differ(a, b, j) && Differ(a, b, k);
    assert Differ(b, a, j) && Differ(b, a, k);
  }

  /** The exact damage: two calls that run at once can leave a target that is neither's body exactly
      when the bodies differ in two places, where a byte only one of them has is a difference. */
  lemma OverlapCorruptsIffBodiesDifferTwice(a: string, b: string)
    ensures NeverCorrupts(a, b) <==> !DifferTwice(a, b)
  {
    if DifferTwice(a, b) {
      if |a| <= |b| {
        CorruptedByOvertaking(a, b, 0, 1);
      } else {
        DifferBothWays(a, b);
        CorruptedByOvertaking(a, b, 1, 0);
      }
    } else {
      forall events: seq<Event> | forall e :: e in events ==> !e.Creates?
        ensures TargetContent(Run(TwoCalls(a, b), events)) in {None, Some(a), Some(b)}
      {
        RunKeepsMix(TwoCalls(a, b), a, b, events);
        var end := Run(TwoCalls(a, b), events);
        if end.target.Some? && end.contents[0] != a && end.contents[0] != b {
          MixtureDiffersTwice(end.contents[0], a, b);
        }
      }
    }
  }
}

/** How a cached verdict lives through restarts (`cache_persist_dto.rs`): a deadline on the
    monotonic clock is saved as a wall-clock deadline in whole milliseconds and turned back into
    a monotonic one by the next process. */
module CacheLifetime {

  import opened Wrappers
  import opened Cache

  const NANOS_PER_MILLI: nat := 1_000_000
  const U64_MAX: nat := 0xffff_ffff_ffff_ffff

  /** The last values the platform's two clocks can hold, and domain normalisation. */
  datatype Platform = Platform(lastWall: int, lastInstant: int, normalize: string -> Option<string>)

  datatype PersistedEntry = PersistedEntry(domain: string, qtype: nat, expiryMillis: nat, verdict: Verdict)

  /** `to_persisted`. Wall-clock times count nanoseconds from 1970. */
  function ToPersisted(p: Platform, key: CacheKey, entry: CacheEntry, nowWall: int, nowMono: int)
    : Option<PersistedEntry>
  {
    if entry.verdict.Block? || !IsFresh(entry, nowMono) then None
    else
      var expiryWall := nowWall + (entry.expiresAt - nowMono);
      if expiryWall > p.lastWall then None
      else
        var millis: nat := if expiryWall < 0 then 0 else expiryWall / NANOS_PER_MILLI;
        Some(PersistedEntry(key.domain, key.qtype, if millis <= U64_MAX then millis else U64_MAX, entry.verdict))
  }

  /** `from_persisted`. */
  function FromPersisted(p: Platform, saved: PersistedEntry, nowWall: int, nowMono: int)
    : Option<(CacheKey, CacheEntry)>
  {
    var expiryWall := saved.expiryMillis * NANOS_PER_MILLI;
    if expiryWall > p.lastWall || expiryWall <= nowWall then None
    else
      match p.normalize(saved.domain)
      case None => None
      case Some(domain) =>
        Some((CacheKey(domain, saved.qtype), NewEntry(saved.verdict, expiryWall - nowWall, nowMono, p.lastInstant)))
  }

  /** `to_json`: what a snapshot leaves in the file. */
  function ToJson(p: Platform, pairs: seq<(CacheKey, CacheEntry)>, nowWall: int, nowMono: int): seq<PersistedEntry> {
    if pairs == [] then []
    else
      ToJson(p, pairs[..|pairs| - 1], nowWall, nowMono)
      + match ToPersisted(p, pairs[|pairs| - 1].0, pairs[|pairs| - 1].1, nowWall, nowMono)
        case None => []
        case Some(saved) => [saved]
  }

  /** `from_json`: `clock(i)` is the instant at which the i-th entry is rebuilt. */
  function FromJson(p: Platform, file: seq<PersistedEntry>, nowWall: int, clock: nat -> int)
    : seq<(CacheKey, CacheEntry)>
  {
    if file == [] then []
    else
      FromJson(p, file[..|file| - 1], nowWall, clock)
      + match FromPersisted(p, file[|file| - 1], nowWall, clock(|file| - 1))
        case None => []
        case Some(pair) => [pair]
  }

  /** The whole milliseconds of a moment, counted from 1970 and held in 64 bits. */
  predicate IsMillisOf(millis: nat, moment: int) {
    if moment < 0 then millis == 0
    else if moment >= U64_MAX * NANOS_PER_MILLI then millis == U64_MAX
    else millis * NANOS_PER_MILLI <= moment < (millis + 1) * NANOS_PER_MILLI
  }

  /** What is saved: allow verdicts that are still fresh and whose end the wall clock can hold, each with
      that moment in whole milliseconds. */
  lemma SavedIff(p: Platform, key: CacheKey, entry: CacheEntry, nowWall: int, nowMono: int, saved: PersistedEntry)
    ensures var end := nowWall + (entry.expiresAt - nowMono);
            ToPersisted(p, key, entry, nowWall, nowMono) == Some(saved)
            <==> && entry.verdict.Allow? && nowMono < entry.expiresAt && end <= p.lastWall
                 && saved.domain == key.domain && saved.qtype == key.qtype && saved.verdict == entry.verdict
                 && IsMillisOf(saved.expiryMillis, end)
  {
  }

  /** What is rebuilt: entries whose end lies ahead and within the wall clock's range and whose domain
      normalises, under that name, with what is left of the lifetime. */
  lemma RebuiltIff(p: Platform, saved: PersistedEntry, nowWall: int, nowMono: int, key: CacheKey, entry: CacheEntry)
    ensures var left := saved.expiryMillis * NANOS_PER_MILLI - nowWall;
            FromPersisted(p, saved, nowWall, nowMono) == Some((key, entry))
            <==> && 0 < left && nowWall + left <= p.lastWall
                 && p.normalize(saved.domain) == Some(key.domain) && key.qtype == saved.qtype
                 && entry == NewEntry(saved.verdict, left, nowMono, p.lastInstant)
  {
  }

  // ---------- one restart ----------

  /** The wall-clock moment an entry expires, in a process whose wall clock is `offset` ahead of
      its monotonic one. */
  function WallDeadline(entry: CacheEntry, offset: int): int {
    entry.expiresAt + offset
  }

  /** One save and the next restore. The wall clock is read first and the monotonic clock a gap
      later, both when saving and when an entry is rebuilt; `offset` belongs to the new process. */
  datatype Restart = Restart(saveWall: int, saveGap: nat, restoreWall: int, restoreGap: nat, offset: int)

  /** The wall clock never runs back, starts after 1970, and no deadline leaves the clocks' range. */
  predicate OrderlyRestart(p: Platform, deadline: int, oldest: int, r: Restart) {
    && 0 <= oldest <= r.saveWall && r.saveWall + r.saveGap <= r.restoreWall
    && deadline <= p.lastWall && deadline <= U64_MAX * NANOS_PER_MILLI
    && r.restoreWall + r.restoreGap - r.offset + MAX_ENTRY_TTL <= p.lastInstant
  }

  function AfterRestart(p: Platform, key: CacheKey, entry: CacheEntry, offset: int, r: Restart)
    : Option<(CacheKey, CacheEntry)>
  {
    match ToPersisted(p, key, entry, r.saveWall, r.saveWall + r.saveGap - offset)
    case None => None
    case Some(saved) => FromPersisted(p, saved, r.restoreWall, r.restoreWall + r.restoreGap - r.offset)
  }

  /** The saved deadline: the gap is lost, then everything below a whole millisecond. */
  function SavedDeadline(deadline: int, saveGap: nat): int {
    (deadline - saveGap) / NANOS_PER_MILLI * NANOS_PER_MILLI
  }

  /** An entry comes back exactly if it was an allow verdict, was fresh when saved, and its saved
      deadline is still ahead; nothing else about it changes. */
  lemma ComesBackIff(p: Platform, key: CacheKey, entry: CacheEntry, offset: int, oldest: int, r: Restart)
    requires OrderlyRestart(p, WallDeadline(entry, offset), oldest, r)
    requires p.normalize(key.domain) == Some(key.domain)
    ensures AfterRestart(p, key, entry, offset, r).Some?
       <==> && entry.verdict.Allow?
            && r.saveWall + r.saveGap < WallDeadline(entry, offset)
            && r.restoreWall < SavedDeadline(WallDeadline(entry, offset), r.saveGap)
    ensures AfterRestart(p, key, entry, offset, r).Some? ==>
              var (key', entry') := AfterRestart(p, key, entry, offset, r).value;
              && key' == key && entry'.verdict == entry.verdict
              && entry'.ttl == CappedTtl(SavedDeadline(WallDeadline(entry, offset), r.saveGap) - r.restoreWall)
              && WallDeadline(entry', r.offset) == r.restoreWall + r.restoreGap + entry'.ttl
  {
  }

  /** The lifetime cap never bites: an entry that had at most the largest lifetime left at some
      earlier moment has less than that left when it is rebuilt, so its deadline moves by exactly
      the lost gap, the lost fraction of a millisecond, and the gap gained when it is rebuilt. */
  lemma DeadlineAfterRestart(p: Platform, key: CacheKey, entry: CacheEntry, offset: int, oldest: int, r: Restart)
    requires OrderlyRestart(p, WallDeadline(entry, offset), oldest, r)
    requires p.normalize(key.domain) == Some(key.domain)
    requires WallDeadline(entry, offset) <= oldest + MAX_ENTRY_TTL
    requires AfterRestart(p, key, entry, offset, r).Some?
    ensures var deadline, entry' := WallDeadline(entry, offset), AfterRestart(p, key, entry, offset, r).value.1;
            && entry'.ttl == SavedDeadline(deadline, r.saveGap) - r.restoreWall
            && WallDeadline(entry', r.offset) == SavedDeadline(deadline, r.saveGap) + r.restoreGap
            && WallDeadline(entry', r.offset) <= r.restoreWall + r.restoreGap + MAX_ENTRY_TTL
  {
    ComesBackIff(p, key, entry, offset, oldest, r);
  }

  /** A deadline moves later in a restart exactly when rebuilding took longer after the wall clock
      was read than saving did, by more than the fraction of a millisecond that was cut off. */
  lemma DeadlineMovesLaterIff(p: Platform, key: CacheKey, entry: CacheEntry, offset: int, oldest: int, r: Restart)
    requires OrderlyRestart(p, WallDeadline(entry, offset), oldest, r)
    requires p.normalize(key.domain) == Some(key.domain)
    requires WallDeadline(entry, offset) <= oldest + MAX_ENTRY_TTL
    requires AfterRestart(p, key, entry, offset, r).Some?
    ensures var deadline, entry' := WallDeadline(entry, offset), AfterRestart(p, key, entry, offset, r).value.1;
            var lost := (deadline - r.saveGap) % NANOS_PER_MILLI;
            WallDeadline(entry', r.offset) > deadline <==> r.restoreGap > r.saveGap + lost
  {
    DeadlineAfterRestart(p, key, entry, offset, oldest, r);
  }

  /** It can happen: saved at once, rebuilt one nanosecond after the wall clock was read. */
  lemma DeadlineCanMoveLater()
    ensures var p := Platform(U64_MAX, U64_MAX, s => Some(s));
            var key, entry := CacheKey("a.b", 1), CacheEntry(Allow([1]), 5 * NANOS_PER_MILLI, 5 * NANOS_PER_MILLI);
            var after := AfterRestart(p, key, entry, 0, Restart(0, 0, 0, 1, 0));
            after.Some? && WallDeadline(after.value.1, 0) == WallDeadline(entry, 0) + 1
  {
  }

  // ---------- any number of restarts ----------

  /** The entry after some restarts, if it is still there; `oldest` is a wall-clock moment before
      which nothing below happens. */
  datatype Life = Life(key: CacheKey, entry: CacheEntry, offset: int, oldest: int)

  function DeadlineOf(life: Life): int {
    WallDeadline(life.entry, life.offset)
  }

  function NextLife(p: Platform, life: Life, r: Restart): Option<Life> {
    match AfterRestart(p, life.key, life.entry, life.offset, r)
    case None => None
    case Some((key, entry)) => Some(Life(key, entry, r.offset, r.restoreWall + r.restoreGap))
  }

  function Lives(p: Platform, life: Life, restarts: seq<Restart>): Option<Life>
    decreases restarts
  {
    if restarts == [] then Some(life)
    else
      match NextLife(p, life, restarts[0])
      case None => None
      case Some(next) => Lives(p, next, restarts[1..])
  }

  /** Every restart is orderly and begins after the one before it ended. */
  predicate Orderly(p: Platform, life: Life, restarts: seq<Restart>)
    decreases restarts
  {
    restarts != [] ==>
      && OrderlyRestart(p, DeadlineOf(life), life.oldest, restarts[0])
      && match NextLife(p, life, restarts[0])
         case None => true
         case Some(next) => Orderly(p, next, restarts[1..])
  }

  predicate BoundedLife(p: Platform, life: Life) {
    p.normalize(life.key.domain) == Some(life.key.domain) && DeadlineOf(life) <= life.oldest + MAX_ENTRY_TTL
  }

  function TotalSaveGap(restarts: seq<Restart>): nat {
    if restarts == [] then 0 else restarts[0].saveGap + TotalSaveGap(restarts[1..])
  }

  function TotalRestoreGap(restarts: seq<Restart>): nat {
    if restarts == [] then 0 else restarts[0].restoreGap + TotalRestoreGap(restarts[1..])
  }

  /** Over any number of restarts the deadline gains the rebuilding gaps, loses the saving gaps,
      and loses under a millisecond per restart; key and verdict stay. */
  lemma {:induction false} DeadlineOverRestarts(p: Platform, life: Life, restarts: seq<Restart>)
    requires BoundedLife(p, life) && Orderly(p, life, restarts) && Lives(p, life, restarts).Some?
    ensures var last := Lives(p, life, restarts).value;
            && last.key == life.key && last.entry.verdict == life.entry.verdict
            && BoundedLife(p, last)
            && (restarts != [] ==> life.entry.verdict.Allow?)
            && DeadlineOf(last) <= DeadlineOf(life) + TotalRestoreGap(restarts) - TotalSaveGap(restarts)
            && DeadlineOf(life) + TotalRestoreGap(restarts) - TotalSaveGap(restarts) - DeadlineOf(last)
               <= (NANOS_PER_MILLI - 1) * |restarts|
    decreases restarts
  {
    if restarts != [] {
      var r := restarts[0];
      ComesBackIff(p, life.key, life.entry, life.offset, life.oldest, r);
      DeadlineAfterRestart(p, life.key, life.entry, life.offset, life.oldest, r);
      var next := NextLife(p, life, r).value;
      DeadlineOverRestarts(p, next, restarts[1..]);
      assert DeadlineOf(next) == SavedDeadline(DeadlineOf(life), r.saveGap) + r.restoreGap;
    }
  }

  predicate ClocksReadTogether(restarts: seq<Restart>) {
    forall r :: r in restarts ==> r.saveGap == 0 && r.restoreGap == 0
  }

  lemma {:induction false} WholeMillisecondsAreKept(p: Platform, life: Life, restarts: seq<Restart>)
    requires BoundedLife(p, life) && Orderly(p, life, restarts) && Lives(p, life, restarts).Some?
    requires ClocksReadTogether(restarts) && DeadlineOf(life) % NANOS_PER_MILLI == 0
    ensures DeadlineOf(Lives(p, life, restarts).value) == DeadlineOf(life)
    decreases restarts
  {
    if restarts != [] {
      var r := restarts[0];
      assert r in restarts && forall x :: x in restarts[1..] ==> x in restarts;
      ComesBackIff(p, life.key, life.entry, life.offset, life.oldest, r);
      DeadlineAfterRestart(p, life.key, life.entry, life.offset, life.oldest, r);
      WholeMillisecondsAreKept(p, NextLife(p, life, r).value, restarts[1..]);
    }
  }

  lemma WholeMillisecondsBelow(deadline: int)
    ensures deadline - NANOS_PER_MILLI < SavedDeadline(deadline, 0) <= deadline
    ensures SavedDeadline(deadline, 0) % NANOS_PER_MILLI == 0
  {
  }

  /** When each save and each rebuild reads both clocks at one moment, the deadline never moves
      later and loses under one millisecond in total, however many restarts there are. */
  lemma DeadlineWithClocksReadTogether(p: Platform, life: Life, restarts: seq<Restart>)
    requires BoundedLife(p, life) && Orderly(p, life, restarts) && Lives(p, life, restarts).Some?
    requires ClocksReadTogether(restarts)
    ensures DeadlineOf(life) - NANOS_PER_MILLI < DeadlineOf(Lives(p, life, restarts).value) <= DeadlineOf(life)
  {
    if restarts != [] {
      var r := restarts[0];
      assert r in restarts && forall x :: x in restarts[1..] ==> x in restarts;
      var next := NextLife(p, life, r).value;
      assert BoundedLife(p, next) && DeadlineOf(next) == SavedDeadline(DeadlineOf(life), 0) by {
        ComesBackIff(p, life.key, life.entry, life.offset, life.oldest, r);
        DeadlineAfterRestart(p, life.key, life.entry, life.offset, life.oldest, r);
      }
      WholeMillisecondsBelow(DeadlineOf(life));
      WholeMillisecondsAreKept(p, next, restarts[1..]);
    }
  }

  /** An entry built at `oldest` starts out within the bound. */
  lemma FreshEntryIsBounded(p: Platform, key: CacheKey, verdict: Verdict, ttl: nat, now: int, offset: int)
    requires p.normalize(key.domain) == Some(key.domain)
    ensures BoundedLife(p, Life(key, NewEntry(verdict, ttl, now, p.lastInstant), offset, now + offset))
  {
  }

  // ---------- the whole cache through one file ----------

  /** The wall-clock deadline the saving process writes for an entry. */
  function ExpiryWall(entry: CacheEntry, saveWall: int, saveMono: int): int {
    saveWall + (entry.expiresAt - saveMono)
  }

  predicate Survives(entry: CacheEntry, saveWall: int, saveMono: int, restoreWall: int) {
    && entry.verdict.Allow?
    && saveMono < entry.expiresAt
    && restoreWall < ExpiryWall(entry, saveWall, saveMono) / NANOS_PER_MILLI * NANOS_PER_MILLI
  }

  /** The saving clock is past 1970, deadlines are within the clocks' range, keys are normal. */
  ghost predicate Savable(p: Platform, pairs: seq<(CacheKey, CacheEntry)>, saveWall: int, saveMono: int) {
    && 0 <= saveWall
    && forall x :: x in pairs ==>
         && ExpiryWall(x.1, saveWall, saveMono) <= p.lastWall
         && ExpiryWall(x.1, saveWall, saveMono) <= U64_MAX * NANOS_PER_MILLI
         && p.normalize(x.0.domain) == Some(x.0.domain)
  }

  predicate DistinctKeys(pairs: seq<(CacheKey, CacheEntry)>) {
    forall i, j :: 0 <= i < j < |pairs| ==> pairs[i].0 != pairs[j].0
  }

  function Reloaded(p: Platform, pairs: seq<(CacheKey, CacheEntry)>, saveWall: int, saveMono: int,
                    restoreWall: int, clock: nat -> int): map<CacheKey, CacheEntry>
  {
    InsertedAll(map[], FromJson(p, ToJson(p, pairs, saveWall, saveMono), restoreWall, clock))
  }

  /** The reloaded entry is the old one but for its lifetime, which is what was left. */
  predicate IsReloadOf(reloaded: CacheEntry, entry: CacheEntry, saveWall: int, saveMono: int, restoreWall: int) {
    var left := ExpiryWall(entry, saveWall, saveMono) / NANOS_PER_MILLI * NANOS_PER_MILLI - restoreWall;
    reloaded.verdict == entry.verdict && left > 0 && reloaded.ttl == CappedTtl(left)
  }

  lemma OnePairThroughTheFile(p: Platform, pair: (CacheKey, CacheEntry), saveWall: int, saveMono: int,
                              restoreWall: int, nowMono: int)
    requires Savable(p, [pair], saveWall, saveMono)
    ensures var saved := ToPersisted(p, pair.0, pair.1, saveWall, saveMono);
            if Survives(pair.1, saveWall, saveMono, restoreWall)
            then
              && saved.Some?
              && var back := FromPersisted(p, saved.value, restoreWall, nowMono);
                 && back.Some? && back.value.0 == pair.0
                 && IsReloadOf(back.value.1, pair.1, saveWall, saveMono, restoreWall)
            else saved.None? || FromPersisted(p, saved.value, restoreWall, nowMono).None?
  {
    assert pair in [pair];
  }

  /** What becomes of one pair: it is there exactly if it survives, and then as its own reload. */
  predicate Accounted(m: map<CacheKey, CacheEntry>, pair: (CacheKey, CacheEntry), saveWall: int, saveMono: int,
                      restoreWall: int) {
    && (pair.0 in m <==> Survives(pair.1, saveWall, saveMono, restoreWall))
    && (pair.0 in m ==> IsReloadOf(m[pair.0], pair.1, saveWall, saveMono, restoreWall))
  }

  /** What one more pair in the snapshot adds to the reloaded map. */
  predicate GrowsBy(m0: map<CacheKey, CacheEntry>, m: map<CacheKey, CacheEntry>, pair: (CacheKey, CacheEntry),
                    saveWall: int, saveMono: int, restoreWall: int)
  {
    if Survives(pair.1, saveWall, saveMono, restoreWall)
    then
      && m.Keys == m0.Keys + {pair.0}
      && (forall key :: key in m0 && key != pair.0 ==> m[key] == m0[key])
      && IsReloadOf(m[pair.0], pair.1, saveWall, saveMono, restoreWall)
    else m == m0
  }

  lemma ReloadedOneMore(p: Platform, pairs: seq<(CacheKey, CacheEntry)>, saveWall: int, saveMono: int,
                        restoreWall: int, clock: nat -> int)
    requires pairs != [] && Savable(p, pairs, saveWall, saveMono)
    ensures GrowsBy(Reloaded(p, pairs[..|pairs| - 1], saveWall, saveMono, restoreWall, clock),
                    Reloaded(p, pairs, saveWall, saveMono, restoreWall, clock),
                    pairs[|pairs| - 1], saveWall, saveMono, restoreWall)
  {
    var n := |pairs| - 1;
    var pair := pairs[n];
    assert pair in pairs;
    var file0 := ToJson(p, pairs[..n], saveWall, saveMono);
    var file := ToJson(p, pairs, saveWall, saveMono);
    var saved := ToPersisted(p, pair.0, pair.1, saveWall, saveMono);
    OnePairThroughTheFile(p, pair, saveWall, saveMono, restoreWall, clock(|file0|));
    if saved.Some? {
      assert file == file0 + [saved.value];
      assert file[..|file| - 1] == file0;
      var restored0, restored := FromJson(p, file0, restoreWall, clock), FromJson(p, file, restoreWall, clock);
      var back := FromPersisted(p, saved.value, restoreWall, clock(|file0|));
      if back.Some? {
        assert restored == restored0 + [back.value];
        assert restored[..|restored| - 1] == restored0;
      } else {
        assert restored == restored0;
      }
    } else {
      assert file == file0;
    }
  }

  ghost predicate AllAccounted(m: map<CacheKey, CacheEntry>, pairs: seq<(CacheKey, CacheEntry)>,
                               saveWall: int, saveMono: int, restoreWall: int)
  {
    && (forall key :: key in m ==> exists i :: 0 <= i < |pairs| && pairs[i].0 == key)
    && (forall i :: 0 <= i < |pairs| ==> Accounted(m, pairs[i], saveWall, saveMono, restoreWall))
  }

  lemma OneMoreAccounted(m0: map<CacheKey, CacheEntry>, m: map<CacheKey, CacheEntry>,
                         pairs: seq<(CacheKey, CacheEntry)>,
                         saveWall: int, saveMono: int, restoreWall: int)
    requires pairs != [] && DistinctKeys(pairs)
    requires AllAccounted(m0, pairs[..|pairs| - 1], saveWall, saveMono, restoreWall)
    requires GrowsBy(m0, m, pairs[|pairs| - 1], saveWall, saveMono, restoreWall)
    ensures AllAccounted(m, pairs, saveWall, saveMono, restoreWall)
  {
    var n := |pairs| - 1;
    var before := pairs[..n];
    forall i | 0 <= i < |pairs|
      ensures Accounted(m, pairs[i], saveWall, saveMono, restoreWall)
    {
      if i < n {
        assert Accounted(m0, before[i], saveWall, saveMono, restoreWall);
      }
    }
    forall key | key in m
      ensures exists i :: 0 <= i < |pairs| && pairs[i].0 == key
    {
      if key in m0 {
        var i :| 0 <= i < |before| && before[i].0 == key;
        assert pairs[i].0 == key;
      } else {
        assert pairs[n].0 == key;
      }
    }
  }

  lemma {:induction false} ReloadedPairs(p: Platform, pairs: seq<(CacheKey, CacheEntry)>, saveWall: int, saveMono: int,
                                         restoreWall: int, clock: nat -> int)
    requires Savable(p, pairs, saveWall, saveMono) && DistinctKeys(pairs)
    ensures AllAccounted(Reloaded(p, pairs, saveWall, saveMono, restoreWall, clock), pairs,
                         saveWall, saveMono, restoreWall)
    decreases |pairs|
  {
    if pairs != [] {
      var before := pairs[..|pairs| - 1];
      assert forall x :: x in before ==> x in pairs;
      ReloadedPairs(p, before, saveWall, saveMono, restoreWall, clock);
      ReloadedOneMore(p, pairs, saveWall, saveMono, restoreWall, clock);
      OneMoreAccounted(Reloaded(p, before, saveWall, saveMono, restoreWall, clock),
                       Reloaded(p, pairs, saveWall, saveMono, restoreWall, clock),
                       pairs, saveWall, saveMono, restoreWall);
    }
  }

  /** Save, restart, restore: the new cache holds exactly the entries that were allow verdicts,
      fresh when saved and not expired since, each with its verdict and what is left of its
      lifetime, in whatever order the snapshot listed them. */
  lemma RestoredCacheIsTheSurvivors(p: Platform, entries: map<CacheKey, CacheEntry>, pairs: seq<(CacheKey, CacheEntry)>,
                                    saveWall: int, saveMono: int, restoreWall: int, clock: nat -> int)
    requires IsSnapshot(pairs, entries) && Savable(p, pairs, saveWall, saveMono)
    ensures var m := Reloaded(p, pairs, saveWall, saveMono, restoreWall, clock);
            && (forall key :: key in m <==> key in entries && Survives(entries[key], saveWall, saveMono, restoreWall))
            && (forall key :: key in m ==> IsReloadOf(m[key], entries[key], saveWall, saveMono, restoreWall))
  {
    ReloadedPairs(p, pairs, saveWall, saveMono, restoreWall, clock);
    var m := Reloaded(p, pairs, saveWall, saveMono, restoreWall, clock);
    forall key: CacheKey
      ensures key in m <==> key in entries && Survives(entries[key], saveWall, saveMono, restoreWall)
      ensures key in m ==> IsReloadOf(m[key], entries[key], saveWall, saveMono, restoreWall)
    {
      if key in m {
        var i :| 0 <= i < |pairs| && pairs[i].0 == key;
        assert Accounted(m, pairs[i], saveWall, saveMono, restoreWall);
      } else if key in entries {
        var i :| 0 <= i < |pairs| && pairs[i].0 == key;
        assert Accounted(m, pairs[i], saveWall, saveMono, restoreWall);
      }
    }
  }
}

/** The quorum-verdict cache (`cache.rs`) as a map, with its invalidation by domain suffix. All
    times are in nanoseconds; instants count from an arbitrary origin. */
module Cache {

  import opened DomainSuffix

  datatype Verdict = Allow(ips: seq<nat>) | Block

  /** The domain of a key has been normalised. */
  datatype CacheKey = CacheKey(domain: string, qtype: nat)

  datatype CacheEntry = CacheEntry(verdict: Verdict, ttl: nat, expiresAt: int)

  const NANOS_PER_SEC: nat := 1_000_000_000
  const MAX_TTL_SECS: nat := 604_800
  /** Twice the largest configurable lifetime. */
  const MAX_ENTRY_TTL: nat := 2 * MAX_TTL_SECS * NANOS_PER_SEC

  function CappedTtl(ttl: nat): nat {
    if ttl <= MAX_ENTRY_TTL then ttl else MAX_ENTRY_TTL
  }

  /** `CacheEntry::new`: past the platform's last instant the entry is born stale. */
  function NewEntry(verdict: Verdict, ttl: nat, now: int, lastInstant: int): CacheEntry {
    var capped := CappedTtl(ttl);
    CacheEntry(verdict, capped, if now + capped <= lastInstant then now + capped else now)
  }

  /** A new entry is fresh for exactly its lifetime, at most the largest one; past the platform's last
      instant it is never fresh again. */
  lemma NewEntryIsFreshForItsLifetime(verdict: Verdict, ttl: nat, now: int, lastInstant: int, t: int)
    requires now <= t
    ensures var entry := NewEntry(verdict, ttl, now, lastInstant);
            && entry.verdict == verdict && entry.ttl <= ttl && entry.ttl <= MAX_ENTRY_TTL
            && (entry.ttl == ttl || entry.ttl == MAX_ENTRY_TTL)
            && (IsFresh(entry, t) <==> now + entry.ttl <= lastInstant && t - now < ttl && t - now < MAX_ENTRY_TTL)
  {
  }

  predicate IsFresh(entry: CacheEntry, now: int) {
    now < entry.expiresAt
  }

  /** A domain, and whether everything below it is meant too. */
  datatype Rule = Rule(domain: string, isWildcard: bool)

  predicate IsHit(key: CacheKey, rules: seq<Rule>) {
    exists r :: r in rules && KeyMatches(key.domain, r.domain, r.isWildcard)
  }

  function Invalidated(entries: map<CacheKey, CacheEntry>, rules: seq<Rule>): map<CacheKey, CacheEntry> {
    map key | key in entries && !IsHit(key, rules) :: entries[key]
  }

  function Inserted(entries: map<CacheKey, CacheEntry>, key: CacheKey, entry: CacheEntry): map<CacheKey, CacheEntry> {
    if entry.ttl == 0 then entries else entries[key := entry]
  }

  function InsertedAll(entries: map<CacheKey, CacheEntry>, pairs: seq<(CacheKey, CacheEntry)>)
    : map<CacheKey, CacheEntry>
  {
    if pairs == [] then entries
    else Inserted(InsertedAll(entries, pairs[..|pairs| - 1]), pairs[|pairs| - 1].0, pairs[|pairs| - 1].1)
  }

  /** A listing of every pair, each once, in any order. */
  ghost predicate IsSnapshot(pairs: seq<(CacheKey, CacheEntry)>, entries: map<CacheKey, CacheEntry>) {
    && (forall i :: 0 <= i < |pairs| ==> pairs[i].0 in entries && entries[pairs[i].0] == pairs[i].1)
    && (forall i, j :: 0 <= i < j < |pairs| ==> pairs[i].0 != pairs[j].0)
    && (forall key :: key in entries ==> exists i :: 0 <= i < |pairs| && pairs[i].0 == key)
  }

  class VerdictCache {
    var entries: map<CacheKey, CacheEntry>

    constructor ()
      ensures entries == map[]
    {
      entries := map[];
    }

    /** A zero lifetime never enters the cache. */
    method Insert(key: CacheKey, entry: CacheEntry)
      modifies this
      ensures entries == Inserted(old(entries), key, entry)
      ensures entry.ttl == 0 ==> entries == old(entries)
      ensures entry.ttl > 0 ==> entries == old(entries)[key := entry]
    {
      if entry.ttl == 0 {
        return;
      }
      entries := entries[key := entry];
    }

    /** A key goes exactly when it is an exact rule's name, or reaches a wildcard rule's domain by
        dropping labels; every other entry stays as it is. */
    method InvalidateMatching(rules: seq<Rule>)
      modifies this
      ensures forall key :: key in entries <==> key in old(entries) && !IsNamedBy(key, rules)
      ensures forall key :: key in entries ==> entries[key] == old(entries)[key]
    {
      forall key ensures IsHit(key, rules) <==> IsNamedBy(key, rules) {
        HitsByLabels(key, rules);
      }
      if rules == [] {
        return;
      }
      entries := map key | key in entries && !IsHit(key, rules) :: entries[key];
    }

    method Snapshot() returns (pairs: seq<(CacheKey, CacheEntry)>)
      ensures IsSnapshot(pairs, entries)
    {
      pairs := [];
      var left := entries.Keys;
      while left != {}
        invariant left <= entries.Keys
        invariant forall i :: 0 <= i < |pairs| ==> pairs[i].0 in entries && entries[pairs[i].0] == pairs[i].1
        invariant forall i :: 0 <= i < |pairs| ==> pairs[i].0 !in left
        invariant forall i, j :: 0 <= i < j < |pairs| ==> pairs[i].0 != pairs[j].0
        invariant forall key :: key in entries ==> key in left || exists i :: 0 <= i < |pairs| && pairs[i].0 == key
        decreases left
      {
        var key :| key in left;
        ghost var before := pairs;
        pairs := pairs + [(key, entries[key])];
        left := left - {key};
        forall k | k in entries
          ensures k in left || exists i :: 0 <= i < |pairs| && pairs[i].0 == k
        {
          if k == key {
            assert pairs[|pairs| - 1].0 == k;
          } else if k !in left {
            var i :| 0 <= i < |before| && before[i].0 == k;
            assert pairs[i].0 == k;
          }
        }
      }
    }

    method Restore(restored: seq<(CacheKey, CacheEntry)>)
      modifies this
      ensures entries == InsertedAll(old(entries), restored)
    {
      for i := 0 to |restored|
        invariant entries == InsertedAll(old(entries), restored[..i])
      {
        assert restored[..i + 1][..i] == restored[..i];
        Insert(restored[i].0, restored[i].1);
      }
      assert restored[..|restored|] == restored;
    }
  }

  // ---------- batch and single invalidation ----------

  function InvalidatedOneByOne(entries: map<CacheKey, CacheEntry>, rules: seq<Rule>): map<CacheKey, CacheEntry>
    decreases rules
  {
    if rules == [] then entries else InvalidatedOneByOne(Invalidated(entries, [rules[0]]), rules[1..])
  }

  /** One batch removes what its rules would remove one after the other. */
  lemma {:induction false} BatchIsOneByOne(entries: map<CacheKey, CacheEntry>, rules: seq<Rule>)
    ensures InvalidatedOneByOne(entries, rules) == Invalidated(entries, rules)
    decreases rules
  {
    if rules == [] {
      assert Invalidated(entries, []) == entries;
    } else {
      BatchIsOneByOne(Invalidated(entries, [rules[0]]), rules[1..]);
      forall key: CacheKey
        ensures IsHit(key, rules) <==> IsHit(key, [rules[0]]) || IsHit(key, rules[1..])
      {
        if IsHit(key, rules) {
          var r :| r in rules && KeyMatches(key.domain, r.domain, r.isWildcard);
          assert r in [rules[0]] || r in rules[1..];
        }
        if IsHit(key, [rules[0]]) {
          assert rules[0] in rules;
        }
      }
    }
  }

  /** Any order, any repetition: two rule lists with the same rules invalidate the same keys. */
  lemma AnyOrderInvalidatesTheSame(entries: map<CacheKey, CacheEntry>, rules: seq<Rule>, others: seq<Rule>)
    requires (set r | r in rules) == (set r | r in others)
    ensures InvalidatedOneByOne(entries, others) == Invalidated(entries, rules)
  {
    BatchIsOneByOne(entries, others);
    forall key: CacheKey
      ensures IsHit(key, rules) <==> IsHit(key, others)
    {
      var these, those := set r | r in rules, set r | r in others;
      if IsHit(key, rules) {
        var r :| r in rules && KeyMatches(key.domain, r.domain, r.isWildcard);
        assert r in these;
      }
      if IsHit(key, others) {
        var r :| r in others && KeyMatches(key.domain, r.domain, r.isWildcard);
        assert r in those;
      }
    }
  }

  /** What is removed, in terms of labels: an exact rule takes its own name, a wildcard takes every
      name from which its domain is reached by dropping labels. */
  lemma InvalidationByLabels(entries: map<CacheKey, CacheEntry>, rules: seq<Rule>, key: CacheKey)
    ensures key in Invalidated(entries, rules) <==> key in entries && !IsNamedBy(key, rules)
  {
    HitsByLabels(key, rules);
  }

  predicate IsNamedBy(key: CacheKey, rules: seq<Rule>) {
    exists r :: r in rules && if r.isWildcard then ReachedByDropping(key.domain, r.domain) else key.domain == r.domain
  }

  lemma HitsByLabels(key: CacheKey, rules: seq<Rule>)
    ensures IsHit(key, rules) <==> IsNamedBy(key, rules)
  {
    forall r | r in rules
      ensures KeyMatches(key.domain, r.domain, r.isWildcard)
         <==> if r.isWildcard then ReachedByDropping(key.domain, r.domain) else key.domain == r.domain
    {
      SuffixTestIsReachability(key.domain, r.domain);
    }
  }
}

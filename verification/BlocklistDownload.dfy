/** The blocklist feed parsers, their integrity gates and the final sort-and-deduplicate pass
    (`blocklist_download.rs`). Domain normalisation, the public-suffix list and the seeded hash
    are unknown functions: everything below holds for all of them. */
module BlocklistDownload {

  import opened Wrappers
  import opened Strings

  type Hash = h: int | 0 <= h < 0x1_0000_0000_0000_0000

  type Seed = nat

  /** The parts of the program these modules call without looking inside. */
  datatype Library = Library(
    normalize: string -> Option<string>,
    isPublicSuffix: string -> bool,
    hashOne: (Seed, string) -> Hash)

  datatype SourceFormat = PlainDomain | AdblockNetRules

  // ---------- from a body to candidate lines ----------

  function StripCarriageReturn(line: string): string {
    if line != [] && line[|line| - 1] == '\r' then line[..|line| - 1] else line
  }

  /** `str::lines`: a line ends with a line feed, a carriage return before it is dropped, and
      nothing follows the last line feed. */
  function Lines(body: string): seq<string>
    decreases |body|
  {
    var i := IndexOf(body, '\n');
    if body == [] then []
    else if i == |body| then [body]
    else [StripCarriageReturn(body[..i])] + Lines(body[i + 1..])
  }

  function PlainCandidate(line: string): Option<string> {
    var entry := Trim(line);
    if entry == [] || entry[0] == '#' then None else Some(entry)
  }

  function AdblockCandidate(line: string): Option<string> {
    var rule := Trim(line);
    if rule == [] || rule[0] == '!' || rule[0] == '[' then None
    else if StartsWith(rule, "@@") then None
    else if !StartsWith(rule, "||") then None
    else
      var rest := rule[2..];
      var anchor := IndexOf(rest, '^');
      if anchor == |rest| then None
      else
        var candidate := rest[..anchor];
        if candidate == [] || '/' in candidate || '*' in candidate || '|' in candidate then None
        else Some(candidate)
  }

  function Candidate(format: SourceFormat, line: string): Option<string> {
    match format
    case PlainDomain => PlainCandidate(line)
    case AdblockNetRules => AdblockCandidate(line)
  }

  /** The candidate texts of some lines, in order. */
  function Candidates(format: SourceFormat, lines: seq<string>): seq<string> {
    if lines == [] then []
    else
      var tail := Candidates(format, lines[1..]);
      match Candidate(format, lines[0])
      case None => tail
      case Some(c) => [c] + tail
  }

  /** A candidate becomes an entry when it normalises to a name that is not a public suffix. */
  function Entry(lib: Library, candidate: string): Option<string> {
    match lib.normalize(candidate)
    case None => None
    case Some(domain) => if lib.isPublicSuffix(domain) then None else Some(domain)
  }

  function Entries(lib: Library, candidates: seq<string>): seq<string> {
    if candidates == [] then []
    else
      var tail := Entries(lib, candidates[1..]);
      match Entry(lib, candidates[0])
      case None => tail
      case Some(domain) => [domain] + tail
  }

  function HashAll(lib: Library, seed: Seed, domains: seq<string>): seq<Hash> {
    seq<Hash>(|domains|, i requires 0 <= i < |domains| => lib.hashOne(seed, domains[i]))
  }

  function BodyCandidates(format: SourceFormat, body: string): seq<string> {
    Candidates(format, Lines(body))
  }

  /** The domains a body lists, in order and with repetitions. */
  function BodyEntries(lib: Library, format: SourceFormat, body: string): seq<string> {
    Entries(lib, BodyCandidates(format, body))
  }

  function BodyHashes(lib: Library, format: SourceFormat, seed: Seed, body: string): seq<Hash> {
    HashAll(lib, seed, BodyEntries(lib, format, body))
  }

  // ---------- the streaming parsers ----------

  /** The two buffers every parser pushes into: hashes so far and candidate lines counted. */
  class HashBuffer {
    var hashes: seq<Hash>
    var candidates: nat

    constructor ()
      ensures hashes == [] && candidates == 0
    {
      hashes, candidates := [], 0;
    }

    method PushNormalized(lib: Library, candidate: string, seed: Seed)
      modifies this
      ensures candidates == old(candidates) + 1
      ensures hashes == old(hashes) + HashAll(lib, seed, Entries(lib, [candidate]))
      ensures match lib.normalize(candidate)
              case Some(d) =>
                hashes == if lib.isPublicSuffix(d) then old(hashes) else old(hashes) + [lib.hashOne(seed, d)]
              case None => hashes == old(hashes)
    {
      candidates := candidates + 1;
      match lib.normalize(candidate) {
        case None =>
        case Some(domain) =>
          if lib.isPublicSuffix(domain) {
            return;
          }
          hashes := hashes + [lib.hashOne(seed, domain)];
      }
    }

    method HashPlainDomains(lib: Library, body: string, seed: Seed)
      modifies this
      ensures candidates == old(candidates) + |BodyCandidates(PlainDomain, body)|
      ensures hashes == old(hashes) + BodyHashes(lib, PlainDomain, seed, body)
    {
      var lines := Lines(body);
      for i := 0 to |lines|
        invariant candidates == old(candidates) + |Candidates(PlainDomain, lines[..i])|
        invariant hashes == old(hashes) + LineHashes(lib, PlainDomain, seed, lines, i)
      {
        OneMoreLine(lib, PlainDomain, seed, lines, i, old(hashes));
        var entry := Trim(lines[i]);
        if entry == [] || entry[0] == '#' {
          continue;
        }
        PushNormalized(lib, entry, seed);
      }
      assert lines[..|lines|] == lines;
    }

    method HashAdblockDomains(lib: Library, body: string, seed: Seed)
      modifies this
      ensures candidates == old(candidates) + |BodyCandidates(AdblockNetRules, body)|
      ensures hashes == old(hashes) + BodyHashes(lib, AdblockNetRules, seed, body)
    {
      var lines := Lines(body);
      for i := 0 to |lines|
        invariant candidates == old(candidates) + |Candidates(AdblockNetRules, lines[..i])|
        invariant hashes == old(hashes) + LineHashes(lib, AdblockNetRules, seed, lines, i)
      {
        OneMoreLine(lib, AdblockNetRules, seed, lines, i, old(hashes));
        var rule := Trim(lines[i]);
        if rule == [] || rule[0] == '!' || rule[0] == '[' {
          continue;
        }
        if StartsWith(rule, "@@") {
          continue;
        }
        if !StartsWith(rule, "||") {
          continue;
        }
        var rest := rule[2..];
        var anchor := IndexOf(rest, '^');
        if anchor == |rest| {
          continue;
        }
        var candidate := rest[..anchor];
        if candidate == [] || '/' in candidate || '*' in candidate || '|' in candidate {
          continue;
        }
        PushNormalized(lib, candidate, seed);
      }
      assert lines[..|lines|] == lines;
    }

    /** `hash_source_body`: the parser for the format. */
    method HashSourceBody(lib: Library, format: SourceFormat, body: string, seed: Seed)
      modifies this
      ensures candidates == old(candidates) + |BodyCandidates(format, body)|
      ensures hashes == old(hashes) + BodyHashes(lib, format, seed, body)
    {
      match format {
        case PlainDomain => HashPlainDomains(lib, body, seed);
        case AdblockNetRules => HashAdblockDomains(lib, body, seed);
      }
    }

    /** `finalize`: sort, then drop repeated neighbours. */
    method Finalize()
      modifies this`hashes
      ensures hashes == Finalised(old(hashes))
    {
      ghost var finalised := Finalised(hashes);
      hashes := Sort(hashes);
      hashes := Dedup(hashes);
    }
  }

  lemma {:induction false} CandidatesOfConcat(format: SourceFormat, a: seq<string>, b: seq<string>)
    ensures Candidates(format, a + b) == Candidates(format, a) + Candidates(format, b)
  {
    if a == [] {
      assert a + b == b;
    } else {
      assert (a + b)[1..] == a[1..] + b;
      CandidatesOfConcat(format, a[1..], b);
    }
  }

  lemma {:induction false} EntriesOfConcat(lib: Library, a: seq<string>, b: seq<string>)
    ensures Entries(lib, a + b) == Entries(lib, a) + Entries(lib, b)
  {
    if a == [] {
      assert a + b == b;
    } else {
      assert (a + b)[1..] == a[1..] + b;
      EntriesOfConcat(lib, a[1..], b);
    }
  }

  /** A candidate is an entry under its normal form, or not at all. */
  lemma EntryOfOneCandidate(lib: Library, candidate: string)
    ensures match lib.normalize(candidate)
            case Some(d) => Entries(lib, [candidate]) == if lib.isPublicSuffix(d) then [] else [d]
            case None => Entries(lib, [candidate]) == []
  {
    assert [candidate][1..] == [];
  }

  /** A domain is listed exactly if some candidate normalises to it and it is no public suffix. */
  lemma {:induction false} ListedIff(lib: Library, candidates: seq<string>, d: string)
    ensures d in Entries(lib, candidates)
       <==> !lib.isPublicSuffix(d) && exists c :: c in candidates && lib.normalize(c) == Some(d)
    decreases |candidates|
  {
    if candidates != [] {
      var first, rest := candidates[0], candidates[1..];
      ListedIff(lib, rest, d);
      EntryOfOneCandidate(lib, first);
      assert candidates == [first] + rest;
      EntriesOfConcat(lib, [first], rest);
    }
  }

  lemma BodyListsIff(lib: Library, format: SourceFormat, body: string, d: string)
    ensures d in BodyEntries(lib, format, body)
       <==> !lib.isPublicSuffix(d) && exists c :: c in BodyCandidates(format, body) && lib.normalize(c) == Some(d)
  {
    ListedIff(lib, BodyCandidates(format, body), d);
  }

  lemma HashAllOfConcat(lib: Library, seed: Seed, a: seq<string>, b: seq<string>)
    ensures HashAll(lib, seed, a + b) == HashAll(lib, seed, a) + HashAll(lib, seed, b)
  {
  }

  lemma CandidatesOneMore(format: SourceFormat, lines: seq<string>, line: string)
    ensures Candidates(format, lines + [line])
         == Candidates(format, lines) + match Candidate(format, line) case None => [] case Some(c) => [c]
  {
    CandidatesOfConcat(format, lines, [line]);
    assert [line][1..] == [];
  }

  /** The hashes of the entries among the first `i` lines. */
  function LineHashes(lib: Library, format: SourceFormat, seed: Seed, lines: seq<string>, i: nat): seq<Hash>
    requires i <= |lines|
  {
    HashAll(lib, seed, Entries(lib, Candidates(format, lines[..i])))
  }

  /** What one more line adds to hashes that begin with `kept`. */
  lemma OneMoreLine(lib: Library, format: SourceFormat, seed: Seed, lines: seq<string>, i: nat, kept: seq<Hash>)
    requires i < |lines|
    ensures match Candidate(format, lines[i])
            case None =>
              && |Candidates(format, lines[..i + 1])| == |Candidates(format, lines[..i])|
              && kept + LineHashes(lib, format, seed, lines, i + 1) == kept + LineHashes(lib, format, seed, lines, i)
            case Some(c) =>
              && |Candidates(format, lines[..i + 1])| == |Candidates(format, lines[..i])| + 1
              && kept + LineHashes(lib, format, seed, lines, i + 1)
                   == kept + LineHashes(lib, format, seed, lines, i) + HashAll(lib, seed, Entries(lib, [c]))
  {
    var now := Candidates(format, lines[..i]);
    assert lines[..i + 1] == lines[..i] + [lines[i]];
    CandidatesOneMore(format, lines[..i], lines[i]);
    match Candidate(format, lines[i])
    case None => NothingAfter(now);
    case Some(c) =>
      EntriesOfConcat(lib, now, [c]);
      HashAllOfConcat(lib, seed, Entries(lib, now), Entries(lib, [c]));
      Assoc(kept, HashAll(lib, seed, Entries(lib, now)), HashAll(lib, seed, Entries(lib, [c])));
  }

  // ---------- the ratio and canary gates ----------

  datatype ValidationFailure =
    | LowParseSuccessRatio(accepted: nat, candidates: nat)
    | CanaryDomainsPresent(count: nat)
    | SuspiciousCountDelta(previous: nat, current: nat)

  const BLOCKLIST_CANARY_DOMAINS: seq<string> := [
    "google.com", "cloudflare.com", "amazonaws.com", "microsoft.com", "apple.com", "github.com",
    "wikipedia.org", "facebook.com", "youtube.com", "letsencrypt.org", "fastly.net", "akamai.net"]

  const MIN_CANARY_HITS_TO_REJECT: nat := 2

  const MIN_PARSE_SUCCESS_RATIO: real := 0.5

  /** The canary domains in normal form. */
  function CanaryNames(lib: Library): set<string> {
    set d | d in BLOCKLIST_CANARY_DOMAINS && lib.normalize(d).Some? :: lib.normalize(d).value
  }

  /** A canary is known by the normal form of its name, if it has one. */
  lemma CanaryNamesIff(lib: Library, name: string)
    ensures name in CanaryNames(lib) <==> exists d :: d in BLOCKLIST_CANARY_DOMAINS && lib.normalize(d) == Some(name)
  {
  }

  function CanaryHashes(lib: Library, seed: Seed): set<Hash> {
    set name | name in CanaryNames(lib) :: lib.hashOne(seed, name)
  }

  /** How many positions of a list hold a member of a set. */
  function CountIn<T(==)>(s: seq<T>, among: set<T>): nat {
    if s == [] then 0 else (if s[0] in among then 1 else 0) + CountIn(s[1..], among)
  }

  function ValidateHashes(lib: Library, hashes: seq<Hash>, candidates: nat, seed: Seed): Result<(), ValidationFailure> {
    if candidates > 0 && |hashes| as real / candidates as real < MIN_PARSE_SUCCESS_RATIO then
      Failure(LowParseSuccessRatio(|hashes|, candidates))
    else
      var hits := CountIn(hashes, CanaryHashes(lib, seed));
      if hits >= MIN_CANARY_HITS_TO_REJECT then Failure(CanaryDomainsPresent(hits)) else Success(())
  }

  /** What the two gates are for, with no hash in sight: at least half of the candidate lines are
      domains, and at most one listed domain is a canary (repetitions count). */
  ghost predicate PassesGates(lib: Library, format: SourceFormat, body: string) {
    && 2 * |BodyEntries(lib, format, body)| >= |BodyCandidates(format, body)|
    && CountIn(BodyEntries(lib, format, body), CanaryNames(lib)) < MIN_CANARY_HITS_TO_REJECT
  }

  function ValidateBody(lib: Library, format: SourceFormat, body: string, seed: Seed): Result<(), ValidationFailure> {
    ValidateHashes(lib, BodyHashes(lib, format, seed, body), |BodyCandidates(format, body)|, seed)
  }

  /** No listed domain shares its hash with a canary it is not equal to. */
  ghost predicate NoCanaryCollision(lib: Library, seed: Seed, entries: seq<string>) {
    forall e, c :: e in entries && c in CanaryNames(lib) && lib.hashOne(seed, e) == lib.hashOne(seed, c) ==> e == c
  }

  lemma RatioIsInteger(accepted: nat, candidates: nat)
    requires candidates > 0
    ensures accepted as real / candidates as real < MIN_PARSE_SUCCESS_RATIO <==> 2 * accepted < candidates
  {
    var ratio := accepted as real / candidates as real;
    assert ratio * candidates as real == accepted as real;
    if 2 * accepted < candidates {
      assert (ratio - 0.5) * candidates as real < 0.0;
    } else {
      assert (ratio - 0.5) * candidates as real >= 0.0;
    }
  }

  /** The largest count that a 64-bit float holds exactly along with every smaller one. */
  const EXACT_COUNTS := 0x20_0000_0000_0000
  /** The largest 64-bit float below one half. */
  const BELOW_HALF: real := 0.5 - 1.0 / 18014398509481984.0

  lemma RatioBelowHalf(accepted: nat, candidates: nat)
    requires 2 * accepted < candidates <= EXACT_COUNTS
    ensures accepted as real / candidates as real <= BELOW_HALF
  {
    var n, ratio := candidates as real, accepted as real / candidates as real;
    assert ratio * n == accepted as real;
    assert (0.5 - ratio) * n >= 0.5;
    assert (1.0 / 18014398509481984.0) * n <= 0.5;
    assert (BELOW_HALF - ratio) * n >= 0.0;
  }

  /** Dividing 64-bit floats gives the verdict of exact division: this needs of the rounding that it
      is monotone and leaves one half and the float just below it alone. */
  lemma RoundedRatioGivesTheSameVerdict(round: real -> real, accepted: nat, candidates: nat)
    requires 0 < candidates <= EXACT_COUNTS
    requires forall x, y :: x <= y ==> round(x) <= round(y)
    requires round(0.5) == 0.5 && round(BELOW_HALF) == BELOW_HALF
    ensures round(accepted as real / candidates as real) < MIN_PARSE_SUCCESS_RATIO <==> 2 * accepted < candidates
  {
    var ratio := accepted as real / candidates as real;
    RatioIsInteger(accepted, candidates);
    if 2 * accepted < candidates {
      RatioBelowHalf(accepted, candidates);
      assert round(ratio) <= round(BELOW_HALF);
    } else {
      assert round(0.5) <= round(ratio);
    }
  }

  lemma {:induction false} EntriesNeverOutnumberCandidates(lib: Library, candidates: seq<string>)
    ensures |Entries(lib, candidates)| <= |candidates|
  {
    if candidates != [] {
      EntriesNeverOutnumberCandidates(lib, candidates[1..]);
    }
  }

  /** Hashing can only add canary hits, and adds none without a collision. */
  lemma {:induction false} CanaryHitsCountEntries(lib: Library, seed: Seed, entries: seq<string>)
    ensures CountIn(HashAll(lib, seed, entries), CanaryHashes(lib, seed)) >= CountIn(entries, CanaryNames(lib))
    ensures NoCanaryCollision(lib, seed, entries) ==>
              CountIn(HashAll(lib, seed, entries), CanaryHashes(lib, seed)) == CountIn(entries, CanaryNames(lib))
  {
    if entries != [] {
      CanaryHitsCountEntries(lib, seed, entries[1..]);
      assert HashAll(lib, seed, entries)[1..] == HashAll(lib, seed, entries[1..]);
      if NoCanaryCollision(lib, seed, entries) {
        assert forall e :: e in entries[1..] ==> e in entries;
        assert entries[0] in entries;
      }
    }
  }

  /** A body that validates passes both gates whatever the hash does; with no collision on a
      canary, exactly the bodies that pass the gates validate. */
  lemma ValidationEnforcesTheGates(lib: Library, format: SourceFormat, body: string, seed: Seed)
    ensures ValidateBody(lib, format, body, seed).Success? ==> PassesGates(lib, format, body)
    ensures NoCanaryCollision(lib, seed, BodyEntries(lib, format, body)) ==>
              (ValidateBody(lib, format, body, seed).Success? <==> PassesGates(lib, format, body))
  {
    var candidates := BodyCandidates(format, body);
    var entries := BodyEntries(lib, format, body);
    CanaryHitsCountEntries(lib, seed, entries);
    if |candidates| > 0 {
      RatioIsInteger(|entries|, |candidates|);
    }
  }

  // ---------- sort and deduplicate ----------

  function Members(s: seq<Hash>): set<Hash> {
    set h | h in s
  }

  predicate Ascending(s: seq<Hash>) {
    s != [] ==> (forall x :: x in s[1..] ==> s[0] <= x) && Ascending(s[1..])
  }

  predicate StrictlyAscending(s: seq<Hash>) {
    s != [] ==> (forall x :: x in s[1..] ==> s[0] < x) && StrictlyAscending(s[1..])
  }

  function Insert(h: Hash, s: seq<Hash>): seq<Hash> {
    if s == [] || h <= s[0] then [h] + s else [s[0]] + Insert(h, s[1..])
  }

  /** `sort_unstable`, by insertion. */
  function Sort(s: seq<Hash>): seq<Hash> {
    if s == [] then [] else Insert(s[0], Sort(s[1..]))
  }

  /** `dedup`: drops an element equal to its successor. */
  function Dedup(s: seq<Hash>): seq<Hash> {
    if |s| < 2 then s
    else if s[0] == s[1] then Dedup(s[1..])
    else [s[0]] + Dedup(s[1..])
  }

  /** A finalised listing of the members of `s`. */
  function Finalised(s: seq<Hash>): (r: seq<Hash>)
    ensures StrictlyAscending(r) && Members(r) == Members(s)
  {
    SortKeepsMembers(s);
    DedupKeepsMembers(Sort(s));
    Dedup(Sort(s))
  }

  lemma MembersOfCons(h: Hash, s: seq<Hash>)
    ensures Members([h] + s) == Members(s) + {h}
    ensures ([h] + s)[1..] == s
  {
    assert forall x :: x in [h] + s <==> x == h || x in s;
  }

  lemma MembersOfTail(s: seq<Hash>)
    requires s != []
    ensures Members(s) == Members(s[1..]) + {s[0]}
  {
    assert [s[0]] + s[1..] == s;
    MembersOfCons(s[0], s[1..]);
  }

  lemma {:induction false} InsertKeepsAscending(h: Hash, s: seq<Hash>)
    requires Ascending(s)
    ensures Ascending(Insert(h, s)) && Members(Insert(h, s)) == Members(s) + {h}
  {
    if s == [] || h <= s[0] {
      MembersOfCons(h, s);
      if s != [] { MembersOfTail(s); }
      assert forall x :: x in s ==> x in Members(s);
    } else {
      InsertKeepsAscending(h, s[1..]);
      MembersOfTail(s);
      MembersOfCons(s[0], Insert(h, s[1..]));
      assert forall x :: x in Insert(h, s[1..]) ==> x in Members(Insert(h, s[1..]));
    }
  }

  lemma {:induction false} SortKeepsMembers(s: seq<Hash>)
    ensures Ascending(Sort(s)) && Members(Sort(s)) == Members(s)
  {
    if s != [] {
      SortKeepsMembers(s[1..]);
      InsertKeepsAscending(s[0], Sort(s[1..]));
      MembersOfTail(s);
    }
  }

  lemma {:induction false} DedupKeepsMembers(s: seq<Hash>)
    requires Ascending(s)
    ensures StrictlyAscending(Dedup(s)) && Members(Dedup(s)) == Members(s)
  {
    if |s| >= 2 {
      DedupKeepsMembers(s[1..]);
      MembersOfTail(s);
      MembersOfTail(s[1..]);
      if s[0] != s[1] {
        MembersOfCons(s[0], Dedup(s[1..]));
        assert forall x :: x in Dedup(s[1..]) ==> x in Members(Dedup(s[1..]));
      }
    }
  }

  /** A set of hashes has only one strictly ascending listing, so neither the order in which the
      sources were read nor repetitions between them can be seen in a finalised vector. */
  lemma {:induction false} StrictlyAscendingListingIsUnique(a: seq<Hash>, b: seq<Hash>)
    requires StrictlyAscending(a) && StrictlyAscending(b) && Members(a) == Members(b)
    ensures a == b
  {
    assert a != [] ==> a[0] in Members(a);
    assert b != [] ==> b[0] in Members(b);
    if a != [] && b != [] {
      MembersOfTail(a);
      MembersOfTail(b);
      assert a[0] == b[0];
      assert Members(a[1..]) == Members(a) - {a[0]};
      assert Members(b[1..]) == Members(b) - {b[0]};
      StrictlyAscendingListingIsUnique(a[1..], b[1..]);
      assert a == [a[0]] + a[1..] && b == [b[0]] + b[1..];
    }
  }

  lemma {:induction false} StrictlyAscendingByIndex(s: seq<Hash>)
    requires StrictlyAscending(s)
    ensures forall i, j :: 0 <= i < j < |s| ==> s[i] < s[j]
  {
    if s != [] {
      StrictlyAscendingByIndex(s[1..]);
      forall i, j | 0 <= i < j < |s|
        ensures s[i] < s[j]
      {
        assert s[1..][j - 1] == s[j] && s[j] in s[1..];
        if i > 0 {
          assert s[1..][i - 1] == s[i];
        }
      }
    }
  }
}

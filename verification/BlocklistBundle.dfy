/** The lookup into a published bundle (`BlocklistBundleState::matches_domain`): a walk over the
    suffixes of the queried name, each hashed and searched in a sorted vector, against the plain
    set of listed domains. */
module BlocklistBundle {

  import opened Wrappers
  import opened DomainSuffix
  import opened BlocklistDownload

  /** `binary_search(..).is_ok()` on a finalised vector. */
  method BinarySearch(domains: seq<Hash>, key: Hash) returns (found: bool)
    requires StrictlyAscending(domains)
    ensures found <==> key in domains
  {
    StrictlyAscendingByIndex(domains);
    var lo, hi := 0, |domains|;
    while lo < hi
      invariant 0 <= lo <= hi <= |domains|
      invariant forall i :: 0 <= i < lo ==> domains[i] < key
      invariant forall i :: hi <= i < |domains| ==> key < domains[i]
    {
      var mid := (lo + hi) / 2;
      if domains[mid] < key {
        lo := mid + 1;
      } else if key < domains[mid] {
        hi := mid;
      } else {
        return true;
      }
    }
    found := false;
  }

  /** Some suffix of `name` with a dot in it hashes into `domains`. */
  ghost predicate WalkHits(lib: Library, seed: Seed, domains: set<Hash>, name: string) {
    exists candidate :: ReachedByWalk(name, candidate) && lib.hashOne(seed, candidate) in domains
  }

  /** What the lookup answers: a name that does not normalise is never blocked. */
  ghost predicate LookupBlocks(lib: Library, seed: Seed, domains: set<Hash>, query: string) {
    lib.normalize(query).Some? && WalkHits(lib, seed, domains, lib.normalize(query).value)
  }

  lemma WalkHitsFromTheFirstLabelOn(lib: Library, seed: Seed, domains: set<Hash>, name: string)
    ensures WalkHits(lib, seed, domains, name)
       <==> HasDot(name) && (lib.hashOne(seed, name) in domains || WalkHits(lib, seed, domains, AfterFirstDot(name)))
  {
    if HasDot(name) {
      if lib.hashOne(seed, name) in domains {
        assert ReachedByWalk(name, name);
      }
      if WalkHits(lib, seed, domains, AfterFirstDot(name)) {
        var c :| ReachedByWalk(AfterFirstDot(name), c) && lib.hashOne(seed, c) in domains;
        assert ReachedByWalk(name, c);
      }
    }
  }

  method MatchesDomain(lib: Library, seed: Seed, domains: seq<Hash>, domain: string) returns (blocked: bool)
    requires StrictlyAscending(domains)
    ensures blocked <==> LookupBlocks(lib, seed, Members(domains), domain)
  {
    match lib.normalize(domain) {
      case None =>
        return false;
      case Some(normalized) =>
        var candidate := normalized;
        WalkHitsFromTheFirstLabelOn(lib, seed, Members(domains), candidate);
        while HasDot(candidate)
          invariant WalkHits(lib, seed, Members(domains), normalized)
                    <==> WalkHits(lib, seed, Members(domains), candidate)
          invariant WalkHits(lib, seed, Members(domains), candidate) ==> HasDot(candidate)
          decreases |candidate|
        {
          var rest := AfterFirstDot(candidate);
          var found := BinarySearch(domains, lib.hashOne(seed, candidate));
          WalkHitsFromTheFirstLabelOn(lib, seed, Members(domains), candidate);
          if found {
            return true;
          }
          candidate := rest;
          WalkHitsFromTheFirstLabelOn(lib, seed, Members(domains), candidate);
        }
        blocked := false;
    }
  }

  // ---------- agreement with the plain set of domains ----------

  /** Membership in the plain set: the name is a listed domain of two or more labels, or is below
      one. */
  ghost predicate PlainSetBlocks(lib: Library, entries: set<string>, query: string) {
    && lib.normalize(query).Some?
    && exists e :: e in entries && HasDot(e) && IsAtOrBelow(lib.normalize(query).value, e)
  }

  function HashSet(lib: Library, seed: Seed, entries: set<string>): set<Hash> {
    set e | e in entries :: lib.hashOne(seed, e)
  }

  /** A suffix of the name with a dot in it shares its hash with a listed domain it is not. */
  ghost predicate Collides(lib: Library, seed: Seed, entries: set<string>, name: string) {
    exists candidate, e ::
      ReachedByWalk(name, candidate) && e in entries && candidate != e
      && lib.hashOne(seed, candidate) == lib.hashOne(seed, e)
  }

  /** Every listed domain of two or more labels is blocked together with everything below it,
      whatever the hash does; anything else is blocked only by a hash collision. */
  lemma LookupAgreesWithPlainSet(lib: Library, seed: Seed, entries: set<string>, query: string)
    ensures PlainSetBlocks(lib, entries, query) ==> LookupBlocks(lib, seed, HashSet(lib, seed, entries), query)
    ensures LookupBlocks(lib, seed, HashSet(lib, seed, entries), query) ==>
              PlainSetBlocks(lib, entries, query) || Collides(lib, seed, entries, lib.normalize(query).value)
  {
    var domains := HashSet(lib, seed, entries);
    if PlainSetBlocks(lib, entries, query) {
      var name := lib.normalize(query).value;
      var e :| e in entries && HasDot(e) && IsAtOrBelow(name, e);
      WalkIsSuffixTestOnDottedDomains(name, e);
      assert lib.hashOne(seed, e) in domains;
    }
    if LookupBlocks(lib, seed, domains, query) {
      var name := lib.normalize(query).value;
      var c :| ReachedByWalk(name, c) && lib.hashOne(seed, c) in domains;
      var e :| e in entries && lib.hashOne(seed, e) == lib.hashOne(seed, c);
      WalkIsSuffixTestOnDottedDomains(name, c);
      if e == c {
        assert PlainSetBlocks(lib, entries, query);
      }
    }
  }

  /** With no collision the lookup is exactly plain suffix membership, and single-label entries
      could as well not be listed. */
  lemma LookupIsPlainSetWithoutCollisions(lib: Library, seed: Seed, entries: set<string>, query: string)
    requires lib.normalize(query).Some? ==> !Collides(lib, seed, entries, lib.normalize(query).value)
    ensures LookupBlocks(lib, seed, HashSet(lib, seed, entries), query) <==> PlainSetBlocks(lib, entries, query)
    ensures LookupBlocks(lib, seed, HashSet(lib, seed, entries), query)
       <==> LookupBlocks(lib, seed, HashSet(lib, seed, set e | e in entries && HasDot(e)), query)
  {
    var dotted := set e | e in entries && HasDot(e);
    LookupAgreesWithPlainSet(lib, seed, entries, query);
    LookupAgreesWithPlainSet(lib, seed, dotted, query);
    if PlainSetBlocks(lib, entries, query) {
      var e :| e in entries && HasDot(e) && IsAtOrBelow(lib.normalize(query).value, e);
      assert e in dotted;
    }
  }

  function Listed(lib: Library, format: SourceFormat, body: string): set<string> {
    set e | e in BodyEntries(lib, format, body)
  }

  /** The domains a body lists block what is at or below them. */
  ghost predicate BodyBlocks(lib: Library, format: SourceFormat, body: string, query: string) {
    && lib.normalize(query).Some?
    && exists c :: c in BodyCandidates(format, body) && BlocksAsListed(lib, c, lib.normalize(query).value)
  }

  /** The candidate is a domain of two or more labels, no public suffix, and the name is at or below it. */
  predicate BlocksAsListed(lib: Library, candidate: string, name: string) {
    match lib.normalize(candidate)
    case None => false
    case Some(d) => !lib.isPublicSuffix(d) && HasDot(d) && IsAtOrBelow(name, d)
  }

  /** From the lines of a body to the answer: without a collision a query is blocked exactly if it is at
      or below a domain the body lists, of two or more labels, that is no public suffix. */
  lemma BodyBlocksIff(lib: Library, format: SourceFormat, body: string, seed: Seed, query: string)
    requires lib.normalize(query).Some? ==>
               !Collides(lib, seed, Listed(lib, format, body), lib.normalize(query).value)
    ensures LookupBlocks(lib, seed, Members(BodyHashes(lib, format, seed, body)), query)
       <==> BodyBlocks(lib, format, body, query)
  {
    var entries := Listed(lib, format, body);
    MembersOfHashAll(lib, seed, BodyEntries(lib, format, body));
    LookupIsPlainSetWithoutCollisions(lib, seed, entries, query);
    if PlainSetBlocks(lib, entries, query) {
      var e :| e in entries && HasDot(e) && IsAtOrBelow(lib.normalize(query).value, e);
      BodyListsIff(lib, format, body, e);
      var c :| c in BodyCandidates(format, body) && lib.normalize(c) == Some(e);
      assert BlocksAsListed(lib, c, lib.normalize(query).value);
    }
    if BodyBlocks(lib, format, body, query) {
      var c :| c in BodyCandidates(format, body) && BlocksAsListed(lib, c, lib.normalize(query).value);
      BodyListsIff(lib, format, body, lib.normalize(c).value);
    }
  }

  /** A listed public suffix blocks none of the names below it: a body that lists nothing else blocks
      nothing without a collision, whoever asks. */
  lemma PublicSuffixesBlockNothing(lib: Library, format: SourceFormat, body: string, seed: Seed, query: string)
    requires forall c :: c in BodyCandidates(format, body) && lib.normalize(c).Some? ==>
               lib.isPublicSuffix(lib.normalize(c).value)
    ensures !LookupBlocks(lib, seed, Members(BodyHashes(lib, format, seed, body)), query)
  {
    forall d ensures d !in BodyEntries(lib, format, body) {
      BodyListsIff(lib, format, body, d);
    }
    assert Listed(lib, format, body) == {};
    BodyBlocksIff(lib, format, body, seed, query);
  }

  /** A public top-level name is never blocked, not even by a collision: the walk ends before it. */
  lemma BareNamesAreNeverBlocked(lib: Library, seed: Seed, domains: set<Hash>, query: string)
    requires lib.normalize(query).Some? && !HasDot(lib.normalize(query).value)
    ensures !LookupBlocks(lib, seed, domains, query)
  {
    WalkHitsFromTheFirstLabelOn(lib, seed, domains, lib.normalize(query).value);
  }

  lemma MembersOfHashAll(lib: Library, seed: Seed, entries: seq<string>)
    ensures Members(HashAll(lib, seed, entries)) == HashSet(lib, seed, set e | e in entries)
  {
    var hashes := HashAll(lib, seed, entries);
    forall h | h in Members(hashes)
      ensures h in HashSet(lib, seed, set e | e in entries)
    {
      var i :| 0 <= i < |hashes| && hashes[i] == h;
      assert entries[i] in entries;
    }
    forall e | e in entries
      ensures lib.hashOne(seed, e) in Members(hashes)
    {
      var i :| 0 <= i < |entries| && entries[i] == e;
      assert hashes[i] in hashes;
    }
  }

  /** Two source lists with the same domains finalise to the same vector: neither the order of
      the sources nor repetitions within or between them matter. */
  lemma OrderAndDuplicatesDoNotMatter(lib: Library, seed: Seed, a: seq<string>, b: seq<string>,
                                      fa: seq<Hash>, fb: seq<Hash>)
    requires (set e | e in a) == (set e | e in b)
    requires StrictlyAscending(fa) && Members(fa) == Members(HashAll(lib, seed, a))
    requires StrictlyAscending(fb) && Members(fb) == Members(HashAll(lib, seed, b))
    ensures fa == fb
  {
    MembersOfHashAll(lib, seed, a);
    MembersOfHashAll(lib, seed, b);
    StrictlyAscendingListingIsUnique(fa, fb);
  }
}

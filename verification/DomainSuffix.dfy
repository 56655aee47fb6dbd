/** The three suffix tests of the resolver: the cache's key test, the bundle's walk from label to
    label, and the country-code test on the last label, proved to be one relation. */
module DomainSuffix {

  import opened Strings

  predicate HasDot(s: string) {
    '.' in s
  }

  /** `split_once('.')`: the text after the first dot. */
  function AfterFirstDot(s: string): (rest: string)
    requires HasDot(s)
    ensures |rest| < |s|
  {
    s[IndexOf(s, '.') + 1..]
  }

  /** The cache's test: the key itself, or any name below it when the entry is a wildcard. */
  predicate KeyMatches(key: string, domain: string, isWildcard: bool) {
    key == domain || (isWildcard && EndsWith(key, "." + domain))
  }

  /** `domain` is a suffix of `key` at a label boundary. */
  predicate IsAtOrBelow(key: string, domain: string) {
    KeyMatches(key, domain, true)
  }

  /** `domain` is reached from `key` by repeatedly dropping the text up to the first dot. */
  predicate ReachedByDropping(key: string, domain: string)
    decreases |key|
  {
    key == domain || (HasDot(key) && ReachedByDropping(AfterFirstDot(key), domain))
  }

  /** The walk of the bundle lookup, which stops before a candidate without a dot. */
  predicate ReachedByWalk(key: string, domain: string)
    decreases |key|
  {
    HasDot(key) && (key == domain || ReachedByWalk(AfterFirstDot(key), domain))
  }

  /** `rsplit('.').next()`: the last label. */
  function LastLabel(s: string): string
    decreases |s|
  {
    if HasDot(s) then LastLabel(AfterFirstDot(s)) else s
  }

  /** `is_blocked`: the last label equals one of the codes, up to ASCII letter case. */
  predicate IsBlocked(normalizedDomain: string, blocked: seq<string>) {
    exists code :: code in blocked && ToAsciiLower(code) == ToAsciiLower(LastLabel(normalizedDomain))
  }

  // ---------- the tests coincide ----------

  lemma EndsWithDotSuffixPastFirstDot(key: string, domain: string)
    requires HasDot(key)
    ensures EndsWith(key, "." + domain)
       <==> AfterFirstDot(key) == domain || EndsWith(AfterFirstDot(key), "." + domain)
  {
    var p := IndexOf(key, '.');
    var rest := AfterFirstDot(key);
    var q := |key| - |domain| - 1;
    if EndsWith(key, "." + domain) {
      assert key[q..][0] == '.' && key[q + 1..] == domain;
      if p < q {
        assert rest[q - p - 1..] == key[q..];
      }
    }
    if rest == domain {
      assert key[p..] == "." + domain;
    } else if EndsWith(rest, "." + domain) {
      assert rest[|rest| - |domain| - 1..] == key[q..];
    }
  }

  lemma OnlyDottedKeysEndWithDotSuffix(key: string, domain: string)
    ensures EndsWith(key, "." + domain) ==> HasDot(key)
  {
    if EndsWith(key, "." + domain) {
      assert key[|key| - |domain| - 1..][0] == '.';
    }
  }

  /** The cache's string test and the repeated dropping of labels agree on all strings. */
  lemma {:induction false} SuffixTestIsReachability(key: string, domain: string)
    ensures IsAtOrBelow(key, domain) <==> ReachedByDropping(key, domain)
    decreases |key|
  {
    if HasDot(key) {
      EndsWithDotSuffixPastFirstDot(key, domain);
      SuffixTestIsReachability(AfterFirstDot(key), domain);
    } else {
      OnlyDottedKeysEndWithDotSuffix(key, domain);
    }
  }

  /** The bundle's walk is the same relation restricted to domains with a dot. */
  lemma {:induction false} WalkIsSuffixTestOnDottedDomains(key: string, domain: string)
    ensures ReachedByWalk(key, domain) <==> HasDot(domain) && IsAtOrBelow(key, domain)
    decreases |key|
  {
    SuffixTestIsReachability(key, domain);
    if HasDot(key) {
      WalkIsSuffixTestOnDottedDomains(AfterFirstDot(key), domain);
      SuffixTestIsReachability(AfterFirstDot(key), domain);
    }
  }

  /** On dot-free domains the relation says that the last label is the domain. */
  lemma {:induction false} LastLabelIsSuffixTestOnBareLabels(key: string, bare: string)
    ensures !HasDot(LastLabel(key))
    ensures !HasDot(bare) ==> (IsAtOrBelow(key, bare) <==> LastLabel(key) == bare)
    decreases |key|
  {
    SuffixTestIsReachability(key, bare);
    if HasDot(key) {
      LastLabelIsSuffixTestOnBareLabels(AfterFirstDot(key), bare);
      SuffixTestIsReachability(AfterFirstDot(key), bare);
    }
  }

  lemma LowerKeepsDots(s: string)
    ensures HasDot(ToAsciiLower(s)) <==> HasDot(s)
    ensures IndexOf(ToAsciiLower(s), '.') == IndexOf(s, '.')
  {
    var l := ToAsciiLower(s);
    assert forall i :: 0 <= i < |s| ==> (l[i] == '.' <==> s[i] == '.');
    var p := IndexOf(s, '.');
    if p < |s| {
      assert l[p] == '.';
      IndexOfIs(l, '.', p);
    } else {
      assert forall i :: 0 <= i < |s| ==> l[i] != '.';
      assert '.' !in l;
      IndexOfAbsent(l, '.');
    }
  }

  lemma {:induction false} LastLabelOfLower(s: string)
    ensures LastLabel(ToAsciiLower(s)) == ToAsciiLower(LastLabel(s))
    decreases |s|
  {
    LowerKeepsDots(s);
    if HasDot(s) {
      assert AfterFirstDot(ToAsciiLower(s)) == ToAsciiLower(AfterFirstDot(s));
      LastLabelOfLower(AfterFirstDot(s));
    }
  }

  /** The country-code test is the dot-free case of the relation, up to letter case: a code with
      a dot in it never blocks anything. */
  lemma CountryCodeTestIsSuffixTest(domain: string, blocked: seq<string>)
    ensures IsBlocked(domain, blocked)
       <==> exists code :: code in blocked && !HasDot(code) && IsAtOrBelow(ToAsciiLower(domain), ToAsciiLower(code))
  {
    LastLabelOfLower(domain);
    forall code | code in blocked
      ensures ToAsciiLower(code) == ToAsciiLower(LastLabel(domain))
         <==> !HasDot(code) && IsAtOrBelow(ToAsciiLower(domain), ToAsciiLower(code))
    {
      LowerKeepsDots(code);
      LastLabelIsSuffixTestOnBareLabels(ToAsciiLower(domain), ToAsciiLower(code));
    }
  }
}

/** The two published list formats describe the same lists: how bodies decompose into lines, and
    what may be inserted into a body without being noticed. */
module BlocklistFormats {

  import opened Wrappers
  import opened Strings
  import opened BlocklistDownload

  /** A body that ends where a line ends. */
  predicate EndsAtLineEnd(body: string) {
    body == [] || body[|body| - 1] == '\n'
  }

  lemma IndexOfInConcat(a: string, b: string, c: char)
    ensures IndexOf(a + b, c) == if IndexOf(a, c) < |a| then IndexOf(a, c) else |a| + IndexOf(b, c)
  {
    if a == [] {
      assert a + b == b;
    } else if a[0] != c {
      assert (a + b)[1..] == a[1..] + b;
      IndexOfInConcat(a[1..], b, c);
    }
  }

  lemma {:induction false} LinesOfConcat(a: string, b: string)
    requires EndsAtLineEnd(a)
    ensures Lines(a + b) == Lines(a) + Lines(b)
    decreases |a|
  {
    if a == [] {
      assert a + b == b;
    } else {
      var i := IndexOf(a, '\n');
      IndexOfInConcat(a, b, '\n');
      assert (a + b)[..i] == a[..i];
      assert (a + b)[i + 1..] == a[i + 1..] + b;
      LinesOfConcat(a[i + 1..], b);
    }
  }

  lemma BodyCandidatesOfConcat(format: SourceFormat, a: string, b: string)
    requires EndsAtLineEnd(a)
    ensures BodyCandidates(format, a + b) == BodyCandidates(format, a) + BodyCandidates(format, b)
  {
    LinesOfConcat(a, b);
    CandidatesOfConcat(format, Lines(a), Lines(b));
  }

  lemma LinesOfOneLine(line: string)
    requires '\n' !in line
    ensures Lines(line + "\n") == [StripCarriageReturn(line)]
  {
    IndexOfAbsent(line, '\n');
    IndexOfInConcat(line, "\n", '\n');
    assert (line + "\n")[..|line|] == line;
    assert Lines((line + "\n")[|line| + 1..]) == [];
  }

  lemma CandidateIgnoresCarriageReturn(format: SourceFormat, line: string)
    ensures Candidate(format, StripCarriageReturn(line)) == Candidate(format, line)
  {
    if line != [] && line[|line| - 1] == '\r' {
      assert line == line[..|line| - 1] + ['\r'];
      TrimIgnoresTrailingWhitespace(line[..|line| - 1], '\r');
    }
  }

  /** The text of an adblock rule that blocks a name and all below it: two bars, the name, a caret, and
      whatever options. */
  ghost predicate IsRuleFor(rule: string, name: string) {
    && name != [] && '^' !in name && '/' !in name && '*' !in name && '|' !in name
    && exists options :: rule == "||" + (name + ("^" + options))
  }

  lemma RuleReads(name: string, options: string)
    requires '^' !in name
    ensures var rule := "||" + (name + ("^" + options));
            && rule[0] == '|' && rule[1] == '|' && rule[..2] == "||" && rule[2..] == name + ("^" + options)
            && IndexOf(rule[2..], '^') == |name| && rule[2..][..|name|] == name
  {
    var rest := name + ("^" + options);
    assert ("||" + rest)[2..] == rest;
    IndexOfAbsent(name, '^');
    IndexOfInConcat(name, "^" + options, '^');
  }

  lemma CandidateIsARule(rule: string, name: string) returns (options: string)
    requires rule != [] && StartsWith(rule, "||") && IndexOf(rule[2..], '^') < |rule| - 2
    requires name == rule[2..][..IndexOf(rule[2..], '^')]
    ensures '^' !in name && rule == "||" + (name + ("^" + options))
  {
    var rest, n := rule[2..], IndexOf(rule[2..], '^');
    options := rest[n + 1..];
    assert rule == rule[..2] + rest;
    assert rest == rest[..n] + ([rest[n]] + options);
  }

  lemma RuleGivesItsName(line: string, name: string, options: string)
    requires name != [] && '^' !in name && '/' !in name && '*' !in name && '|' !in name
    requires Trim(line) == "||" + (name + ("^" + options))
    ensures Candidate(AdblockNetRules, line) == Some(name)
  {
    RuleReads(name, options);
  }

  lemma NameStandsBeforeTheCaret(line: string, name: string)
    requires Candidate(AdblockNetRules, line) == Some(name)
    ensures var rule := Trim(line);
            && rule != [] && StartsWith(rule, "||") && IndexOf(rule[2..], '^') < |rule| - 2
            && name == rule[2..][..IndexOf(rule[2..], '^')]
            && name != [] && '/' !in name && '*' !in name && '|' !in name
  {
  }

  lemma NameComesFromARule(line: string, name: string)
    requires Candidate(AdblockNetRules, line) == Some(name)
    ensures IsRuleFor(Trim(line), name)
  {
    var rule := Trim(line);
    NameStandsBeforeTheCaret(line, name);
    var options := CandidateIsARule(rule, name);
  }

  /** A line of an adblock list has a candidate exactly if, trimmed, it is such a rule, and then it is the
      rule's name: options do no harm, and every other shape is refused. */
  lemma AdblockCandidateIff(line: string, name: string)
    ensures Candidate(AdblockNetRules, line) == Some(name) <==> IsRuleFor(Trim(line), name)
  {
    if IsRuleFor(Trim(line), name) {
      var options :| Trim(line) == "||" + (name + ("^" + options));
      RuleGivesItsName(line, name, options);
    }
    if Candidate(AdblockNetRules, line) == Some(name) {
      NameComesFromARule(line, name);
    }
  }

  /** A line of a plain list has a candidate exactly if something that is no comment is left of it
      without the white space around it. */
  lemma PlainCandidateIff(line: string, name: string)
    ensures Candidate(PlainDomain, line) == Some(name)
       <==> name != [] && name[0] != '#' && IsTrimmed(name) && IsPaddedIn(line, name)
  {
    TrimIsTheCore(line);
    if IsTrimmed(name) && IsPaddedIn(line, name) {
      PaddedTrims(line, name);
    }
  }

  lemma LineWithoutLineFeed(line: string)
    requires '\n' !in line && line != []
    ensures Lines(line) == [line]
  {
    IndexOfAbsent(line, '\n');
  }

  /** The last line of a body needs no line feed. */
  lemma LastLineNeedsNoLineFeed(format: SourceFormat, before: string, line: string)
    requires EndsAtLineEnd(before) && '\n' !in line
    ensures BodyCandidates(format, before + line) == BodyCandidates(format, before + AsLine(line))
         == BodyCandidates(format, before) + AsSeq(Candidate(format, line))
  {
    BodyCandidatesOfConcat(format, before, line);
    BodyCandidatesOfConcat(format, before, AsLine(line));
    LinesOfOneLine(line);
    CandidateIgnoresCarriageReturn(format, line);
    OneCandidate(format, StripCarriageReturn(line));
    if line != [] {
      LineWithoutLineFeed(line);
      OneCandidate(format, line);
    } else {
      assert Candidate(format, []) == None;
    }
  }

  function AsSeq<T>(o: Option<T>): seq<T> {
    match o case None => [] case Some(v) => [v]
  }

  /** The text of one terminated line. */
  function AsLine(line: string): string {
    line + "\n"
  }

  /** A body with one more line between two whole-line parts. */
  function WithLine(before: string, line: string, after: string): string {
    before + (AsLine(line) + after)
  }

  /** A body is read line by line: an inserted line contributes exactly its own candidate, in its
      place. */
  lemma LineContributesItsCandidate(format: SourceFormat, before: string, line: string, after: string)
    requires EndsAtLineEnd(before) && '\n' !in line
    ensures BodyCandidates(format, WithLine(before, line, after))
         == BodyCandidates(format, before) + (AsSeq(Candidate(format, line)) + BodyCandidates(format, after))
  {
    BodyCandidatesOfConcat(format, before, AsLine(line) + after);
    BodyCandidatesOfConcat(format, AsLine(line), after);
    LinesOfOneLine(line);
    CandidateIgnoresCarriageReturn(format, line);
    OneCandidate(format, StripCarriageReturn(line));
  }

  lemma OneCandidate(format: SourceFormat, line: string)
    ensures Candidates(format, [line]) == AsSeq(Candidate(format, line))
  {
    assert [line][1..] == [];
  }

  /** Blank lines, comments, section headers and exception rules. */
  predicate IsBlankCommentHeaderOrException(format: SourceFormat, line: string) {
    var text := Trim(line);
    || text == []
    || match format
       case PlainDomain => text[0] == '#'
       case AdblockNetRules => text[0] == '!' || text[0] == '[' || StartsWith(text, "@@")
  }

  lemma CommentIsNoCandidate(format: SourceFormat, line: string)
    requires IsBlankCommentHeaderOrException(format, line)
    ensures Candidate(format, line) == None
  {
  }

  lemma NothingBetween<T>(x: seq<T>, none: seq<T>, y: seq<T>)
    requires none == []
    ensures x + (none + y) == x + y
  {
    NothingAfter(y);
  }

  lemma InsertedCommentIsNoCandidate(format: SourceFormat, before: string, line: string, after: string)
    requires EndsAtLineEnd(before) && '\n' !in line
    requires IsBlankCommentHeaderOrException(format, line)
    ensures BodyCandidates(format, WithLine(before, line, after)) == BodyCandidates(format, before + after)
  {
    LineContributesItsCandidate(format, before, line, after);
    CommentIsNoCandidate(format, line);
    BodyCandidatesOfConcat(format, before, after);
    NothingBetween(BodyCandidates(format, before), AsSeq(Candidate(format, line)), BodyCandidates(format, after));
  }

  /** Inserting any of those lines anywhere changes neither the hashes nor the candidate count. */
  lemma InsertedCommentChangesNothing(lib: Library, format: SourceFormat, seed: Seed,
                                      before: string, line: string, after: string)
    requires EndsAtLineEnd(before) && '\n' !in line
    requires IsBlankCommentHeaderOrException(format, line)
    ensures BodyHashes(lib, format, seed, WithLine(before, line, after))
            == BodyHashes(lib, format, seed, before + after)
    ensures |BodyCandidates(format, WithLine(before, line, after))| == |BodyCandidates(format, before + after)|
  {
    InsertedCommentIsNoCandidate(format, before, line, after);
  }

  /** A name both formats can carry: no line feed, no leading comment sign, and none of the
      characters that give an adblock rule another meaning. */
  predicate IsPortableName(name: string) {
    && name != [] && IsTrimmed(name) && name[0] != '#'
    && '\n' !in name && '^' !in name && '/' !in name && '*' !in name && '|' !in name
  }

  function AdblockRule(name: string): string {
    "||" + (name + "^")
  }

  function RenderPlain(names: seq<string>): string {
    if names == [] then [] else AsLine(names[0]) + RenderPlain(names[1..])
  }

  function RenderAdblock(names: seq<string>): string {
    if names == [] then [] else AsLine(AdblockRule(names[0])) + RenderAdblock(names[1..])
  }

  lemma RuleIsTrimmed(name: string)
    ensures Trim(AdblockRule(name)) == AdblockRule(name)
    ensures AdblockRule(name)[..2] == "||" && AdblockRule(name)[2..] == name + "^"
  {
    var rule := AdblockRule(name);
    assert rule[0] == '|' && rule[|rule| - 1] == '^';
    TrimIsIdentityOnTrimmed(rule);
  }

  lemma NameEndsAtTheAnchor(name: string)
    requires '^' !in name
    ensures IndexOf(name + "^", '^') == |name| && (name + "^")[..|name|] == name
  {
    IndexOfAbsent(name, '^');
    IndexOfInConcat(name, "^", '^');
  }

  lemma PortableNameIsItsOwnCandidate(name: string)
    requires IsPortableName(name)
    ensures Candidate(PlainDomain, name) == Some(name)
    ensures '\n' !in AdblockRule(name)
    ensures Candidate(AdblockNetRules, AdblockRule(name)) == Some(name)
  {
    TrimIsIdentityOnTrimmed(name);
    RuleIsTrimmed(name);
    NameEndsAtTheAnchor(name);
    assert AdblockRule(name)[0] == '|';
  }

  lemma {:induction false} RenderedNamesAreTheCandidates(names: seq<string>)
    requires forall n :: n in names ==> IsPortableName(n)
    ensures BodyCandidates(PlainDomain, RenderPlain(names)) == names
    ensures BodyCandidates(AdblockNetRules, RenderAdblock(names)) == names
  {
    if names != [] {
      var name, rest := names[0], names[1..];
      assert name in names && forall n :: n in rest ==> n in names;
      RenderedNamesAreTheCandidates(rest);
      PortableNameIsItsOwnCandidate(name);
      FirstLine(PlainDomain, name, RenderPlain(rest));
      FirstLine(AdblockNetRules, AdblockRule(name), RenderAdblock(rest));
      assert names == [name] + rest;
    }
  }

  lemma FirstLine(format: SourceFormat, line: string, after: string)
    requires '\n' !in line
    ensures BodyCandidates(format, AsLine(line) + after)
            == AsSeq(Candidate(format, line)) + BodyCandidates(format, after)
  {
    LineContributesItsCandidate(format, [], line, after);
    assert WithLine([], line, after) == AsLine(line) + after;
    assert BodyCandidates(format, []) == [];
  }

  /** The two formats agree: a list rendered either way yields the same hashes and the same
      candidate count, and never more hashes than candidates. */
  lemma FormatsAgree(lib: Library, seed: Seed, names: seq<string>)
    requires forall n :: n in names ==> IsPortableName(n)
    ensures BodyHashes(lib, AdblockNetRules, seed, RenderAdblock(names))
         == BodyHashes(lib, PlainDomain, seed, RenderPlain(names))
         == HashAll(lib, seed, Entries(lib, names))
    ensures |BodyCandidates(AdblockNetRules, RenderAdblock(names))|
         == |BodyCandidates(PlainDomain, RenderPlain(names))|
         == |names|
    ensures |BodyHashes(lib, PlainDomain, seed, RenderPlain(names))| <= |names|
  {
    RenderedNamesAreTheCandidates(names);
    EntriesNeverOutnumberCandidates(lib, names);
  }
}

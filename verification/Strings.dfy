/** The string operations of the Rust and Python standard libraries that the modelled code
    calls, on sequences of characters. */
module Strings {

  /** The position of the first `c`, or the length when there is none. */
  function IndexOf(s: string, c: char): (i: nat)
    ensures i <= |s|
    ensures i < |s| ==> s[i] == c
    ensures forall j :: 0 <= j < i ==> s[j] != c
  {
    if s == [] || s[0] == c then 0 else 1 + IndexOf(s[1..], c)
  }

  lemma IndexOfIs(s: string, c: char, i: nat)
    requires i < |s| && s[i] == c && forall j :: 0 <= j < i ==> s[j] != c
    ensures IndexOf(s, c) == i
  {
  }

  lemma IndexOfAbsent(s: string, c: char)
    requires c !in s
    ensures IndexOf(s, c) == |s|
  {
  }

  // ---------- taking sequences apart at the end ----------

  lemma Snoc<T>(s: seq<T>, x: T)
    ensures |s + [x]| == |s| + 1 && (s + [x])[..|s|] == s && (s + [x])[|s|] == x
  {
  }

  lemma Unsnoc<T>(s: seq<T>)
    requires s != []
    ensures s[..|s| - 1] + [s[|s| - 1]] == s
  {
  }

  lemma Assoc<T>(a: seq<T>, b: seq<T>, c: seq<T>)
    ensures (a + b) + c == a + (b + c)
  {
  }

  lemma Whole<T>(s: seq<T>)
    ensures s[..|s|] == s
  {
  }

  lemma NothingAfter<T>(s: seq<T>)
    ensures s + [] == s && [] + s == s
  {
  }

  predicate StartsWith(s: string, prefix: string) {
    |prefix| <= |s| && s[..|prefix|] == prefix
  }

  predicate EndsWith(s: string, suffix: string) {
    |suffix| <= |s| && s[|s| - |suffix|..] == suffix
  }

  function AsciiLower(c: char): char {
    if 'A' <= c <= 'Z' then (c as int + 32) as char else c
  }

  function ToAsciiLower(s: string): (r: string)
    ensures |r| == |s|
    ensures forall i :: 0 <= i < |s| ==> r[i] == AsciiLower(s[i])
  {
    seq(|s|, i requires 0 <= i < |s| => AsciiLower(s[i]))
  }

  // ---------- trimming ----------

  /** Unicode's White_Space property, which Rust's `trim` strips. */
  predicate IsWhitespace(c: char) {
    || '\t' <= c <= '\r' || c == ' '
    || c == '\U{85}' || c == '\U{A0}' || c == '\U{1680}' || '\U{2000}' <= c <= '\U{200A}'
    || c == '\U{2028}' || c == '\U{2029}' || c == '\U{202F}' || c == '\U{205F}' || c == '\U{3000}'
  }

  function TrimStart(s: string): (r: string)
    ensures |r| <= |s|
    ensures r == [] || !IsWhitespace(r[0])
    ensures s == [] || IsWhitespace(s[0]) || r == s
  {
    if s != [] && IsWhitespace(s[0]) then TrimStart(s[1..]) else s
  }

  function TrimEnd(s: string): (r: string)
    ensures |r| <= |s| && r == s[..|r|]
    ensures r == [] || !IsWhitespace(r[|r| - 1])
    ensures s == [] || IsWhitespace(s[|s| - 1]) || r == s
  {
    if s != [] && IsWhitespace(s[|s| - 1]) then TrimEnd(s[..|s| - 1]) else s
  }

  function Trim(s: string): string {
    TrimEnd(TrimStart(s))
  }

  predicate IsTrimmed(s: string) {
    s == [] || (!IsWhitespace(s[0]) && !IsWhitespace(s[|s| - 1]))
  }

  lemma TrimIsIdentityOnTrimmed(s: string)
    ensures IsTrimmed(Trim(s))
    ensures IsTrimmed(s) ==> Trim(s) == s
  {
  }

  ghost predicate IsPaddedIn(line: string, name: string) {
    exists before, after :: line == before + name + after && AllWhite(before) && AllWhite(after)
  }

  predicate AllWhite(s: string) {
    forall i :: 0 <= i < |s| ==> IsWhitespace(s[i])
  }

  lemma {:induction false} TrimEndSplits(s: string) returns (after: string)
    ensures s == TrimEnd(s) + after && AllWhite(after)
  {
    if s != [] && IsWhitespace(s[|s| - 1]) {
      var rest := TrimEndSplits(s[..|s| - 1]);
      after := rest + [s[|s| - 1]];
      Unsnoc(s);
      Assoc(TrimEnd(s), rest, [s[|s| - 1]]);
    } else {
      after := [];
      NothingAfter(s);
    }
  }

  lemma {:induction false} TrimEndIgnoresTrailingWhitespace(s: string, c: char)
    requires IsWhitespace(c)
    ensures TrimEnd(s + [c]) == TrimEnd(s)
  {
    assert (s + [c])[..|s|] == s;
  }

  lemma {:induction false} TrimIgnoresTrailingWhitespace(s: string, c: char)
    requires IsWhitespace(c)
    ensures Trim(s + [c]) == Trim(s)
  {
    if s == [] {
      assert TrimStart([c]) == TrimStart([c][1..]) == [];
      assert s + [c] == [c];
    } else if IsWhitespace(s[0]) {
      assert (s + [c])[1..] == s[1..] + [c];
      TrimIgnoresTrailingWhitespace(s[1..], c);
    } else {
      TrimEndIgnoresTrailingWhitespace(s, c);
    }
  }

  lemma {:induction false} TrimStartSplits(s: string) returns (before: string)
    ensures s == before + TrimStart(s) && AllWhite(before)
  {
    if s != [] && IsWhitespace(s[0]) {
      var rest := TrimStartSplits(s[1..]);
      before := [s[0]] + rest;
      assert s == [s[0]] + s[1..];
      Assoc([s[0]], rest, TrimStart(s));
    } else {
      before := [];
      assert [] + s == s;
    }
  }

  lemma {:induction false} TrimDropsAfter(s: string, after: string)
    requires AllWhite(after)
    ensures Trim(s + after) == Trim(s)
    decreases |after|
  {
    if after == [] {
      NothingAfter(s);
    } else {
      var init, c := after[..|after| - 1], after[|after| - 1];
      TrimDropsAfter(s, init);
      Unsnoc(after);
      Assoc(s, init, [c]);
      TrimIgnoresTrailingWhitespace(s + init, c);
    }
  }

  lemma {:induction false} TrimDropsBefore(before: string, s: string)
    requires AllWhite(before)
    ensures Trim(before + s) == Trim(s)
    decreases |before|
  {
    if before == [] {
      assert [] + s == s;
    } else {
      TrimDropsBefore(before[1..], s);
      assert (before + s)[1..] == before[1..] + s;
    }
  }

  lemma PaddedTrims(line: string, name: string)
    requires IsTrimmed(name) && IsPaddedIn(line, name)
    ensures Trim(line) == name
  {
    var before, after :| line == before + name + after && AllWhite(before) && AllWhite(after);
    TrimDropsAfter(before + name, after);
    TrimDropsBefore(before, name);
    TrimIsIdentityOnTrimmed(name);
  }

  lemma TrimIsTheCore(line: string)
    ensures IsPaddedIn(line, Trim(line)) && IsTrimmed(Trim(line))
  {
    TrimIsIdentityOnTrimmed(line);
    var before := TrimStartSplits(line);
    var after := TrimEndSplits(TrimStart(line));
    Assoc(before, Trim(line), after);
    assert line == before + Trim(line) + after;
  }
}

/** Searching a text for another one, as Python's `in` and `split` do, and what concatenation, cutting
    and separators do to it. */
module TextSearch {

  import opened Wrappers
  import Strings

  predicate OccursAt(s: string, m: string, i: nat) {
    i + |m| <= |s| && s[i..i + |m|] == m
  }

  ghost predicate Contains(s: string, m: string) {
    exists i: nat :: OccursAt(s, m, i)
  }

  /** Where `m` occurs first, from position `from` on. */
  function FindFrom(s: string, m: string, from: nat): (at: Option<nat>)
    requires from <= |s|
    ensures at.Some? ==> from <= at.value && OccursAt(s, m, at.value)
    ensures forall i: nat :: from <= i && OccursAt(s, m, i) ==> at.Some? && at.value <= i
    decreases |s| - from
  {
    if OccursAt(s, m, from) then Some(from)
    else if from == |s| then None
    else FindFrom(s, m, from + 1)
  }

  function Find(s: string, m: string): Option<nat> {
    FindFrom(s, m, 0)
  }

  lemma FindIs(s: string, m: string, at: nat)
    requires OccursAt(s, m, at) && forall i: nat :: i < at ==> !OccursAt(s, m, i)
    ensures Find(s, m) == Some(at)
  {
  }

  lemma ContainsInConcat(a: string, b: string, m: string)
    ensures Contains(a, m) || Contains(b, m) ==> Contains(a + b, m)
  {
    if i: nat :| OccursAt(a, m, i) {
      assert (a + b)[i..i + |m|] == a[i..i + |m|];
      assert OccursAt(a + b, m, i);
    }
    if i: nat :| OccursAt(b, m, i) {
      assert (a + b)[|a| + i..|a| + i + |m|] == b[i..i + |m|];
      assert OccursAt(a + b, m, |a| + i);
    }
  }

  lemma OccurrenceHas(s: string, m: string, i: nat, k: nat)
    requires OccursAt(s, m, i) && k < |m|
    ensures s[i + k] == m[k] && s[i + k] in m
  {
    assert s[i..i + |m|][k] == s[i + k];
  }

  lemma DiffersAt(s: string, m: string, i: nat, k: nat)
    requires k < |m| && (i + |m| <= |s| ==> s[i + k] != m[k])
    ensures !OccursAt(s, m, i)
  {
    if i + |m| <= |s| {
      assert s[i..i + |m|][k] == s[i + k];
    }
  }

  lemma ContainsInSlice(s: string, i: nat, j: nat, m: string)
    requires i <= j <= |s| && Contains(s[i..j], m)
    ensures Contains(s, m)
  {
    assert s == s[..i] + (s[i..j] + s[j..]);
    ContainsInConcat(s[i..j], s[j..], m);
    ContainsInConcat(s[..i], s[i..j] + s[j..], m);
  }

  lemma ContainsInTail(s: string, i: nat, m: string)
    requires i <= |s| && Contains(s[i..], m)
    ensures Contains(s, m)
  {
    assert s[i..|s|] == s[i..];
    ContainsInSlice(s, i, |s|, m);
  }

  /** A text does not reach over a character it does not have. */
  lemma ContainsAcross(a: string, c: char, b: string, m: string)
    requires m != [] && c !in m && Contains(a + [c] + b, m)
    ensures Contains(a, m) || Contains(b, m)
  {
    var s := a + [c] + b;
    var i: nat :| OccursAt(s, m, i);
    if i + |m| <= |a| {
      assert a[i..i + |m|] == s[i..i + |m|];
      assert OccursAt(a, m, i);
    } else if i > |a| {
      assert s[|a| + 1..] == b;
      OccursInTail(s, |a| + 1, m, i - |a| - 1);
    } else {
      OccurrenceHas(s, m, i, |a| - i);
    }
  }

  /** White space around a text adds no occurrence of one that neither begins nor ends with it. */
  lemma ContainsPadded(s: string, m: string)
    requires m != [] && m[0] != ' ' && m[|m| - 1] != ' ' && Contains(" " + s + " ", m)
    ensures Contains(s, m)
  {
    var t := " " + s + " ";
    var i: nat :| OccursAt(t, m, i);
    OccurrenceHas(t, m, i, 0);
    OccurrenceHas(t, m, i, |m| - 1);
    OccursInMiddle(" ", s, " ", m, i - 1);
  }

  lemma ContainsNeedsItsFirst(s: string, m: string)
    requires m != [] && m[0] !in s
    ensures !Contains(s, m)
  {
    if i: nat :| OccursAt(s, m, i) {
      OccurrenceHas(s, m, i, 0);
    }
  }

  /** A marker of the text after `at` stands there in the whole text too. */
  lemma OccursInTail(text: string, at: nat, m: string, i: nat)
    requires at <= |text|
    ensures OccursAt(text[at..], m, i) <==> OccursAt(text, m, at + i)
  {
    if i + |m| <= |text| - at {
      assert text[at..][i..i + |m|] == text[at + i..at + i + |m|];
    }
  }

  /** What occurs in the middle part occurs there in the whole text, and the other way round. */
  lemma OccursInMiddle(pre: string, body: string, rest: string, m: string, k: nat)
    requires k + |m| <= |body|
    ensures OccursAt(pre + body + rest, m, |pre| + k) <==> OccursAt(body, m, k)
  {
    assert (pre + body + rest)[|pre| + k..|pre| + k + |m|] == body[k..k + |m|];
  }

  lemma SamePrefixSameOccurrences(a: string, b: string, n: nat, m: string, i: nat)
    requires n <= |a| && n <= |b| && a[..n] == b[..n] && i + |m| <= n
    ensures OccursAt(a, m, i) <==> OccursAt(b, m, i)
  {
    assert a[i..i + |m|] == a[..n][i..i + |m|];
    assert b[i..i + |m|] == b[..n][i..i + |m|];
  }

  lemma PrefixOf(a: string, b: string)
    ensures (a + b)[..|a|] == a
  {
  }

  lemma TailOf(a: string, b: string)
    ensures (a + b)[|a|..] == b
  {
  }

  lemma NotFound(text: string, m: string)
    requires !Contains(text, m)
    ensures Find(text, m) == None
  {
  }

  lemma FirstEndOfRest(table: string, rest: string, e: string, cut: nat)
    requires Find(table, e) == Some(cut)
    ensures Find(table + rest, e) == Some(cut)
  {
    PrefixOf(table, rest);
    PrefixOf(table, []);
    Strings.NothingAfter(table);
    forall i: nat | i <= cut ensures OccursAt(table + rest, e, i) <==> OccursAt(table, e, i) {
      SamePrefixSameOccurrences(table, table + rest, |table|, e, i);
    }
    FindIs(table + rest, e, cut);
  }

  lemma NothingBeforeTheFirst(text: string, m: string, at: nat, n: nat)
    requires m != [] && Find(text, m) == Some(at) && n <= at
    ensures forall i: nat :: i + |m| <= n ==> !OccursAt(text, m, i)
  {
  }

  lemma Regrouped(pre: string, b: string, body: string, e: string, post: string)
    ensures pre + b + body + e + post == (pre + b) + (body + (e + post))
    ensures pre + b + body + e + post == (pre + b) + body + (e + post)
  {
    Strings.Assoc(pre + b + body, e, post);
    Strings.Assoc(pre + b, body, e + post);
  }
}

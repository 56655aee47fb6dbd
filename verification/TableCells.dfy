/** The cells and lines of the quality matrix, a Markdown table: how a cell is escaped into a line
    (review/qa-matrix-gen.py:43-44, 100-101; the same function in review/qa-matrix-verdict.py:16-17)
    and how a line is cut back into cells (review/qa-matrix-gen.py:52-59). */
module TableCells {

  import opened Strings

  // ---------- Python's strip ----------

  /** What `str.isspace` accepts: Unicode's white space and four separator control characters. */
  predicate IsSpace(c: char) {
    IsWhitespace(c) || '\U{1C}' <= c <= '\U{1F}'
  }

  predicate AllSpace(s: string) {
    forall i :: 0 <= i < |s| ==> IsSpace(s[i])
  }

  predicate IsStripped(s: string) {
    s == [] || (!IsSpace(s[0]) && !IsSpace(s[|s| - 1]))
  }

  function StripStart(s: string): string {
    if s != [] && IsSpace(s[0]) then StripStart(s[1..]) else s
  }

  function StripEnd(s: string): string {
    if s != [] && IsSpace(s[|s| - 1]) then StripEnd(s[..|s| - 1]) else s
  }

  function Strip(s: string): string {
    StripEnd(StripStart(s))
  }

  lemma {:induction false} StripStartPadded(pad: string, rest: string)
    requires AllSpace(pad) && (rest == [] || !IsSpace(rest[0]))
    ensures StripStart(pad + rest) == rest
  {
    if pad == [] {
      assert pad + rest == rest;
    } else {
      assert (pad + rest)[1..] == pad[1..] + rest;
      StripStartPadded(pad[1..], rest);
    }
  }

  lemma {:induction false} StripEndPadded(rest: string, pad: string)
    requires AllSpace(pad) && (rest == [] || !IsSpace(rest[|rest| - 1]))
    ensures StripEnd(rest + pad) == rest
  {
    if pad == [] {
      assert rest + pad == rest;
    } else {
      assert (rest + pad)[..|rest + pad| - 1] == rest + pad[..|pad| - 1];
      StripEndPadded(rest, pad[..|pad| - 1]);
    }
  }

  /** Stripping takes the white space around a stripped core and nothing else. */
  lemma StripFindsTheCore(before: string, core: string, after: string)
    requires AllSpace(before) && IsStripped(core) && AllSpace(after)
    ensures Strip(before + core + after) == core
  {
    if core == [] {
      assert before + core + after == (before + after) + [];
      StripStartPadded(before + after, []);
    } else {
      assert before + core + after == before + (core + after);
      StripStartPadded(before, core + after);
      StripEndPadded(core, after);
    }
  }

  lemma {:induction false} StripStartSplits(s: string) returns (before: string)
    ensures AllSpace(before) && s == before + StripStart(s)
    ensures StripStart(s) == [] || !IsSpace(StripStart(s)[0])
  {
    if s != [] && IsSpace(s[0]) {
      var rest := StripStartSplits(s[1..]);
      before := [s[0]] + rest;
    } else {
      before := [];
    }
  }

  lemma {:induction false} StripEndSplits(s: string) returns (after: string)
    ensures AllSpace(after) && s == StripEnd(s) + after
    ensures StripEnd(s) == [] || !IsSpace(StripEnd(s)[|StripEnd(s)| - 1])
  {
    if s != [] && IsSpace(s[|s| - 1]) {
      var rest := StripEndSplits(s[..|s| - 1]);
      after := rest + [s[|s| - 1]];
    } else {
      after := [];
    }
  }

  lemma StripSplits(s: string) returns (before: string, after: string)
    ensures AllSpace(before) && AllSpace(after) && IsStripped(Strip(s))
    ensures s == before + Strip(s) + after
  {
    before := StripStartSplits(s);
    after := StripEndSplits(StripStart(s));
    if Strip(s) != [] {
      assert Strip(s)[0] == StripStart(s)[0];
    }
  }

  lemma StripFixesStripped(s: string)
    ensures Strip(s) == s <==> IsStripped(s)
  {
    var before, after := StripSplits(s);
    if IsStripped(s) {
      StripFindsTheCore([], s, []);
      assert [] + s + [] == s;
    }
  }

  // ---------- escaping ----------

  function EscapeChar(c: char): string {
    if c == '|' then "\\|" else if c == '\n' then " " else [c]
  }

  /** `cell`: a pipe gets a backslash, a line feed becomes a space. */
  function Escape(s: string): string {
    if s == [] then [] else Escape(s[..|s| - 1]) + EscapeChar(s[|s| - 1])
  }

  lemma EscapeOneMore(s: string, c: char)
    ensures Escape(s + [c]) == Escape(s) + EscapeChar(c)
  {
    Snoc(s, c);
  }

  lemma {:induction false} EscapeWithoutPipes(s: string)
    requires '|' !in s && '\n' !in s
    ensures Escape(s) == s
  {
    if s != [] {
      EscapeWithoutPipes(s[..|s| - 1]);
      Unsnoc(s);
    }
  }

  lemma {:induction false} EscapeAppend(s: string, t: string)
    ensures Escape(s + t) == Escape(s) + Escape(t)
    decreases |t|
  {
    if t == [] {
      NothingAfter(s);
      NothingAfter(Escape(s));
    } else {
      EscapeAppend(s, t[..|t| - 1]);
      EscapeLastMoves(s, t[..|t| - 1], t[|t| - 1]);
      Unsnoc(t);
    }
  }

  lemma EscapeLastMoves(s: string, init: string, end: char)
    requires Escape(s + init) == Escape(s) + Escape(init)
    ensures Escape(s + (init + [end])) == Escape(s) + Escape(init + [end])
  {
    Assoc(s, init, [end]);
    EscapeOneMore(s + init, end);
    EscapeOneMore(init, end);
    Assoc(Escape(s), Escape(init), EscapeChar(end));
  }

  lemma {:induction false} EscapedSpaceIsSpace(s: string)
    requires AllSpace(s)
    ensures AllSpace(Escape(s))
  {
    if s != [] {
      EscapedSpaceIsSpace(s[..|s| - 1]);
    }
  }

  lemma {:induction false} EscapeKeepsStripped(s: string)
    requires IsStripped(s)
    ensures IsStripped(Escape(s))
  {
    if s != [] {
      var head, tail := s[..1], s[1..];
      assert s == head + tail;
      EscapeAppend(head, tail);
      assert Escape(head) == EscapeChar(s[0]) by { assert head[..0] == []; assert head[0] == s[0]; }
    }
  }

  lemma StripOfEscaped(s: string)
    ensures Strip(Escape(s)) == Escape(Strip(s))
  {
    var before, after := StripSplits(s);
    EscapeAppend(before + Strip(s), after);
    EscapeAppend(before, Strip(s));
    EscapedSpaceIsSpace(before);
    EscapedSpaceIsSpace(after);
    EscapeKeepsStripped(Strip(s));
    StripFindsTheCore(Escape(before), Escape(Strip(s)), Escape(after));
  }

  /** A line feed becomes a space, as escaping does. */
  function Unline(s: string): (r: string)
    ensures |r| == |s|
    ensures '\n' !in r
    ensures '\n' !in s ==> r == s
  {
    if s == [] then [] else Unline(s[..|s| - 1]) + [if s[|s| - 1] == '\n' then ' ' else s[|s| - 1]]
  }

  // ---------- unescaping ----------

  function DropSlashes(s: string): (r: string)
    ensures |r| <= |s|
    ensures r == s[..|r|]
    ensures r == [] || r[|r| - 1] != '\\'
    ensures s == [] || s[|s| - 1] == '\\' || r == s
  {
    if s != [] && s[|s| - 1] == '\\' then DropSlashes(s[..|s| - 1]) else s
  }

  /** No pipe stands directly after a backslash. */
  predicate PipeClean(s: string) {
    forall i :: 0 < i < |s| && s[i] == '|' ==> s[i - 1] != '\\'
  }

  /** `re.sub(r"\\+\|", "|", ...)`: every run of backslashes directly before a pipe is dropped. */
  function Collapse(s: string): (r: string)
    ensures |r| <= |s|
    ensures s != [] ==> r != [] && r[|r| - 1] == s[|s| - 1] && (r[0] == s[0] || r[0] == '|')
    ensures PipeClean(r)
  {
    if s == [] then []
    else if s[|s| - 1] == '|' then Collapse(DropSlashes(s[..|s| - 1])) + "|"
    else Collapse(s[..|s| - 1]) + [s[|s| - 1]]
  }

  lemma {:induction false} CollapseFixesClean(s: string)
    ensures Collapse(s) == s <==> PipeClean(s)
  {
    if s != [] && PipeClean(s) {
      var init := s[..|s| - 1];
      assert PipeClean(init);
      CollapseFixesClean(init);
      assert s[|s| - 1] == '|' ==> DropSlashes(init) == init;
      assert s == init + [s[|s| - 1]];
    }
  }

  lemma {:induction false} EscapeDropsAlike(s: string)
    ensures DropSlashes(Escape(s)) == Escape(DropSlashes(s))
    ensures DropSlashes(Unline(s)) == Unline(DropSlashes(s))
  {
    if s == [] {
    } else if s[|s| - 1] == '\\' {
      var init := s[..|s| - 1];
      EscapeDropsAlike(init);
      DropOneSlash(Escape(init));
      DropOneSlash(Unline(init));
    } else {
      assert DropSlashes(s) == s;
      EscapeEndsWithoutSlash(s);
    }
  }

  lemma DropOneSlash(s: string)
    ensures DropSlashes(s + "\\") == DropSlashes(s)
  {
    Snoc(s, '\\');
  }

  lemma EscapeEndsWithoutSlash(s: string)
    requires s != [] && s[|s| - 1] != '\\'
    ensures Escape(s) != [] && Escape(s)[|Escape(s)| - 1] != '\\'
    ensures Unline(s)[|s| - 1] != '\\'
  {
  }

  lemma CollapseLastPipe(s: string)
    ensures Collapse(s + "|") == Collapse(DropSlashes(s)) + "|"
  {
    Snoc(s, '|');
  }

  lemma CollapseLastOther(s: string, c: char)
    requires c != '|'
    ensures Collapse(s + [c]) == Collapse(s) + [c]
  {
    Snoc(s, c);
  }

  lemma CollapseEscapedPipe(init: string)
    requires Collapse(Escape(DropSlashes(init))) == Collapse(Unline(DropSlashes(init)))
    ensures Collapse(Escape(init) + "\\|") == Collapse(Unline(init) + "|")
  {
    Assoc(Escape(init), "\\", "|");
    assert "\\" + "|" == "\\|";
    CollapseLastPipe(Escape(init) + "\\");
    DropOneSlash(Escape(init));
    CollapseLastPipe(Unline(init));
    EscapeDropsAlike(init);
  }

  lemma {:induction false} CollapseUndoesEscape(s: string)
    ensures Collapse(Escape(s)) == Collapse(Unline(s))
    decreases |s|
  {
    if s != [] {
      var init, end := s[..|s| - 1], s[|s| - 1];
      if end == '|' {
        CollapseUndoesEscape(DropSlashes(init));
        CollapseEscapedPipe(init);
      } else {
        CollapseUndoesEscape(init);
        var shown := if end == '\n' then ' ' else end;
        CollapseLastOther(Escape(init), shown);
        CollapseLastOther(Unline(init), shown);
      }
    }
  }

  lemma {:induction false} CollapseKeepsLineFeedsOut(s: string)
    requires '\n' !in s
    ensures '\n' !in Collapse(s)
    decreases |s|
  {
    if s != [] {
      CollapseKeepsLineFeedsOut(if s[|s| - 1] == '|' then DropSlashes(s[..|s| - 1]) else s[..|s| - 1]);
    }
  }

  // ---------- one cell, printed and read ----------

  /** What reading makes of the cell text `s` as it stands between two pipes. */
  function ReadCell(s: string): string {
    Collapse(Strip(s))
  }

  /** What a printed cell reads back as. */
  function Printed(s: string): string {
    ReadCell(Escape(s))
  }

  predicate IsPlainCell(s: string) {
    IsStripped(s) && '\n' !in s && PipeClean(s)
  }

  lemma {:induction false} UnlineKeepsStripped(s: string)
    requires IsStripped(s)
    ensures IsStripped(Unline(s))
  {
    if s != [] {
      assert Unline(s)[|s| - 1] == s[|s| - 1];
      UnlineAt(s, 0);
    }
  }

  lemma {:induction false} UnlineAt(s: string, i: nat)
    requires i < |s|
    ensures Unline(s)[i] == if s[i] == '\n' then ' ' else s[i]
  {
    if i < |s| - 1 {
      UnlineAt(s[..|s| - 1], i);
    }
  }

  lemma CollapseKeepsStripped(s: string)
    requires IsStripped(s)
    ensures IsStripped(Collapse(s))
  {
  }

  lemma PrintedIsCollapsed(s: string)
    ensures Printed(s) == Collapse(Unline(Strip(s)))
  {
    StripOfEscaped(s);
    CollapseUndoesEscape(Strip(s));
  }

  lemma PrintedIsPlain(s: string)
    ensures IsPlainCell(Printed(s))
  {
    var before, after := StripSplits(s);
    PrintedIsCollapsed(s);
    UnlineKeepsStripped(Strip(s));
    CollapseKeepsStripped(Unline(Strip(s)));
    CollapseKeepsLineFeedsOut(Unline(Strip(s)));
  }

  /** A cell survives printing and reading exactly when it has no white space around it, no line
      feed inside, and no backslash directly before a pipe. */
  lemma PrintedIsIdentityIff(s: string)
    ensures Printed(s) == s <==> IsPlainCell(s)
  {
    PrintedIsPlain(s);
    if IsPlainCell(s) {
      StripFixesStripped(s);
      StripOfEscaped(s);
      CollapseUndoesEscape(s);
      CollapseFixesClean(s);
    }
  }

  /** Printing and reading normalises once: a second round changes nothing more. */
  lemma PrintedIsIdempotent(s: string)
    ensures Printed(Printed(s)) == Printed(s)
  {
    PrintedIsPlain(s);
    PrintedIsIdentityIff(Printed(s));
  }

  // ---------- cutting a line into cells ----------

  predicate EndsWithSlash(s: string) {
    s != [] && s[|s| - 1] == '\\'
  }

  function SplitStep(parts: seq<string>, afterSlash: bool, c: char): (r: seq<string>)
    requires |parts| >= 1
    ensures |r| >= 1
  {
    if c == '|' && !afterSlash then parts + [[]] else ExtendLast(parts, [c])
  }

  /** `re.split(r"(?<!\\)\|", s)`: cut at every pipe that does not stand after a backslash. */
  function SplitPipes(s: string): (parts: seq<string>)
    ensures |parts| >= 1
  {
    if s == [] then [[]]
    else SplitStep(SplitPipes(s[..|s| - 1]), EndsWithSlash(s[..|s| - 1]), s[|s| - 1])
  }

  /** The parts with more text at the end of the last one. */
  function ExtendLast(parts: seq<string>, t: string): (r: seq<string>)
    requires |parts| >= 1
    ensures |r| == |parts|
  {
    parts[..|parts| - 1] + [parts[|parts| - 1] + t]
  }

  lemma ExtendTwice(parts: seq<string>, t: string, u: string)
    requires |parts| >= 1
    ensures ExtendLast(ExtendLast(parts, t), u) == ExtendLast(parts, t + u)
  {
    Assoc(parts[|parts| - 1], t, u);
  }

  /** Every pipe in `s` stands after a backslash of `s`, so none of them cuts a line. */
  predicate Sealed(s: string) {
    forall i :: 0 <= i < |s| && s[i] == '|' ==> i > 0 && s[i - 1] == '\\'
  }

  predicate AllSealed(cells: seq<string>) {
    forall i :: 0 <= i < |cells| ==> Sealed(cells[i])
  }

  lemma {:induction false} EscapedIsSealed(s: string)
    ensures Sealed(Escape(s))
  {
    if s != [] {
      EscapedIsSealed(s[..|s| - 1]);
    }
  }

  lemma StripKeepsSealed(s: string)
    requires Sealed(s)
    ensures Sealed(Strip(s))
  {
    var before, after := StripSplits(s);
    var core := Strip(s);
    forall i | 0 <= i < |core| && core[i] == '|' ensures i > 0 && core[i - 1] == '\\' {
      assert s[|before| + i] == core[i];
      if i == 0 && before != [] {
        assert IsSpace(s[|before| - 1]) by { assert s[|before| - 1] == before[|before| - 1]; }
      } else if i > 0 {
        assert s[|before| + i - 1] == core[i - 1];
      }
    }
  }

  lemma {:induction false} PartsAreSealed(s: string)
    ensures AllSealed(SplitPipes(s))
    ensures var parts := SplitPipes(s);
            var end := parts[|parts| - 1];
            if end == [] then s == [] || s[|s| - 1] == '|' else s != [] && end[|end| - 1] == s[|s| - 1]
  {
    if s != [] {
      PartsAreSealed(s[..|s| - 1]);
    }
  }

  lemma SplitOneMore(s: string, c: char)
    ensures SplitPipes(s + [c]) == SplitStep(SplitPipes(s), EndsWithSlash(s), c)
  {
    Snoc(s, c);
  }

  lemma SplitLastMoves(s: string, init: string, end: char)
    requires SplitPipes(s + init) == ExtendLast(SplitPipes(s), init)
    requires end != '|' || EndsWithSlash(s + init)
    ensures SplitPipes(s + (init + [end])) == ExtendLast(SplitPipes(s), init + [end])
  {
    Assoc(s, init, [end]);
    SplitOneMore(s + init, end);
    ExtendTwice(SplitPipes(s), init, [end]);
  }

  lemma ExtendByNothing(parts: seq<string>)
    requires |parts| >= 1
    ensures ExtendLast(parts, []) == parts
  {
    NothingAfter(parts[|parts| - 1]);
    Unsnoc(parts);
  }

  lemma SealedInit(t: string)
    requires t != [] && Sealed(t)
    ensures Sealed(t[..|t| - 1]) && (t[|t| - 1] == '|' ==> EndsWithSlash(t[..|t| - 1]))
  {
  }

  lemma {:induction false} SplitAfterSealed(s: string, t: string)
    requires Sealed(t)
    ensures SplitPipes(s + t) == ExtendLast(SplitPipes(s), t)
    decreases |t|
  {
    if t == [] {
      NothingAfter(s);
      ExtendByNothing(SplitPipes(s));
    } else {
      var init, end := t[..|t| - 1], t[|t| - 1];
      SealedInit(t);
      SplitAfterSealed(s, init);
      assert end == '|' ==> EndsWithSlash(s + init);
      SplitLastMoves(s, init, end);
      Unsnoc(t);
    }
  }

  lemma SplitAtPipe(s: string)
    requires !EndsWithSlash(s)
    ensures SplitPipes(s + "|") == SplitPipes(s) + [[]]
  {
    SplitOneMore(s, '|');
  }

  lemma {:induction false} PrefixHasNoMoreParts(s: string, n: nat)
    requires n <= |s|
    ensures |SplitPipes(s[..n])| <= |SplitPipes(s)|
  {
    if n < |s| {
      PrefixHasNoMoreParts(s[..|s| - 1], n);
      assert s[..|s| - 1][..n] == s[..n];
    } else {
      assert s[..n] == s;
    }
  }

  // ---------- lines ----------

  function Join(cells: seq<string>): string {
    if cells == [] then []
    else if |cells| == 1 then cells[0]
    else Join(cells[..|cells| - 1]) + " | " + cells[|cells| - 1]
  }

  /** A table line over cells that are escaped already. */
  function Render(cells: seq<string>): string {
    "| " + Join(cells) + " |"
  }

  /** The same line built cell by cell. */
  function Fence(cells: seq<string>): string {
    if cells == [] then "|" else Fence(cells[..|cells| - 1]) + (" " + cells[|cells| - 1] + " |")
  }

  lemma {:induction false} RenderIsFence(cells: seq<string>)
    requires cells != []
    ensures Render(cells) == Fence(cells)
  {
    if |cells| == 1 {
      assert Fence(cells[..0]) == "|";
    } else {
      var init, end := cells[..|cells| - 1], cells[|cells| - 1];
      RenderIsFence(init);
      assert Join(cells) == Join(init) + " | " + end;
      assert "| " + (Join(init) + " | " + end) + " |" == ("| " + Join(init) + " |") + (" " + end + " |");
    }
  }

  function Padded(cells: seq<string>): seq<string> {
    if cells == [] then [] else Padded(cells[..|cells| - 1]) + [" " + cells[|cells| - 1] + " "]
  }

  lemma SplitFenceCell(fence: string, c: string)
    requires Sealed(c)
    requires fence != []
    ensures SplitPipes(fence + (" " + c + " |")) == ExtendLast(SplitPipes(fence), " " + c + " ") + [[]]
  {
    var padded := " " + c + " ";
    assert Sealed(padded) by {
      forall i | 0 <= i < |padded| && padded[i] == '|' ensures i > 0 && padded[i - 1] == '\\' {
        assert c[i - 1] == '|';
      }
    }
    SplitAfterSealed(fence, padded);
    SplitAtPipe(fence + padded);
    assert fence + (" " + c + " |") == (fence + padded) + "|";
  }

  lemma {:induction false} SplitOfFence(cells: seq<string>)
    requires AllSealed(cells)
    ensures SplitPipes(Fence(cells)) == [[]] + Padded(cells) + [[]]
  {
    if cells == [] {
      SplitAtPipe([]);
      assert [] + "|" == "|";
    } else {
      var init, end := cells[..|cells| - 1], cells[|cells| - 1];
      SplitOfFence(init);
      var parts := SplitPipes(Fence(init));
      assert Sealed(end);
      SplitFenceCell(Fence(init), end);
      assert parts[..|parts| - 1] == [[]] + Padded(init);
      assert [] + (" " + end + " ") == " " + end + " ";
    }
  }

  function StripAll(parts: seq<string>): (r: seq<string>)
    ensures |r| == |parts|
    ensures forall i :: 0 <= i < |parts| ==> r[i] == Strip(parts[i])
  {
    seq(|parts|, i requires 0 <= i < |parts| => Strip(parts[i]))
  }

  function CollapseAll(parts: seq<string>): (r: seq<string>)
    ensures |r| == |parts|
    ensures forall i :: 0 <= i < |parts| ==> r[i] == Collapse(parts[i])
  {
    seq(|parts|, i requires 0 <= i < |parts| => Collapse(parts[i]))
  }

  function EscapeAll(row: seq<string>): (r: seq<string>)
    ensures |r| == |row|
    ensures forall i :: 0 <= i < |row| ==> r[i] == Escape(row[i])
  {
    seq(|row|, i requires 0 <= i < |row| => Escape(row[i]))
  }

  function PrintedAll(row: seq<string>): (r: seq<string>)
    ensures |r| == |row|
    ensures forall i :: 0 <= i < |row| ==> r[i] == Printed(row[i])
  {
    seq(|row|, i requires 0 <= i < |row| => Printed(row[i]))
  }

  /** The cells between the first and the last cut of a line, stripped but still escaped. */
  function RawCells(line: string): (cells: seq<string>)
    ensures |cells| == if |SplitPipes(line)| <= 2 then 0 else |SplitPipes(line)| - 2
  {
    var parts := SplitPipes(line);
    if |parts| <= 2 then [] else StripAll(parts[1..|parts| - 1])
  }

  /** A table line holding the given row. */
  function PrintRow(row: seq<string>): string {
    Render(EscapeAll(row))
  }

  lemma {:induction false} PaddedAt(cells: seq<string>, i: nat)
    requires i < |cells|
    ensures |Padded(cells)| == |cells|
    ensures Padded(cells)[i] == " " + cells[i] + " "
  {
    if i < |cells| - 1 {
      PaddedAt(cells[..|cells| - 1], i);
    } else {
      PaddedLength(cells);
      PaddedLength(cells[..|cells| - 1]);
    }
  }

  lemma {:induction false} PaddedLength(cells: seq<string>)
    ensures |Padded(cells)| == |cells|
  {
    if cells != [] {
      PaddedLength(cells[..|cells| - 1]);
    }
  }

  lemma StripOfPadded(c: string)
    ensures Strip(" " + c + " ") == Strip(c)
  {
    var before, after := StripSplits(c);
    assert " " + c + " " == (" " + before) + Strip(c) + (after + " ");
    StripFindsTheCore(" " + before, Strip(c), after + " ");
  }

  /** A line over sealed cells is cut into exactly those cells. */
  lemma RawCellsOfRender(cells: seq<string>)
    requires cells != [] && AllSealed(cells)
    ensures RawCells(Render(cells)) == StripAll(cells)
  {
    RenderIsFence(cells);
    SplitOfFence(cells);
    PaddedLength(cells);
    var parts := SplitPipes(Render(cells));
    assert parts[1..|parts| - 1] == Padded(cells);
    forall i | 0 <= i < |cells| ensures RawCells(Render(cells))[i] == StripAll(cells)[i] {
      PaddedAt(cells, i);
      StripOfPadded(cells[i]);
    }
  }

  lemma RawCellsAreSealed(line: string)
    ensures AllSealed(RawCells(line))
    ensures forall i :: 0 <= i < |RawCells(line)| ==> IsStripped(RawCells(line)[i])
  {
    PartsAreSealed(line);
    var parts := SplitPipes(line);
    forall i | 0 <= i < |RawCells(line)|
      ensures Sealed(RawCells(line)[i]) && IsStripped(RawCells(line)[i])
    {
      StripKeepsSealed(parts[1..|parts| - 1][i]);
      var before, after := StripSplits(parts[1..|parts| - 1][i]);
    }
  }

  /** Printing a row and cutting it again gives each cell as a lone printed cell reads back:
      whatever the cells hold, no cell moves into its neighbour's column. */
  lemma PrintedRowIsCutWhereItWasJoined(row: seq<string>)
    requires row != []
    ensures CollapseAll(RawCells(PrintRow(row))) == PrintedAll(row)
  {
    forall i | 0 <= i < |row| ensures Sealed(EscapeAll(row)[i]) {
      EscapedIsSealed(row[i]);
    }
    RawCellsOfRender(EscapeAll(row));
  }
}

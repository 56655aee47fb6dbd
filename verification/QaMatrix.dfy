/** The table generator of review/qa-matrix-gen.py: reading the table that is already in the
    Markdown file, merging it with the data rows, and printing it again. */
module QaMatrix {

  import opened Wrappers
  import opened TableCells
  import Strings

  // ---------- lines of a text ----------

  /** Where Python's `splitlines` ends a line. */
  predicate IsBreak(c: char) {
    '\n' <= c <= '\r' || '\U{1C}' <= c <= '\U{1E}' || c == '\U{85}' || c == '\U{2028}' || c == '\U{2029}'
  }

  predicate OneLine(s: string) {
    forall i :: 0 <= i < |s| ==> !IsBreak(s[i])
  }

  function FirstBreak(s: string): (i: nat)
    ensures i <= |s|
    ensures i < |s| ==> IsBreak(s[i])
    ensures OneLine(s[..i])
  {
    if s == [] || IsBreak(s[0]) then 0
    else
      var i := 1 + FirstBreak(s[1..]);
      assert s[..i] == [s[0]] + s[1..][..i - 1];
      i
  }

  /** Where the line after the first one begins: a carriage return and line feed together end one
      line. */
  function NextLine(s: string): (n: nat)
    ensures FirstBreak(s) <= n <= |s|
    ensures s != [] ==> n > 0
    ensures FirstBreak(s) < |s| ==> IsBreak(s[n - 1])
  {
    var i := FirstBreak(s);
    if i == |s| then i
    else if s[i] == '\r' && i + 1 < |s| && s[i + 1] == '\n' then i + 2
    else i + 1
  }

  /** `str.splitlines`. */
  function SplitLines(s: string): seq<string>
    decreases |s|
  {
    if s == [] then [] else [s[..FirstBreak(s)]] + SplitLines(s[NextLine(s)..])
  }

  /** The lines, each ended by a line feed. */
  function Text(lines: seq<string>): string {
    if lines == [] then [] else Text(lines[..|lines| - 1]) + (lines[|lines| - 1] + "\n")
  }

  lemma FirstBreakIs(s: string, i: nat)
    requires i < |s| && IsBreak(s[i]) && OneLine(s[..i])
    ensures FirstBreak(s) == i
  {
  }

  lemma TextAfterALineFeedDoesNotMatter(a: string, b: string)
    ensures FirstBreak(a + "\n" + b) == FirstBreak(a + "\n") <= |a|
    ensures NextLine(a + "\n" + b) == NextLine(a + "\n")
  {
    var whole, head := a + "\n" + b, a + "\n";
    var i := FirstBreak(head);
    assert head[|a|] == '\n';
    assert whole[..i] == head[..i];
    FirstBreakIs(whole, i);
  }

  lemma SplitFirstLine(s: string)
    requires s != []
    ensures SplitLines(s) == [s[..FirstBreak(s)]] + SplitLines(s[NextLine(s)..])
  {
  }

  lemma TextTails(a: string, b: string, n: nat)
    requires n <= |a| + 1
    ensures (a + "\n" + b)[..n] == (a + "\n")[..n]
    ensures n == |a| + 1 ==> (a + "\n" + b)[n..] == b && (a + "\n")[n..] == []
    ensures n <= |a| ==> (a + "\n" + b)[n..] == a[n..] + "\n" + b && (a + "\n")[n..] == a[n..] + "\n"
  {
  }

  /** A line feed always ends a line, so a text is split line by line. */
  lemma {:induction false} SplitLinesAtLineFeed(a: string, b: string)
    ensures SplitLines(a + "\n" + b) == SplitLines(a + "\n") + SplitLines(b)
    decreases |a|
  {
    var whole, head := a + "\n" + b, a + "\n";
    var i, n := FirstBreak(head), NextLine(head);
    TextAfterALineFeedDoesNotMatter(a, b);
    TextTails(a, b, i);
    TextTails(a, b, n);
    SplitFirstLine(whole);
    SplitFirstLine(head);
    if n <= |a| {
      SplitLinesAtLineFeed(a[n..], b);
      Strings.Assoc([head[..i]], SplitLines(a[n..] + "\n"), SplitLines(b));
    } else {
      assert SplitLines([]) == [];
      Strings.NothingAfter([head[..i]]);
    }
  }

  lemma SplitOneLine(line: string)
    requires OneLine(line)
    ensures SplitLines(line + "\n") == [line]
  {
    var s := line + "\n";
    assert s[..|line|] == line;
    FirstBreakIs(s, |line|);
    assert s[|line| + 1..] == [];
  }

  /** A carriage return and a line feed together end one line. */
  lemma ReturnAndFeedEndOneLine(line: string, rest: string)
    requires OneLine(line)
    ensures SplitLines(line + "\r\n" + rest) == [line] + SplitLines(rest)
  {
    var s := line + "\r\n" + rest;
    assert s[..|line|] == line && s[|line|] == '\r' && s[|line| + 1] == '\n' && s[|line| + 2..] == rest;
    FirstBreakIs(s, |line|);
    SplitFirstLine(s);
  }

  // ---------- the rows kept from the file ----------

  const COLUMNS: nat := 11
  const VERDICT: nat := 8
  const EVIDENCE: nat := 9
  const BUG: nat := 10

  type Row = r: seq<string> | |r| == COLUMNS witness seq(COLUMNS, _ => "")

  /** A Python dict from row ID to row: the keys in the order they were first inserted. */
  datatype Kept = Kept(order: seq<string>, rows: map<string, Row>) {
    function Put(row: Row): Kept {
      Kept(if row[0] in rows then order else order + [row[0]], rows[row[0] := row])
    }

    function PutIfSome(row: Option<Row>): Kept {
      if row.Some? then Put(row.value) else this
    }

    /** The keys are distinct, are those of the map, and each is its row's ID cell. */
    ghost predicate Valid() {
      && (forall i, j :: 0 <= i < j < |order| ==> order[i] != order[j])
      && (forall k :: k in order <==> k in rows)
      && (forall k :: k in rows ==> rows[k][0] == k)
    }
  }

  const NOTHING_KEPT := Kept([], map[])

  /** The row a line of the table is read as, if any. */
  function ReadLine(line: string): Option<Row> {
    if !Strings.StartsWith(line, "| ") then None
    else if Strings.StartsWith(line, "| ID ") || Strings.StartsWith(line, "|---") then None
    else
      var parts := CollapseAll(RawCells(line));
      if |parts| == COLUMNS then Some(parts) else None
  }

  function ReadLines(kept: Kept, lines: seq<string>): Kept {
    if lines == [] then kept
    else ReadLines(kept, lines[..|lines| - 1]).PutIfSome(ReadLine(lines[|lines| - 1]))
  }

  function ReadBody(body: string): Kept {
    ReadLines(NOTHING_KEPT, SplitLines(body))
  }

  /** `parse_existing`, on the text between the two markers. */
  method ParseExisting(body: string) returns (kept: Kept)
    ensures kept == ReadBody(body)
    ensures kept.Valid()
    ensures forall k :: k in kept.rows ==> exists line ::
              line in SplitLines(body) && ReadLine(line) == Some(kept.rows[k])
  {
    kept := NOTHING_KEPT;
    var lines := SplitLines(body);
    for n := 0 to |lines|
      invariant kept == ReadLines(NOTHING_KEPT, lines[..n])
      invariant kept.Valid()
      invariant forall k :: k in kept.rows ==> exists line :: line in lines && ReadLine(line) == Some(kept.rows[k])
    {
      var line := lines[n];
      assert lines[..n + 1][..n] == lines[..n];
      if !Strings.StartsWith(line, "| ") || Strings.StartsWith(line, "| ID ") || Strings.StartsWith(line, "|---") {
        continue;
      }
      var parts := CollapseAll(RawCells(line));
      if |parts| == COLUMNS {
        PutKeepsValid(kept, parts);
        kept := kept.Put(parts);
      }
    }
    assert lines[..|lines|] == lines;
  }

  lemma PutKeepsValid(kept: Kept, row: Row)
    requires kept.Valid()
    ensures kept.Put(row).Valid()
  {
  }

  // ---------- reading printed lines ----------

  /** The parser takes a line whose ID cell is `ID`, or begins with `ID `, for the heading. */
  predicate LooksLikeHeading(id: string) {
    Strings.StartsWith(id + " ", "ID ")
  }

  lemma ReadOneMore(kept: Kept, lines: seq<string>, line: string)
    ensures ReadLines(kept, lines + [line]) == ReadLines(kept, lines).PutIfSome(ReadLine(line))
  {
    Strings.Snoc(lines, line);
  }

  lemma {:induction false} ReadLinesAppend(kept: Kept, a: seq<string>, b: seq<string>)
    ensures ReadLines(kept, a + b) == ReadLines(ReadLines(kept, a), b)
    decreases |b|
  {
    if b == [] {
      Strings.NothingAfter(a);
    } else {
      var init, end := b[..|b| - 1], b[|b| - 1];
      ReadLinesAppend(kept, a, init);
      Strings.Assoc(a, init, [end]);
      Strings.Unsnoc(b);
      ReadOneMore(kept, a + init, end);
      ReadOneMore(ReadLines(kept, a), init, end);
    }
  }

  lemma ReadOneLine(kept: Kept, line: string)
    ensures ReadLines(kept, [line]) == kept.PutIfSome(ReadLine(line))
  {
    assert [line][..0] == [];
    assert ReadLines(kept, []) == kept;
  }

  /** Reading a text is reading its lines one after the other. */
  lemma ReadTextStep(kept: Kept, lines: seq<string>, line: string)
    ensures ReadLines(kept, SplitLines(Text(lines + [line])))
         == ReadLines(ReadLines(kept, SplitLines(Text(lines))), SplitLines(line + "\n"))
  {
    assert (lines + [line])[..|lines|] == lines;
    if lines == [] {
      assert Text(lines + [line]) == line + "\n";
    } else {
      var init := Text(lines[..|lines| - 1]) + lines[|lines| - 1];
      assert Text(lines) == init + "\n";
      assert Text(lines + [line]) == init + "\n" + (line + "\n");
      SplitLinesAtLineFeed(init, line + "\n");
      assert init + "\n" + [] == init + "\n";
      ReadLinesAppend(kept, SplitLines(Text(lines)), SplitLines(line + "\n"));
    }
  }

  /** No pipe but the one that opens a line stands at the start or after anything but a space or
      a backslash. */
  predicate Shielded(s: string, from: nat) {
    forall i :: from <= i < |s| && s[i] == '|' ==> i > 0 && (s[i - 1] == ' ' || s[i - 1] == '\\')
  }

  lemma {:induction false} FenceIsShielded(cells: seq<string>)
    requires AllSealed(cells)
    ensures Fence(cells)[0] == '|' && Shielded(Fence(cells), 1)
  {
    if cells != [] {
      var init, end := cells[..|cells| - 1], cells[|cells| - 1];
      FenceIsShielded(init);
      var tail := " " + end + " |";
      assert Sealed(end);
      assert Shielded(tail, 0) by {
        forall i | 0 <= i < |tail| && tail[i] == '|' ensures i > 0 && (tail[i - 1] == ' ' || tail[i - 1] == '\\') {
          if i - 1 < |end| { assert end[i - 1] == '|'; }
        }
      }
      forall i | 1 <= i < |Fence(cells)| && Fence(cells)[i] == '|'
        ensures Fence(cells)[i - 1] == ' ' || Fence(cells)[i - 1] == '\\'
      {
        if i >= |Fence(init)| { assert tail[i - |Fence(init)|] == '|'; }
      }
    }
  }

  lemma ReadNextLine(kept: Kept, s: string)
    requires s != []
    ensures ReadLines(kept, SplitLines(s))
         == ReadLines(kept.PutIfSome(ReadLine(s[..FirstBreak(s)])), SplitLines(s[NextLine(s)..]))
  {
    ReadOneLine(kept, s[..FirstBreak(s)]);
    ReadLinesAppend(kept, [s[..FirstBreak(s)]], SplitLines(s[NextLine(s)..]));
  }

  lemma OnlyPipesStartRows(s: string, n: nat)
    requires n <= |s| && (s == [] || s[0] != '|')
    ensures ReadLine(s[..n]) == None
  {
  }

  /** The later pieces of a line that broke are not read: none begins with a pipe. */
  lemma {:induction false} ShieldedPiecesAreNotRead(kept: Kept, s: string)
    requires Shielded(s, 0)
    ensures ReadLines(kept, SplitLines(s)) == kept
    decreases |s|
  {
    if s != [] {
      OnlyPipesStartRows(s, FirstBreak(s));
      ReadNextLine(kept, s);
      var next := NextLine(s);
      if FirstBreak(s) < |s| {
        ShieldedAfterBreak(s, 0, next);
      }
      ShieldedPiecesAreNotRead(kept, s[next..]);
    }
  }

  lemma ShieldedAfterBreak(s: string, from: nat, next: nat)
    requires Shielded(s, from) && from <= next <= |s| && 0 < next && IsBreak(s[next - 1])
    ensures Shielded(s[next..], 0)
  {
    forall i | 0 <= i < |s[next..]| && s[next..][i] == '|'
      ensures i > 0 && (s[next..][i - 1] == ' ' || s[next..][i - 1] == '\\')
    {
      assert s[next + i] == '|';
    }
  }

  /** A table line cut short has too few cells to be read. */
  lemma ShortenedLineIsNotRead(cells: seq<string>, n: nat)
    requires |cells| == COLUMNS && AllSealed(cells) && n < |Render(cells)|
    ensures ReadLine(Render(cells)[..n]) == None
  {
    var line := Render(cells);
    RenderIsFence(cells);
    SplitOfFence(cells);
    PaddedLength(cells);
    var q := line[..|line| - 1];
    assert q == "| " + Join(cells) + " " && line == q + "|";
    SplitAtPipe(q);
    PrefixHasNoMoreParts(q, n);
    assert q[..n] == line[..n];
  }

  /** What a rendered line adds to the dict: its cells, unless a line break sits in one of them or
      its first cell makes it look like the heading, in which case nothing. */
  function RowRead(cells: seq<string>): Option<Row>
    requires |cells| == COLUMNS
  {
    if OneLine(Render(cells)) && !LooksLikeHeading(cells[0]) then Some(CollapseAll(StripAll(cells))) else None
  }

  lemma {:induction false} JoinStartsWithFirst(cells: seq<string>)
    requires |cells| >= 2
    ensures Strings.StartsWith(Join(cells), cells[0] + " | ")
  {
    if |cells| > 2 {
      JoinStartsWithFirst(cells[..|cells| - 1]);
    } else {
      assert cells[..1] == [cells[0]];
    }
  }

  lemma HeadingTest(id: string, rest: string)
    ensures Strings.StartsWith("| " + (id + " | " + rest), "| ID ") <==> LooksLikeHeading(id)
  {
    var t, u := id + " | " + rest, id + " ";
    assert Strings.StartsWith("| " + t, "| ID ") <==> t[0] == 'I' && t[1] == 'D' && t[2] == ' ' by {
      if t[0] == 'I' && t[1] == 'D' && t[2] == ' ' {
        assert ("| " + t)[..5] == "| ID ";
      }
      if Strings.StartsWith("| " + t, "| ID ") {
        assert t[0] == ("| " + t)[..5][2] && t[1] == ("| " + t)[..5][3] && t[2] == ("| " + t)[..5][4];
      }
    }
    assert LooksLikeHeading(id) <==> |u| >= 3 && u[0] == 'I' && u[1] == 'D' && u[2] == ' ' by {
      if |u| >= 3 {
        assert u[..3] == [u[0], u[1], u[2]];
      }
    }
    assert |id| > 0 ==> t[0] == id[0];
  }

  lemma RenderBegins(cells: seq<string>) returns (rest: string)
    requires |cells| >= 2
    ensures Render(cells) == "| " + (cells[0] + " | " + rest)
  {
    JoinStartsWithFirst(cells);
    var n := |cells[0]| + 3;
    rest := Join(cells)[n..] + " |";
    assert Join(cells) == Join(cells)[..n] + Join(cells)[n..];
  }

  lemma OpenedLineIsNotTheRuler(t: string)
    ensures Strings.StartsWith("| " + t, "| ") && !Strings.StartsWith("| " + t, "|---")
  {
    assert ("| " + t)[..2] == "| ";
    assert ("| " + t)[1] == ' ';
  }

  lemma HeadingIsSkipped(cells: seq<string>)
    requires |cells| == COLUMNS && AllSealed(cells)
    ensures ReadLine(Render(cells)) == if LooksLikeHeading(cells[0]) then None else Some(CollapseAll(StripAll(cells)))
  {
    RawCellsOfRender(cells);
    var rest := RenderBegins(cells);
    HeadingTest(cells[0], rest);
    OpenedLineIsNotTheRuler(cells[0] + " | " + rest);
  }

  /** A table line in a text is read as `RowRead` says: all of it or nothing of it. */
  lemma RenderedLineReads(kept: Kept, cells: seq<string>)
    requires |cells| == COLUMNS && AllSealed(cells)
    ensures ReadLines(kept, SplitLines(Render(cells) + "\n")) == kept.PutIfSome(RowRead(cells))
  {
    var line := Render(cells);
    if OneLine(line) {
      SplitOneLine(line);
      HeadingIsSkipped(cells);
      ReadOneLine(kept, line);
    } else {
      BrokenLineIsNotRead(kept, cells);
    }
  }

  lemma BrokenLineIsNotRead(kept: Kept, cells: seq<string>)
    requires |cells| == COLUMNS && AllSealed(cells) && !OneLine(Render(cells))
    ensures ReadLines(kept, SplitLines(Render(cells) + "\n")) == kept
  {
    var line := Render(cells);
    var s := line + "\n";
    var i := FirstBreak(s);
    assert i < |line| by {
      var j :| 0 <= j < |line| && IsBreak(line[j]);
      assert s[j] == line[j];
    }
    ShortenedLineIsNotRead(cells, i);
    assert s[..i] == line[..i];
    ReadNextLine(kept, s);
    RenderIsFence(cells);
    FenceIsShielded(cells);
    assert Shielded(s, 1);
    var next := NextLine(s);
    ShieldedAfterBreak(s, 1, next);
    ShieldedPiecesAreNotRead(kept, s[next..]);
  }

  // ---------- printing rows and reading them back ----------

  predicate CellsOnOneLine(row: seq<string>) {
    forall i :: 0 <= i < |row| ==> OneLine(Unline(row[i]))
  }

  lemma {:induction false} EscapeIsOneLineIff(s: string)
    ensures OneLine(Escape(s)) <==> OneLine(Unline(s))
  {
    if s != [] {
      var init := s[..|s| - 1];
      EscapeIsOneLineIff(init);
      OneLineConcat(Escape(init), EscapeChar(s[|s| - 1]));
      OneLineConcat(Unline(init), [if s[|s| - 1] == '\n' then ' ' else s[|s| - 1]]);
    }
  }

  lemma OneLineConcat(s: string, t: string)
    ensures OneLine(s + t) <==> OneLine(s) && OneLine(t)
  {
    if OneLine(s + t) {
      forall i | 0 <= i < |s| ensures !IsBreak(s[i]) { assert (s + t)[i] == s[i]; }
      forall i | 0 <= i < |t| ensures !IsBreak(t[i]) { assert (s + t)[|s| + i] == t[i]; }
    }
  }

  lemma {:induction false} FenceIsOneLineIff(cells: seq<string>)
    ensures OneLine(Fence(cells)) <==> forall i :: 0 <= i < |cells| ==> OneLine(cells[i])
  {
    if cells != [] {
      var init, end := cells[..|cells| - 1], cells[|cells| - 1];
      FenceIsOneLineIff(init);
      OneLineConcat(Fence(init), " " + end + " |");
      OneLineConcat(" " + end, " |");
      OneLineConcat(" ", end);
      assert forall i :: 0 <= i < |init| ==> init[i] == cells[i];
    }
  }

  /** The row that printing `row` and reading it back leaves in the dict. */
  function ReadBack(row: Row): Option<Row> {
    if CellsOnOneLine(row) && !LooksLikeHeading(Escape(row[0])) then Some(PrintedAll(row)) else None
  }

  /** Printing a row and reading it keeps every cell in its column and normalises it, exactly when
      no cell holds a line break other than a line feed and the ID does not look like the heading;
      otherwise the whole row is gone. */
  lemma PrintedRowReadsBack(kept: Kept, row: Row)
    ensures ReadLines(kept, SplitLines(PrintRow(row) + "\n")) == kept.PutIfSome(ReadBack(row))
  {
    var cells := EscapeAll(row);
    forall i | 0 <= i < |row| ensures Sealed(cells[i]) && (OneLine(cells[i]) <==> OneLine(Unline(row[i]))) {
      EscapedIsSealed(row[i]);
      EscapeIsOneLineIff(row[i]);
    }
    RenderIsFence(cells);
    FenceIsOneLineIff(cells);
    RenderedLineReads(kept, cells);
    assert CollapseAll(StripAll(cells)) == PrintedAll(row);
  }

  lemma PrintedAllIsIdentityIff(row: seq<string>)
    ensures PrintedAll(row) == row <==> forall i :: 0 <= i < |row| ==> IsPlainCell(row[i])
  {
    forall i | 0 <= i < |row| ensures PrintedAll(row)[i] == row[i] <==> IsPlainCell(row[i]) {
      PrintedIsIdentityIff(row[i]);
    }
  }

  /** One printed row on its own comes back unchanged exactly when its cells are plain, sit on one
      line, and its ID does not look like the heading. */
  lemma RowRoundTripsIff(row: Row)
    ensures ReadBody(PrintRow(row) + "\n") == NOTHING_KEPT.Put(row)
       <==> (forall i :: 0 <= i < |row| ==> IsPlainCell(row[i])) && CellsOnOneLine(row)
            && !LooksLikeHeading(Escape(row[0]))
  {
    PrintedRowReadsBack(NOTHING_KEPT, row);
    PrintedAllIsIdentityIff(row);
    PutIsInjective(PrintedAll(row), row);
    assert NOTHING_KEPT.Put(row) != NOTHING_KEPT by { assert NOTHING_KEPT.Put(row).order == [row[0]]; }
  }

  lemma PutIsInjective(a: Row, b: Row)
    ensures NOTHING_KEPT.Put(a) == NOTHING_KEPT.Put(b) ==> a == b
  {
    assert NOTHING_KEPT.Put(a).rows[a[0]] == a;
    assert a[0] != b[0] ==> a[0] !in NOTHING_KEPT.Put(b).rows;
  }
}

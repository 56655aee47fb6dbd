/** An end marker that a cell of the table prints (review/qa-matrix-gen.py:47-50, 96-110): the next run
    reads the rows above it and no others. */
module QaMarkers {

  import opened Wrappers
  import opened TableCells
  import opened QaMatrix
  import opened QaRegeneration
  import opened TextSearch
  import opened QaFile
  import Strings

  // ---------- where a table is cut ----------

  predicate PrintsEnd(row: Row) {
    Find(PrintRow(row), END).Some?
  }

  /** Where the first element stands that the test finds, or the length. */
  function FirstSuch<T>(s: seq<T>, test: T -> bool): (n: nat)
    ensures n <= |s|
    ensures forall i :: 0 <= i < n ==> !test(s[i])
    ensures n < |s| ==> test(s[n])
  {
    if s == [] then 0
    else
      var n := FirstSuch(s[..|s| - 1], test);
      if n < |s| - 1 || test(s[n]) then n else n + 1
  }

  /** How many rows stand above the first that prints the end marker. */
  function RowsAbove(rows: seq<Row>): (n: nat)
    ensures n <= |rows|
    ensures forall i :: 0 <= i < n ==> !PrintsEnd(rows[i])
    ensures n < |rows| ==> PrintsEnd(rows[n])
  {
    FirstSuch(rows, PrintsEnd)
  }

  /** A table up to its first marker. */
  function Cut(table: string, m: string): string {
    match Find(table, m)
    case None => table
    case Some(at) => table[..at]
  }

  /** What stands behind the first marker, with another one and a text after the table. */
  function Behind(table: string, m: string, post: string): string {
    match Find(table, m)
    case None => post
    case Some(at) => table[at + |m|..] + m + post
  }

  /** What the next run takes for the table. */
  function CutBody(rows: seq<Row>): string {
    Cut(Body(rows), END)
  }

  lemma {:induction false} LinesHoldNoEnd(rows: seq<Row>)
    requires forall i :: 0 <= i < |rows| ==> !PrintsEnd(rows[i])
    ensures forall i :: 0 <= i < |Lines(rows)| ==> !Contains(Lines(rows)[i], END)
  {
    if rows == [] {
      EndIsAMarker();
      LinesContain([], END);
    } else {
      LinesHoldNoEnd(rows[..|rows| - 1]);
      assert !PrintsEnd(rows[|rows| - 1]);
    }
  }

  lemma BodyHoldsNoEnd(rows: seq<Row>)
    requires forall i :: 0 <= i < |rows| ==> !PrintsEnd(rows[i])
    ensures !Contains(Body(rows), END)
  {
    EndIsAMarker();
    LinesHoldNoEnd(rows);
    TextContains(Lines(rows), END);
    LineFeedAddsNothing(Text(Lines(rows)), END);
  }

  lemma RegroupedLine(head: string, line: string, before: string, last: string)
    ensures head + (line + before) + last == head + (line + (before + last))
  {
    Strings.Assoc(head, line + before, last);
    Strings.Assoc(line, before, last);
  }

  /** A text from one of its lines on. */
  lemma {:induction false} TextFrom(lines: seq<string>, k: nat) returns (rest: string)
    requires k < |lines|
    ensures Text(lines) == Text(lines[..k]) + (lines[k] + rest)
  {
    var init, last := lines[..|lines| - 1], lines[|lines| - 1] + "\n";
    if k == |init| {
      rest := "\n";
    } else {
      assert init[..k] == lines[..k];
      var before := TextFrom(init, k);
      rest := before + last;
      RegroupedLine(Text(lines[..k]), lines[k], before, last);
    }
  }

  lemma TakenFromInit<T>(s: seq<T>, n: nat)
    requires n < |s|
    ensures s[..|s| - 1][..n] == s[..n]
  {
  }

  lemma {:induction false} LinesAreTwoMore(rows: seq<Row>)
    ensures |Lines(rows)| == |rows| + 2
  {
    if rows != [] {
      LinesAreTwoMore(rows[..|rows| - 1]);
    }
  }

  lemma LastLine(rows: seq<Row>)
    requires rows != []
    ensures |Lines(rows)| == |rows| + 2
    ensures var n := |rows| - 1;
            Lines(rows)[..n + 2] == Lines(rows[..n]) && Lines(rows)[n + 2] == PrintRow(rows[n])
  {
    LinesAreTwoMore(rows[..|rows| - 1]);
    Strings.Snoc(Lines(rows[..|rows| - 1]), PrintRow(rows[|rows| - 1]));
  }

  /** The heading and the ruler are the first two lines. */
  lemma {:induction false} LineOfRow(rows: seq<Row>, k: nat)
    requires k < |rows|
    ensures |Lines(rows)| == |rows| + 2
    ensures Lines(rows)[..k + 2] == Lines(rows[..k]) && Lines(rows)[k + 2] == PrintRow(rows[k])
    decreases |rows|
  {
    LastLine(rows);
    if k < |rows| - 1 {
      LineOfRow(rows[..|rows| - 1], k);
      TakenFromInit(rows, k);
      TakenFromInit(Lines(rows), k + 2);
    }
  }

  /** The printed table from one of its rows on. */
  lemma BodyFrom(rows: seq<Row>, k: nat) returns (rest: string)
    requires k < |rows|
    ensures Body(rows) == Body(rows[..k]) + (PrintRow(rows[k]) + rest)
  {
    LineOfRow(rows, k);
    rest := TextFrom(Lines(rows), k + 2);
    Strings.Assoc("\n", Text(Lines(rows[..k])), PrintRow(rows[k]) + rest);
  }

  lemma NothingInTheHead(head: string, tail: string, m: string)
    requires head != [] && head[|head| - 1] == '\n' && '\n' !in m && !Contains(head, m)
    ensures forall i: nat :: i < |head| ==> !OccursAt(head + tail, m, i)
  {
    assert [] + head == head;
    forall i: nat | i < |head| ensures !OccursAt(head + tail, m, i) {
      NoEarlierEnd([], head, tail, m, i);
    }
  }

  lemma FirstInTail(head: string, tail: string, m: string, at: nat)
    requires Find(tail, m) == Some(at) && forall i: nat :: i < |head| ==> !OccursAt(head + tail, m, i)
    ensures Find(head + tail, m) == Some(|head| + at)
  {
    TailOf(head, tail);
    forall i: nat | |head| <= i < |head| + at ensures !OccursAt(head + tail, m, i) {
      OccursInTail(head + tail, |head|, m, i - |head|);
    }
    OccursInTail(head + tail, |head|, m, at);
    FindIs(head + tail, m, |head| + at);
  }

  lemma TakenIntoTheLine(head: string, line: string, rest: string, at: nat)
    requires at <= |line|
    ensures (head + (line + rest))[..|head| + at] == head + line[..at]
  {
  }

  /** The first marker stands in the first line that has one. */
  lemma FindInLine(head: string, line: string, rest: string, m: string, at: nat)
    requires head != [] && head[|head| - 1] == '\n' && '\n' !in m && !Contains(head, m)
    requires Find(line, m) == Some(at)
    ensures Find(head + (line + rest), m) == Some(|head| + at)
    ensures (head + (line + rest))[..|head| + at] == head + line[..at]
  {
    FirstEndOfRest(line, rest, m, at);
    NothingInTheHead(head, line + rest, m);
    FirstInTail(head, line + rest, m, at);
    TakenIntoTheLine(head, line, rest, at);
  }

  lemma CutIsInTheRow(rows: seq<Row>)
    requires RowsAbove(rows) < |rows|
    ensures var n := RowsAbove(rows);
            var at := Find(PrintRow(rows[n]), END).value;
            CutBody(rows) == Body(rows[..n]) + PrintRow(rows[n])[..at] && at < |PrintRow(rows[n])|
  {
    var n := RowsAbove(rows);
    var at := Find(PrintRow(rows[n]), END).value;
    var rest := BodyFrom(rows, n);
    EndIsAMarker();
    BodyHoldsNoEnd(rows[..n]);
    BodyEndsInLineFeeds(rows[..n]);
    FindInLine(Body(rows[..n]), PrintRow(rows[n]), rest, END, at);
  }

  lemma ShieldedPrefix(s: string, n: nat, from: nat)
    requires Shielded(s, from) && n <= |s|
    ensures Shielded(s[..n], from)
  {
    forall i | from <= i < n && s[..n][i] == '|' ensures i > 0 && (s[..n][i - 1] == ' ' || s[..n][i - 1] == '\\') {
      assert s[i] == '|';
    }
  }

  lemma RestOfCutLineIsNotRead(kept: Kept, cells: seq<string>, n: nat)
    requires |cells| == COLUMNS && AllSealed(cells) && 0 < n < |Render(cells)|
    ensures var s := Render(cells)[..n]; ReadLines(kept, SplitLines(s[NextLine(s)..])) == kept
  {
    var s := Render(cells)[..n];
    if FirstBreak(s) < |s| {
      RenderIsFence(cells);
      FenceIsShielded(cells);
      ShieldedPrefix(Render(cells), n, 1);
      ShieldedAfterBreak(s, 1, NextLine(s));
      ShieldedPiecesAreNotRead(kept, s[NextLine(s)..]);
    } else {
      assert SplitLines(s[NextLine(s)..]) == [];
    }
  }

  /** A table line cut short leaves nothing, on however many lines it stands. */
  lemma CutLineIsNotRead(kept: Kept, cells: seq<string>, n: nat)
    requires |cells| == COLUMNS && AllSealed(cells) && n < |Render(cells)|
    ensures ReadLines(kept, SplitLines(Render(cells)[..n])) == kept
  {
    var line, s := Render(cells), Render(cells)[..n];
    if s != [] {
      var i := FirstBreak(s);
      ShortenedLineIsNotRead(cells, i);
      assert s[..i] == line[..i];
      ReadNextLine(kept, s);
      RestOfCutLineIsNotRead(kept, cells, n);
    }
  }

  lemma ReadingOn(head: string, part: string)
    requires head != [] && head[|head| - 1] == '\n'
    ensures ReadBody(head + part) == ReadLines(ReadBody(head), SplitLines(part))
  {
    var before := head[..|head| - 1];
    assert head == before + "\n";
    SplitLinesAtLineFeed(before, part);
    ReadLinesAppend(NOTHING_KEPT, SplitLines(head), SplitLines(part));
  }

  /** What is read of a printed table up to its first end marker: the rows above it, whatever the cells
      hold. */
  lemma RowsAboveAreRead(rows: seq<Row>)
    ensures ReadBody(CutBody(rows)) == ReadRows(rows[..RowsAbove(rows)])
  {
    var n := RowsAbove(rows);
    BodyReads(rows[..n]);
    if n == |rows| {
      Strings.Whole(rows);
      BodyHoldsNoEnd(rows);
      NotFound(Body(rows), END);
    } else {
      var line := PrintRow(rows[n]);
      CutIsInTheRow(rows);
      BodyEndsInLineFeeds(rows[..n]);
      ReadingOn(Body(rows[..n]), line[..Find(line, END).value]);
      RowCutIsNotRead(ReadRows(rows[..n]), rows[n], Find(line, END).value);
    }
  }

  lemma RowCutIsNotRead(kept: Kept, row: Row, n: nat)
    requires n < |PrintRow(row)|
    ensures ReadLines(kept, SplitLines(PrintRow(row)[..n])) == kept
  {
    var cells := EscapeAll(row);
    forall i | 0 <= i < |cells| ensures Sealed(cells[i]) {
      EscapedIsSealed(row[i]);
    }
    CutLineIsNotRead(kept, cells, n);
  }

  // ---------- the file a run leaves ----------

  lemma FirstEndInTable(head: string, rest: string, table: string, m: string, tail: string, cut: nat)
    requires table != [] && table[0] == '\n' && '\n' !in m && Find(table, m) == Some(cut)
    requires forall i: nat :: i + |m| <= |head| ==> !OccursAt(head + rest, m, i)
    ensures Find(head + (table + tail), m) == Some(|head| + cut)
  {
    var text, behind := head + (table + tail), table + tail;
    PrefixOf(head, rest);
    PrefixOf(head, behind);
    TailOf(head, behind);
    FirstEndOfRest(table, tail, m, cut);
    forall i: nat | i < |head| + cut ensures !OccursAt(text, m, i) {
      if i + |m| <= |head| {
        SamePrefixSameOccurrences(head + rest, text, |head|, m, i);
      } else if i < |head| {
        NoEndOverTheStart(head, behind, m, i);
      } else {
        OccursInTail(text, |head|, m, i - |head|);
      }
    }
    OccursInTail(text, |head|, m, cut);
    FindIs(text, m, |head| + cut);
  }

  /** The first markers of a file with an end marker in its table: the one before the table, and the
      table's own. */
  lemma BeginOfACutTable(pre: string, b: string, body: string, e: string, post: string, table: string)
    requires Find(pre + b + body + e + post, b) == Some(|pre|)
    ensures Find(pre + b + table + e + post, b) == Some(|pre|)
  {
    Regrouped(pre, b, body, e, post);
    Regrouped(pre, b, table, e, post);
    SameBegin(pre + b, body + (e + post), table + (e + post), b, |pre|);
  }

  lemma EndOfACutTable(pre: string, b: string, body: string, e: string, post: string, table: string, cut: nat)
    requires e != [] && '\n' !in e && table != [] && table[0] == '\n' && Find(table, e) == Some(cut)
    requires Find(pre + b + body + e + post, e) == Some(|pre| + |b| + |body|)
    ensures Find(pre + b + table + e + post, e) == Some(|pre| + |b| + cut)
  {
    var head, rest := pre + b, body + (e + post);
    Regrouped(pre, b, body, e, post);
    Regrouped(pre, b, table, e, post);
    NothingBeforeTheFirst(head + rest, e, |head| + |body|, |head|);
    FirstEndInTable(head, rest, table, e, e + post, cut);
  }

  lemma SplitAtOccurrence(table: string, m: string, cut: nat)
    requires OccursAt(table, m, cut)
    ensures table == table[..cut] + m + table[cut + |m|..]
  {
    assert table == table[..cut] + table[cut..cut + |m|] + table[cut + |m|..];
  }

  lemma RegroupedAtTheCut(head: string, a: string, m: string, b: string, post: string)
    ensures head + (a + m + b) + m + post == head + a + m + (b + m + post)
  {
    Strings.Assoc(head, a + m, b);
    Strings.Assoc(head, a, m);
    Strings.Assoc(head + a + m, b, m);
    Strings.Assoc(head + a + m, b + m, post);
  }

  lemma PartsOfACutTable(head: string, table: string, m: string, post: string, cut: nat)
    requires OccursAt(table, m, cut)
    ensures head + table + m + post == head + table[..cut] + m + (table[cut + |m|..] + m + post)
  {
    SplitAtOccurrence(table, m, cut);
    RegroupedAtTheCut(head, table[..cut], m, table[cut + |m|..], post);
  }

  lemma MarkersOfACutTable(pre: string, b: string, body: string, e: string, post: string, table: string, cut: nat)
    requires e != [] && '\n' !in e && table != [] && table[0] == '\n' && Find(table, e) == Some(cut)
    requires Find(pre + b + body + e + post, b) == Some(|pre|)
    requires Find(pre + b + body + e + post, e) == Some(|pre| + |b| + |body|)
    ensures var text := pre + b + table + e + post;
            && text == pre + b + table[..cut] + e + (table[cut + |e|..] + e + post)
            && Find(text, b) == Some(|pre|) && Find(text, e) == Some(|pre| + |b| + |table[..cut]|)
  {
    BeginOfACutTable(pre, b, body, e, post, table);
    EndOfACutTable(pre, b, body, e, post, table, cut);
    PartsOfACutTable(pre + b, table, e, post, cut);
  }

  lemma CutTableMakesAFile(text: string, pre: string, body: string, post: string, table: string, cut: nat)
    requires IsFile(text, pre, body, post) && table != [] && table[0] == '\n' && Find(table, END) == Some(cut)
    ensures IsFile(pre + BEGIN + table + END + post, pre, table[..cut], table[cut + |END|..] + END + post)
  {
    EndIsAMarker();
    MarkersOfACutTable(pre, BEGIN, body, END, post, table, cut);
  }

  lemma NoneFound(table: string, m: string)
    requires Find(table, m) == None
    ensures !Contains(table, m)
  {
  }

  lemma CutIs(table: string, m: string, post: string)
    ensures var at := Find(table, m);
            && Cut(table, m) == (if at.None? then table else table[..at.value])
            && Behind(table, m, post) == (if at.None? then post else table[at.value + |m|..] + m + post)
  {
  }

  lemma AnyTableMakesAFile(text: string, pre: string, body: string, post: string, table: string)
    requires IsFile(text, pre, body, post)
    requires table != [] && table[0] == '\n' && table[|table| - 1] == '\n'
    ensures IsFile(pre + BEGIN + table + END + post, pre, Cut(table, END), Behind(table, END, post))
  {
    CutIs(table, END, post);
    var at := Find(table, END);
    if at.None? {
      NoneFound(table, END);
      NewMarkers(text, pre, body, post, table);
    } else {
      CutTableMakesAFile(text, pre, body, post, table, at.value);
    }
  }

  /** Whatever the cells print, the file a run leaves is a file again: its table reaches to the first
      printed end marker, and the text before the table and after it is as it was. */
  lemma EveryRunLeavesAFile(text: string, pre: string, body: string, post: string, rows: seq<Row>)
    requires IsFile(text, pre, body, post)
    ensures Rewritten(text, rows) == Success(pre + BEGIN + Body(rows) + END + post)
    ensures IsFile(pre + BEGIN + Body(rows) + END + post, pre, CutBody(rows), Behind(Body(rows), END, post))
  {
    RewritingReplacesTheTable(text, pre, body, post, rows);
    BodyEndsInLineFeeds(rows);
    AnyTableMakesAFile(text, pre, body, post, Body(rows));
  }

  // ---------- what becomes of a record ----------

  /** The row of the ID stands above the first printed end marker. */
  predicate StandsAbove(data: seq<DataRow>, kept: Kept, k: string)
    requires kept.Valid()
  {
    exists i :: 0 <= i < RowsAbove(NewRows(data, kept)) && NewRows(data, kept)[i][0] == k
  }

  lemma DataRowPlace(data: seq<DataRow>, kept: Kept, k: string) returns (i: nat)
    requires FromFile(kept) && k in kept.rows && NamesOnce(data, k) && k in Ids(data)
    ensures i < |NewRows(data, kept)| && NewRows(data, kept)[i][0] == k
    ensures forall j :: 0 <= j < |NewRows(data, kept)| && j != i ==> Printed(NewRows(data, kept)[j][0]) != k
  {
    i :| 0 <= i < |data| && Ids(data)[i] == k;
    forall j | 0 <= j < |NewRows(data, kept)| && j != i ensures Printed(NewRows(data, kept)[j][0]) != k {
      OtherRowsPrintOtherIds(data, kept, k, j);
      assert j < |data| ==> Ids(data)[i] != Ids(data)[j];
    }
  }

  /** The new table has one row for a recorded ID, and no other prints it. */
  lemma RowPlace(data: seq<DataRow>, kept: Kept, k: string) returns (i: nat)
    requires FromFile(kept) && k in kept.rows && NamesOnce(data, k)
    ensures i < |NewRows(data, kept)| && NewRows(data, kept)[i][0] == k
    ensures forall j :: 0 <= j < |NewRows(data, kept)| && j != i ==> Printed(NewRows(data, kept)[j][0]) != k
  {
    if k in Ids(data) {
      i := DataRowPlace(data, kept, k);
    } else {
      var g;
      g, i := GoneRowPlace(data, kept, k);
      forall j | 0 <= j < |NewRows(data, kept)| && j != i ensures Printed(NewRows(data, kept)[j][0]) != k {
        OnlyItsGoneRow(data, kept, k, g, j);
      }
    }
  }

  lemma StandsAboveIff(data: seq<DataRow>, kept: Kept, k: string, i: nat)
    requires kept.Valid() && IsPlainCell(k) && i < |NewRows(data, kept)| && NewRows(data, kept)[i][0] == k
    requires forall j :: 0 <= j < |NewRows(data, kept)| && j != i ==> Printed(NewRows(data, kept)[j][0]) != k
    ensures StandsAbove(data, kept, k) <==> i < RowsAbove(NewRows(data, kept))
  {
    PrintedIsIdentityIff(k);
  }

  /** Of a table cut off above a row nothing of that row is read, and of one cut off below it all. */
  lemma CutRowIsRead(rows: seq<Row>, n: nat, i: nat)
    requires n <= |rows| && i < |rows| && IsPlainCell(rows[i][0])
    requires forall j :: 0 <= j < |rows| && j != i ==> Printed(rows[j][0]) != rows[i][0]
    ensures var cut, whole, k := ReadRows(rows[..n]), ReadRows(rows), rows[i][0];
            && (k in cut.rows <==> i < n && k in whole.rows)
            && (k in cut.rows ==> cut.rows[k] == whole.rows[k])
  {
    if i < n {
      LoneRowIsRead(rows, i);
      LoneRowIsRead(rows[..n], i);
    } else {
      AbsentIdIsNotRead(rows[..n], rows[i][0]);
    }
  }

  /** One run, whatever the cells print: a recorded row stays in the table exactly when it prints whole
      above the first end marker that is printed; and then its verdict and its evidence are untouched. */
  lemma RecordIsKeptIffAbove(data: seq<DataRow>, kept: Kept, k: string)
    requires FromFile(kept) && k in kept.rows && NamesOnce(data, k)
    ensures var rows := NewRows(data, kept);
            var next := ReadBody(CutBody(rows));
            && (k in next.rows <==> PrintsWhole(data, kept, k) && StandsAbove(data, kept, k))
            && (k in next.rows ==> IsRecordedAs(next, k, kept.rows[k]))
  {
    var rows := NewRows(data, kept);
    var i := RowPlace(data, kept, k);
    assert PlainRow(kept.rows[k]) && kept.rows[k][0] == k;
    StandsAboveIff(data, kept, k, i);
    RowsAboveAreRead(rows);
    CutRowIsRead(rows, RowsAbove(rows), i);
    BodyReads(rows);
    RecordIsKeptIff(data, kept, k);
  }

  // ---------- any number of runs ----------

  /** From its marker on, the text ends as the other one. */
  ghost predicate EndsAs(m: string, post': string, post: string) {
    exists more :: m + post' == more + (m + post)
  }

  lemma EndsAsItself(m: string, post: string)
    ensures EndsAs(m, post, post)
  {
    assert m + post == [] + (m + post);
  }

  lemma RegroupedEnd(m: string, part: string, post: string, more: string, end: string)
    requires m + post == more + end
    ensures m + (part + m + post) == m + part + more + end
  {
    Strings.Assoc(part, m, post);
    Strings.Assoc(m, part, m + post);
    Strings.Assoc(m + part, more, end);
  }

  lemma BehindEndsAs(table: string, m: string, post: string, first: string)
    requires EndsAs(m, post, first)
    ensures EndsAs(m, Behind(table, m, post), first)
  {
    CutIs(table, m, post);
    var at := Find(table, m);
    if at.Some? {
      PartEndsAs(table[at.value + |m|..], m, post, first);
    }
  }

  lemma PartEndsAs(part: string, m: string, post: string, first: string)
    requires EndsAs(m, post, first)
    ensures EndsAs(m, part + m + post, first)
  {
    var more :| m + post == more + (m + first);
    RegroupedEnd(m, part, post, more, m + first);
  }

  /** One run of the script on a file. */
  lemma RunLeavesAFile(text: string, pre: string, body: string, post: string, first: string, data: seq<DataRow>)
      returns (body': string, post': string)
    requires IsFile(text, pre, body, post) && EndsAs(END, post, first) && Distinct(Ids(data))
    ensures ParseFile(text).Valid() && RunScript(text, data).Success?
    ensures var written := RunScript(text, data).value;
            && body' == CutBody(NewRows(data, ParseFile(text)))
            && IsFile(written, pre, body', post') && EndsAs(END, post', first)
            && ParseFile(written) == ReadBody(body')
  {
    ParseFileIsFromFile(text);
    var rows := NewRows(data, ParseFile(text));
    body', post' := CutBody(rows), Behind(Body(rows), END, post);
    EveryRunLeavesAFile(text, pre, body, post, rows);
    FileIsItsTable(pre + BEGIN + Body(rows) + END + post, pre, body', post');
    BehindEndsAs(Body(rows), END, post, first);
  }

  /** However often the script runs, on whatever data, the file stays a file with the same text before
      its table, and with the same text at its end. */
  lemma {:induction false} RunsLeaveAFile(text: string, pre: string, body: string, post: string,
                                          datas: seq<seq<DataRow>>) returns (body': string, post': string)
    requires IsFile(text, pre, body, post) && forall i :: 0 <= i < |datas| ==> Distinct(Ids(datas[i]))
    ensures AfterScripts(text, datas).Success?
    ensures IsFile(AfterScripts(text, datas).value, pre, body', post') && EndsAs(END, post', post)
    decreases |datas|
  {
    body', post' := body, post;
    EndsAsItself(END, post);
    if datas != [] {
      var init := datas[..|datas| - 1];
      body', post' := RunsLeaveAFile(text, pre, body, post, init);
      var before := AfterScripts(text, init).value;
      body', post' := RunLeavesAFile(before, pre, body', post', post, datas[|datas| - 1]);
    }
  }

  lemma FileEndsAs(text: string, pre: string, body: string, post': string, post: string)
    requires IsFile(text, pre, body, post') && EndsAs(END, post', post)
    ensures exists middle :: text == pre + BEGIN + middle + END + post
  {
    var more :| END + post' == more + (END + post);
    var head := pre + BEGIN;
    Strings.Assoc(head + body, END, post');
    Strings.Assoc(head + body, more, END + post);
    Strings.Assoc(head, body, more);
    Strings.Assoc(head + (body + more), END, post);
    assert text == pre + BEGIN + (body + more) + END + post;
  }

  /** In every run the row prints whole, above the first end marker that is printed. */
  predicate AlwaysPrintsAbove(text: string, datas: seq<seq<DataRow>>, k: string) {
    datas != [] ==>
      var init := datas[..|datas| - 1];
      && AlwaysPrintsAbove(text, init, k)
      && AfterScripts(text, init).Success?
      && PrintsAbove(AfterScripts(text, init).value, datas[|datas| - 1], k)
  }

  predicate PrintsAbove(text: string, data: seq<DataRow>, k: string) {
    ParseFileIsFromFile(text);
    PrintsWhole(data, ParseFile(text), k) && StandsAbove(data, ParseFile(text), k)
  }

  lemma OneRunOnTheFile(text: string, pre: string, body: string, post: string, data: seq<DataRow>, k: string)
    requires IsFile(text, pre, body, post) && NamesOnce(data, k) && k in ParseFile(text).rows
    ensures RunScript(text, data).Success?
    ensures var next := ParseFile(RunScript(text, data).value);
            && (k in next.rows <==> PrintsAbove(text, data, k))
            && (k in next.rows ==> IsRecordedAs(next, k, ParseFile(text).rows[k]))
  {
    ParseFileIsFromFile(text);
    EndsAsItself(END, post);
    var body', post' := RunLeavesAFile(text, pre, body, post, post, data);
    RecordIsKeptIffAbove(data, ParseFile(text), k);
  }

  lemma {:induction false} HeldInTheFileIffAbove(text: string, pre: string, body: string, post: string,
                                                 datas: seq<seq<DataRow>>, k: string)
    requires IsFile(text, pre, body, post) && k in ParseFile(text).rows
    requires forall i :: 0 <= i < |datas| ==> NamesOnce(datas[i], k)
    ensures AfterScripts(text, datas).Success?
    ensures IsHeldInTheFile(text, datas, k) <==> AlwaysPrintsAbove(text, datas, k)
    ensures IsHeldInTheFile(text, datas, k) ==>
              IsRecordedAs(ParseFile(AfterScripts(text, datas).value), k, ParseFile(text).rows[k])
    decreases |datas|
  {
    var body', post' := RunsLeaveAFile(text, pre, body, post, datas);
    if datas != [] {
      var init, end := datas[..|datas| - 1], datas[|datas| - 1];
      HeldInTheFileIffAbove(text, pre, body, post, init, k);
      if IsHeldInTheFile(text, init, k) {
        var body1, post1 := RunsLeaveAFile(text, pre, body, post, init);
        OneRunOnTheFile(AfterScripts(text, init).value, pre, body1, post1, end, k);
      }
    }
  }

  /** A verdict and its evidence, once the file can be read, outlive a series of runs of the script
      exactly when in each of them the row prints whole above the first end marker that a cell prints;
      and everything around the table is left as it was. */
  lemma NothingRecordedIsLostInTheFile(text: string, pre: string, body: string, post: string,
                                       datas: seq<seq<DataRow>>, k: string)
    requires IsFile(text, pre, body, post) && k in ParseFile(text).rows
    requires forall i :: 0 <= i < |datas| ==> NamesOnce(datas[i], k)
    ensures AfterScripts(text, datas).Success?
    ensures IsHeldInTheFile(text, datas, k) <==> AlwaysPrintsAbove(text, datas, k)
    ensures exists middle :: AfterScripts(text, datas).value == pre + BEGIN + middle + END + post
  {
    HeldInTheFileIffAbove(text, pre, body, post, datas, k);
    var body', post' := RunsLeaveAFile(text, pre, body, post, datas);
    FileEndsAs(AfterScripts(text, datas).value, pre, body', post', post);
  }

  // ---------- a record that is lost ----------

  function DataOf(id: string, point: string): DataRow {
    DataRow(id, ["", point, "", "", "", "", ""], "")
  }

  const CLEAN: seq<DataRow> := [DataOf("A", ""), DataOf("B", "")]
  const MARKED: seq<DataRow> := [DataOf("A", END), DataOf("B", "")]

  lemma {:induction false} FenceHolds(cells: seq<string>, i: nat, m: string)
    requires i < |cells| && Contains(cells[i], m)
    ensures Contains(Fence(cells), m)
  {
    var init, end := cells[..|cells| - 1], cells[|cells| - 1];
    if i < |init| {
      FenceHolds(init, i, m);
    } else {
      ContainsInConcat(" ", end, m);
      ContainsInConcat(" " + end, " |", m);
    }
    ContainsInConcat(Fence(init), " " + end + " |", m);
  }

  lemma RowPrintsEnd(row: Row, i: nat)
    requires i < COLUMNS && row[i] == END
    ensures PrintsEnd(row)
  {
    EndIsAMarker();
    EscapeWithoutPipes(END);
    assert OccursAt(END, END, 0);
    RenderIsFence(EscapeAll(row));
    FenceHolds(EscapeAll(row), i, END);
  }

  lemma MarkedRowsAreCutOff(kept: Kept)
    requires kept.Valid()
    ensures RowsAbove(NewRows(MARKED, kept)) == 0 && !StandsAbove(MARKED, kept, "B")
  {
    assert NewRows(MARKED, kept)[0] == DataLine(MARKED[0], kept);
    RowPrintsEnd(DataLine(MARKED[0], kept), 2);
  }

  predicate IsLetter(id: string) {
    |id| == 1 && 'A' <= id[0] <= 'Z'
  }

  lemma LetterHasNothing(id: string)
    requires IsLetter(id)
    ensures '|' !in id && '\n' !in id && '<' !in id && OneLine(id) && !IsSpace(id[0])
  {
  }

  lemma LetterIsPlain(id: string)
    requires IsLetter(id)
    ensures IsPlainCell(id) && Printed(id) == id
  {
    LetterHasNothing(id);
    assert PipeClean(id);
    PrintedIsIdentityIff(id);
  }

  lemma LetterIsNoHeading(id: string)
    requires IsLetter(id)
    ensures Escape(id) == id && !LooksLikeHeading(id)
  {
    LetterHasNothing(id);
    EscapeWithoutPipes(id);
    assert |id + " "| == 2;
  }

  lemma LetterHasNoEnd(id: string)
    requires IsLetter(id)
    ensures !Contains(id, END)
  {
    LetterHasNothing(id);
    EndIsAMarker();
    ContainsNeedsItsFirst(id, END);
  }

  lemma EmptyIsPlain()
    ensures Escape("") == "" && OneLine(Unline("")) && !Contains("", END)
  {
    ContainsNeedsItsFirst("", END);
  }

  lemma EmptyFactsAreClean(id: string)
    ensures CellsOnOneLine(DataOf(id, "").facts) && RowFree(DataOf(id, "").facts, END)
  {
    EmptyIsPlain();
    var facts := DataOf(id, "").facts;
    assert forall i :: 0 <= i < 7 ==> facts[i] == "";
  }

  lemma MarkedNames(data: seq<DataRow>)
    requires |data| == 2 && data[0].id != data[1].id && IsLetter(data[0].id)
    ensures NamesOnce(data, data[1].id)
  {
    LetterIsPlain(data[0].id);
  }

  lemma CleanRowIsClean(d: DataRow)
    requires d == DataOf(d.id, "") && IsLetter(d.id)
    ensures CleanId(d.id) && CellsOnOneLine(d.facts) && OneLine(Unline(d.bug))
    ensures !Contains(Escape(d.id), END) && !Contains(Escape(d.bug), END) && RowFree(d.facts, END)
  {
    LetterHasNothing(d.id);
    LetterIsPlain(d.id);
    LetterIsNoHeading(d.id);
    LetterHasNoEnd(d.id);
    EmptyIsPlain();
    EmptyFactsAreClean(d.id);
  }

  lemma CleanIsClean()
    ensures CleanData(CLEAN) && DataFree(CLEAN)
  {
    CleanRowIsClean(CLEAN[0]);
    CleanRowIsClean(CLEAN[1]);
  }

  lemma FirstRunRecords() returns (pre: string, post: string)
    ensures NOTHING_KEPT.Valid() && RunScript("", CLEAN).Success?
    ensures var text := RunScript("", CLEAN).value;
            IsFile(text, pre, Body(NewRows(CLEAN, NOTHING_KEPT)), post) && "B" in ParseFile(text).rows
  {
    var rows := NewRows(CLEAN, NOTHING_KEPT);
    CleanIsClean();
    NewTableIsFree(CLEAN, NOTHING_KEPT);
    EndIsAMarker();
    ContainsNeedsItsFirst("", BEGIN);
    ContainsNeedsItsFirst("", END);
    NotFound("", BEGIN);
    FirstTableMakesAFile("", rows);
    pre, post := StripEnd("") + "\n\n", "\n";
    FileIsItsTable(Appended("", rows), pre, Body(rows), post);
    DataIsInTheTable(CLEAN, NOTHING_KEPT, 1);
  }

  lemma ReadRowIsOnOneLine(row: Row)
    requires ReadBack(row).Some?
    ensures CellsOnOneLine(row)
  {
  }

  lemma CleanRowPrintsWhole(d: DataRow, kept: Kept)
    requires FromFile(kept) && d == DataOf(d.id, "") && IsLetter(d.id)
    ensures CellsOnOneLine(DataLine(d, kept))
  {
    CleanRowIsClean(d);
    DataLineReadsBack(d, kept);
    ReadRowIsOnOneLine(DataLine(d, kept));
  }

  lemma MarkedPrintsWhole(data: seq<DataRow>, kept: Kept, id: string)
    requires FromFile(kept) && IsLetter(id) && |data| == 2 && data[0].id != id && data[1] == DataOf(id, "")
    ensures PrintsWhole(data, kept, id)
  {
    LetterIsNoHeading(id);
    CleanRowPrintsWhole(data[1], kept);
  }

  /** A marker in one row loses the record of a later one: of two rows the second stands in the file, the
      next run prints it whole, and nothing of it is read any more. */
  lemma MarkerLosesALaterRecord()
    ensures RunScript("", CLEAN).Success?
    ensures var text := RunScript("", CLEAN).value;
            && "B" in ParseFile(text).rows && PrintsWhole(MARKED, ParseFile(text), "B")
            && RunScript(text, MARKED).Success?
            && "B" !in ParseFile(RunScript(text, MARKED).value).rows
  {
    var pre, post := FirstRunRecords();
    var text := RunScript("", CLEAN).value;
    ParseFileIsFromFile(text);
    MarkedNames(MARKED);
    OneRunOnTheFile(text, pre, Body(NewRows(CLEAN, NOTHING_KEPT)), post, MARKED, "B");
    MarkedRowsAreCutOff(ParseFile(text));
    MarkedPrintsWhole(MARKED, ParseFile(text), "B");
  }
}

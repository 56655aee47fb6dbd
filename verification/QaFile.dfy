/** The quality matrix as a file: the table stands between two markers, which the generator finds by
    text search (review/qa-matrix-gen.py:47-50, 102-110). */
module QaFile {

  import opened Wrappers
  import opened TableCells
  import opened QaMatrix
  import opened QaRegeneration
  import opened TextSearch
  import Strings

  const BEGIN := "<!-- MATRIX:BEGIN -->"
  const END := "<!-- MATRIX:END -->"

  // ---------- a marker inside the table ----------

  /** What the proofs need of the end marker. */
  predicate IsMarker(m: string) {
    && m != [] && m[0] == '<' && m[|m| - 1] != ' '
    && '|' !in m && '\\' !in m && '\n' !in m && 'В' !in m
  }

  lemma EndIsAMarker()
    ensures IsMarker(END)
  {
  }

  lemma {:induction false} FenceContains(cells: seq<string>, m: string)
    requires IsMarker(m) && forall i :: 0 <= i < |cells| ==> !Contains(cells[i], m)
    ensures !Contains(Fence(cells), m)
  {
    if cells == [] {
      ContainsNeedsItsFirst("|", m);
    } else {
      var init, end := cells[..|cells| - 1], cells[|cells| - 1];
      FenceContains(init, m);
      if Contains(Fence(cells), m) {
        FenceEndsWithPipe(init);
        var head, padded := Fence(init)[..|Fence(init)| - 1], " " + end + " ";
        assert Fence(cells) == head + ['|'] + (padded + "|");
        ContainsAcross(head, '|', padded + "|", m);
        ContainsInConcat(head, "|", m);
        assert padded + "|" == padded + ['|'] + [];
        ContainsAcross(padded, '|', [], m);
        ContainsNeedsItsFirst([], m);
        ContainsPadded(end, m);
      }
    }
  }

  lemma FenceEndsWithPipe(cells: seq<string>)
    ensures Fence(cells) != [] && Fence(cells) == Fence(cells)[..|Fence(cells)| - 1] + "|"
  {
  }

  lemma LineContains(text: string, line: string, m: string)
    requires IsMarker(m) && !Contains(text, m) && !Contains(line, m)
    requires text == [] || text[|text| - 1] == '\n'
    ensures !Contains(text + (line + "\n"), m)
  {
    ContainsNeedsItsFirst([], m);
    var whole := text + (line + "\n");
    assert whole == (text + line) + ['\n'] + [];
    if text == [] {
      assert text + line == line;
    } else {
      var before := text[..|text| - 1];
      ContainsInConcat(before, "\n", m);
      assert text == before + "\n" && text + line == before + ['\n'] + line;
      if Contains(text + line, m) {
        ContainsAcross(before, '\n', line, m);
      }
    }
    if Contains(whole, m) {
      ContainsAcross(text + line, '\n', [], m);
    }
  }

  lemma {:induction false} TextContains(lines: seq<string>, m: string)
    requires IsMarker(m) && forall i :: 0 <= i < |lines| ==> !Contains(lines[i], m)
    ensures !Contains(Text(lines), m)
  {
    ContainsNeedsItsFirst([], m);
    if lines != [] {
      TextContains(lines[..|lines| - 1], m);
      LineContains(Text(lines[..|lines| - 1]), lines[|lines| - 1], m);
    }
  }

  lemma {:induction false} RulerHasNoAngle(n: nat)
    ensures '<' !in Repeat("---|", n)
  {
    if n > 0 {
      RulerHasNoAngle(n - 1);
    }
  }

  lemma HeaderHasNoMarker(i: nat, m: string)
    requires i < |HEADER| && IsMarker(m)
    ensures !Contains(HEADER[i], m)
  {
    HeaderHasNoAngle(i);
    ContainsNeedsItsFirst(HEADER[i], m);
  }

  lemma HeaderHasNoAngle(i: nat)
    requires i < |HEADER|
    ensures '<' !in HEADER[i]
  {
    match i
    case 0 => assert HEADER[i] == "ID";
    case 1 => assert HEADER[i] == "Поверхня";
    case 2 => assert HEADER[i] == "Точка";
    case 3 => assert HEADER[i] == "Категорія";
    case 4 => assert HEADER[i] == "Кроки";
    case 5 => assert HEADER[i] == "Очікувано";
    case 6 => assert HEADER[i] == "Наявне автопокриття";
    case 7 => assert HEADER[i] == "Виконавець";
    case 8 => assert HEADER[i] == "Вердикт";
    case 9 => assert HEADER[i] == "Доказ";
    case _ => assert HEADER[i] == "Баг/задача";
  }

  /** No cell, as it is printed, holds the marker. */
  ghost predicate RowFree(row: seq<string>, m: string) {
    forall i :: 0 <= i < |row| ==> !Contains(Escape(row[i]), m)
  }

  lemma {:induction false} LinesContain(rows: seq<Row>, m: string)
    requires IsMarker(m) && forall i :: 0 <= i < |rows| ==> RowFree(rows[i], m)
    ensures forall i :: 0 <= i < |Lines(rows)| ==> !Contains(Lines(rows)[i], m)
  {
    if rows == [] {
      forall i | 0 <= i < |HEADER| ensures !Contains(HEADER[i], m) {
        HeaderHasNoMarker(i, m);
      }
      RenderIsFence(HEADER);
      FenceContains(HEADER, m);
      RulerHasNoAngle(|HEADER|);
      ContainsNeedsItsFirst("|" + Repeat("---|", |HEADER|), m);
    } else {
      var end := rows[|rows| - 1];
      LinesContain(rows[..|rows| - 1], m);
      assert RowFree(end, m);
      RenderIsFence(EscapeAll(end));
      FenceContains(EscapeAll(end), m);
    }
  }

  /** The printed table holds the marker only if one of its cells does. */
  lemma BodyContains(rows: seq<Row>, m: string)
    requires IsMarker(m) && forall i :: 0 <= i < |rows| ==> RowFree(rows[i], m)
    ensures !Contains(Body(rows), m)
  {
    LinesContain(rows, m);
    TextContains(Lines(rows), m);
    LineFeedAddsNothing(Text(Lines(rows)), m);
  }

  lemma LineFeedAddsNothing(text: string, m: string)
    requires IsMarker(m) && !Contains(text, m)
    ensures !Contains("\n" + text, m)
  {
    ContainsNeedsItsFirst([], m);
    assert "\n" + text == [] + ['\n'] + text;
    if Contains("\n" + text, m) {
      ContainsAcross([], '\n', text, m);
    }
  }

  // ---------- what is read holds no marker ----------

  lemma {:induction false} PiecesContain(s: string, m: string, k: nat)
    requires !Contains(s, m) && k < |SplitLines(s)|
    ensures !Contains(SplitLines(s)[k], m)
    decreases |s|
  {
    SplitFirstLine(s);
    if k == 0 {
      if Contains(s[..FirstBreak(s)], m) {
        ContainsInSlice(s, 0, FirstBreak(s), m);
      }
    } else {
      if Contains(s[NextLine(s)..], m) {
        ContainsInTail(s, NextLine(s), m);
      }
      PiecesContain(s[NextLine(s)..], m, k - 1);
    }
  }

  /** The last part is the end of the text. */
  lemma {:induction false} LastPartIsAnEnd(s: string) returns (k: nat)
    ensures k <= |s| && SplitPipes(s)[|SplitPipes(s)| - 1] == s[k..]
  {
    if s == [] {
      k := 0;
    } else {
      var init := s[..|s| - 1];
      k := LastPartIsAnEnd(init);
      Strings.Unsnoc(s);
      SplitOneMore(init, s[|s| - 1]);
      if s[|s| - 1] == '|' && !EndsWithSlash(init) {
        k := |s|;
      } else {
        assert init[k..] + [s[|s| - 1]] == s[k..];
      }
    }
  }

  lemma {:induction false} PartsContain(s: string, m: string, k: nat)
    requires !Contains(s, m) && k < |SplitPipes(s)|
    ensures !Contains(SplitPipes(s)[k], m)
  {
    if k == |SplitPipes(s)| - 1 {
      var at := LastPartIsAnEnd(s);
      if Contains(s[at..], m) {
        ContainsInTail(s, at, m);
      }
    } else {
      var init := s[..|s| - 1];
      Strings.Unsnoc(s);
      SplitOneMore(init, s[|s| - 1]);
      if Contains(init, m) {
        ContainsInSlice(s, 0, |s| - 1, m);
      }
      PartsContain(init, m, k);
    }
  }

  lemma StripContains(s: string, m: string)
    requires !Contains(s, m)
    ensures !Contains(Strip(s), m)
  {
    var before, after := StripSplits(s);
    assert s == before + (Strip(s) + after);
    ContainsInConcat(Strip(s), after, m);
    ContainsInConcat(before, Strip(s) + after, m);
  }

  lemma {:induction false} CollapseTail(x: string, b: string)
    requires '|' !in b
    ensures Collapse(x + b) == Collapse(x) + b
    decreases |b|
  {
    if b == [] {
      Strings.NothingAfter(x);
      Strings.NothingAfter(Collapse(x));
    } else {
      var init, end := b[..|b| - 1], b[|b| - 1];
      CollapseTail(x, init);
      Strings.Unsnoc(b);
      Strings.Assoc(x, init, [end]);
      CollapseLastOther(x + init, end);
      Strings.Assoc(Collapse(x), init, [end]);
    }
  }

  /** Where the last pipe stands. */
  lemma {:induction false} SplitAtLastPipe(s: string) returns (a: string, b: string)
    requires '|' in s
    ensures s == a + "|" + b && '|' !in b
  {
    var init, end := s[..|s| - 1], s[|s| - 1];
    if end == '|' {
      a, b := init, [];
    } else {
      a, b := SplitAtLastPipe(init);
      b := b + [end];
    }
    Strings.Unsnoc(s);
  }

  lemma {:induction false} CollapseContains(s: string, m: string)
    requires IsMarker(m) && !Contains(s, m)
    ensures !Contains(Collapse(s), m)
    decreases |s|
  {
    if '|' in s {
      var a, b := SplitAtLastPipe(s);
      var kept := DropSlashes(a);
      SidesContain(a, b, m);
      if Contains(kept, m) {
        ContainsInSlice(a, 0, |kept|, m);
      }
      CollapseContains(kept, m);
      CollapseTail(a + "|", b);
      CollapseLastPipe(a);
      if Contains(Collapse(kept) + ['|'] + b, m) {
        ContainsAcross(Collapse(kept), '|', b, m);
      }
    } else {
      CollapseTail([], s);
      Strings.NothingAfter(s);
    }
  }

  lemma SidesContain(a: string, b: string, m: string)
    requires !Contains(a + "|" + b, m)
    ensures !Contains(a, m) && !Contains(b, m)
  {
    ContainsInConcat(a, "|", m);
    ContainsInConcat(a + "|", b, m);
  }

  /** Escaping a cell that holds no line feed adds no marker. */
  lemma {:induction false} EscapeContains(s: string, m: string)
    requires IsMarker(m) && !Contains(s, m) && '\n' !in s
    ensures !Contains(Escape(s), m)
    decreases |s|
  {
    if '|' in s {
      var a, b := SplitAtLastPipe(s);
      SidesContain(a, b, m);
      EscapeContains(a, m);
      EscapeAtPipe(a, b);
      PipeAddsNothing(Escape(a), b, m);
    } else {
      EscapeWithoutPipes(s);
    }
  }

  lemma EscapeAtPipe(a: string, b: string)
    requires '|' !in b && '\n' !in b
    ensures Escape(a + "|" + b) == Escape(a) + "\\" + ['|'] + b
  {
    EscapeAppend(a + "|", b);
    EscapeOneMore(a, '|');
    EscapeWithoutPipes(b);
  }

  lemma PipeAddsNothing(a: string, b: string, m: string)
    requires IsMarker(m) && !Contains(a, m) && !Contains(b, m)
    ensures !Contains(a + "\\" + ['|'] + b, m)
  {
    ContainsNeedsItsFirst([], m);
    assert a + "\\" == a + ['\\'] + [];
    if Contains(a + "\\" + ['|'] + b, m) {
      ContainsAcross(a + "\\", '|', b, m);
      ContainsAcross(a, '\\', [], m);
    }
  }

  /** No kept cell holds the marker. */
  ghost predicate KeptFree(kept: Kept, m: string) {
    forall k :: k in kept.rows ==> forall i :: 0 <= i < COLUMNS ==> !Contains(kept.rows[k][i], m)
  }

  lemma ReadLineContains(line: string, m: string, i: nat)
    requires IsMarker(m) && !Contains(line, m) && ReadLine(line).Some? && i < COLUMNS
    ensures !Contains(ReadLine(line).value[i], m)
  {
    var parts := SplitPipes(line);
    var part := parts[1..|parts| - 1][i];
    PartsContain(line, m, i + 1);
    StripContains(part, m);
    CollapseContains(Strip(part), m);
  }

  lemma {:induction false} ReadLinesContain(lines: seq<string>, m: string)
    requires IsMarker(m) && forall i :: 0 <= i < |lines| ==> !Contains(lines[i], m)
    ensures KeptFree(ReadLines(NOTHING_KEPT, lines), m)
  {
    if lines != [] {
      var init, end := lines[..|lines| - 1], lines[|lines| - 1];
      ReadLinesContain(init, m);
      if ReadLine(end).Some? {
        forall i | 0 <= i < COLUMNS ensures !Contains(ReadLine(end).value[i], m) {
          ReadLineContains(end, m, i);
        }
      }
    }
  }

  lemma ReadBodyContains(body: string, m: string)
    requires IsMarker(m) && !Contains(body, m)
    ensures KeptFree(ReadBody(body), m)
  {
    forall k | 0 <= k < |SplitLines(body)| ensures !Contains(SplitLines(body)[k], m) {
      PiecesContain(body, m, k);
    }
    ReadLinesContain(SplitLines(body), m);
  }

  // ---------- the file ----------

  /** The text between the first opening marker and the next closing one, or the end. */
  function Between(text: string, open: string, close: string): Option<string> {
    match Find(text, open)
    case None => None
    case Some(at) =>
      var rest := text[at + |open|..];
      match Find(rest, close)
      case None => Some(rest)
      case Some(end) => Some(rest[..end])
  }

  /** `parse_existing`. */
  function ParseFile(text: string): Kept {
    match Between(text, BEGIN, END)
    case None => NOTHING_KEPT
    case Some(body) => ReadBody(body)
  }

  datatype FileError = DuplicateIds | NoEndMarker

  function Table(rows: seq<Row>): string {
    BEGIN + Body(rows) + END
  }

  /** A file without markers gets its table behind the text, whose trailing white space goes. */
  function Appended(text: string, rows: seq<Row>): string {
    StripEnd(text) + "\n\n" + Table(rows) + "\n"
  }

  /** The text with the table replaced: everything before the first BEGIN and after the first END of
      the file is kept. */
  function Rewritten(text: string, rows: seq<Row>): Result<string, FileError> {
    match Find(text, BEGIN)
    case None => Success(Appended(text, rows))
    case Some(at) =>
      match Find(text, END)
      case None => Failure(NoEndMarker)
      case Some(end) => Success(text[..at] + Table(rows) + text[end + |END|..])
  }

  /** One run of the script on the file. */
  function RunScript(text: string, data: seq<DataRow>): Result<string, FileError> {
    ParseFileIsFromFile(text);
    if !Distinct(Ids(data)) then Failure(DuplicateIds) else Rewritten(text, NewRows(data, ParseFile(text)))
  }

  lemma ParseFileIsFromFile(text: string)
    ensures FromFile(ParseFile(text))
  {
    match Between(text, BEGIN, END)
    case None =>
    case Some(body) => ReadBodyIsFromFile(body);
  }

  /** The script stops without writing exactly if the file has an opening marker and no closing one. */
  lemma StopsIff(text: string, rows: seq<Row>)
    ensures Rewritten(text, rows).Failure? <==> Contains(text, BEGIN) && !Contains(text, END)
    ensures Rewritten(text, rows).Failure? ==> Rewritten(text, rows).error == NoEndMarker
  {
  }

  /** One run fails exactly on a repeated ID or on a file with an opening marker and no closing one. */
  lemma RunFailsIff(text: string, data: seq<DataRow>)
    ensures RunScript(text, data) == Failure(DuplicateIds) <==> !Distinct(Ids(data))
    ensures RunScript(text, data) == Failure(NoEndMarker)
       <==> Distinct(Ids(data)) && Contains(text, BEGIN) && !Contains(text, END)
  {
    ParseFileIsFromFile(text);
    StopsIff(text, NewRows(data, ParseFile(text)));
  }

  /** With no closing marker behind the opening one, everything behind it is read. */
  lemma WithoutEndTheRestIsRead(pre: string, rest: string)
    requires Find(pre + BEGIN + rest, BEGIN) == Some(|pre|) && !Contains(rest, END)
    ensures ParseFile(pre + BEGIN + rest) == ReadBody(rest)
  {
    TailOf(pre + BEGIN, rest);
    NotFound(rest, END);
  }

  /** A file without an opening marker holds nothing to read. */
  lemma WithoutBeginNothingIsRead(text: string)
    requires !Contains(text, BEGIN)
    ensures ParseFile(text) == NOTHING_KEPT
  {
    NotFound(text, BEGIN);
  }

  /** The first markers of the file stand around the table, in order. */
  predicate IsFile(text: string, pre: string, body: string, post: string) {
    && text == pre + BEGIN + body + END + post
    && Find(text, BEGIN) == Some(|pre|)
    && Find(text, END) == Some(|pre| + |BEGIN| + |body|)
  }

  lemma FileParts(text: string, pre: string, body: string, post: string)
    requires text == pre + BEGIN + body + END + post
    ensures text[..|pre|] == pre && text[|pre| + |BEGIN|..] == body + END + post
    ensures text[|pre| + |BEGIN| + |body| + |END|..] == post
  {
  }

  lemma TableIsBetween(pre: string, b: string, body: string, e: string, post: string)
    requires Find(pre + b + body + e + post, b) == Some(|pre|)
    requires Find(pre + b + body + e + post, e) == Some(|pre| + |b| + |body|)
    ensures Between(pre + b + body + e + post, b, e) == Some(body)
  {
    var head, rest := pre + b, body + (e + post);
    Regrouped(pre, b, body, e, post);
    TailOf(head, rest);
    PrefixOf(body, e + post);
    OccursInTail(head + rest, |head|, e, |body|);
    forall i: nat | i < |body| ensures !OccursAt(rest, e, i) {
      OccursInTail(head + rest, |head|, e, i);
    }
    FindIs(rest, e, |body|);
  }

  lemma TableHasNoEnd(pre: string, b: string, body: string, e: string, post: string)
    requires e != [] && Find(pre + b + body + e + post, e) == Some(|pre| + |b| + |body|)
    ensures !Contains(body, e)
  {
    Regrouped(pre, b, body, e, post);
    if i: nat :| OccursAt(body, e, i) {
      OccursInMiddle(pre + b, body, e + post, e, i);
    }
  }

  lemma FileIsItsTable(text: string, pre: string, body: string, post: string)
    requires IsFile(text, pre, body, post)
    ensures ParseFile(text) == ReadBody(body)
    ensures !Contains(body, END)
  {
    TableIsBetween(pre, BEGIN, body, END, post);
    TableHasNoEnd(pre, BEGIN, body, END, post);
  }

  lemma BodyEndsInLineFeeds(rows: seq<Row>)
    ensures var body := Body(rows); body != [] && body[0] == '\n' && body[|body| - 1] == '\n'
  {
    assert Lines(rows) != [];
  }

  lemma NoEarlierEnd(pre: string, body: string, rest: string, m: string, k: nat)
    requires body != [] && body[|body| - 1] == '\n' && '\n' !in m && !Contains(body, m) && k < |body|
    ensures !OccursAt(pre + body + rest, m, |pre| + k)
  {
    if k + |m| <= |body| {
      OccursInMiddle(pre, body, rest, m, k);
    } else if OccursAt(pre + body + rest, m, |pre| + k) {
      OccurrenceHas(pre + body + rest, m, |pre| + k, |body| - 1 - k);
    }
  }

  lemma NoEndOverTheStart(pre: string, rest: string, m: string, i: nat)
    requires rest != [] && rest[0] == '\n' && '\n' !in m && i < |pre| < i + |m|
    ensures !OccursAt(pre + rest, m, i)
  {
    if OccursAt(pre + rest, m, i) {
      OccurrenceHas(pre + rest, m, i, |pre| - i);
    }
  }

  /** Replacing a table by one that holds no end marker keeps the file a file, with the text around
      the table as it was. */
  lemma RewritingKeepsTheFile(text: string, pre: string, body: string, post: string, rows: seq<Row>)
    requires IsFile(text, pre, body, post) && !Contains(Body(rows), END)
    ensures Rewritten(text, rows) == Success(pre + BEGIN + Body(rows) + END + post)
    ensures IsFile(pre + BEGIN + Body(rows) + END + post, pre, Body(rows), post)
  {
    RewritingReplacesTheTable(text, pre, body, post, rows);
    BodyEndsInLineFeeds(rows);
    NewMarkers(text, pre, body, post, Body(rows));
  }

  lemma RewritingReplacesTheTable(text: string, pre: string, body: string, post: string, rows: seq<Row>)
    requires IsFile(text, pre, body, post)
    ensures Rewritten(text, rows) == Success(pre + BEGIN + Body(rows) + END + post)
  {
    FileParts(text, pre, body, post);
    Strings.Assoc(pre, BEGIN, Body(rows));
    Strings.Assoc(pre, BEGIN + Body(rows), END);
  }

  /** The first BEGIN of a text depends on what is before its end only. */
  lemma SameBegin(head: string, rest: string, rest': string, b: string, at: nat)
    requires at + |b| == |head| && Find(head + rest, b) == Some(at)
    ensures Find(head + rest', b) == Some(at)
  {
    PrefixOf(head, rest);
    PrefixOf(head, rest');
    forall i: nat | i <= at ensures OccursAt(head + rest', b, i) <==> OccursAt(head + rest, b, i) {
      SamePrefixSameOccurrences(head + rest, head + rest', |head|, b, i);
    }
    FindIs(head + rest', b, at);
  }

  /** With no END before the table and none in it, the first END is the one after it. */
  lemma EndAfterTable(head: string, rest: string, table: string, m: string, post: string)
    requires table != [] && table[0] == '\n' && table[|table| - 1] == '\n' && '\n' !in m && !Contains(table, m)
    requires forall i: nat :: i + |m| <= |head| ==> !OccursAt(head + rest, m, i)
    ensures Find(head + table + (m + post), m) == Some(|head| + |table|)
  {
    var text, at := head + table + (m + post), |head| + |table|;
    assert text[at..at + |m|] == m;
    PrefixOf(head, rest);
    assert text == head + (table + (m + post));
    PrefixOf(head, table + (m + post));
    forall i: nat | i < at ensures !OccursAt(text, m, i) {
      if i + |m| <= |head| {
        SamePrefixSameOccurrences(head + rest, text, |head|, m, i);
      } else if i < |head| {
        NoEndOverTheStart(head, table + (m + post), m, i);
      } else {
        NoEarlierEnd(head, table, m + post, m, i - |head|);
      }
    }
    FindIs(text, m, at);
  }

  /** Both first markers stay first when the text between them is replaced by a table. */
  lemma MarkersMove(pre: string, b: string, body: string, e: string, post: string, table: string)
    requires e != [] && '\n' !in e && !Contains(table, e)
    requires table != [] && table[0] == '\n' && table[|table| - 1] == '\n'
    requires Find(pre + b + body + e + post, b) == Some(|pre|)
    requires Find(pre + b + body + e + post, e) == Some(|pre| + |b| + |body|)
    ensures Find(pre + b + table + e + post, b) == Some(|pre|)
    ensures Find(pre + b + table + e + post, e) == Some(|pre| + |b| + |table|)
  {
    var head := pre + b;
    Regrouped(pre, b, body, e, post);
    Regrouped(pre, b, table, e, post);
    SameBegin(head, body + (e + post), table + (e + post), b, |pre|);
    NothingBeforeTheFirst(pre + b + body + e + post, e, |pre| + |b| + |body|, |head|);
    EndAfterTable(head, body + (e + post), table, e, post);
  }

  lemma NewMarkers(text: string, pre: string, body: string, post: string, table: string)
    requires IsFile(text, pre, body, post) && !Contains(table, END)
    requires table != [] && table[0] == '\n' && table[|table| - 1] == '\n'
    ensures IsFile(pre + BEGIN + table + END + post, pre, table, post)
  {
    EndIsAMarker();
    MarkersMove(pre, BEGIN, body, END, post, table);
  }

  lemma CutIsBetween(pre: string, b: string, body: string, e: string, post: string, table: string)
    requires Find(pre + b + body + e + post, b) == Some(|pre|) && Find(table, e).Some?
    ensures Between(pre + b + table + e + post, b, e) == Some(table[..Find(table, e).value])
  {
    var head, cut := pre + b, Find(table, e).value;
    Regrouped(pre, b, body, e, post);
    Regrouped(pre, b, table, e, post);
    SameBegin(head, body + (e + post), table + (e + post), b, |pre|);
    FirstEndOfRest(table, e + post, e, cut);
    TailOf(head, table + (e + post));
    PrefixOf(table, e + post);
    assert (table + (e + post))[..cut] == table[..cut];
  }

  /** A cell that prints the end marker cuts the table short: the next run reads only what stands
      before it. */
  lemma EndInACellCutsTheTable(text: string, pre: string, body: string, post: string, rows: seq<Row>)
    requires IsFile(text, pre, body, post) && Find(Body(rows), END).Some?
    ensures Rewritten(text, rows).Success?
    ensures ParseFile(Rewritten(text, rows).value) == ReadBody(Body(rows)[..Find(Body(rows), END).value])
  {
    RewritingReplacesTheTable(text, pre, body, post, rows);
    CutIsBetween(pre, BEGIN, body, END, post, Body(rows));
  }

  lemma BeginHasNoEnd()
    ensures BEGIN != [] && '\n' !in BEGIN && !Contains(BEGIN, END)
  {
    assert END[12] == 'E' && BEGIN[12] == 'B';
    assert forall k :: 1 <= k < |BEGIN| ==> BEGIN[k] != '<';
    forall i: nat ensures !OccursAt(BEGIN, END, i) {
      DiffersAt(BEGIN, END, i, if i == 0 then 12 else 0);
    }
  }

  lemma NoMarkerInHead(head: string, m: string)
    requires !Contains(head, m)
    ensures forall i: nat :: i + |m| <= |head| ==> !OccursAt(head + [], m, i)
  {
    Strings.NothingAfter(head);
  }

  lemma AppendedMarkers(bare: string, b: string, body: string, e: string, post: string)
    requires b != [] && e != [] && '\n' !in b && '\n' !in e
    requires body != [] && body[0] == '\n' && body[|body| - 1] == '\n' && !Contains(body, e)
    requires !Contains(bare, b) && !Contains("\n\n", b) && !Contains(bare + "\n\n" + b, e)
    ensures var pre := bare + "\n\n";
            && Find(pre + b + body + e + post, b) == Some(|pre|)
            && Find(pre + b + body + e + post, e) == Some(|pre| + |b| + |body|)
  {
    var pre := bare + "\n\n";
    NoMarkerInHead(bare, b);
    EndAfterTable(bare, [], "\n\n", b, body + (e + post));
    NoMarkerInHead(pre + b, e);
    EndAfterTable(pre + b, [], body, e, post);
    Regrouped(pre, b, body, e, post);
    Strings.Assoc(pre, b, body + (e + post));
  }

  /** A file without markers gets its table at the end, and is a file from then on. */
  lemma FirstTableMakesAFile(text: string, rows: seq<Row>)
    requires !Contains(text, BEGIN) && !Contains(text, END) && !Contains(Body(rows), END)
    ensures Rewritten(text, rows) == Success(Appended(text, rows))
    ensures IsFile(Appended(text, rows), StripEnd(text) + "\n\n", Body(rows), "\n")
  {
    NotFound(text, BEGIN);
    BodyEndsInLineFeeds(rows);
    StripEndContains(text, BEGIN);
    StripEndContains(text, END);
    AppendedIs(text, rows);
    AppendedIsAFile(StripEnd(text), Body(rows));
  }

  lemma AppendedIsAFile(bare: string, body: string)
    requires !Contains(bare, BEGIN) && !Contains(bare, END) && !Contains(body, END)
    requires body != [] && body[0] == '\n' && body[|body| - 1] == '\n'
    ensures IsFile(bare + "\n\n" + BEGIN + body + END + "\n", bare + "\n\n", body, "\n")
  {
    EndIsAMarker();
    BeginHasNoEnd();
    ContainsNeedsItsFirst("\n\n", BEGIN);
    HeadHasNoEnd(bare);
    AppendedMarkers(bare, BEGIN, body, END, "\n");
  }

  lemma StripEndContains(text: string, m: string)
    requires !Contains(text, m)
    ensures !Contains(StripEnd(text), m)
  {
    var after := StripEndSplits(text);
    ContainsInConcat(StripEnd(text), after, m);
  }

  lemma AppendedIs(text: string, rows: seq<Row>)
    ensures Appended(text, rows) == (StripEnd(text) + "\n\n") + BEGIN + Body(rows) + END + "\n"
  {
    Strings.Assoc(StripEnd(text) + "\n\n", BEGIN, Body(rows));
    Strings.Assoc(StripEnd(text) + "\n\n", BEGIN + Body(rows), END);
  }

  lemma HeadHasNoEnd(bare: string)
    requires !Contains(bare, END)
    ensures !Contains(bare + "\n\n" + BEGIN, END)
  {
    EndIsAMarker();
    BeginHasNoEnd();
    ContainsNeedsItsFirst([], END);
    var whole := bare + "\n\n" + BEGIN;
    assert whole == (bare + "\n") + ['\n'] + BEGIN;
    assert bare + "\n" == bare + ['\n'] + [];
    if Contains(whole, END) {
      ContainsAcross(bare + "\n", '\n', BEGIN, END);
      ContainsAcross(bare, '\n', [], END);
    }
  }

  // ---------- any number of runs on the file ----------

  ghost predicate DataFree(data: seq<DataRow>) {
    forall i :: 0 <= i < |data| ==>
      && !Contains(Escape(data[i].id), END) && !Contains(Escape(data[i].bug), END)
      && RowFree(data[i].facts, END)
  }

  lemma KeptCellPrintsFree(kept: Kept, k: string, i: nat)
    requires FromFile(kept) && KeptFree(kept, END) && k in kept.rows && i < COLUMNS
    ensures !Contains(Escape(kept.rows[k][i]), END)
  {
    EndIsAMarker();
    assert PlainRow(kept.rows[k]);
    EscapeContains(kept.rows[k][i], END);
  }

  lemma FixedCellsPrintFree()
    ensures !Contains(Escape(NO_VERDICT), END) && !Contains(Escape(""), END)
  {
    EscapeWithoutPipes(NO_VERDICT);
    ContainsNeedsItsFirst(NO_VERDICT, END);
    ContainsNeedsItsFirst([], END);
  }

  lemma DataLinePrintsFree(d: DataRow, kept: Kept)
    requires FromFile(kept) && KeptFree(kept, END) && DataFree([d])
    ensures RowFree(DataLine(d, kept), END)
  {
    var row := DataLine(d, kept);
    assert [d][0] == d;
    FixedCellsPrintFree();
    forall i | 0 <= i < |row| ensures !Contains(Escape(row[i]), END) {
      if 1 <= i <= 7 {
        assert row[i] == d.facts[i - 1];
      } else if i >= 8 && d.id in kept.rows {
        KeptCellPrintsFree(kept, d.id, i);
      }
    }
  }

  lemma GoneTailHasNoMarker()
    ensures GONE == " " + ['В'] + GONE[2..] && '<' !in GONE[2..]
  {
    var tail := "ИДАЛЕНО З ДЖЕРЕЛА";
    assert GONE[2..] == tail;
    assert '<' !in tail;
  }

  lemma GoneIsOnePlainLine()
    ensures '\n' !in GONE
  {
    GoneIsOneLine();
    assert IsBreak('\n');
  }

  lemma GoneBugPrintsFree(bug: string)
    requires !Contains(bug, END) && '\n' !in bug
    ensures !Contains(Escape(Strip(bug + GONE)), END)
  {
    EndIsAMarker();
    GoneTailHasNoMarker();
    GoneIsOnePlainLine();
    var tail := GONE[2..];
    ContainsNeedsItsFirst(tail, END);
    assert bug + GONE == (bug + " ") + ['В'] + tail;
    if Contains(bug + GONE, END) {
      ContainsAcross(bug + " ", 'В', tail, END);
      ContainsInConcat(" ", bug + " ", END);
      assert " " + (bug + " ") == " " + bug + " ";
      ContainsPadded(bug, END);
    }
    StripContains(bug + GONE, END);
    var before, after := StripSplits(bug + GONE);
    assert '\n' !in Strip(bug + GONE) by {
      assert forall c :: c in Strip(bug + GONE) ==> c in bug + GONE;
    }
    EscapeContains(Strip(bug + GONE), END);
  }

  lemma GoneLinePrintsFree(kept: Kept, k: string)
    requires FromFile(kept) && KeptFree(kept, END) && k in kept.rows
    ensures RowFree(GoneLine(kept.rows[k]), END)
  {
    var row := GoneLine(kept.rows[k]);
    assert PlainRow(kept.rows[k]);
    GoneBugPrintsFree(kept.rows[k][BUG]);
    forall i | 0 <= i < |row| ensures !Contains(Escape(row[i]), END) {
      if i != BUG {
        KeptCellPrintsFree(kept, k, i);
      }
    }
  }

  /** A table read from a file and merged with data free of the end marker prints free of it. */
  lemma NewTableIsFree(data: seq<DataRow>, kept: Kept)
    requires FromFile(kept) && KeptFree(kept, END) && DataFree(data)
    ensures !Contains(Body(NewRows(data, kept)), END)
  {
    var rows, gone := NewRows(data, kept), GoneKeys(kept.order, Ids(data));
    forall i | 0 <= i < |rows| ensures RowFree(rows[i], END) {
      if i < |data| {
        DataLinePrintsFree(data[i], kept);
      } else {
        assert gone[i - |data|] in gone;
        GoneLinePrintsFree(kept, gone[i - |data|]);
      }
    }
    EndIsAMarker();
    BodyContains(rows, END);
  }

  /** The file after runs on a series of data files. */
  function AfterScripts(text: string, datas: seq<seq<DataRow>>): Result<string, FileError> {
    if datas == [] then Success(text)
    else
      match AfterScripts(text, datas[..|datas| - 1])
      case Failure(error) => Failure(error)
      case Success(before) => RunScript(before, datas[|datas| - 1])
  }

  lemma ScriptKeepsTheFile(text: string, pre: string, body: string, post: string, data: seq<DataRow>)
    requires IsFile(text, pre, body, post) && Distinct(Ids(data)) && DataFree(data)
    ensures FromFile(ReadBody(body))
    ensures var body' := Body(NewRows(data, ReadBody(body)));
            && RunScript(text, data) == Success(pre + BEGIN + body' + END + post)
            && IsFile(pre + BEGIN + body' + END + post, pre, body', post)
            && ReadBody(body') == Regenerate(data, ReadBody(body))
  {
    FileIsItsTable(text, pre, body, post);
    ReadBodyIsFromFile(body);
    EndIsAMarker();
    ReadBodyContains(body, END);
    NewTableIsFree(data, ReadBody(body));
    RewritingKeepsTheFile(text, pre, body, post, NewRows(data, ReadBody(body)));
  }

  /** The body after runs on a series of data files. */
  function AfterBodies(body: string, datas: seq<seq<DataRow>>): string {
    if datas == [] then body
    else
      var before := AfterBodies(body, datas[..|datas| - 1]);
      ReadBodyIsFromFile(before);
      Body(NewRows(datas[|datas| - 1], ReadBody(before)))
  }

  /** However often the script runs, the text around the table stays as it was, and what it reads is
      what the table alone says. */
  lemma {:induction false} ScriptsKeepTheFile(text: string, pre: string, body: string, post: string,
                                              datas: seq<seq<DataRow>>)
    requires IsFile(text, pre, body, post)
    requires forall i :: 0 <= i < |datas| ==> Distinct(Ids(datas[i])) && DataFree(datas[i])
    ensures var body' := AfterBodies(body, datas);
            && AfterScripts(text, datas).Success?
            && IsFile(AfterScripts(text, datas).value, pre, body', post)
            && ReadBody(body).Valid() && ReadBody(body') == AfterRuns(datas, ReadBody(body))
    decreases |datas|
  {
    ReadBodyIsFromFile(body);
    if datas != [] {
      var init := datas[..|datas| - 1];
      ScriptsKeepTheFile(text, pre, body, post, init);
      ScriptKeepsTheFile(AfterScripts(text, init).value, pre, AfterBodies(body, init), post, datas[|datas| - 1]);
    }
  }

  lemma ScriptsRead(text: string, pre: string, body: string, post: string, datas: seq<seq<DataRow>>)
    requires IsFile(text, pre, body, post)
    requires forall i :: 0 <= i < |datas| ==> Distinct(Ids(datas[i])) && DataFree(datas[i])
    ensures AfterScripts(text, datas).Success? && ParseFile(text).Valid()
    ensures ParseFile(AfterScripts(text, datas).value) == AfterRuns(datas, ParseFile(text))
  {
    ScriptsKeepTheFile(text, pre, body, post, datas);
    FileIsItsTable(text, pre, body, post);
    FileIsItsTable(AfterScripts(text, datas).value, pre, AfterBodies(body, datas), post);
  }

  /** After each run of the series, the file holds the ID as recorded at the start. */
  predicate IsHeldInTheFile(text: string, datas: seq<seq<DataRow>>, k: string)
    requires k in ParseFile(text).rows
  {
    datas != [] ==>
      && IsHeldInTheFile(text, datas[..|datas| - 1], k)
      && AfterScripts(text, datas).Success?
      && IsRecordedAs(ParseFile(AfterScripts(text, datas).value), k, ParseFile(text).rows[k])
  }

  lemma {:induction false} HeldInTheFileIff(text: string, pre: string, body: string, post: string,
                                            datas: seq<seq<DataRow>>, k: string)
    requires IsFile(text, pre, body, post) && k in ParseFile(text).rows
    requires forall i :: 0 <= i < |datas| ==> Distinct(Ids(datas[i])) && DataFree(datas[i])
    ensures ParseFile(text).Valid() && (IsHeldInTheFile(text, datas, k) <==> IsHeld(datas, ParseFile(text), k))
    decreases |datas|
  {
    ParseFileIsFromFile(text);
    if datas != [] {
      HeldInTheFileIff(text, pre, body, post, datas[..|datas| - 1], k);
      ScriptsRead(text, pre, body, post, datas);
    }
  }

  /** With data files whose cells print no end marker, a record outlives a series of runs of the script
      exactly when its row prints whole in each of them, and the table alone changes. QaMarkers has what
      becomes of it when a cell prints one. */
  lemma NothingIsLostWithoutMarkers(text: string, pre: string, body: string, post: string,
                                    datas: seq<seq<DataRow>>, k: string)
    requires IsFile(text, pre, body, post) && k in ParseFile(text).rows
    requires forall i :: 0 <= i < |datas| ==> NamesOnce(datas[i], k) && DataFree(datas[i])
    ensures AfterScripts(text, datas).Success?
    ensures AfterScripts(text, datas).value == pre + BEGIN + AfterBodies(body, datas) + END + post
    ensures ParseFile(text).Valid()
    ensures IsHeldInTheFile(text, datas, k) <==> AlwaysPrintsWhole(datas, ParseFile(text), k)
  {
    ScriptsKeepTheFile(text, pre, body, post, datas);
    HeldInTheFileIff(text, pre, body, post, datas, k);
    ParseFileIsFromFile(text);
    RecordIsHeldIff(datas, ParseFile(text), k);
  }
}

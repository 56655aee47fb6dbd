/** Regenerating the quality matrix over and over (review/qa-matrix-gen.py:62-111): what is
    recorded in the table survives every run, and runs on unchanged data settle. */
module QaRegeneration {

  import opened Wrappers
  import opened TableCells
  import opened QaMatrix
  import Strings

  const HEADER: seq<string> := ["ID", "Поверхня", "Точка", "Категорія", "Кроки", "Очікувано",
                                "Наявне автопокриття", "Виконавець", "Вердикт", "Доказ", "Баг/задача"]
  const NO_VERDICT := "—"
  const GONE := " ВИДАЛЕНО З ДЖЕРЕЛА"

  /** The seven columns that the data file refreshes on every run. */
  type Facts = f: seq<string> | |f| == 7 witness seq(7, _ => "")

  datatype DataRow = DataRow(id: string, facts: Facts, bug: string)

  // ---------- merging ----------

  /** The row for an entry of the data file: recorded verdict, evidence and bug are kept, and a bug
      from the data fills an empty one. */
  function DataLine(d: DataRow, kept: Kept): Row {
    [d.id] + d.facts + RecordedCells(d, kept)
  }

  function RecordedCells(d: DataRow, kept: Kept): (cells: seq<string>)
    ensures |cells| == 3
  {
    if d.id in kept.rows then
      var was := kept.rows[d.id];
      [was[VERDICT], was[EVIDENCE], if was[BUG] == "" && d.bug != "" then d.bug else was[BUG]]
    else [NO_VERDICT, "", d.bug]
  }

  /** The row of an ID that the data file no longer has. */
  function GoneLine(was: Row): Row {
    was[BUG := Strip(was[BUG] + GONE)]
  }

  function Ids(data: seq<DataRow>): (ids: seq<string>)
    ensures |ids| == |data|
    ensures forall i :: 0 <= i < |data| ==> ids[i] == data[i].id
  {
    seq(|data|, i requires 0 <= i < |data| => data[i].id)
  }

  predicate Distinct(keys: seq<string>) {
    forall i, j :: 0 <= i < j < |keys| ==> keys[i] != keys[j]
  }

  function GoneKeys(order: seq<string>, ids: seq<string>): (gone: seq<string>)
    ensures forall k :: k in gone <==> k in order && k !in ids
    ensures Distinct(order) ==> Distinct(gone)
  {
    if order == [] then []
    else
      var end := order[|order| - 1];
      GoneKeys(order[..|order| - 1], ids) + if end in ids then [] else [end]
  }

  function DataLines(data: seq<DataRow>, kept: Kept): (rows: seq<Row>)
    ensures |rows| == |data|
    ensures forall i :: 0 <= i < |data| ==> rows[i] == DataLine(data[i], kept)
  {
    seq<Row>(|data|, i requires 0 <= i < |data| => DataLine(data[i], kept))
  }

  function GoneLines(gone: seq<string>, kept: Kept): (rows: seq<Row>)
    requires forall k :: k in gone ==> k in kept.rows
    ensures |rows| == |gone|
    ensures forall i :: 0 <= i < |gone| ==> rows[i] == GoneLine(kept.rows[gone[i]])
  {
    seq<Row>(|gone|, i requires 0 <= i < |gone| => GoneLine(kept.rows[gone[i]]))
  }

  /** The rows of the new table: those of the data file first, then those it no longer has. */
  function NewRows(data: seq<DataRow>, kept: Kept): seq<Row>
    requires kept.Valid()
  {
    DataLines(data, kept) + GoneLines(GoneKeys(kept.order, Ids(data)), kept)
  }

  method GoneRows(kept: Kept, ids: seq<string>) returns (out: seq<Row>)
    requires forall k :: k in kept.order ==> k in kept.rows
    ensures out == GoneLines(GoneKeys(kept.order, ids), kept)
  {
    out := [];
    for n := 0 to |kept.order|
      invariant out == GoneSoFar(kept, ids, n)
    {
      GoneOneMore(kept, ids, n);
      var k := kept.order[n];
      if k in ids {
        continue;
      }
      out := out + [GoneLine(kept.rows[k])];
    }
    GoneSoFarIsAll(kept, ids);
  }

  lemma GoneSoFarIsAll(kept: Kept, ids: seq<string>)
    requires forall k :: k in kept.order ==> k in kept.rows
    ensures GoneSoFar(kept, ids, |kept.order|) == GoneLines(GoneKeys(kept.order, ids), kept)
  {
    Strings.Whole(kept.order);
  }

  /** The rows of the first `n` kept IDs that the data no longer has. */
  ghost function GoneSoFar(kept: Kept, ids: seq<string>, n: nat): seq<Row>
    requires (forall k :: k in kept.order ==> k in kept.rows) && n <= |kept.order|
  {
    GoneLines(GoneKeys(kept.order[..n], ids), kept)
  }

  lemma GoneOneMore(kept: Kept, ids: seq<string>, n: nat)
    requires (forall k :: k in kept.order ==> k in kept.rows) && n < |kept.order|
    ensures kept.order[n] in kept.rows
    ensures GoneSoFar(kept, ids, n + 1)
         == if kept.order[n] in ids then GoneSoFar(kept, ids, n)
            else GoneSoFar(kept, ids, n) + [GoneLine(kept.rows[kept.order[n]])]
  {
    assert kept.order[..n + 1] == kept.order[..n] + [kept.order[n]];
    GoneKeysOneMore(kept.order[..n], kept.order[n], ids);
    if kept.order[n] !in ids {
      GoneLinesAppend(GoneKeys(kept.order[..n], ids), kept.order[n], kept);
    }
  }

  lemma DataLinesAppend(data: seq<DataRow>, d: DataRow, kept: Kept)
    ensures DataLines(data + [d], kept) == DataLines(data, kept) + [DataLine(d, kept)]
  {
  }

  lemma GoneKeysOneMore(order: seq<string>, k: string, ids: seq<string>)
    ensures GoneKeys(order + [k], ids) == GoneKeys(order, ids) + if k in ids then [] else [k]
  {
    Strings.Snoc(order, k);
  }

  lemma GoneLinesAppend(gone: seq<string>, k: string, kept: Kept)
    requires forall j :: j in gone ==> j in kept.rows
    requires k in kept.rows
    ensures GoneLines(gone + [k], kept) == GoneLines(gone, kept) + [GoneLine(kept.rows[k])]
  {
  }

  // ---------- printing the table ----------

  function Repeat(s: string, n: nat): string {
    if n == 0 then "" else Repeat(s, n - 1) + s
  }

  function Lines(rows: seq<Row>): seq<string> {
    if rows == [] then [Render(HEADER), "|" + Repeat("---|", |HEADER|)]
    else Lines(rows[..|rows| - 1]) + [PrintRow(rows[|rows| - 1])]
  }

  /** The text between the two markers. */
  function Body(rows: seq<Row>): string {
    "\n" + Text(Lines(rows))
  }

  /** What reading the rows of a printed table leaves, one after the other. */
  function ReadRows(rows: seq<Row>): Kept {
    if rows == [] then NOTHING_KEPT else ReadRows(rows[..|rows| - 1]).PutIfSome(ReadBack(rows[|rows| - 1]))
  }

  lemma {:induction false} RulerIsOneLine(n: nat)
    ensures OneLine("|" + Repeat("---|", n))
  {
    if n > 0 {
      RulerIsOneLine(n - 1);
      OneLineConcat("|" + Repeat("---|", n - 1), "---|");
      assert "|" + Repeat("---|", n) == ("|" + Repeat("---|", n - 1)) + "---|";
    }
  }

  lemma {:induction false} RulerIsSkipped(n: nat)
    ensures n > 0 ==> Repeat("---|", n)[0] == '-'
    ensures ReadLine("|" + Repeat("---|", n)) == None
  {
    if n > 0 {
      RulerIsSkipped(n - 1);
    }
    var ruler := "|" + Repeat("---|", n);
    assert |ruler| > 1 ==> ruler[1] == '-';
  }

  lemma HeaderHasNoPipes(i: nat)
    requires i < |HEADER|
    ensures '|' !in HEADER[i]
  {
    match i
    case 0 => assert HEADER[i] == "ID";
    case 1 => assert HEADER[i] == "Поверхня";
    case 2 => assert HEADER[i] == "Точка";
    case 3 => assert HEADER[i] == "Категорія";
    case 4 => assert HEADER[i] == "Кроки";
    case 5 => assert HEADER[i] == "Очікувано";
    case 6 => assert HEADER[i] == "Наявне автопокриття";
    case 7 => assert HEADER[i] == "Виконавець";
    case 8 => assert HEADER[i] == "Вердикт";
    case 9 => assert HEADER[i] == "Доказ";
    case _ => assert HEADER[i] == "Баг/задача";
  }

  lemma HeaderIsSealed()
    ensures |HEADER| == COLUMNS && AllSealed(HEADER)
  {
    forall i | 0 <= i < |HEADER| ensures Sealed(HEADER[i]) {
      HeaderHasNoPipes(i);
    }
  }

  lemma HeadingReads()
    ensures ReadLines(NOTHING_KEPT, SplitLines(Render(HEADER) + "\n")) == NOTHING_KEPT
  {
    HeaderIsSealed();
    RenderedLineReads(NOTHING_KEPT, HEADER);
    assert LooksLikeHeading(HEADER[0]);
  }

  lemma RulerReads(n: nat)
    ensures ReadLines(NOTHING_KEPT, SplitLines("|" + Repeat("---|", n) + "\n")) == NOTHING_KEPT
  {
    RulerIsOneLine(n);
    RulerIsSkipped(n);
    SplitOneLine("|" + Repeat("---|", n));
    ReadOneLine(NOTHING_KEPT, "|" + Repeat("---|", n));
  }

  lemma TwoLinesRead(a: string, b: string)
    requires ReadLines(NOTHING_KEPT, SplitLines(a + "\n")) == NOTHING_KEPT
    requires ReadLines(NOTHING_KEPT, SplitLines(b + "\n")) == NOTHING_KEPT
    ensures ReadLines(NOTHING_KEPT, SplitLines(Text([a, b]))) == NOTHING_KEPT
  {
    assert [] + [a] == [a] && [a] + [b] == [a, b];
    ReadTextStep(NOTHING_KEPT, [a], b);
    ReadTextStep(NOTHING_KEPT, [], a);
  }

  lemma HeadingLinesAreSkipped()
    ensures ReadLines(NOTHING_KEPT, SplitLines(Text(Lines([])))) == NOTHING_KEPT
  {
    HeadingReads();
    RulerReads(|HEADER|);
    TwoLinesRead(Render(HEADER), "|" + Repeat("---|", |HEADER|));
  }

  lemma {:induction false} LinesRead(rows: seq<Row>)
    ensures ReadLines(NOTHING_KEPT, SplitLines(Text(Lines(rows)))) == ReadRows(rows)
  {
    if rows == [] {
      HeadingLinesAreSkipped();
    } else {
      var init, end := rows[..|rows| - 1], rows[|rows| - 1];
      LinesRead(init);
      ReadTextStep(NOTHING_KEPT, Lines(init), PrintRow(end));
      PrintedRowReadsBack(ReadRows(init), end);
    }
  }

  /** Reading a printed table is reading its rows: the heading, the ruler and the line breaks around
      them add nothing. */
  lemma BodyReads(rows: seq<Row>)
    ensures ReadBody(Body(rows)) == ReadRows(rows)
  {
    var text := Text(Lines(rows));
    SplitLinesAtLineFeed([], text);
    assert [] + "\n" + text == Body(rows) && [] + "\n" == "\n";
    assert SplitLines("\n") == [[]] by { SplitOneLine([]); }
    ReadLinesAppend(NOTHING_KEPT, [[]], SplitLines(text));
    ReadOneLine(NOTHING_KEPT, []);
    LinesRead(rows);
  }

  predicate PlainDistinctIds(rows: seq<Row>) {
    && (forall i, j :: 0 <= i < j < |rows| ==> rows[i][0] != rows[j][0])
    && (forall i :: 0 <= i < |rows| ==> IsPlainCell(rows[i][0]))
  }

  predicate HasId(rows: seq<Row>, k: string) {
    exists i :: 0 <= i < |rows| && rows[i][0] == k
  }

  lemma PlainDistinctInit(rows: seq<Row>)
    requires PlainDistinctIds(rows) && rows != []
    ensures PlainDistinctIds(rows[..|rows| - 1]) && !HasId(rows[..|rows| - 1], rows[|rows| - 1][0])
  {
    var init := rows[..|rows| - 1];
    forall i, j | 0 <= i < j < |init| ensures init[i][0] != init[j][0] {
      assert init[i] == rows[i] && init[j] == rows[j];
    }
  }

  lemma {:induction false} OnlyRowsAreRead(rows: seq<Row>)
    requires PlainDistinctIds(rows)
    ensures ReadRows(rows).Valid()
    ensures forall k :: k in ReadRows(rows).rows ==> HasId(rows, k)
  {
    if rows != [] {
      var init, end := rows[..|rows| - 1], rows[|rows| - 1];
      PlainDistinctInit(rows);
      OnlyRowsAreRead(init);
      DistinctRowsReadStep(init, end);
      HasIdOneMore(rows);
    }
  }

  lemma HasIdOneMore(rows: seq<Row>)
    requires rows != []
    ensures forall k :: HasId(rows, k) <==> HasId(rows[..|rows| - 1], k) || rows[|rows| - 1][0] == k
  {
    var init := rows[..|rows| - 1];
    forall k | HasId(init, k) ensures HasId(rows, k) {
      var i :| 0 <= i < |init| && init[i][0] == k;
      assert rows[i][0] == k;
    }
    assert forall i :: 0 <= i < |init| ==> rows[i] == init[i];
  }

  lemma PutKeepsOthers(kept: Kept, row: Row, k: string)
    requires Printed(row[0]) != k
    ensures var next := kept.PutIfSome(ReadBack(row));
            (k in next.rows <==> k in kept.rows) && (k in kept.rows ==> next.rows[k] == kept.rows[k])
  {
  }

  lemma PutAddsItsRow(kept: Kept, row: Row)
    requires IsPlainCell(row[0]) && row[0] !in kept.rows
    ensures var next := kept.PutIfSome(ReadBack(row));
            && (row[0] in next.rows <==> ReadBack(row).Some?)
            && (ReadBack(row).Some? ==> next.rows[row[0]] == PrintedAll(row))
  {
    PrintedIsIdentityIff(row[0]);
    assert PrintedAll(row)[0] == row[0];
  }

  lemma {:induction false} AbsentIdIsNotRead(rows: seq<Row>, k: string)
    requires forall i :: 0 <= i < |rows| ==> Printed(rows[i][0]) != k
    ensures k !in ReadRows(rows).rows
  {
    if rows != [] {
      var init := rows[..|rows| - 1];
      AbsentIdIsNotRead(init, k);
      PutKeepsOthers(ReadRows(init), rows[|rows| - 1], k);
    }
  }

  /** A row whose plain ID no other row prints is read back as itself, normalised, or leaves no trace. */
  lemma {:induction false} LoneRowIsRead(rows: seq<Row>, i: nat)
    requires i < |rows| && IsPlainCell(rows[i][0])
    requires forall j :: 0 <= j < |rows| && j != i ==> Printed(rows[j][0]) != rows[i][0]
    ensures rows[i][0] in ReadRows(rows).rows <==> ReadBack(rows[i]).Some?
    ensures ReadBack(rows[i]).Some? ==> ReadRows(rows).rows[rows[i][0]] == PrintedAll(rows[i])
  {
    var init, end := rows[..|rows| - 1], rows[|rows| - 1];
    if i == |init| {
      AbsentIdIsNotRead(init, end[0]);
      PutAddsItsRow(ReadRows(init), end);
    } else {
      assert rows[i] == init[i] && forall j :: 0 <= j < |init| ==> init[j] == rows[j];
      LoneRowIsRead(init, i);
      PutKeepsOthers(ReadRows(init), end, rows[i][0]);
    }
  }

  /** Rows with distinct, plain IDs are read back as themselves, normalised; those that do not read
      back at all leave no trace. */
  lemma DistinctRowsRead(rows: seq<Row>, i: nat)
    requires PlainDistinctIds(rows) && i < |rows|
    ensures rows[i][0] in ReadRows(rows).rows <==> ReadBack(rows[i]).Some?
    ensures ReadBack(rows[i]).Some? ==> ReadRows(rows).rows[rows[i][0]] == PrintedAll(rows[i])
  {
    forall j | 0 <= j < |rows| && j != i ensures Printed(rows[j][0]) != rows[i][0] {
      PrintedIsIdentityIff(rows[j][0]);
    }
    LoneRowIsRead(rows, i);
  }

  function RowIds(rows: seq<Row>): seq<string> {
    if rows == [] then [] else RowIds(rows[..|rows| - 1]) + [rows[|rows| - 1][0]]
  }

  lemma {:induction false} OrderIsRead(rows: seq<Row>)
    requires PlainDistinctIds(rows)
    requires forall i :: 0 <= i < |rows| ==> ReadBack(rows[i]).Some?
    ensures ReadRows(rows).order == RowIds(rows)
  {
    if rows != [] {
      var init, end := rows[..|rows| - 1], rows[|rows| - 1];
      PlainDistinctInit(rows);
      OnlyRowsAreRead(init);
      OrderIsRead(init);
      DistinctRowsReadStep(init, end);
    }
  }

  lemma DistinctRowsReadStep(init: seq<Row>, end: Row)
    requires !HasId(init, end[0])
    requires IsPlainCell(end[0])
    requires ReadRows(init).Valid()
    requires forall k :: k in ReadRows(init).rows ==> HasId(init, k)
    ensures var before, after := ReadRows(init), ReadRows(init).PutIfSome(ReadBack(end));
            && after.Valid()
            && end[0] !in before.rows
            && (if ReadBack(end).Some? then after.order == before.order + [end[0]]
                                            && after.rows == before.rows[end[0] := PrintedAll(end)]
                else after == before)
  {
    PrintedIsIdentityIff(end[0]);
    if ReadBack(end).Some? {
      assert PrintedAll(end)[0] == end[0];
      PutKeepsValid(ReadRows(init), PrintedAll(end));
    }
  }

  // ---------- what a file can hold ----------

  predicate PlainRow(row: Row) {
    forall i :: 0 <= i < |row| ==> IsPlainCell(row[i]) && OneLine(row[i])
  }

  ghost predicate FromFile(kept: Kept) {
    kept.Valid() && forall k :: k in kept.rows ==> PlainRow(kept.rows[k])
  }

  lemma {:induction false} PiecesAreOneLine(s: string)
    ensures forall line :: line in SplitLines(s) ==> OneLine(line)
    decreases |s|
  {
    if s != [] {
      PiecesAreOneLine(s[NextLine(s)..]);
    }
  }

  lemma {:induction false} PartsAreOneLine(s: string)
    requires OneLine(s)
    ensures forall i :: 0 <= i < |SplitPipes(s)| ==> OneLine(SplitPipes(s)[i])
  {
    if s != [] {
      OneLineConcat(s[..|s| - 1], [s[|s| - 1]]);
      assert s == s[..|s| - 1] + [s[|s| - 1]];
      PartsAreOneLine(s[..|s| - 1]);
      var parts := SplitPipes(s[..|s| - 1]);
      OneLineConcat(parts[|parts| - 1], [s[|s| - 1]]);
    }
  }

  lemma {:induction false} CollapseKeepsOneLine(s: string)
    requires OneLine(s)
    ensures OneLine(Collapse(s))
    decreases |s|
  {
    if s != [] {
      CollapseKeepsOneLine(if s[|s| - 1] == '|' then DropSlashes(s[..|s| - 1]) else s[..|s| - 1]);
    }
  }

  lemma ReadCellIsPlain(part: string)
    requires OneLine(part)
    ensures IsPlainCell(Collapse(Strip(part))) && OneLine(Collapse(Strip(part)))
  {
    var before, after := StripSplits(part);
    OneLineConcat(before + Strip(part), after);
    OneLineConcat(before, Strip(part));
    CollapseKeepsOneLine(Strip(part));
    CollapseKeepsStripped(Strip(part));
    assert '\n' !in Collapse(Strip(part)) by {
      assert IsBreak('\n');
    }
  }

  lemma ReadRowIsPlain(line: string)
    requires OneLine(line) && ReadLine(line).Some?
    ensures PlainRow(ReadLine(line).value)
  {
    PartsAreOneLine(line);
    var parts := SplitPipes(line);
    forall i | 0 <= i < COLUMNS
      ensures IsPlainCell(ReadLine(line).value[i]) && OneLine(ReadLine(line).value[i])
    {
      ReadCellIsPlain(parts[1..|parts| - 1][i]);
    }
  }

  lemma {:induction false} ReadLinesIsFromFile(lines: seq<string>)
    requires forall line :: line in lines ==> OneLine(line)
    ensures FromFile(ReadLines(NOTHING_KEPT, lines))
  {
    if lines != [] {
      var init, end := lines[..|lines| - 1], lines[|lines| - 1];
      ReadLinesIsFromFile(init);
      assert end in lines;
      if ReadLine(end).Some? {
        ReadRowIsPlain(end);
        PutKeepsValid(ReadLines(NOTHING_KEPT, init), ReadLine(end).value);
      }
    }
  }

  /** Whatever text is read, the rows are well-keyed and their cells normalised. */
  lemma ReadBodyIsFromFile(body: string)
    ensures FromFile(ReadBody(body))
  {
    PiecesAreOneLine(body);
    ReadLinesIsFromFile(SplitLines(body));
  }

  // ---------- one run ----------

  predicate CleanId(id: string) {
    IsPlainCell(id) && OneLine(id) && !LooksLikeHeading(Escape(id))
  }

  /** A data file the generator accepts and whose cells a table line can hold. */
  predicate CleanData(data: seq<DataRow>) {
    && Distinct(Ids(data))
    && forall i :: 0 <= i < |data| ==>
         CleanId(data[i].id) && CellsOnOneLine(data[i].facts) && OneLine(Unline(data[i].bug))
  }

  /** One run of the generator, seen from what the next run will read. */
  function Regenerate(data: seq<DataRow>, kept: Kept): Kept
    requires kept.Valid()
  {
    ReadBody(Body(NewRows(data, kept)))
  }

  lemma OneLineOfPlain(s: string)
    requires OneLine(s)
    ensures OneLine(Unline(s))
  {
    assert '\n' !in s by { assert IsBreak('\n'); }
  }

  lemma DataLineReadsBack(d: DataRow, kept: Kept)
    requires FromFile(kept)
    requires CleanId(d.id) && CellsOnOneLine(d.facts) && OneLine(Unline(d.bug))
    ensures ReadBack(DataLine(d, kept)) == Some(PrintedAll(DataLine(d, kept)))
  {
    var row := DataLine(d, kept);
    OneLineOfPlain(d.id);
    OneLineOfPlain(NO_VERDICT);
    OneLineOfPlain("");
    if d.id in kept.rows {
      var was := kept.rows[d.id];
      OneLineOfPlain(was[VERDICT]);
      OneLineOfPlain(was[EVIDENCE]);
      OneLineOfPlain(was[BUG]);
    }
    forall i | 0 <= i < |row| ensures OneLine(Unline(row[i])) {
      if 1 <= i <= 7 {
        assert row[i] == d.facts[i - 1];
      }
    }
  }

  lemma GoneIsOneLine()
    ensures OneLine(GONE)
  {
  }

  lemma GoneBugIsOneLine(bug: string)
    requires OneLine(bug)
    ensures OneLine(Strip(bug + GONE))
  {
    GoneIsOneLine();
    OneLineConcat(bug, GONE);
    StripIsOneLine(bug + GONE);
  }

  lemma StripIsOneLine(s: string)
    requires OneLine(s)
    ensures OneLine(Strip(s))
  {
    var before, after := StripSplits(s);
    OneLineConcat(before + Strip(s), after);
    OneLineConcat(before, Strip(s));
  }

  lemma GoneLineReadsBack(was: Row)
    requires PlainRow(was)
    ensures ReadBack(GoneLine(was))
         == if LooksLikeHeading(Escape(was[0])) then None else Some(PrintedAll(GoneLine(was)))
  {
    var row := GoneLine(was);
    GoneBugIsOneLine(was[BUG]);
    forall i | 0 <= i < |row| ensures OneLine(Unline(row[i])) {
      OneLineOfPlain(row[i]);
    }
  }

  /** Where each row of the new table comes from. */
  lemma NewRowsAreDistinct(data: seq<DataRow>, kept: Kept)
    requires CleanData(data) && FromFile(kept)
    ensures PlainDistinctIds(NewRows(data, kept))
  {
    var rows, ids := NewRows(data, kept), Ids(data);
    var gone := GoneKeys(kept.order, ids);
    forall i | 0 <= i < |rows|
      ensures rows[i][0] == if i < |data| then ids[i] else gone[i - |data|]
      ensures IsPlainCell(rows[i][0])
    {
      if i >= |data| {
        assert gone[i - |data|] in gone;
        assert kept.rows[gone[i - |data|]][0] == gone[i - |data|];
      }
    }
    forall i, j | 0 <= i < j < |rows| ensures rows[i][0] != rows[j][0] {
      if i < |data| <= j {
        assert gone[j - |data|] in gone && ids[i] in ids;
      }
    }
  }

  lemma DataIsInTheTable(data: seq<DataRow>, kept: Kept, i: nat)
    requires CleanData(data) && FromFile(kept) && i < |data|
    ensures var next := Regenerate(data, kept).rows;
            data[i].id in next && next[data[i].id] == PrintedAll(DataLine(data[i], kept))
  {
    var rows := NewRows(data, kept);
    BodyReads(rows);
    NewRowsAreDistinct(data, kept);
    DistinctRowsRead(rows, i);
    assert rows[i] == DataLine(data[i], kept);
    DataLineReadsBack(data[i], kept);
  }

  lemma SecondPart<T>(a: seq<T>, b: seq<T>, g: nat, x: T)
    requires g < |b| && b[g] == x
    ensures |a| + g < |a + b| && (a + b)[|a| + g] == x
  {
  }

  /** Where the row of an ID stands that the data file no longer names. */
  lemma GoneRowPlace(data: seq<DataRow>, kept: Kept, k: string) returns (g: nat, i: nat)
    requires kept.Valid() && k in kept.rows && k !in Ids(data)
    ensures g < |GoneKeys(kept.order, Ids(data))| && GoneKeys(kept.order, Ids(data))[g] == k
    ensures i == |data| + g < |NewRows(data, kept)| && NewRows(data, kept)[i] == GoneLine(kept.rows[k])
  {
    var gone := GoneKeys(kept.order, Ids(data));
    assert k in gone;
    g :| 0 <= g < |gone| && gone[g] == k;
    i := |data| + g;
    SecondPart(DataLines(data, kept), GoneLines(gone, kept), g, GoneLine(kept.rows[k]));
  }

  /** What a row leaves whose ID no other row of the new table prints. */
  lemma LoneNewRowIsRead(data: seq<DataRow>, kept: Kept, i: nat, row: Row)
    requires kept.Valid() && i < |NewRows(data, kept)| && NewRows(data, kept)[i] == row && IsPlainCell(row[0])
    requires forall j :: 0 <= j < |NewRows(data, kept)| && j != i ==> Printed(NewRows(data, kept)[j][0]) != row[0]
    ensures ReadsAs(Regenerate(data, kept), row)
  {
    BodyReads(NewRows(data, kept));
    LoneRowIsRead(NewRows(data, kept), i);
  }

  /** The row is read, normalised, if it can be read at all. */
  predicate ReadsAs(kept: Kept, row: Row) {
    && (row[0] in kept.rows <==> ReadBack(row).Some?)
    && (ReadBack(row).Some? ==> kept.rows[row[0]] == PrintedAll(row))
  }

  lemma NothingElseIsInTheTable(data: seq<DataRow>, kept: Kept, k: string)
    requires CleanData(data) && FromFile(kept) && k in Regenerate(data, kept).rows
    ensures k in Ids(data) || k in kept.rows
  {
    var rows := NewRows(data, kept);
    BodyReads(rows);
    NewRowsAreDistinct(data, kept);
    OnlyRowsAreRead(rows);
    var i :| 0 <= i < |rows| && rows[i][0] == k;
    NewRowIds(data, kept, i);
  }

  lemma NewRowIds(data: seq<DataRow>, kept: Kept, i: nat)
    requires kept.Valid() && i < |NewRows(data, kept)|
    ensures NewRows(data, kept)[i][0] in Ids(data) || NewRows(data, kept)[i][0] in kept.rows
  {
    var gone := GoneKeys(kept.order, Ids(data));
    if i < |data| {
      assert Ids(data)[i] == NewRows(data, kept)[i][0];
    } else {
      var k := gone[i - |data|];
      assert k in gone;
      assert NewRows(data, kept)[i] == GoneLine(kept.rows[k]);
    }
  }

  lemma PlainCellsPrintAsThemselves(row: Row, i: nat)
    requires PlainRow(row) && i < |row|
    ensures Printed(row[i]) == row[i]
  {
    PrintedIsIdentityIff(row[i]);
  }

  lemma CleanDataPrintsWholeOnce(data: seq<DataRow>, kept: Kept, k: string)
    requires CleanData(data) && FromFile(kept)
    ensures PrintsWhole(data, kept, k) <==> !LooksLikeHeading(Escape(k))
  {
    forall i | 0 <= i < |data| && data[i].id == k ensures CellsOnOneLine(DataLine(data[i], kept)) {
      DataLineReadsBack(data[i], kept);
    }
  }

  lemma CleanIdsAreNoHeadings(data: seq<DataRow>, k: string)
    requires CleanData(data) && k in Ids(data)
    ensures !LooksLikeHeading(Escape(k))
  {
  }

  /** After a run the table holds the data file's IDs and every ID it held before, except those that
      look like the heading; the verdict and the evidence beside an ID it held are untouched. */
  lemma OneRunKeepsTheRecord(data: seq<DataRow>, kept: Kept, k: string)
    requires CleanData(data) && FromFile(kept)
    ensures var next := Regenerate(data, kept);
            && FromFile(next)
            && (k in next.rows <==> k in Ids(data) || (k in kept.rows && !LooksLikeHeading(Escape(k))))
            && (k in next.rows && k in kept.rows ==> IsRecordedAs(next, k, kept.rows[k]))
  {
    ReadBodyIsFromFile(Body(NewRows(data, kept)));
    if k in Ids(data) {
      CleanIdsAreNoHeadings(data, k);
    }
    if k in kept.rows {
      CleanDataNamesOnce(data, k);
      RecordIsKeptIff(data, kept, k);
      CleanDataPrintsWholeOnce(data, kept, k);
    } else if k in Ids(data) {
      var i :| 0 <= i < |data| && Ids(data)[i] == k;
      DataIsInTheTable(data, kept, i);
    } else if k in Regenerate(data, kept).rows {
      NothingElseIsInTheTable(data, kept, k);
    }
  }

  // ---------- any number of runs ----------

  /** What the table holds after runs on a series of data files. */
  function AfterRuns(datas: seq<seq<DataRow>>, kept: Kept): (r: Kept)
    requires kept.Valid()
    ensures r.Valid()
  {
    if datas == [] then kept
    else
      var before := AfterRuns(datas[..|datas| - 1], kept);
      ReadBodyIsFromFile(Body(NewRows(datas[|datas| - 1], before)));
      Regenerate(datas[|datas| - 1], before)
  }

  /** The data file names each ID once, and prints this one for no other. */
  predicate NamesOnce(data: seq<DataRow>, k: string) {
    Distinct(Ids(data)) && forall i :: 0 <= i < |data| && Printed(data[i].id) == k ==> data[i].id == k
  }

  /** What the row of an ID takes to be printed so that it can be read: no line break in it other than
      line feeds, and an ID that is not taken for the heading. Other rows do not matter. */
  predicate PrintsWhole(data: seq<DataRow>, kept: Kept, k: string) {
    && !LooksLikeHeading(Escape(k))
    && forall i :: 0 <= i < |data| && data[i].id == k ==> CellsOnOneLine(DataLine(data[i], kept))
  }

  lemma DataRowIsRead(data: seq<DataRow>, kept: Kept, k: string, i: nat)
    requires FromFile(kept) && k in kept.rows && NamesOnce(data, k) && i < |data| && data[i].id == k
    ensures ReadsAs(Regenerate(data, kept), DataLine(data[i], kept))
  {
    forall j | 0 <= j < |NewRows(data, kept)| && j != i ensures Printed(NewRows(data, kept)[j][0]) != k {
      OtherRowsPrintOtherIds(data, kept, k, j);
      assert j < |data| ==> Ids(data)[i] != Ids(data)[j];
    }
    assert PlainRow(kept.rows[k]) && kept.rows[k][0] == k;
    LoneNewRowIsRead(data, kept, i, DataLine(data[i], kept));
  }

  /** The one row of an ID that the data file no longer names. */
  lemma OnlyItsGoneRow(data: seq<DataRow>, kept: Kept, k: string, g: nat, j: nat)
    requires FromFile(kept) && NamesOnce(data, k) && k !in Ids(data)
    requires g < |GoneKeys(kept.order, Ids(data))| && GoneKeys(kept.order, Ids(data))[g] == k
    requires j < |NewRows(data, kept)| && j != |data| + g
    ensures Printed(NewRows(data, kept)[j][0]) != k
  {
    var gone := GoneKeys(kept.order, Ids(data));
    OtherRowsPrintOtherIds(data, kept, k, j);
    if j < |data| {
      assert Ids(data)[j] == data[j].id;
    } else {
      assert Distinct(gone) && gone[j - |data|] != gone[g];
    }
  }

  lemma GoneRowIsRead(data: seq<DataRow>, kept: Kept, k: string)
    requires FromFile(kept) && k in kept.rows && NamesOnce(data, k) && k !in Ids(data)
    ensures GoneLine(kept.rows[k])[0] == k && ReadsAs(Regenerate(data, kept), GoneLine(kept.rows[k]))
  {
    var g, i := GoneRowPlace(data, kept, k);
    forall j | 0 <= j < |NewRows(data, kept)| && j != i ensures Printed(NewRows(data, kept)[j][0]) != k {
      OnlyItsGoneRow(data, kept, k, g, j);
    }
    assert PlainRow(kept.rows[k]) && kept.rows[k][0] == k;
    LoneNewRowIsRead(data, kept, i, GoneLine(kept.rows[k]));
  }

  /** Only a row with this ID prints it. */
  lemma OtherRowsPrintOtherIds(data: seq<DataRow>, kept: Kept, k: string, j: nat)
    requires FromFile(kept) && NamesOnce(data, k) && j < |NewRows(data, kept)|
    ensures var rows, gone := NewRows(data, kept), GoneKeys(kept.order, Ids(data));
            Printed(rows[j][0]) == k ==> k == if j < |data| then data[j].id else gone[j - |data|]
  {
    var gone := GoneKeys(kept.order, Ids(data));
    if j >= |data| {
      assert gone[j - |data|] in gone;
      assert PlainRow(kept.rows[gone[j - |data|]]);
      PrintedIsIdentityIff(gone[j - |data|]);
    }
  }

  lemma DataRecordIsKeptIff(data: seq<DataRow>, kept: Kept, k: string, i: nat)
    requires FromFile(kept) && k in kept.rows && NamesOnce(data, k) && i < |data| && data[i].id == k
    ensures var next := Regenerate(data, kept);
            && (k in next.rows <==> PrintsWhole(data, kept, k))
            && (k in next.rows ==> IsRecordedAs(next, k, kept.rows[k]))
  {
    forall j | 0 <= j < |data| && data[j].id == k ensures j == i {
      assert Ids(data)[j] == Ids(data)[i];
    }
    DataRowIsRead(data, kept, k, i);
    PlainCellsPrintAsThemselves(kept.rows[k], VERDICT);
    PlainCellsPrintAsThemselves(kept.rows[k], EVIDENCE);
  }

  lemma GoneRecordIsKeptIff(data: seq<DataRow>, kept: Kept, k: string)
    requires FromFile(kept) && k in kept.rows && NamesOnce(data, k) && k !in Ids(data)
    ensures var next := Regenerate(data, kept);
            && (k in next.rows <==> PrintsWhole(data, kept, k))
            && (k in next.rows ==> IsRecordedAs(next, k, kept.rows[k]))
  {
    forall j | 0 <= j < |data| ensures data[j].id != k {
      assert Ids(data)[j] in Ids(data);
    }
    GoneRowIsRead(data, kept, k);
    GoneLineReadsBack(kept.rows[k]);
    PlainCellsPrintAsThemselves(kept.rows[k], VERDICT);
    PlainCellsPrintAsThemselves(kept.rows[k], EVIDENCE);
  }

  /** The exact condition for one run: a recorded row stays in the table exactly when it prints whole,
      and then its verdict and its evidence are untouched. */
  lemma RecordIsKeptIff(data: seq<DataRow>, kept: Kept, k: string)
    requires FromFile(kept) && k in kept.rows && NamesOnce(data, k)
    ensures var next := Regenerate(data, kept);
            && FromFile(next)
            && (k in next.rows <==> PrintsWhole(data, kept, k))
            && (k in next.rows ==> IsRecordedAs(next, k, kept.rows[k]))
  {
    ReadBodyIsFromFile(Body(NewRows(data, kept)));
    if k in Ids(data) {
      var i :| 0 <= i < |data| && Ids(data)[i] == k;
      DataRecordIsKeptIff(data, kept, k, i);
    } else {
      GoneRecordIsKeptIff(data, kept, k);
    }
  }

  /** The table holds the ID with the verdict and the evidence of this row. */
  predicate IsRecordedAs(kept: Kept, k: string, was: Row) {
    k in kept.rows && kept.rows[k][VERDICT] == was[VERDICT] && kept.rows[k][EVIDENCE] == was[EVIDENCE]
  }

  /** From the first run to the last, the table holds the ID as recorded at the start. */
  predicate IsHeld(datas: seq<seq<DataRow>>, kept: Kept, k: string)
    requires kept.Valid() && k in kept.rows
  {
    datas != [] ==>
      IsHeld(datas[..|datas| - 1], kept, k) && IsRecordedAs(AfterRuns(datas, kept), k, kept.rows[k])
  }

  /** In every run the row prints whole. */
  predicate AlwaysPrintsWhole(datas: seq<seq<DataRow>>, kept: Kept, k: string)
    requires kept.Valid()
  {
    datas != [] ==>
      && AlwaysPrintsWhole(datas[..|datas| - 1], kept, k)
      && PrintsWhole(datas[|datas| - 1], AfterRuns(datas[..|datas| - 1], kept), k)
  }

  lemma {:induction false} RunsAreFromFile(datas: seq<seq<DataRow>>, kept: Kept)
    requires FromFile(kept)
    ensures FromFile(AfterRuns(datas, kept))
  {
    if datas != [] {
      ReadBodyIsFromFile(Body(NewRows(datas[|datas| - 1], AfterRuns(datas[..|datas| - 1], kept))));
    }
  }

  lemma {:induction false} RecordIsHeldIff(datas: seq<seq<DataRow>>, kept: Kept, k: string)
    requires FromFile(kept) && k in kept.rows && forall i :: 0 <= i < |datas| ==> NamesOnce(datas[i], k)
    ensures IsHeld(datas, kept, k) <==> AlwaysPrintsWhole(datas, kept, k)
    ensures IsHeld(datas, kept, k) ==> IsRecordedAs(AfterRuns(datas, kept), k, kept.rows[k])
  {
    if datas != [] {
      var init, end := datas[..|datas| - 1], datas[|datas| - 1];
      RecordIsHeldIff(init, kept, k);
      RunsAreFromFile(init, kept);
      if IsHeld(init, kept, k) {
        RecordIsKeptIff(end, AfterRuns(init, kept), k);
      }
    }
  }

  /** A verdict and its evidence, once a table can be read, outlive a series of runs, whatever the data
      files add, change or drop, exactly when the row prints whole in each of them. */
  lemma NothingRecordedIsLost(body: string, datas: seq<seq<DataRow>>, k: string)
    requires k in ReadBody(body).rows && forall i :: 0 <= i < |datas| ==> NamesOnce(datas[i], k)
    ensures ReadBody(body).Valid()
    ensures IsHeld(datas, ReadBody(body), k) <==> AlwaysPrintsWhole(datas, ReadBody(body), k)
  {
    ReadBodyIsFromFile(body);
    RecordIsHeldIff(datas, ReadBody(body), k);
  }

  /** Clean data files print every row whole whose ID is not taken for the heading. */
  lemma {:induction false} CleanDataPrintsWhole(datas: seq<seq<DataRow>>, kept: Kept, k: string)
    requires FromFile(kept) && k in kept.rows && !LooksLikeHeading(Escape(k))
    requires forall i :: 0 <= i < |datas| ==> CleanData(datas[i])
    ensures forall i :: 0 <= i < |datas| ==> NamesOnce(datas[i], k)
    ensures IsHeld(datas, kept, k)
  {
    forall i | 0 <= i < |datas| ensures NamesOnce(datas[i], k) {
      CleanDataNamesOnce(datas[i], k);
    }
    if datas != [] {
      var init, end := datas[..|datas| - 1], datas[|datas| - 1];
      CleanDataPrintsWhole(init, kept, k);
      RecordIsHeldIff(init, kept, k);
      RunsAreFromFile(init, kept);
      OneRunKeepsTheRecord(end, AfterRuns(init, kept), k);
    }
  }

  lemma CleanDataNamesOnce(data: seq<DataRow>, k: string)
    requires CleanData(data)
    ensures NamesOnce(data, k)
  {
    forall i | 0 <= i < |data| && Printed(data[i].id) == k ensures data[i].id == k {
      PrintedIsIdentityIff(data[i].id);
    }
  }

  // ---------- running again on the same data ----------

  lemma {:induction false} NoneGone(order: seq<string>, ids: seq<string>)
    requires forall k :: k in order ==> k in ids
    ensures GoneKeys(order, ids) == []
  {
    if order != [] {
      assert order[|order| - 1] in order;
      NoneGone(order[..|order| - 1], ids);
    }
  }

  lemma BugSettles(d: DataRow, kept: Kept, next: Kept)
    requires FromFile(kept)
    requires d.id in next.rows && next.rows[d.id] == PrintedAll(DataLine(d, kept))
    ensures Printed(DataLine(d, next)[BUG]) == Printed(DataLine(d, kept)[BUG])
  {
    PrintedIsIdempotent(DataLine(d, kept)[BUG]);
    if d.id in kept.rows {
      PlainCellsPrintAsThemselves(kept.rows[d.id], BUG);
    }
  }

  lemma CellSettles(d: DataRow, kept: Kept, next: Kept, i: nat)
    requires FromFile(kept) && i < COLUMNS
    requires d.id in next.rows && next.rows[d.id] == PrintedAll(DataLine(d, kept))
    ensures Printed(DataLine(d, next)[i]) == Printed(DataLine(d, kept)[i])
  {
    if i == BUG {
      BugSettles(d, kept, next);
    } else if i == VERDICT || i == EVIDENCE {
      PrintedIsIdempotent(DataLine(d, kept)[i]);
    }
  }

  /** The second printing of a data row gives the cells of the first. */
  lemma DataLineSettles(d: DataRow, kept: Kept, next: Kept)
    requires FromFile(kept)
    requires d.id in next.rows && next.rows[d.id] == PrintedAll(DataLine(d, kept))
    ensures PrintedAll(DataLine(d, next)) == PrintedAll(DataLine(d, kept))
  {
    var first, second := PrintedAll(DataLine(d, kept)), PrintedAll(DataLine(d, next));
    forall i | 0 <= i < COLUMNS ensures second[i] == first[i] {
      CellSettles(d, kept, next, i);
    }
  }

  /** When no row is gone, a second run on the same data changes nothing that is read, so from then
      on every run prints the same text. */
  lemma RegeneratingSettles(data: seq<DataRow>, kept: Kept)
    requires CleanData(data) && FromFile(kept)
    requires forall k :: k in kept.rows ==> k in Ids(data)
    ensures Regenerate(data, kept).Valid()
    ensures Regenerate(data, Regenerate(data, kept)) == Regenerate(data, kept)
  {
    var next := Regenerate(data, kept);
    ReadBodyIsFromFile(Body(NewRows(data, kept)));
    forall k | k in next.rows ensures k in Ids(data) {
      OneRunKeepsTheRecord(data, kept, k);
    }
    ReadOfDataLines(data, kept);
    ReadOfDataLines(data, next);
    forall i | 0 <= i < |data| ensures PrintedAll(DataLine(data[i], next)) == PrintedAll(DataLine(data[i], kept)) {
      DataIsInTheTable(data, kept, i);
      DataLineSettles(data[i], kept, next);
    }
    SameRowsByData(data, Regenerate(data, next), next);
  }

  lemma SameRowsByData(data: seq<DataRow>, a: Kept, b: Kept)
    requires a.order == b.order
    requires forall k :: k in a.rows <==> k in Ids(data)
    requires forall k :: k in b.rows <==> k in Ids(data)
    requires forall i :: 0 <= i < |data| ==> data[i].id in a.rows && data[i].id in b.rows
    requires forall i :: 0 <= i < |data| ==> a.rows[data[i].id] == b.rows[data[i].id]
    ensures a == b
  {
    forall k | k in a.rows ensures a.rows[k] == b.rows[k] {
      var i :| 0 <= i < |data| && Ids(data)[i] == k;
    }
    assert a.rows == b.rows;
  }

  lemma {:induction false} IdsOfDataLines(data: seq<DataRow>, kept: Kept)
    ensures RowIds(DataLines(data, kept)) == Ids(data)
  {
    if data != [] {
      var init := data[..|data| - 1];
      IdsOfDataLines(init, kept);
      assert DataLines(data, kept)[..|data| - 1] == DataLines(init, kept);
      assert Ids(data) == Ids(init) + [data[|data| - 1].id];
    }
  }

  lemma OrderOfDataLines(data: seq<DataRow>, kept: Kept)
    requires CleanData(data) && FromFile(kept)
    requires forall k :: k in kept.rows ==> k in Ids(data)
    ensures Regenerate(data, kept).order == Ids(data)
  {
    var rows := NewRows(data, kept);
    NoneGone(kept.order, Ids(data));
    assert rows == DataLines(data, kept);
    BodyReads(rows);
    NewRowsAreDistinct(data, kept);
    forall i | 0 <= i < |rows| ensures ReadBack(rows[i]).Some? {
      DataLineReadsBack(data[i], kept);
    }
    OrderIsRead(rows);
    IdsOfDataLines(data, kept);
  }

  lemma ReadOfDataLines(data: seq<DataRow>, kept: Kept)
    requires CleanData(data) && FromFile(kept)
    requires forall k :: k in kept.rows ==> k in Ids(data)
    ensures var next := Regenerate(data, kept);
            && next.order == Ids(data)
            && (forall k :: k in next.rows <==> k in Ids(data))
            && (forall i :: 0 <= i < |data| ==> data[i].id in next.rows)
            && (forall i :: 0 <= i < |data| ==> next.rows[data[i].id] == PrintedAll(DataLine(data[i], kept)))
  {
    OrderOfDataLines(data, kept);
    forall k ensures k in Regenerate(data, kept).rows <==> k in Ids(data) {
      OneRunKeepsTheRecord(data, kept, k);
    }
    forall i | 0 <= i < |data|
      ensures data[i].id in Regenerate(data, kept).rows
      ensures Regenerate(data, kept).rows[data[i].id] == PrintedAll(DataLine(data[i], kept))
    {
      DataIsInTheTable(data, kept, i);
    }
  }
}

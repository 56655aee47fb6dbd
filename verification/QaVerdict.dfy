/** Recording a verdict in the printed table, review/qa-matrix-verdict.py: one row is rewritten in
    place, and every other row and every other column reads as before. */
module QaVerdict {

  import opened Wrappers
  import opened TableCells
  import opened QaMatrix
  import QaRegeneration
  import Strings

  const VERDICTS: set<string> :=
    {"PASS", "FAIL", "BLOCKED", "NOT RUN", "USER-MANUAL", "N/A-IN-BUILD", "N/A", "CODE-ONLY"}

  datatype Problem = UnknownVerdict | RowNotFound | TooFewCells

  datatype Item = Item(id: string, verdict: string, evidence: string, bug: Option<string>)

  predicate IsRowOf(line: string, id: string) {
    Strings.StartsWith(line, "| " + id + " |")
  }

  /** The first line that holds the row, or the number of lines. */
  function FindRow(lines: seq<string>, id: string): (i: nat)
    ensures i <= |lines|
    ensures i < |lines| ==> IsRowOf(lines[i], id)
    ensures forall j :: 0 <= j < i ==> !IsRowOf(lines[j], id)
  {
    if lines == [] || IsRowOf(lines[0], id) then 0 else 1 + FindRow(lines[1..], id)
  }

  predicate HasRoom(line: string, item: Item) {
    |RawCells(line)| > if item.bug.Some? then BUG else EVIDENCE
  }

  function NewCells(line: string, item: Item): seq<string>
    requires HasRoom(line, item)
  {
    var cells := RawCells(line)[VERDICT := item.verdict][EVIDENCE := Escape(item.evidence)];
    if item.bug.Some? then cells[BUG := Escape(item.bug.value)] else cells
  }

  /** The lines after one verdict is recorded. */
  function Recorded(lines: seq<string>, item: Item): Result<seq<string>, Problem> {
    var i := FindRow(lines, item.id);
    if item.verdict !in VERDICTS then Failure(UnknownVerdict)
    else if i == |lines| then Failure(RowNotFound)
    else if !HasRoom(lines[i], item) then Failure(TooFewCells)
    else Success(lines[i := Render(NewCells(lines[i], item))])
  }

  /** The lines after a list of verdicts, or the first problem. */
  function RecordedAll(lines: seq<string>, items: seq<Item>): Result<seq<string>, Problem> {
    if items == [] then Success(lines)
    else
      match RecordedAll(lines, items[..|items| - 1])
      case Failure(problem) => Failure(problem)
      case Success(before) => Recorded(before, items[|items| - 1])
  }

  /** The list of lines that `apply` edits. */
  class Matrix {
    var lines: seq<string>

    constructor (lines: seq<string>)
      ensures this.lines == lines
    {
      this.lines := lines;
    }

    /** `apply`: nothing is changed unless the whole edit succeeds. */
    method Apply(item: Item) returns (r: Result<(), Problem>)
      modifies this
      ensures match Recorded(old(lines), item)
              case Success(after) => r == Success(()) && lines == after
              case Failure(problem) => r == Failure(problem) && lines == old(lines)
    {
      if item.verdict !in VERDICTS {
        return Failure(UnknownVerdict);
      }
      for i := 0 to |lines|
        invariant lines == old(lines)
        invariant forall j :: 0 <= j < i ==> !IsRowOf(lines[j], item.id)
      {
        if IsRowOf(lines[i], item.id) {
          assert FindRow(lines, item.id) == i;
          var cells := RawCells(lines[i]);
          if |cells| <= EVIDENCE || (item.bug.Some? && |cells| <= BUG) {
            return Failure(TooFewCells);
          }
          cells := cells[VERDICT := item.verdict][EVIDENCE := Escape(item.evidence)];
          if item.bug.Some? {
            cells := cells[BUG := Escape(item.bug.value)];
          }
          lines := lines[i := Render(cells)];
          return Success(());
        }
      }
      return Failure(RowNotFound);
    }
  }

  /** The batch form of the script: the file is written once, after every item succeeded, so a
      problem with any item leaves the file as it was. */
  method RecordBatch(file: seq<string>, items: seq<Item>) returns (r: Result<(), Problem>, file': seq<string>)
    ensures match RecordedAll(file, items)
            case Success(after) => r == Success(()) && file' == after
            case Failure(problem) => r == Failure(problem) && file' == file
  {
    var matrix := new Matrix(file);
    for n := 0 to |items|
      invariant RecordedAll(file, items[..n]) == Success(matrix.lines)
    {
      RecordedAllOneMore(file, items, n);
      r := matrix.Apply(items[n]);
      if r.Failure? {
        FailureStays(file, items, n + 1);
        return r, file;
      }
    }
    Strings.Whole(items);
    return Success(()), matrix.lines;
  }

  lemma RecordedAllOneMore(lines: seq<string>, items: seq<Item>, n: nat)
    requires n < |items| && RecordedAll(lines, items[..n]).Success?
    ensures RecordedAll(lines, items[..n + 1]) == Recorded(RecordedAll(lines, items[..n]).value, items[n])
  {
    assert items[..n + 1][..n] == items[..n];
  }

  lemma {:induction false} FailureStays(lines: seq<string>, items: seq<Item>, n: nat)
    requires n <= |items| && RecordedAll(lines, items[..n]).Failure?
    ensures RecordedAll(lines, items) == RecordedAll(lines, items[..n])
  {
    if n < |items| {
      assert items[..|items| - 1][..n] == items[..n];
      FailureStays(lines, items[..|items| - 1], n);
    } else {
      assert items[..n] == items;
    }
  }

  /** When a verdict is recorded: the verdict is a known one, some line begins as the row, and the first such
      line has ten cells, or eleven if a bug is given; otherwise the reason says which of these failed. */
  lemma RecordedIff(lines: seq<string>, item: Item)
    ensures var i := FindRow(lines, item.id);
            var cells: nat := if item.bug.Some? then 11 else 10;
            && (Recorded(lines, item).Success?
                <==> item.verdict in VERDICTS && i < |lines| && |RawCells(lines[i])| >= cells)
            && (Recorded(lines, item) == Failure(UnknownVerdict) <==> item.verdict !in VERDICTS)
            && (Recorded(lines, item) == Failure(RowNotFound)
                <==> item.verdict in VERDICTS && forall j :: 0 <= j < |lines| ==> !IsRowOf(lines[j], item.id))
  {
  }

  // ---------- the rewritten line ----------

  predicate IsVerdictChar(c: char) {
    'A' <= c <= 'Z' || c == '-' || c == '/' || c == ' '
  }

  lemma VerdictsAreWords(v: string)
    requires v in VERDICTS
    ensures v != [] && v[0] != ' ' && v[|v| - 1] != ' '
    ensures forall i :: 0 <= i < |v| ==> IsVerdictChar(v[i])
  {
  }

  lemma VerdictsArePlain(v: string)
    requires v in VERDICTS
    ensures IsPlainCell(v) && OneLine(v) && Sealed(v)
  {
    VerdictsAreWords(v);
    assert IsVerdictChar(v[0]) && IsVerdictChar(v[|v| - 1]);
    assert forall i :: 0 <= i < |v| ==> v[i] != '|' && !IsBreak(v[i]) && v[i] != '\n';
  }

  lemma PlainReadsAsItself(s: string)
    requires IsPlainCell(s)
    ensures Collapse(Strip(s)) == s
  {
    StripFixesStripped(s);
    CollapseFixesClean(s);
  }

  /** The row with the three recorded columns replaced. */
  function Updated(row: Row, item: Item): Row {
    var recorded := row[VERDICT := item.verdict][EVIDENCE := Printed(item.evidence)];
    if item.bug.Some? then recorded[BUG := Printed(item.bug.value)] else recorded
  }

  predicate ItemOnOneLine(item: Item) {
    OneLine(Unline(item.evidence)) && (item.bug.Some? ==> OneLine(Unline(item.bug.value)))
  }

  lemma NewCellsAreSealed(line: string, item: Item)
    requires item.verdict in VERDICTS && HasRoom(line, item)
    ensures AllSealed(NewCells(line, item))
  {
    RawCellsAreSealed(line);
    VerdictsArePlain(item.verdict);
    EscapedIsSealed(item.evidence);
    if item.bug.Some? {
      EscapedIsSealed(item.bug.value);
    }
  }

  lemma RawCellReads(line: string, i: nat)
    requires ReadLine(line).Some? && i < COLUMNS
    ensures Collapse(Strip(RawCells(line)[i])) == ReadLine(line).value[i]
  {
    RawCellsAreSealed(line);
    StripFixesStripped(RawCells(line)[i]);
  }

  lemma NewCellAt(line: string, item: Item, i: nat)
    requires HasRoom(line, item) && |RawCells(line)| == COLUMNS && i < COLUMNS
    ensures |NewCells(line, item)| == COLUMNS
    ensures NewCells(line, item)[i]
         == if i == VERDICT then item.verdict
            else if i == EVIDENCE then Escape(item.evidence)
            else if i == BUG && item.bug.Some? then Escape(item.bug.value)
            else RawCells(line)[i]
  {
  }

  lemma UpdatedAt(row: Row, item: Item, i: nat)
    requires i < COLUMNS
    ensures Updated(row, item)[i] == if i == VERDICT then item.verdict else if i == EVIDENCE then Printed(item.evidence)
                                     else if i == BUG && item.bug.Some? then Printed(item.bug.value) else row[i]
  {
  }

  lemma NewCellReads(line: string, item: Item, i: nat)
    requires item.verdict in VERDICTS && HasRoom(line, item) && ReadLine(line).Some? && i < COLUMNS
    ensures |NewCells(line, item)| == COLUMNS
    ensures ReadCell(NewCells(line, item)[i]) == Updated(ReadLine(line).value, item)[i]
  {
    NewCellAt(line, item, i);
    UpdatedAt(ReadLine(line).value, item, i);
    if i == VERDICT {
      VerdictsArePlain(item.verdict);
      PlainReadsAsItself(item.verdict);
    } else if i < VERDICT || (i == BUG && item.bug.None?) {
      RawCellReads(line, i);
    }
  }

  lemma RawCellsAreOneLine(line: string)
    requires OneLine(line)
    ensures forall i :: 0 <= i < |RawCells(line)| ==> OneLine(RawCells(line)[i])
  {
    QaRegeneration.PartsAreOneLine(line);
    var parts := SplitPipes(line);
    forall i | 0 <= i < |RawCells(line)| ensures OneLine(RawCells(line)[i]) {
      QaRegeneration.StripIsOneLine(parts[1..|parts| - 1][i]);
    }
  }

  lemma NewLineIsOneLineIff(line: string, item: Item)
    requires item.verdict in VERDICTS && HasRoom(line, item) && OneLine(line)
    requires |RawCells(line)| == COLUMNS
    ensures OneLine(Render(NewCells(line, item))) <==> ItemOnOneLine(item)
  {
    var cells := NewCells(line, item);
    NewCellsAreOneLine(line, item);
    RenderIsFence(cells);
    FenceIsOneLineIff(cells);
    NewCellAt(line, item, EVIDENCE);
    NewCellAt(line, item, BUG);
    EscapeIsOneLineIff(item.evidence);
    if item.bug.Some? {
      EscapeIsOneLineIff(item.bug.value);
    }
  }

  lemma NewCellsAreOneLine(line: string, item: Item)
    requires item.verdict in VERDICTS && HasRoom(line, item) && OneLine(line)
    requires |RawCells(line)| == COLUMNS
    ensures ItemOnOneLine(item) ==> forall i :: 0 <= i < |NewCells(line, item)| ==> OneLine(NewCells(line, item)[i])
  {
    VerdictsArePlain(item.verdict);
    RawCellsAreOneLine(line);
    EscapeIsOneLineIff(item.evidence);
    if item.bug.Some? {
      EscapeIsOneLineIff(item.bug.value);
    }
    forall i | 0 <= i < |NewCells(line, item)| && ItemOnOneLine(item) ensures OneLine(NewCells(line, item)[i]) {
      NewCellAt(line, item, i);
    }
  }

  /** The rewritten line reads as the old row with only the recorded columns changed, exactly when
      neither the evidence nor the bug holds a line break other than a line feed (and the stripped
      ID does not turn the line into the heading); otherwise the whole row is no longer read. */
  lemma RewrittenLineReads(kept: Kept, line: string, item: Item)
    requires item.verdict in VERDICTS && OneLine(line) && ReadLine(line).Some?
    ensures HasRoom(line, item)
    ensures ReadLines(kept, SplitLines(Render(NewCells(line, item)) + "\n"))
         == if ItemOnOneLine(item) && !LooksLikeHeading(RawCells(line)[0])
            then kept.Put(Updated(ReadLine(line).value, item))
            else kept
  {
    var cells := NewCells(line, item);
    NewCellsAreSealed(line, item);
    NewLineIsOneLineIff(line, item);
    RenderedLineReads(kept, cells);
    forall i | 0 <= i < COLUMNS ensures CollapseAll(StripAll(cells))[i] == Updated(ReadLine(line).value, item)[i] {
      NewCellReads(line, item, i);
    }
    assert CollapseAll(StripAll(cells)) == Updated(ReadLine(line).value, item);
  }

  // ---------- the whole table ----------

  function LinePieces(line: string): seq<string> {
    SplitLines(line + "\n")
  }

  /** Reading a text line by line. */
  function ReadText(kept: Kept, lines: seq<string>): Kept {
    if lines == [] then kept else ReadLines(ReadText(kept, lines[..|lines| - 1]), LinePieces(lines[|lines| - 1]))
  }

  lemma EmptyTextReads(kept: Kept)
    ensures ReadLines(kept, SplitLines(Text([]))) == kept
  {
  }

  lemma {:induction false} ReadTextIsReadLines(kept: Kept, lines: seq<string>)
    ensures ReadLines(kept, SplitLines(Text(lines))) == ReadText(kept, lines)
  {
    if lines == [] {
      EmptyTextReads(kept);
    } else {
      var init, end := lines[..|lines| - 1], lines[|lines| - 1];
      ReadTextIsReadLines(kept, init);
      ReadTextStep(kept, init, end);
      Strings.Unsnoc(lines);
    }
  }

  lemma ReadTextOneMore(kept: Kept, lines: seq<string>, line: string)
    ensures ReadText(kept, lines + [line]) == ReadLines(ReadText(kept, lines), LinePieces(line))
  {
    Strings.Snoc(lines, line);
  }

  lemma {:induction false} ReadTextAppend(kept: Kept, a: seq<string>, b: seq<string>)
    ensures ReadText(kept, a + b) == ReadText(ReadText(kept, a), b)
    decreases |b|
  {
    if b == [] {
      Strings.NothingAfter(a);
    } else {
      var init, end := b[..|b| - 1], b[|b| - 1];
      ReadTextAppend(kept, a, init);
      Strings.Assoc(a, init, [end]);
      Strings.Unsnoc(b);
      ReadTextOneMore(kept, a + init, end);
      ReadTextOneMore(ReadText(kept, a), init, end);
    }
  }

  lemma ReadTextAround(kept: Kept, before: seq<string>, line: string, after: seq<string>)
    ensures ReadText(kept, before + [line] + after)
         == ReadText(ReadLines(ReadText(kept, before), LinePieces(line)), after)
  {
    ReadTextAppend(kept, before + [line], after);
    ReadTextOneMore(kept, before, line);
  }

  /** Some line is read as a row with this ID. */
  predicate Holds(pieces: seq<string>, id: string) {
    exists i :: 0 <= i < |pieces| && ReadLine(pieces[i]).Some? && ReadLine(pieces[i]).value[0] == id
  }

  /** A row replaced early in the reading is replaced in the result, unless a later line holds the
      same ID: then the replacement is never seen. */
  lemma {:induction false} ReplacementComesThrough(kept: Kept, row: Row, pieces: seq<string>)
    requires row[0] in kept.rows
    ensures row[0] in ReadLines(kept, pieces).rows
    ensures ReadLines(kept.Put(row), pieces)
         == if Holds(pieces, row[0]) then ReadLines(kept, pieces) else ReadLines(kept, pieces).Put(row)
    decreases |pieces|
  {
    if pieces != [] {
      var init, end := pieces[..|pieces| - 1], pieces[|pieces| - 1];
      ReplacementComesThrough(kept, row, init);
      ReplacementStep(kept, row, init, end);
      Strings.Unsnoc(pieces);
    }
  }

  lemma ReplacementStep(kept: Kept, row: Row, init: seq<string>, end: string)
    requires row[0] in ReadLines(kept, init).rows
    requires ReadLines(kept.Put(row), init)
          == if Holds(init, row[0]) then ReadLines(kept, init) else ReadLines(kept, init).Put(row)
    ensures row[0] in ReadLines(kept, init + [end]).rows
    ensures ReadLines(kept.Put(row), init + [end])
         == if Holds(init + [end], row[0]) then ReadLines(kept, init + [end])
            else ReadLines(kept, init + [end]).Put(row)
  {
    HoldsStep(init, end, row[0]);
    ReadOneMore(kept, init, end);
    ReadOneMore(kept.Put(row), init, end);
    PutTwice(ReadLines(kept, init), row, ReadLine(end));
  }

  lemma HoldsStep(init: seq<string>, end: string, id: string)
    ensures Holds(init + [end], id) <==> Holds(init, id) || (ReadLine(end).Some? && ReadLine(end).value[0] == id)
  {
    var pieces := init + [end];
    assert pieces[|init|] == end;
    assert forall i :: 0 <= i < |init| ==> pieces[i] == init[i];
  }

  lemma PutTwice(kept: Kept, row: Row, next: Option<Row>)
    requires row[0] in kept.rows
    ensures kept.Put(row).PutIfSome(next)
         == if next.Some? && next.value[0] == row[0] then kept.PutIfSome(next) else kept.PutIfSome(next).Put(row)
  {
    if next.Some? && next.value[0] != row[0] {
      assert kept.rows[row[0] := row][next.value[0] := next.value]
             == kept.rows[next.value[0] := next.value][row[0] := row];
    } else if next.Some? {
      assert kept.rows[row[0] := row][row[0] := next.value] == kept.rows[row[0] := next.value];
    }
  }

  lemma PutOverPut(kept: Kept, a: Row, b: Row)
    requires a[0] == b[0]
    ensures kept.Put(a).Put(b) == kept.Put(b)
  {
    assert kept.rows[a[0] := a][a[0] := b] == kept.rows[a[0] := b];
  }

  /** The table of `after` reads as that of `before` but for the verdict, the evidence and (if given)
      the bug of one row; if a later line holds the same ID, it reads as if nothing had been
      recorded. */
  predicate ReadsWithOneRowChanged(before: seq<string>, after: seq<string>, later: seq<string>, row: Row, item: Item) {
    var kept, kept' := ReadBody(Text(before)), ReadBody(Text(after));
    && row[0] in kept.rows
    && if Holds(SplitLines(Text(later)), row[0]) then kept' == kept
       else kept.rows[row[0]] == row && kept' == kept.Put(Updated(row, item))
  }

  lemma RewritingInPlace(pre: seq<string>, line: string, post: seq<string>, item: Item, row: Row)
    requires item.verdict in VERDICTS && ItemOnOneLine(item) && HasRoom(line, item)
    requires OneLine(line) && ReadLine(line) == Some(row) && !LooksLikeHeading(RawCells(line)[0])
    ensures ReadsWithOneRowChanged(pre + [line] + post, pre + [Render(NewCells(line, item))] + post, post, row, item)
  {
    var before := ReadText(NOTHING_KEPT, pre);
    RewrittenLineReads(before, line, item);
    OneRowReads(before, line);
    TextWithRow(pre, line, post, row);
    TextWithRow(pre, Render(NewCells(line, item)), post, Updated(row, item));
    UpdatedAt(row, item, 0);
    ReplacedRowReads(before, row, Updated(row, item), post);
  }

  lemma UpdateIsInPlace<T>(s: seq<T>, i: nat, x: T)
    requires i < |s|
    ensures s[i := x] == s[..i] + [x] + s[i + 1..]
  {
  }

  lemma RecordedInPlace(lines: seq<string>, item: Item, i: nat)
    requires item.verdict in VERDICTS && i == FindRow(lines, item.id) < |lines| && HasRoom(lines[i], item)
    ensures Recorded(lines, item) == Success(lines[..i] + [Render(NewCells(lines[i], item))] + lines[i + 1..])
    ensures lines == lines[..i] + [lines[i]] + lines[i + 1..]
  {
    UpdateIsInPlace(lines, i, Render(NewCells(lines[i], item)));
    UpdateIsInPlace(lines, i, lines[i]);
  }

  /** Recording changes what is read in one row and three columns. */
  lemma RecordingChangesOneRow(lines: seq<string>, item: Item, i: nat, row: Row)
    requires item.verdict in VERDICTS && ItemOnOneLine(item)
    requires i == FindRow(lines, item.id) < |lines|
    requires OneLine(lines[i]) && ReadLine(lines[i]) == Some(row) && !LooksLikeHeading(RawCells(lines[i])[0])
    ensures Recorded(lines, item).Success?
    ensures ReadsWithOneRowChanged(lines, Recorded(lines, item).value, lines[i + 1..], row, item)
  {
    RewrittenLineReads(NOTHING_KEPT, lines[i], item);
    RecordedInPlace(lines, item, i);
    RewritingInPlace(lines[..i], lines[i], lines[i + 1..], item, row);
  }

  lemma OneRowReads(kept: Kept, line: string)
    requires OneLine(line)
    ensures ReadLines(kept, LinePieces(line)) == kept.PutIfSome(ReadLine(line))
  {
    SplitOneLine(line);
    ReadOneLine(kept, line);
  }

  /** Reading a text in which one line adds the given row. */
  lemma TextWithRow(pre: seq<string>, line: string, post: seq<string>, row: Row)
    requires ReadLines(ReadText(NOTHING_KEPT, pre), LinePieces(line)) == ReadText(NOTHING_KEPT, pre).Put(row)
    ensures ReadBody(Text(pre + [line] + post)) == ReadText(ReadText(NOTHING_KEPT, pre).Put(row), post)
  {
    ReadTextAround(NOTHING_KEPT, pre, line, post);
    ReadTextIsReadLines(NOTHING_KEPT, pre + [line] + post);
  }

  lemma ReplacedRowReads(before: Kept, row: Row, row': Row, post: seq<string>)
    requires row[0] == row'[0]
    ensures var kept := ReadText(before.Put(row), post);
            && row[0] in kept.rows
            && ReadText(before.Put(row'), post)
              == (if Holds(SplitLines(Text(post)), row[0]) then kept else kept.Put(row'))
            && (!Holds(SplitLines(Text(post)), row[0]) ==> kept.rows[row[0]] == row)
  {
    ReadTextIsReadLines(before.Put(row), post);
    ReadTextIsReadLines(before.Put(row'), post);
    PutOverPut(before, row, row');
    PutOverPut(before, row, row);
    ReplacementComesThrough(before.Put(row), row', SplitLines(Text(post)));
    ReplacementComesThrough(before.Put(row), row, SplitLines(Text(post)));
  }

  lemma RecordedRowReads(lines: seq<string>, item: Item, i: nat, row: Row)
    requires item.verdict in VERDICTS && ItemOnOneLine(item)
    requires i == FindRow(lines, item.id) < |lines|
    requires OneLine(lines[i]) && ReadLine(lines[i]) == Some(row) && !LooksLikeHeading(RawCells(lines[i])[0])
    requires !Holds(SplitLines(Text(lines[i + 1..])), row[0])
    ensures Recorded(lines, item).Success?
    ensures HoldsVerdict(ReadBody(Text(Recorded(lines, item).value)), row[0], item)
  {
    RecordingChangesOneRow(lines, item, i, row);
    UpdatedAt(row, item, 0);
    UpdatedAt(row, item, VERDICT);
    UpdatedAt(row, item, EVIDENCE);
    assert ReadBody(Text(Recorded(lines, item).value)).rows[row[0]] == Updated(row, item);
  }

  /** The table holds the ID with the recorded verdict and evidence. */
  predicate HoldsVerdict(kept: Kept, k: string, item: Item) {
    k in kept.rows && kept.rows[k][VERDICT] == item.verdict && kept.rows[k][EVIDENCE] == Printed(item.evidence)
  }

  /** From recording to any later table: a verdict recorded in a row whose ID no later line repeats
      is read with its evidence, and stays so through a series of regenerations exactly when the row
      prints whole in each of them. */
  lemma RecordedVerdictSurvives(lines: seq<string>, item: Item, i: nat, row: Row,
                                datas: seq<seq<QaRegeneration.DataRow>>)
    requires item.verdict in VERDICTS && ItemOnOneLine(item)
    requires i == FindRow(lines, item.id) < |lines|
    requires OneLine(lines[i]) && ReadLine(lines[i]) == Some(row) && !LooksLikeHeading(RawCells(lines[i])[0])
    requires !Holds(SplitLines(Text(lines[i + 1..])), row[0])
    requires forall n :: 0 <= n < |datas| ==> QaRegeneration.NamesOnce(datas[n], row[0])
    ensures Recorded(lines, item).Success?
    ensures var table := ReadBody(Text(Recorded(lines, item).value));
            && table.Valid() && HoldsVerdict(table, row[0], item)
            && (QaRegeneration.IsHeld(datas, table, row[0])
                <==> QaRegeneration.AlwaysPrintsWhole(datas, table, row[0]))
            && (QaRegeneration.IsHeld(datas, table, row[0]) ==>
                  HoldsVerdict(QaRegeneration.AfterRuns(datas, table), row[0], item))
  {
    RecordedRowReads(lines, item, i, row);
    var body := Text(Recorded(lines, item).value);
    QaRegeneration.ReadBodyIsFromFile(body);
    QaRegeneration.RecordIsHeldIff(datas, ReadBody(body), row[0]);
  }

  // ---------- recording in a printed table ----------

  /** A row that the generator prints and reads back, with an ID no other text can be taken for. */
  predicate IsRecordable(row: Row) {
    && '|' !in row[0] && IsPlainCell(row[0]) && !LooksLikeHeading(row[0])
    && CellsOnOneLine(row)
  }

  lemma DiffersAt(line: string, prefix: string, k: nat)
    requires k < |line| && k < |prefix| && line[k] != prefix[k]
    ensures !Strings.StartsWith(line, prefix)
  {
  }

  lemma PrefixNamesTheId(id: string, other: string, rest: string)
    requires '|' !in id && Sealed(other)
    ensures Strings.StartsWith("| " + (other + " | " + rest), "| " + id + " |") <==> id == other
  {
    var line, prefix := "| " + (other + " | " + rest), "| " + id + " |";
    if id == other {
      assert line[..|prefix|] == prefix;
    } else if |id| == |other| {
      var k :| 0 <= k < |id| && id[k] != other[k];
      DiffersAt(line, prefix, k + 2);
    } else if |id| < |other| {
      assert line[|id| + 2] == other[|id|];
      assert line[|id| + 3] == if |id| + 1 == |other| then ' ' else other[|id| + 1];
      DiffersAt(line, prefix, if line[|id| + 3] == '|' then |id| + 2 else |id| + 3);
    } else {
      assert prefix[|other| + 3] == if |other| + 1 == |id| then ' ' else id[|other| + 1];
      DiffersAt(line, prefix, |other| + 3);
    }
  }

  /** A printed row answers to the IDs without a pipe that are its ID cell as printed. */
  lemma PrintedRowIsRowOf(row: Row, id: string)
    requires '|' !in id
    ensures IsRowOf(PrintRow(row), id) <==> Escape(row[0]) == id
  {
    EscapedIsSealed(row[0]);
    var rest := RenderBegins(EscapeAll(row));
    PrefixNamesTheId(id, Escape(row[0]), rest);
  }

  lemma EscapingTheLast(s: string)
    requires s != [] && '|' !in s[..|s| - 1] && '\n' !in s[..|s| - 1]
    requires s[|s| - 1] == '|' || s[|s| - 1] == '\n'
    ensures |Escape(s)| >= |s| && Escape(s)[|s| - 1] != s[|s| - 1]
  {
    EscapeWithoutPipes(s[..|s| - 1]);
  }

  lemma {:induction false} EscapingChanges(s: string) returns (p: nat)
    requires '|' in s || '\n' in s
    ensures p < |s| && p < |Escape(s)| && Escape(s)[p] != s[p]
  {
    var init := s[..|s| - 1];
    if '|' in init || '\n' in init {
      p := EscapingChanges(init);
    } else {
      Strings.Unsnoc(s);
      EscapingTheLast(s);
      p := |init|;
    }
  }

  /** The script finds a printed row by its own ID exactly when that holds no pipe and no line feed:
      it searches for the ID as given, and those two are printed as something else. */
  lemma PrintedRowAnswersToItsIdIff(row: Row)
    ensures IsRowOf(PrintRow(row), row[0]) <==> '|' !in row[0] && '\n' !in row[0]
  {
    var id := row[0];
    if '|' in id || '\n' in id {
      var rest := RenderBegins(EscapeAll(row));
      var p := EscapingChanges(id);
      assert PrintRow(row)[p + 2] == Escape(id)[p];
      DiffersAt(PrintRow(row), "| " + id + " |", p + 2);
    } else {
      EscapeWithoutPipes(id);
      PrintedRowIsRowOf(row, id);
    }
  }

  lemma PrintedRowIsRead(row: Row)
    requires IsRecordable(row)
    ensures OneLine(PrintRow(row)) && ReadLine(PrintRow(row)) == Some(PrintedAll(row))
    ensures !LooksLikeHeading(RawCells(PrintRow(row))[0]) && PrintedAll(row)[0] == row[0]
  {
    var cells := EscapeAll(row);
    forall i | 0 <= i < |row| ensures Sealed(cells[i]) && OneLine(cells[i]) {
      EscapedIsSealed(row[i]);
      EscapeIsOneLineIff(row[i]);
    }
    EscapeWithoutPipes(row[0]);
    HeadingIsSkipped(cells);
    assert CollapseAll(StripAll(cells)) == PrintedAll(row);
    RenderIsFence(cells);
    FenceIsOneLineIff(cells);
    RawCellsOfRender(cells);
    StripFixesStripped(row[0]);
    PrintedIsIdentityIff(row[0]);
  }

  lemma {:induction false} LinesAt(rows: seq<Row>, i: nat)
    requires i < |rows|
    ensures |QaRegeneration.Lines(rows)| == |rows| + 2
    ensures QaRegeneration.Lines(rows)[i + 2] == PrintRow(rows[i])
    ensures QaRegeneration.Lines(rows)[..2] == QaRegeneration.Lines([])
  {
    var init := rows[..|rows| - 1];
    if i < |init| {
      LinesAt(init, i);
    } else if init != [] {
      LinesAt(init, 0);
    }
  }

  lemma HeadingLinesAreNoRows(id: string)
    requires '|' !in id && !LooksLikeHeading(id)
    ensures |QaRegeneration.Lines([])| == 2
    ensures !IsRowOf(QaRegeneration.Lines([])[0], id) && !IsRowOf(QaRegeneration.Lines([])[1], id)
  {
    var rest := RenderBegins(QaRegeneration.HEADER);
    PrefixNamesTheId(id, "ID", rest);
    var ruler := "|" + QaRegeneration.Repeat("---|", |QaRegeneration.HEADER|);
    QaRegeneration.RulerIsSkipped(|QaRegeneration.HEADER|);
    DiffersAt(ruler, "| " + id + " |", 1);
  }

  lemma FirstTwoLinesAreNoRows(lines: seq<string>, id: string, j: nat)
    requires '|' !in id && !LooksLikeHeading(id)
    requires |lines| >= 2 && lines[..2] == QaRegeneration.Lines([]) && j < 2
    ensures !IsRowOf(lines[j], id)
  {
    HeadingLinesAreNoRows(id);
    assert lines[j] == lines[..2][j];
  }

  lemma FindRowIs(lines: seq<string>, id: string, i: nat)
    requires i < |lines| && IsRowOf(lines[i], id) && forall j :: 0 <= j < i ==> !IsRowOf(lines[j], id)
    ensures FindRow(lines, id) == i
  {
  }

  /** A row that prints another ID is not found by this one. */
  lemma OtherRowIsElsewhere(rows: seq<Row>, k: nat, id: string)
    requires k < |rows| && '|' !in id && IsPlainCell(id) && Printed(rows[k][0]) != id
    ensures k + 2 < |QaRegeneration.Lines(rows)| && !IsRowOf(QaRegeneration.Lines(rows)[k + 2], id)
  {
    LinesAt(rows, k);
    PrintedRowIsRowOf(rows[k], id);
    EscapeWithoutPipes(id);
    PrintedIsIdentityIff(id);
  }

  lemma HeadingIsElsewhere(rows: seq<Row>, j: nat, id: string)
    requires rows != [] && '|' !in id && !LooksLikeHeading(id) && j < 2
    ensures j < |QaRegeneration.Lines(rows)| && !IsRowOf(QaRegeneration.Lines(rows)[j], id)
  {
    LinesAt(rows, 0);
    FirstTwoLinesAreNoRows(QaRegeneration.Lines(rows), id, j);
  }

  lemma RowIsFoundInItsTable(rows: seq<Row>, i: nat)
    requires i < |rows| && IsRecordable(rows[i])
    requires forall k :: 0 <= k < |rows| && k != i ==> Printed(rows[k][0]) != rows[i][0]
    ensures FindRow(QaRegeneration.Lines(rows), rows[i][0]) == i + 2 < |QaRegeneration.Lines(rows)|
  {
    var lines, id := QaRegeneration.Lines(rows), rows[i][0];
    LinesAt(rows, i);
    EscapeWithoutPipes(id);
    PrintedRowIsRowOf(rows[i], id);
    HeadingIsElsewhere(rows, 0, id);
    HeadingIsElsewhere(rows, 1, id);
    forall k | 0 <= k < i ensures !IsRowOf(lines[2..][k], id) {
      OtherRowIsElsewhere(rows, k, id);
    }
    FindRowAfterTwo(lines, id, i);
  }

  lemma FindRowAfterTwo(lines: seq<string>, id: string, i: nat)
    requires i + 2 < |lines| && IsRowOf(lines[i + 2], id)
    requires !IsRowOf(lines[0], id) && !IsRowOf(lines[1], id)
    requires forall k :: 0 <= k < i ==> !IsRowOf(lines[2..][k], id)
    ensures FindRow(lines, id) == i + 2
  {
    forall j | 0 <= j < i + 2 ensures !IsRowOf(lines[j], id) {
      if j >= 2 {
        assert lines[j] == lines[2..][j - 2];
      }
    }
    FindRowIs(lines, id, i + 2);
  }

  function PrintRows(rows: seq<Row>): (lines: seq<string>)
    ensures |lines| == |rows|
    ensures forall i :: 0 <= i < |rows| ==> lines[i] == PrintRow(rows[i])
  {
    seq(|rows|, i requires 0 <= i < |rows| => PrintRow(rows[i]))
  }

  lemma PrintRowsOneMore(rows: seq<Row>)
    requires rows != []
    ensures PrintRows(rows) == PrintRows(rows[..|rows| - 1]) + [PrintRow(rows[|rows| - 1])]
  {
  }

  lemma NoRowsRead()
    ensures ReadLines(NOTHING_KEPT, SplitLines(Text(PrintRows([])))) == NOTHING_KEPT
  {
    assert PrintRows([]) == [];
  }

  lemma {:induction false} PrintedRowsRead(rows: seq<Row>)
    ensures ReadLines(NOTHING_KEPT, SplitLines(Text(PrintRows(rows)))) == QaRegeneration.ReadRows(rows)
  {
    if rows == [] {
      NoRowsRead();
    } else {
      var init, end := rows[..|rows| - 1], rows[|rows| - 1];
      PrintedRowsRead(init);
      PrintRowsOneMore(rows);
      ReadTextStep(NOTHING_KEPT, PrintRows(init), PrintRow(end));
      PrintedRowReadsBack(QaRegeneration.ReadRows(init), end);
    }
  }

  lemma {:induction false} HeldIdsAreRead(lines: seq<string>, id: string)
    ensures Holds(lines, id) <==> id in ReadLines(NOTHING_KEPT, lines).rows
  {
    if lines != [] {
      var init, end := lines[..|lines| - 1], lines[|lines| - 1];
      HeldIdsAreRead(init, id);
      Strings.Unsnoc(lines);
      HoldsOneMore(init, end, id);
    }
  }

  lemma HoldsOneMore(lines: seq<string>, line: string, id: string)
    ensures Holds(lines + [line], id) <==> Holds(lines, id) || (ReadLine(line).Some? && ReadLine(line).value[0] == id)
  {
    if Holds(lines, id) {
      var k :| 0 <= k < |lines| && ReadLine(lines[k]).Some? && ReadLine(lines[k]).value[0] == id;
      assert (lines + [line])[k] == lines[k];
    }
    assert (lines + [line])[|lines|] == line;
  }

  lemma {:induction false} LinesAre(rows: seq<Row>)
    ensures QaRegeneration.Lines(rows) == QaRegeneration.Lines([]) + PrintRows(rows)
  {
    if rows == [] {
      Strings.NothingAfter(QaRegeneration.Lines([]));
      assert PrintRows([]) == [];
    } else {
      var init, end := rows[..|rows| - 1], rows[|rows| - 1];
      LinesAre(init);
      PrintRowsOneMore(rows);
      Strings.Assoc(QaRegeneration.Lines([]), PrintRows(init), [PrintRow(end)]);
    }
  }

  lemma TailOfBoth<T>(a: seq<T>, b: seq<T>, n: nat)
    requires n <= |b|
    ensures (a + b)[|a| + n..] == b[n..]
  {
  }

  lemma PrintRowsAfter(rows: seq<Row>, n: nat)
    requires n <= |rows|
    ensures PrintRows(rows)[n..] == PrintRows(rows[n..])
  {
  }

  lemma LinesAfter(rows: seq<Row>, i: nat)
    requires i < |rows|
    ensures |QaRegeneration.Lines(rows)| == |rows| + 2
    ensures QaRegeneration.Lines(rows)[i + 3..] == PrintRows(rows[i + 1..])
  {
    LinesAt(rows, i);
    LinesAre(rows);
    PrintRowsAfter(rows, i + 1);
    assert |QaRegeneration.Lines([])| == 2;
    TailOfBoth(QaRegeneration.Lines([]), PrintRows(rows), i + 1);
  }

  lemma LaterRowsHoldOtherIds(rows: seq<Row>, i: nat)
    requires i < |rows| && forall k :: 0 <= k < |rows| && k != i ==> Printed(rows[k][0]) != rows[i][0]
    ensures |QaRegeneration.Lines(rows)| == |rows| + 2
    ensures !Holds(SplitLines(Text(QaRegeneration.Lines(rows)[i + 3..])), rows[i][0])
  {
    var later := rows[i + 1..];
    LinesAfter(rows, i);
    PrintedRowsRead(later);
    HeldIdsAreRead(SplitLines(Text(PrintRows(later))), rows[i][0]);
    QaRegeneration.AbsentIdIsNotRead(later, rows[i][0]);
  }

  /** Print, record, read: in a printed table where no other row prints the ID, the table reads as the
      printed rows with the recorded columns of that one row replaced, whatever the other rows hold. */
  lemma RecordingInAPrintedTable(rows: seq<Row>, item: Item, i: nat)
    requires i < |rows| && item.id == rows[i][0] && item.verdict in VERDICTS && ItemOnOneLine(item)
    requires IsRecordable(rows[i])
    requires forall k :: 0 <= k < |rows| && k != i ==> Printed(rows[k][0]) != rows[i][0]
    ensures var after := Recorded(QaRegeneration.Lines(rows), item);
            && after.Success?
            && ReadBody(Text(after.value)) == QaRegeneration.ReadRows(rows).Put(Updated(PrintedAll(rows[i]), item))
  {
    LinesAt(rows, i);
    RowIsFoundInItsTable(rows, i);
    PrintedRowIsRead(rows[i]);
    LaterRowsHoldOtherIds(rows, i);
    RecordingChangesOneRow(QaRegeneration.Lines(rows), item, i + 2, PrintedAll(rows[i]));
    QaRegeneration.LinesRead(rows);
  }
}

/** Recording a verdict in the file: review/qa-matrix-verdict.py searches all lines of the file, the
    table and what stands around it. */
module QaFileRecording {

  import opened Wrappers
  import opened TableCells
  import opened QaMatrix
  import opened QaRegeneration
  import opened QaVerdict
  import opened TextSearch
  import opened QaFile
  import opened QaMarkers
  import Strings

  /** `"\n".join(lines)`. */
  function JoinLines(lines: seq<string>): string {
    if lines == [] then []
    else if |lines| == 1 then lines[0]
    else JoinLines(lines[..|lines| - 1]) + "\n" + lines[|lines| - 1]
  }

  lemma JoinOneMore(lines: seq<string>, line: string)
    requires lines != []
    ensures JoinLines(lines + [line]) == JoinLines(lines) + "\n" + line
  {
    Strings.Snoc(lines, line);
  }

  lemma GroupedInTheMiddle(head: string, a: string, b: string, c: string, line: string)
    ensures head + a + b + c + line == head + (a + (b + c)) + line
  {
    Strings.Assoc(head, a, b);
    Strings.Assoc(head, a + b, c);
    Strings.Assoc(a, b, c);
  }

  /** Lines that are followed by others end in line feeds. */
  lemma {:induction false} JoinOfTable(before: seq<string>, lines: seq<string>, line: string)
    requires before != []
    ensures JoinLines(before + lines + [line]) == JoinLines(before) + "\n" + Text(lines) + line
    decreases |lines|
  {
    if lines == [] {
      Strings.NothingAfter(before);
      Strings.NothingAfter(JoinLines(before) + "\n");
      JoinOneMore(before, line);
    } else {
      var init, end := lines[..|lines| - 1], lines[|lines| - 1];
      JoinOfTable(before, init, end);
      Strings.Unsnoc(lines);
      Strings.Assoc(before, init, [end]);
      JoinOneMore(before + lines, line);
      GroupedInTheMiddle(JoinLines(before) + "\n", Text(init), end, "\n", line);
    }
  }

  lemma {:induction false} JoinOfFile(before: seq<string>, lines: seq<string>, after: seq<string>)
    requires before != [] && after != []
    ensures JoinLines(before + lines + after) == JoinLines(before) + "\n" + Text(lines) + JoinLines(after)
    decreases |after|
  {
    if |after| == 1 {
      assert after == [after[0]];
      JoinOfTable(before, lines, after[0]);
    } else {
      var init, end := after[..|after| - 1], after[|after| - 1];
      JoinOfFile(before, lines, init);
      Strings.Unsnoc(after);
      Strings.Assoc(before + lines, init, [end]);
      JoinOneMore(before + lines + init, end);
      var head := JoinLines(before) + "\n" + Text(lines);
      assert head + JoinLines(init) + "\n" + end == head + (JoinLines(init) + "\n" + end);
    }
  }

  lemma UpdateInMiddle<T>(a: seq<T>, b: seq<T>, c: seq<T>, i: nat, x: T)
    requires i < |b|
    ensures (a + b + c)[|a| + i := x] == a + b[i := x] + c
    ensures (a + b + c)[|a| + i] == b[i]
  {
  }

  lemma FoundInTheMiddle(a: seq<string>, b: seq<string>, c: seq<string>, id: string)
    requires forall k :: 0 <= k < |a| ==> !IsRowOf(a[k], id)
    requires FindRow(b, id) < |b|
    ensures FindRow(a + b + c, id) == |a| + FindRow(b, id)
  {
    var all, i := a + b + c, FindRow(b, id);
    forall k | 0 <= k < |a| + i ensures !IsRowOf(all[k], id) {
      assert all[k] == if k < |a| then a[k] else b[k - |a|];
    }
    assert all[|a| + i] == b[i];
    FindRowIs(all, id, |a| + i);
  }

  lemma RecordedAt(lines: seq<string>, item: Item) returns (i: nat)
    requires Recorded(lines, item).Success?
    ensures i == FindRow(lines, item.id) < |lines| && HasRoom(lines[i], item) && item.verdict in VERDICTS
    ensures Recorded(lines, item).value == lines[i := Render(NewCells(lines[i], item))]
  {
    i := FindRow(lines, item.id);
  }

  lemma RecordsAt(lines: seq<string>, item: Item, i: nat)
    requires i == FindRow(lines, item.id) < |lines| && HasRoom(lines[i], item) && item.verdict in VERDICTS
    ensures Recorded(lines, item) == Success(lines[i := Render(NewCells(lines[i], item))])
  {
  }

  /** The search goes through the whole file; with no such line before the table it ends in it. */
  lemma RecordedInTheTable(before: seq<string>, lines: seq<string>, after: seq<string>, item: Item)
    requires forall k :: 0 <= k < |before| ==> !IsRowOf(before[k], item.id)
    requires Recorded(lines, item).Success?
    ensures Recorded(before + lines + after, item) == Success(before + Recorded(lines, item).value + after)
  {
    var i := RecordedAt(lines, item);
    FoundInTheMiddle(before, lines, after, item.id);
    UpdateInMiddle(before, lines, after, i, Render(NewCells(lines[i], item)));
    RecordsAt(before + lines + after, item, |before| + i);
  }

  lemma UpdateInFront<T>(a: seq<T>, b: seq<T>, i: nat, x: T)
    requires i < |a|
    ensures (a + b)[i := x] == a[i := x] + b
  {
  }

  /** With such a line before the table, that line is edited and the table is not. */
  lemma RecordedBeforeTheTable(before: seq<string>, lines: seq<string>, after: seq<string>, item: Item)
    requires FindRow(before, item.id) < |before| && Recorded(before + lines + after, item).Success?
    ensures var i := FindRow(before, item.id);
            && HasRoom(before[i], item)
            && Recorded(before + lines + after, item)
                 == Success(before[i := Render(NewCells(before[i], item))] + lines + after)
  {
    var rest, i := lines + after, FindRow(before, item.id);
    Strings.Assoc(before, lines, after);
    assert forall k :: 0 <= k <= i ==> (before + rest)[k] == before[k];
    FindRowIs(before + rest, item.id, i);
    UpdateInFront(before, rest, i, Render(NewCells(before[i], item)));
    Strings.Assoc(before[i := Render(NewCells(before[i], item))], lines, after);
  }

  ghost predicate ItemFree(item: Item) {
    !Contains(Escape(item.evidence), END) && (item.bug.Some? ==> !Contains(Escape(item.bug.value), END))
  }

  lemma VerdictHasNoEnd(v: string)
    requires v in VERDICTS
    ensures !Contains(v, END)
  {
    VerdictsAreWords(v);
    assert forall i :: 0 <= i < |v| ==> IsVerdictChar(v[i]);
    ContainsNeedsItsFirst(v, END);
  }

  lemma RawCellContains(line: string, m: string, i: nat)
    requires !Contains(line, m) && i < |RawCells(line)|
    ensures !Contains(RawCells(line)[i], m)
  {
    var parts := SplitPipes(line);
    PartsContain(line, m, i + 1);
    StripContains(parts[1..|parts| - 1][i], m);
  }

  lemma RewrittenLineIsFree(line: string, item: Item)
    requires !Contains(line, END) && ItemFree(item) && item.verdict in VERDICTS
    requires HasRoom(line, item) && |RawCells(line)| == COLUMNS
    ensures !Contains(Render(NewCells(line, item)), END)
  {
    var cells := NewCells(line, item);
    EndIsAMarker();
    VerdictHasNoEnd(item.verdict);
    NewCellAt(line, item, 0);
    forall i | 0 <= i < |cells| ensures !Contains(cells[i], END) {
      NewCellAt(line, item, i);
      RawCellContains(line, END, i);
    }
    RenderIsFence(cells);
    FenceContains(cells, END);
  }

  lemma {:induction false} LineOfTextContains(lines: seq<string>, m: string, k: nat)
    requires k < |lines| && !Contains(Text(lines), m)
    ensures !Contains(lines[k], m)
  {
    var init, end := lines[..|lines| - 1], lines[|lines| - 1];
    ContainsInConcat(Text(init), end + "\n", m);
    ContainsInConcat(end, "\n", m);
    if k < |init| {
      LineOfTextContains(init, m, k);
    }
  }

  lemma RecordedTableIsFree(lines: seq<string>, item: Item, i: nat)
    requires !Contains("\n" + Text(lines), END) && i < |lines| && ItemFree(item) && item.verdict in VERDICTS
    requires HasRoom(lines[i], item) && |RawCells(lines[i])| == COLUMNS
    ensures !Contains("\n" + Text(lines[i := Render(NewCells(lines[i], item))]), END)
  {
    EndIsAMarker();
    ContainsInConcat("\n", Text(lines), END);
    var lines' := lines[i := Render(NewCells(lines[i], item))];
    forall k | 0 <= k < |lines'| ensures !Contains(lines'[k], END) {
      LineOfTextContains(lines, END, k);
      if k == i {
        RewrittenLineIsFree(lines[i], item);
      }
    }
    TextContains(lines', END);
    LineFeedAddsNothing(Text(lines'), END);
  }

  lemma LeadingLineFeedReadsAsNothing(text: string)
    ensures ReadBody("\n" + text) == ReadBody(text)
  {
    SplitLinesAtLineFeed([], text);
    assert [] + "\n" + text == "\n" + text && [] + "\n" == "\n";
    assert SplitLines("\n") == [[]] by { SplitOneLine([]); }
    ReadLinesAppend(NOTHING_KEPT, [[]], SplitLines(text));
    ReadOneLine(NOTHING_KEPT, []);
  }

  /** A file by its lines: those up to the opening marker, the table, and those from the closing one. */
  predicate IsFileOfLines(before: seq<string>, lines: seq<string>, after: seq<string>, pre: string, post: string) {
    && before != [] && after != [] && JoinLines(before) == pre + BEGIN && JoinLines(after) == END + post
    && IsFile(JoinLines(before + lines + after), pre, "\n" + Text(lines), post)
  }

  lemma FileOfLinesText(before: seq<string>, lines: seq<string>, after: seq<string>, pre: string, post: string)
    requires before != [] && after != [] && JoinLines(before) == pre + BEGIN && JoinLines(after) == END + post
    ensures JoinLines(before + lines + after) == pre + BEGIN + ("\n" + Text(lines)) + END + post
  {
    JoinOfFile(before, lines, after);
    Strings.Assoc(pre + BEGIN, "\n", Text(lines));
    Strings.Assoc(pre + BEGIN + ("\n" + Text(lines)), END, post);
  }

  /** Other lines for the table, none with the closing marker, make another file around it. */
  lemma OtherTable(before: seq<string>, lines: seq<string>, lines': seq<string>, after: seq<string>,
                   pre: string, post: string)
    requires IsFileOfLines(before, lines, after, pre, post)
    requires !Contains("\n" + Text(lines'), END)
    ensures IsFileOfLines(before, lines', after, pre, post)
  {
    FileOfLinesText(before, lines', after, pre, post);
    TextEndsInLineFeed(lines');
    NewMarkers(JoinLines(before + lines + after), pre, "\n" + Text(lines), post, "\n" + Text(lines'));
  }

  /** Recording in the file: when no line before the table begins like the row, the text around the
      table stays and what is read changes as `RecordingChangesOneRow` says. */
  lemma RecordingInTheFile(before: seq<string>, lines: seq<string>, after: seq<string>, pre: string, post: string,
                           item: Item, i: nat, row: Row)
    requires IsFileOfLines(before, lines, after, pre, post)
    requires forall k :: 0 <= k < |before| ==> !IsRowOf(before[k], item.id)
    requires item.verdict in VERDICTS && ItemOnOneLine(item) && ItemFree(item)
    requires i == FindRow(lines, item.id) < |lines|
    requires OneLine(lines[i]) && ReadLine(lines[i]) == Some(row) && !LooksLikeHeading(RawCells(lines[i])[0])
    ensures Recorded(lines, item).Success?
    ensures var lines' := Recorded(lines, item).value;
            var text, text' := JoinLines(before + lines + after), JoinLines(before + lines' + after);
            && Recorded(before + lines + after, item) == Success(before + lines' + after)
            && IsFileOfLines(before, lines', after, pre, post)
            && ParseFile(text) == ReadBody(Text(lines)) && ParseFile(text') == ReadBody(Text(lines'))
            && ReadsWithOneRowChanged(lines, lines', lines[i + 1..], row, item)
  {
    RecordingChangesOneRow(lines, item, i, row);
    RecordedInTheTable(before, lines, after, item);
    var lines' := Recorded(lines, item).value;
    TableOfTheFile(before, lines, after, pre, post);
    RecordedTableIsFree(lines, item, i);
    OtherTable(before, lines, lines', after, pre, post);
    TableOfTheFile(before, lines', after, pre, post);
  }

  lemma TextEndsInLineFeed(lines: seq<string>)
    ensures ("\n" + Text(lines))[|"\n" + Text(lines)| - 1] == '\n' && ("\n" + Text(lines))[0] == '\n'
  {
  }

  lemma TableOfTheFile(before: seq<string>, lines: seq<string>, after: seq<string>, pre: string, post: string)
    requires IsFileOfLines(before, lines, after, pre, post)
    ensures ParseFile(JoinLines(before + lines + after)) == ReadBody(Text(lines))
    ensures !Contains("\n" + Text(lines), END)
  {
    FileIsItsTable(JoinLines(before + lines + after), pre, "\n" + Text(lines), post);
    LeadingLineFeedReadsAsNothing(Text(lines));
  }

  /** Recording leaves a file in which the verdict and its evidence are read. */
  lemma RecordedFileReads(before: seq<string>, lines: seq<string>, after: seq<string>, pre: string, post: string,
                          item: Item, i: nat, row: Row) returns (body: string)
    requires IsFileOfLines(before, lines, after, pre, post)
    requires forall k :: 0 <= k < |before| ==> !IsRowOf(before[k], item.id)
    requires item.verdict in VERDICTS && ItemOnOneLine(item) && ItemFree(item)
    requires i == FindRow(lines, item.id) < |lines|
    requires OneLine(lines[i]) && ReadLine(lines[i]) == Some(row) && !LooksLikeHeading(RawCells(lines[i])[0])
    requires !Holds(SplitLines(Text(lines[i + 1..])), row[0])
    ensures Recorded(before + lines + after, item).Success?
    ensures var recorded := JoinLines(Recorded(before + lines + after, item).value);
            && IsFile(recorded, pre, body, post)
            && ParseFile(recorded).Valid() && HoldsVerdict(ParseFile(recorded), row[0], item)
  {
    RecordingInTheFile(before, lines, after, pre, post, item, i, row);
    RecordedRowReads(lines, item, i, row);
    var lines' := Recorded(lines, item).value;
    body := "\n" + Text(lines');
    ParseFileIsFromFile(JoinLines(before + lines' + after));
  }

  /** From recording in the file to any later run of the generator: unless a later line of the table
      repeats the ID, the verdict and its evidence are read, stay so through a series of runs exactly
      when in each the row prints whole above the first end marker that a cell prints, and the text
      around the table is as it was. */
  lemma RecordedVerdictSurvivesInTheFile(before: seq<string>, lines: seq<string>, after: seq<string>,
                                         pre: string, post: string, item: Item, i: nat, row: Row,
                                         datas: seq<seq<DataRow>>)
    requires IsFileOfLines(before, lines, after, pre, post)
    requires forall k :: 0 <= k < |before| ==> !IsRowOf(before[k], item.id)
    requires item.verdict in VERDICTS && ItemOnOneLine(item) && ItemFree(item)
    requires i == FindRow(lines, item.id) < |lines|
    requires OneLine(lines[i]) && ReadLine(lines[i]) == Some(row) && !LooksLikeHeading(RawCells(lines[i])[0])
    requires !Holds(SplitLines(Text(lines[i + 1..])), row[0])
    requires forall n :: 0 <= n < |datas| ==> NamesOnce(datas[n], row[0])
    ensures Recorded(before + lines + after, item).Success?
    ensures var recorded := JoinLines(Recorded(before + lines + after, item).value);
            && ParseFile(recorded).Valid() && HoldsVerdict(ParseFile(recorded), row[0], item)
            && (IsHeldInTheFile(recorded, datas, row[0]) <==> AlwaysPrintsAbove(recorded, datas, row[0]))
            && AfterScripts(recorded, datas).Success?
            && (exists middle :: AfterScripts(recorded, datas).value == pre + BEGIN + middle + END + post)
  {
    var body := RecordedFileReads(before, lines, after, pre, post, item, i, row);
    var recorded := JoinLines(Recorded(before + lines + after, item).value);
    NothingRecordedIsLostInTheFile(recorded, pre, body, post, datas, row[0]);
  }
}

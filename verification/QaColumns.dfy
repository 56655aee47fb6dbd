/** Column by column: what the next run reads of a row, and what becomes of a recorded bug
    (review/qa-matrix-gen.py:86-99). */
module QaColumns {

  import opened TableCells
  import opened QaMatrix
  import opened QaRegeneration
  import opened QaFile
  import opened QaMarkers

  // ---------- one run ----------

  /** The row of a data entry is read, normalised, if it prints whole. */
  lemma DataRowReads(data: seq<DataRow>, kept: Kept, i: nat)
    requires FromFile(kept) && i < |data| && NamesOnce(data, data[i].id) && IsPlainCell(data[i].id)
    ensures ReadsAs(Regenerate(data, kept), DataLine(data[i], kept))
  {
    var k := data[i].id;
    forall j | 0 <= j < |NewRows(data, kept)| && j != i ensures Printed(NewRows(data, kept)[j][0]) != k {
      OtherRowsPrintOtherIds(data, kept, k, j);
      GoneIsNoData(data, kept, i, j);
      assert j < |data| ==> Ids(data)[i] != Ids(data)[j];
    }
    LoneNewRowIsRead(data, kept, i, DataLine(data[i], kept));
  }

  lemma GoneIsNoData(data: seq<DataRow>, kept: Kept, i: nat, j: nat)
    requires kept.Valid() && i < |data| && j < |NewRows(data, kept)|
    ensures j >= |data| ==>
              && j - |data| < |GoneKeys(kept.order, Ids(data))|
              && GoneKeys(kept.order, Ids(data))[j - |data|] != data[i].id
  {
    if j >= |data| {
      var gone := GoneKeys(kept.order, Ids(data));
      assert gone[j - |data|] in gone;
      assert Ids(data)[i] in Ids(data);
    }
  }

  /** The bug of an entry: what was recorded, or what the data file says when nothing was. */
  function BugOf(kept: Kept, k: string, data: string): string {
    if k in kept.rows && kept.rows[k][BUG] != "" then kept.rows[k][BUG] else Printed(data)
  }

  /** Every column of the row of a data entry as the next run reads it: the seven facts are the data
      file's; verdict and evidence are as recorded, or a dash and nothing for a new ID; the bug is the one
      recorded, if there is one, else the data file's. */
  predicate HasItsColumns(row: Row, d: DataRow, kept: Kept) {
    && row[0] == d.id
    && (forall c :: 1 <= c <= 7 ==> row[c] == Printed(d.facts[c - 1]))
    && row[VERDICT] == (if d.id in kept.rows then kept.rows[d.id][VERDICT] else "—")
    && row[EVIDENCE] == (if d.id in kept.rows then kept.rows[d.id][EVIDENCE] else "")
    && row[BUG] == BugOf(kept, d.id, d.bug)
  }

  lemma FixedCellsPrintAsThemselves()
    ensures Printed("—") == "—" && Printed("") == ""
  {
    PrintedIsIdentityIff("—");
    PrintedIsIdentityIff("");
  }

  lemma FactsArePrinted(d: DataRow, kept: Kept)
    ensures forall c :: 1 <= c <= 7 ==> PrintedAll(DataLine(d, kept))[c] == Printed(d.facts[c - 1])
  {
    forall c | 1 <= c <= 7 ensures PrintedAll(DataLine(d, kept))[c] == Printed(d.facts[c - 1]) {
      assert DataLine(d, kept)[c] == d.facts[c - 1];
    }
  }

  lemma RecordedCellsPrint(d: DataRow, kept: Kept)
    requires FromFile(kept)
    ensures var cells, isNew := RecordedCells(d, kept), d.id !in kept.rows;
            && Printed(cells[0]) == (if isNew then "—" else kept.rows[d.id][VERDICT])
            && Printed(cells[1]) == (if isNew then "" else kept.rows[d.id][EVIDENCE])
            && Printed(cells[2]) == BugOf(kept, d.id, d.bug)
  {
    FixedCellsPrintAsThemselves();
    if d.id in kept.rows {
      var was := kept.rows[d.id];
      assert PlainRow(was);
      PlainCellsPrintAsThemselves(was, VERDICT);
      PlainCellsPrintAsThemselves(was, EVIDENCE);
      PlainCellsPrintAsThemselves(was, BUG);
    }
  }

  lemma RecordedCellsStandLast(d: DataRow, kept: Kept)
    ensures var line, cells := DataLine(d, kept), RecordedCells(d, kept);
            line[0] == d.id && line[VERDICT] == cells[0] && line[EVIDENCE] == cells[1] && line[BUG] == cells[2]
  {
  }

  lemma PrintedLineHasItsColumns(d: DataRow, kept: Kept)
    requires FromFile(kept) && IsPlainCell(d.id)
    ensures HasItsColumns(PrintedAll(DataLine(d, kept)), d, kept)
  {
    PrintedIsIdentityIff(d.id);
    FactsArePrinted(d, kept);
    RecordedCellsPrint(d, kept);
    RecordedCellsStandLast(d, kept);
  }

  /** One run and one entry of the data file, new or recorded. */
  lemma DataRowHasItsColumns(data: seq<DataRow>, kept: Kept, i: nat)
    requires FromFile(kept) && i < |data| && NamesOnce(data, data[i].id) && IsPlainCell(data[i].id)
    ensures var next := Regenerate(data, kept);
            && (data[i].id in next.rows <==> PrintsWhole(data, kept, data[i].id))
            && (data[i].id in next.rows ==> HasItsColumns(next.rows[data[i].id], data[i], kept))
  {
    var k := data[i].id;
    forall j | 0 <= j < |data| && data[j].id == k ensures j == i {
      assert Ids(data)[j] == Ids(data)[i];
    }
    DataRowReads(data, kept, i);
    PrintedLineHasItsColumns(data[i], kept);
  }

  /** The bug with the note that its ID has been removed from the data file. */
  function WithNote(bug: string): string {
    if bug == "" then "ВИДАЛЕНО З ДЖЕРЕЛА" else bug + " ВИДАЛЕНО З ДЖЕРЕЛА"
  }

  lemma NoteHasNoPipe()
    ensures '|' !in "ВИДАЛЕНО З ДЖЕРЕЛА" && '\n' !in "ВИДАЛЕНО З ДЖЕРЕЛА"
  {
  }

  lemma NoteIsStripped()
    ensures IsStripped("ВИДАЛЕНО З ДЖЕРЕЛА") && GONE == " " + "ВИДАЛЕНО З ДЖЕРЕЛА"
  {
  }

  lemma PlainBehindASpace(note: string)
    requires IsStripped(note) && note != [] && '|' !in note && '\n' !in note
    ensures IsPlainCell(note) && '|' !in " " + note && '\n' !in " " + note
    ensures !IsSpace((" " + note)[|note|])
  {
  }

  lemma NoteIsPlain()
    ensures IsPlainCell("ВИДАЛЕНО З ДЖЕРЕЛА") && '|' !in GONE && '\n' !in GONE
    ensures GONE == " " + "ВИДАЛЕНО З ДЖЕРЕЛА" && !IsSpace(GONE[|GONE| - 1])
  {
    NoteHasNoPipe();
    NoteIsStripped();
    PlainBehindASpace("ВИДАЛЕНО З ДЖЕРЕЛА");
  }

  lemma PlainThenPlain(a: string, b: string)
    requires IsPlainCell(a) && a != [] && b != [] && !IsSpace(b[|b| - 1]) && '|' !in b && '\n' !in b
    ensures IsPlainCell(a + b)
  {
    var s := a + b;
    assert s[0] == a[0] && s[|s| - 1] == b[|b| - 1];
    assert forall i :: 0 <= i < |a| ==> s[i] == a[i];
    assert forall i :: |a| <= i < |s| ==> s[i] == b[i - |a|];
  }

  lemma StrippedNote(bug: string)
    requires IsPlainCell(bug)
    ensures IsPlainCell(WithNote(bug)) && Strip(bug + GONE) == WithNote(bug)
  {
    NoteIsPlain();
    if bug == "" {
      assert bug + GONE == " " + "ВИДАЛЕНО З ДЖЕРЕЛА" + "";
      assert AllSpace(" ") && AllSpace("");
      StripFindsTheCore(" ", "ВИДАЛЕНО З ДЖЕРЕЛА", "");
    } else {
      PlainThenPlain(bug, GONE);
      StripFixesStripped(bug + GONE);
    }
  }

  /** A recorded row whose ID the data file no longer names keeps all columns but the bug, which gets the
      note. */
  lemma GoneRowHasItsColumns(data: seq<DataRow>, kept: Kept, k: string)
    requires FromFile(kept) && k in kept.rows && NamesOnce(data, k) && k !in Ids(data)
    ensures var next := Regenerate(data, kept);
            && (k in next.rows <==> !LooksLikeHeading(Escape(k)))
            && (k in next.rows ==> next.rows[k] == kept.rows[k][BUG := WithNote(kept.rows[k][BUG])])
  {
    var was := kept.rows[k];
    assert PlainRow(was) && was[0] == k;
    GoneRowIsRead(data, kept, k);
    GoneLineReadsBack(was);
    StrippedNote(was[BUG]);
    var row, row' := GoneLine(was), was[BUG := WithNote(was[BUG])];
    assert row == row';
    forall c | 0 <= c < COLUMNS ensures Printed(row[c]) == row[c] {
      PrintedIsIdentityIff(row[c]);
    }
    assert PrintedAll(row) == row;
  }

  // ---------- the order of the rows ----------

  lemma DataLineKeepsId(d: DataRow, kept: Kept)
    ensures DataLine(d, kept)[0] == d.id
  {
  }

  lemma ConcatAt<T>(a: seq<T>, b: seq<T>, j: nat)
    requires j < |a| + |b|
    ensures (a + b)[j] == if j < |a| then a[j] else b[j - |a|]
  {
  }

  lemma NewRowAt(data: seq<DataRow>, kept: Kept, j: nat)
    requires kept.Valid() && j < |NewRows(data, kept)|
    ensures var gone := GoneKeys(kept.order, Ids(data));
            && |NewRows(data, kept)| == |data| + |gone|
            && (j < |data| ==> NewRows(data, kept)[j] == DataLine(data[j], kept))
            && (j >= |data| ==>
                  gone[j - |data|] in kept.rows && NewRows(data, kept)[j] == GoneLine(kept.rows[gone[j - |data|]]))
  {
    var gone := GoneKeys(kept.order, Ids(data));
    ConcatAt(DataLines(data, kept), GoneLines(gone, kept), j);
    if j >= |data| {
      assert gone[j - |data|] in gone;
    }
  }

  lemma NewRowIdAt(data: seq<DataRow>, kept: Kept, j: nat)
    requires kept.Valid() && j < |NewRows(data, kept)|
    ensures |NewRows(data, kept)| == |data| + |GoneKeys(kept.order, Ids(data))|
    ensures NewRows(data, kept)[j][0] == if j < |data| then data[j].id else GoneKeys(kept.order, Ids(data))[j - |data|]
  {
    NewRowAt(data, kept, j);
    if j < |data| {
      DataLineKeepsId(data[j], kept);
    } else {
      GoneLineKeepsId(kept.rows[GoneKeys(kept.order, Ids(data))[j - |data|]]);
    }
  }

  lemma GoneLineKeepsId(was: Row)
    ensures GoneLine(was)[0] == was[0]
  {
  }

  /** The rows of the new table by their IDs: the data file's, in its order, then those it no longer has, in
      the order they were read in. */
  lemma NewRowsAreInOrder(data: seq<DataRow>, kept: Kept) returns (gone: seq<string>)
    requires kept.Valid()
    ensures |NewRows(data, kept)| == |data| + |gone|
    ensures forall j :: 0 <= j < |NewRows(data, kept)| ==>
              NewRows(data, kept)[j][0] == if j < |data| then data[j].id else gone[j - |data|]
    ensures forall k :: k in gone <==> k in kept.order && k !in Ids(data)
    ensures forall i, j :: 0 <= i < j < |gone| ==> StandsBefore(kept.order, gone[i], gone[j])
  {
    gone := GoneKeys(kept.order, Ids(data));
    forall j | 0 <= j < |NewRows(data, kept)|
      ensures NewRows(data, kept)[j][0] == if j < |data| then data[j].id else gone[j - |data|]
    {
      NewRowIdAt(data, kept, j);
    }
    GoneKeysStayInOrder(kept.order, Ids(data));
  }

  predicate StandsBefore(order: seq<string>, a: string, b: string) {
    exists i, j :: 0 <= i < j < |order| && order[i] == a && order[j] == b
  }

  lemma {:induction false} GoneKeysStayInOrder(order: seq<string>, ids: seq<string>)
    ensures forall i, j :: 0 <= i < j < |GoneKeys(order, ids)| ==>
              StandsBefore(order, GoneKeys(order, ids)[i], GoneKeys(order, ids)[j])
  {
    if order != [] {
      var init, end, gone := order[..|order| - 1], order[|order| - 1], GoneKeys(order, ids);
      GoneKeysStayInOrder(init, ids);
      forall i, j | 0 <= i < j < |gone| ensures StandsBefore(order, gone[i], gone[j]) {
        if j < |GoneKeys(init, ids)| {
          assert StandsBefore(init, gone[i], gone[j]);
          var x, y :| 0 <= x < y < |init| && init[x] == gone[i] && init[y] == gone[j];
          assert order[x] == gone[i] && order[y] == gone[j];
        } else {
          assert gone[i] == GoneKeys(init, ids)[i] && gone[i] in GoneKeys(init, ids);
          var x :| 0 <= x < |init| && init[x] == gone[i];
          assert order[x] == gone[i] && order[|order| - 1] == gone[j];
        }
      }
    }
  }

  // ---------- any number of runs ----------

  /** In how many of the runs the data file does not name the ID. */
  function RunsWithout(datas: seq<seq<DataRow>>, k: string): nat {
    if datas == [] then 0
    else RunsWithout(datas[..|datas| - 1], k) + if k in Ids(datas[|datas| - 1]) then 0 else 1
  }

  lemma BugAfterOneRun(data: seq<DataRow>, kept: Kept, k: string)
    requires FromFile(kept) && k in kept.rows && NamesOnce(data, k) && k in Regenerate(data, kept).rows
    requires kept.rows[k][BUG] != ""
    ensures Regenerate(data, kept).rows[k][BUG]
         == if k in Ids(data) then kept.rows[k][BUG] else kept.rows[k][BUG] + GONE
  {
    assert PlainRow(kept.rows[k]) && kept.rows[k][0] == k;
    if k in Ids(data) {
      var i :| 0 <= i < |data| && Ids(data)[i] == k;
      DataRowHasItsColumns(data, kept, i);
    } else {
      GoneRowHasItsColumns(data, kept, k);
    }
  }

  /** A text with a note behind it, so many times. */
  function Noted(text: string, note: string, times: nat): string {
    if times == 0 then text else Noted(text, note, times - 1) + note
  }

  lemma {:induction false} NotedIsNotEmpty(text: string, note: string, times: nat)
    requires text != ""
    ensures Noted(text, note, times) != ""
  {
    if times > 0 {
      NotedIsNotEmpty(text, note, times - 1);
    }
  }

  /** The table holds the ID with this bug, noted as often as a run went by without the ID. */
  predicate HoldsBug(kept: Kept, k: string, bug: string, times: nat) {
    k in kept.rows && kept.rows[k][BUG] == Noted(bug, GONE, times)
  }

  lemma NotedOnceMore(text: string, note: string, times: nat, isNamed: bool)
    ensures Noted(text, note, times + if isNamed then 0 else 1)
         == if isNamed then Noted(text, note, times) else Noted(text, note, times) + note
  {
  }

  lemma BugGoesOn(data: seq<DataRow>, before: Kept, after: Kept, k: string, bug: string, times: nat, times': nat)
    requires FromFile(before) && NamesOnce(data, k) && bug != "" && HoldsBug(before, k, bug, times)
    requires k in after.rows && k in Regenerate(data, before).rows && after.rows[k] == Regenerate(data, before).rows[k]
    requires times' == times + if k in Ids(data) then 0 else 1
    ensures HoldsBug(after, k, bug, times')
  {
    NotedIsNotEmpty(bug, GONE, times);
    BugAfterOneRun(data, before, k);
    NotedOnceMore(bug, GONE, times, k in Ids(data));
  }

  lemma AfterOneMoreRun(datas: seq<seq<DataRow>>, kept: Kept, k: string)
    requires kept.Valid() && datas != []
    ensures var before := AfterRuns(datas[..|datas| - 1], kept);
            && AfterRuns(datas, kept) == Regenerate(datas[|datas| - 1], before)
            && RunsWithout(datas, k) == RunsWithout(datas[..|datas| - 1], k)
                                        + if k in Ids(datas[|datas| - 1]) then 0 else 1
  {
  }

  lemma HeldUntilTheLast(datas: seq<seq<DataRow>>, kept: Kept, k: string)
    requires kept.Valid() && k in kept.rows && IsHeld(datas, kept, k) && datas != []
    ensures IsHeld(datas[..|datas| - 1], kept, k) && k in AfterRuns(datas, kept).rows
  {
  }

  lemma BugBeforeAnyRun(kept: Kept, k: string)
    requires kept.Valid() && k in kept.rows
    ensures AfterRuns([], kept) == kept && RunsWithout([], k) == 0 && HoldsBug(kept, k, kept.rows[k][BUG], 0)
  {
  }

  lemma BugAfterOneMoreRun(datas: seq<seq<DataRow>>, kept: Kept, k: string, bug: string)
    requires FromFile(kept) && datas != [] && NamesOnce(datas[|datas| - 1], k) && bug != ""
    requires HoldsBug(AfterRuns(datas[..|datas| - 1], kept), k, bug, RunsWithout(datas[..|datas| - 1], k))
    requires k in AfterRuns(datas, kept).rows
    ensures HoldsBug(AfterRuns(datas, kept), k, bug, RunsWithout(datas, k))
  {
    var init, end := datas[..|datas| - 1], datas[|datas| - 1];
    RunsAreFromFile(init, kept);
    AfterOneMoreRun(datas, kept, k);
    BugGoesOn(end, AfterRuns(init, kept), AfterRuns(datas, kept), k, bug, RunsWithout(init, k), RunsWithout(datas, k));
  }

  /** A recorded bug is carried through any series of runs that holds the row: it stays as it is, but for
      a note from each run whose data file did not name the ID. */
  lemma {:induction false} BugIsCarried(datas: seq<seq<DataRow>>, kept: Kept, k: string)
    requires FromFile(kept) && k in kept.rows && kept.rows[k][BUG] != ""
    requires forall i :: 0 <= i < |datas| ==> NamesOnce(datas[i], k)
    requires IsHeld(datas, kept, k)
    ensures HoldsBug(AfterRuns(datas, kept), k, kept.rows[k][BUG], RunsWithout(datas, k))
    decreases |datas|
  {
    if datas == [] {
      BugBeforeAnyRun(kept, k);
    } else {
      HeldUntilTheLast(datas, kept, k);
      BugIsCarried(datas[..|datas| - 1], kept, k);
      BugAfterOneMoreRun(datas, kept, k, kept.rows[k][BUG]);
    }
  }

  lemma HeldInTheFileUntilTheLast(text: string, datas: seq<seq<DataRow>>, k: string)
    requires k in ParseFile(text).rows && IsHeldInTheFile(text, datas, k) && datas != []
    ensures IsHeldInTheFile(text, datas[..|datas| - 1], k)
    ensures AfterScripts(text, datas[..|datas| - 1]).Success? && AfterScripts(text, datas).Success?
    ensures AfterScripts(text, datas) == RunScript(AfterScripts(text, datas[..|datas| - 1]).value, datas[|datas| - 1])
    ensures k in ParseFile(AfterScripts(text, datas).value).rows
  {
  }

  lemma BugOnTheFile(before: string, pre: string, body: string, post: string, datas: seq<seq<DataRow>>, k: string,
                     bug: string)
    requires IsFile(before, pre, body, post) && datas != [] && NamesOnce(datas[|datas| - 1], k) && bug != ""
    requires HoldsBug(ParseFile(before), k, bug, RunsWithout(datas[..|datas| - 1], k))
    requires var written := RunScript(before, datas[|datas| - 1]);
             written.Success? && k in ParseFile(written.value).rows
    ensures HoldsBug(ParseFile(RunScript(before, datas[|datas| - 1]).value), k, bug, RunsWithout(datas, k))
  {
    var init, end := datas[..|datas| - 1], datas[|datas| - 1];
    RowOnTheFile(before, pre, body, post, end, k);
    ParseFileIsFromFile(before);
    AfterOneMoreRun(datas, NOTHING_KEPT, k);
    BugGoesOn(end, ParseFile(before), ParseFile(RunScript(before, end).value), k, bug, RunsWithout(init, k),
              RunsWithout(datas, k));
  }

  /** The same in the file, whatever its cells print. */
  lemma {:induction false} BugIsCarriedInTheFile(text: string, pre: string, body: string, post: string,
                                                 datas: seq<seq<DataRow>>, k: string)
    requires IsFile(text, pre, body, post) && k in ParseFile(text).rows && ParseFile(text).rows[k][BUG] != ""
    requires forall i :: 0 <= i < |datas| ==> NamesOnce(datas[i], k)
    requires IsHeldInTheFile(text, datas, k)
    ensures AfterScripts(text, datas).Success?
    ensures HoldsBug(ParseFile(AfterScripts(text, datas).value), k, ParseFile(text).rows[k][BUG], RunsWithout(datas, k))
    decreases |datas|
  {
    if datas == [] {
      ParseFileIsFromFile(text);
      BugBeforeAnyRun(ParseFile(text), k);
    } else {
      var init := datas[..|datas| - 1];
      HeldInTheFileUntilTheLast(text, datas, k);
      BugIsCarriedInTheFile(text, pre, body, post, init, k);
      var body1, post1 := RunsLeaveAFile(text, pre, body, post, init);
      BugOnTheFile(AfterScripts(text, init).value, pre, body1, post1, datas, k, ParseFile(text).rows[k][BUG]);
    }
  }

  /** A row that is still read from the file is the row that the table alone would have. */
  lemma RowOnTheFile(text: string, pre: string, body: string, post: string, data: seq<DataRow>, k: string)
    requires IsFile(text, pre, body, post) && NamesOnce(data, k) && k in ParseFile(text).rows
    ensures RunScript(text, data).Success? && ParseFile(text).Valid()
    ensures var next := ParseFile(RunScript(text, data).value);
            k in next.rows ==>
              && k in Regenerate(data, ParseFile(text)).rows
              && next.rows[k] == Regenerate(data, ParseFile(text)).rows[k]
  {
    ParseFileIsFromFile(text);
    var kept := ParseFile(text);
    EndsAsItself(END, post);
    var body', post' := RunLeavesAFile(text, pre, body, post, post, data);
    var rows := NewRows(data, kept);
    var i := RowPlace(data, kept, k);
    assert PlainRow(kept.rows[k]) && kept.rows[k][0] == k;
    RowsAboveAreRead(rows);
    CutRowIsRead(rows, RowsAbove(rows), i);
    BodyReads(rows);
  }
}

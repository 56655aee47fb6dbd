/** The generator as it is run: `main` of review/qa-matrix-gen.py from the data file's entries to the
    text that is written, run after run. */
module QaScript {

  import opened Wrappers
  import opened QaRegeneration
  import opened QaEntries
  import opened QaFile
  import opened QaMarkers

  datatype ScriptError = Refused(why: MergeError) | Unwritable(problem: FileError)

  /** No ID twice, and no surface, category or executor the script does not know. */
  predicate IsAccepted(entries: seq<Entry>) {
    Distinct(EntryIds(entries)) && AllKnown(entries)
  }

  /** `main`: what it writes, or why it stops before writing. */
  method Generate(tree: Tree, entries: seq<Entry>, text: string)
      returns (r: Result<string, ScriptError>, missing: seq<(string, string)>)
    ensures r.Success? <==> IsAccepted(entries) && RunScript(text, Rows(entries)).Success?
    ensures r.Success? ==> r.value == RunScript(text, Rows(entries)).value
    ensures r.Failure? ==> (r.error.Refused? <==> !IsAccepted(entries))
    ensures r.Success? ==> missing == AllUnknown(tree, Sorted(entries))
  {
    ParseFileIsFromFile(text);
    var kept := ParseFile(text);
    var merged;
    merged, missing := Merge(tree, entries, kept);
    if merged.Failure? {
      return Failure(Refused(merged.error)), missing;
    }
    var written := Rewritten(text, merged.value);
    if written.Failure? {
      return Failure(Unwritable(written.error)), missing;
    }
    r := Success(written.value);
  }

  /** The file after a run: a script that stops leaves it as it was. */
  function Next(text: string, entries: seq<Entry>): string {
    if !IsAccepted(entries) then text
    else
      match RunScript(text, Rows(entries))
      case Success(written) => written
      case Failure(_) => text
  }

  function AfterFiles(text: string, files: seq<seq<Entry>>): string {
    if files == [] then text else Next(AfterFiles(text, files[..|files| - 1]), files[|files| - 1])
  }

  /** An accepted data file prints this ID for no other entry. */
  predicate NamesOnlyItself(entries: seq<Entry>, k: string) {
    IsAccepted(entries) ==> NamesOnce(Rows(entries), k)
  }

  /** With an accepted data file the row of the ID prints whole, above any end marker in a cell. */
  predicate FilePrintsAbove(text: string, entries: seq<Entry>, k: string) {
    IsAccepted(entries) ==> PrintsAbove(text, Rows(entries), k)
  }

  /** After each data file, the matrix holds the ID as recorded at the start. */
  predicate IsHeldThroughout(text: string, files: seq<seq<Entry>>, k: string)
    requires k in ParseFile(text).rows
  {
    files != [] ==>
      && IsHeldThroughout(text, files[..|files| - 1], k)
      && IsRecordedAs(ParseFile(AfterFiles(text, files)), k, ParseFile(text).rows[k])
  }

  predicate FilesAlwaysPrintAbove(text: string, files: seq<seq<Entry>>, k: string) {
    files != [] ==>
      && FilesAlwaysPrintAbove(text, files[..|files| - 1], k)
      && FilePrintsAbove(AfterFiles(text, files[..|files| - 1]), files[|files| - 1], k)
  }

  lemma {:induction false} FilesLeaveAFile(text: string, pre: string, body: string, post: string,
                                           files: seq<seq<Entry>>) returns (body': string, post': string)
    requires IsFile(text, pre, body, post)
    ensures IsFile(AfterFiles(text, files), pre, body', post') && EndsAs(END, post', post)
  {
    body', post' := body, post;
    EndsAsItself(END, post);
    if files != [] {
      var before, entries := AfterFiles(text, files[..|files| - 1]), files[|files| - 1];
      body', post' := FilesLeaveAFile(text, pre, body, post, files[..|files| - 1]);
      if IsAccepted(entries) {
        body', post' := RunLeavesAFile(before, pre, body', post', post, Rows(entries));
      }
    }
  }

  /** From data files to the text that is written: through any series of data files, refused ones among
      them, a recorded verdict and its evidence stay in the matrix exactly when with every accepted file
      the row prints whole above the first end marker that a cell prints; and the text around the table
      never changes. */
  lemma {:induction false} NothingRecordedIsLostOnEntries(text: string, pre: string, body: string, post: string,
                                                          files: seq<seq<Entry>>, k: string)
    requires IsFile(text, pre, body, post) && k in ParseFile(text).rows
    requires forall i :: 0 <= i < |files| ==> NamesOnlyItself(files[i], k)
    ensures IsHeldThroughout(text, files, k) <==> FilesAlwaysPrintAbove(text, files, k)
    ensures IsHeldThroughout(text, files, k) ==>
              IsRecordedAs(ParseFile(AfterFiles(text, files)), k, ParseFile(text).rows[k])
    ensures exists middle :: AfterFiles(text, files) == pre + BEGIN + middle + END + post
    decreases |files|
  {
    var body1, post1 := FilesLeaveAFile(text, pre, body, post, files);
    FileEndsAs(AfterFiles(text, files), pre, body1, post1, post);
    if files != [] {
      var init, entries := files[..|files| - 1], files[|files| - 1];
      NothingRecordedIsLostOnEntries(text, pre, body, post, init, k);
      if IsHeldThroughout(text, init, k) && IsAccepted(entries) {
        var body2, post2 := FilesLeaveAFile(text, pre, body, post, init);
        OneRunOnTheFile(AfterFiles(text, init), pre, body2, post2, Rows(entries), k);
      }
    }
  }
}

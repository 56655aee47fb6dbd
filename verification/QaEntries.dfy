/** The data file of the quality matrix and the merge in `main` (review/qa-matrix-gen.py:64-99): the
    entries in the order of their surfaces, with the coverage column written out. */
module QaEntries {

  import opened Wrappers
  import opened QaMatrix
  import opened QaRegeneration
  import Strings
  import TextSearch

  const SURF_ORDER := "AEBCDFHIG"
  const CAT := map["HP" := "Happy path", "SB" := "Security & Boundary", "MF" := "Misuse & Fool",
                   "EP" := "Error path", "CR" := "Concurrency/Recovery"]
  const WHO := map["AUTO" := "MCP-AUTO", "PART" := "MCP-PARTIAL", "USER" := "USER-MANUAL", "CODE" := "CODE-ONLY"]
  const NO_COVERAGE := "НЕМАЄ"
  const SMOKE := "smoke.js:"

  /** An entry of the data file; `cov` names the tests that cover it. */
  datatype Entry = Entry(id: string, surf: string, point: string, cat: string, steps: string, expected: string,
                         cov: seq<string>, who: string, bug: string)

  /** What the source tree has to be referred to. */
  datatype Tree = Tree(functions: set<string>, smokeCalls: set<string>)

  datatype MergeError = DuplicateIds | UnknownCode

  // ---------- the order of the rows ----------

  /** Python's `sorted` is stable: an element goes behind those that are not above it. */
  function InsertByKey<T>(t: seq<T>, x: T, key: T -> nat): (r: seq<T>)
    ensures |r| == |t| + 1
  {
    if t == [] || key(t[|t| - 1]) <= key(x) then t + [x]
    else InsertByKey(t[..|t| - 1], x, key) + [t[|t| - 1]]
  }

  function SortByKey<T>(s: seq<T>, key: T -> nat): (r: seq<T>)
    ensures |r| == |s|
  {
    if s == [] then [] else InsertByKey(SortByKey(s[..|s| - 1], key), s[|s| - 1], key)
  }

  predicate AscendingByKey<T>(s: seq<T>, key: T -> nat) {
    forall i, j :: 0 <= i < j < |s| ==> key(s[i]) <= key(s[j])
  }

  /** The elements with one key, in the order they stand in. */
  function OfKey<T>(s: seq<T>, key: T -> nat, k: nat): seq<T> {
    if s == [] then []
    else OfKey(s[..|s| - 1], key, k) + if key(s[|s| - 1]) == k then [s[|s| - 1]] else []
  }

  lemma OfKeySnoc<T>(s: seq<T>, x: T, key: T -> nat, k: nat)
    ensures OfKey(s + [x], key, k) == OfKey(s, key, k) + if key(x) == k then [x] else []
  {
    Strings.Snoc(s, x);
  }

  lemma {:induction false} InsertKeepsMembers<T>(t: seq<T>, x: T, key: T -> nat)
    ensures forall y :: y in InsertByKey(t, x, key) ==> y in t || y == x
  {
    if t != [] && key(t[|t| - 1]) > key(x) {
      InsertKeepsMembers(t[..|t| - 1], x, key);
    }
  }

  lemma {:induction false} InsertAscends<T>(t: seq<T>, x: T, key: T -> nat)
    requires AscendingByKey(t, key)
    ensures AscendingByKey(InsertByKey(t, x, key), key)
  {
    if t == [] || key(t[|t| - 1]) <= key(x) {
      AscendingSnoc(t, x, key);
    } else {
      InsertAscends(t[..|t| - 1], x, key);
      InsertKeepsMembers(t[..|t| - 1], x, key);
      AscendingSnoc(InsertByKey(t[..|t| - 1], x, key), t[|t| - 1], key);
    }
  }

  lemma {:induction false} InsertIsStable<T>(t: seq<T>, x: T, key: T -> nat, k: nat)
    ensures OfKey(InsertByKey(t, x, key), key, k) == OfKey(t, key, k) + if key(x) == k then [x] else []
  {
    if t == [] || key(t[|t| - 1]) <= key(x) {
      OfKeySnoc(t, x, key, k);
    } else {
      InsertIsStable(t[..|t| - 1], x, key, k);
      OfKeySnoc(InsertByKey(t[..|t| - 1], x, key), t[|t| - 1], key, k);
      OfKeyOfLast(t, x, key, k);
    }
  }

  lemma AscendingSnoc<T>(s: seq<T>, x: T, key: T -> nat)
    requires AscendingByKey(s, key) && forall y :: y in s ==> key(y) <= key(x)
    ensures AscendingByKey(s + [x], key)
  {
  }

  /** An element of another key may stand on either side. */
  lemma OfKeyOfLast<T>(t: seq<T>, x: T, key: T -> nat, k: nat)
    requires t != [] && key(x) < key(t[|t| - 1])
    ensures var end := t[|t| - 1];
            OfKey(t[..|t| - 1], key, k) + (if key(x) == k then [x] else []) + (if key(end) == k then [end] else [])
            == OfKey(t, key, k) + if key(x) == k then [x] else []
  {
  }

  /** Sorting orders by key and leaves elements of one key in their order. */
  lemma {:induction false} SortIsStable<T>(s: seq<T>, key: T -> nat, k: nat)
    ensures AscendingByKey(SortByKey(s, key), key)
    ensures OfKey(SortByKey(s, key), key, k) == OfKey(s, key, k)
  {
    if s != [] {
      SortIsStable(s[..|s| - 1], key, k);
      InsertAscends(SortByKey(s[..|s| - 1], key), s[|s| - 1], key);
      InsertIsStable(SortByKey(s[..|s| - 1], key), s[|s| - 1], key, k);
    }
  }

  lemma {:induction false} OfKeyIsEmpty<T>(s: seq<T>, key: T -> nat, k: nat)
    requires forall y :: y in s ==> key(y) != k
    ensures OfKey(s, key, k) == []
  {
    if s != [] {
      OfKeyIsEmpty(s[..|s| - 1], key, k);
    }
  }

  lemma LastKeyIsAbove<T>(s: seq<T>, key: T -> nat, k: nat)
    requires AscendingByKey(s, key) && OfKey(s, key, k) != []
    ensures s != [] && k <= key(s[|s| - 1])
  {
    if s == [] || key(s[|s| - 1]) < k {
      OfKeyIsEmpty(s, key, k);
    }
  }

  ghost predicate SameByKey<T>(s: seq<T>, t: seq<T>, key: T -> nat) {
    forall k: nat :: OfKey(s, key, k) == OfKey(t, key, k)
  }

  lemma SnocsAgree<T>(s: seq<T>, x: T, t: seq<T>, y: T)
    requires s + [x] == t + [y]
    ensures s == t && x == y
  {
    Strings.Snoc(s, x);
    Strings.Snoc(t, y);
  }

  lemma InitsAgree<T>(s: seq<T>, t: seq<T>, key: T -> nat, k: nat)
    requires s != [] && t != [] && key(s[|s| - 1]) == key(t[|t| - 1])
    requires OfKey(s, key, k) == OfKey(t, key, k)
    ensures OfKey(s[..|s| - 1], key, k) == OfKey(t[..|t| - 1], key, k)
    ensures k == key(s[|s| - 1]) ==> s[|s| - 1] == t[|t| - 1]
  {
    if k == key(s[|s| - 1]) {
      SnocsAgree(OfKey(s[..|s| - 1], key, k), s[|s| - 1], OfKey(t[..|t| - 1], key, k), t[|t| - 1]);
    } else {
      Strings.NothingAfter(OfKey(s[..|s| - 1], key, k));
      Strings.NothingAfter(OfKey(t[..|t| - 1], key, k));
    }
  }

  lemma LastKeysAgree<T>(s: seq<T>, t: seq<T>, key: T -> nat)
    requires AscendingByKey(s, key) && AscendingByKey(t, key) && SameByKey(s, t, key) && (s != [] || t != [])
    ensures s != [] && t != [] && key(s[|s| - 1]) == key(t[|t| - 1])
  {
    if s != [] {
      assert OfKey(s, key, key(s[|s| - 1])) != [];
      LastKeyIsAbove(t, key, key(s[|s| - 1]));
    }
    if t != [] {
      assert OfKey(t, key, key(t[|t| - 1])) != [];
      LastKeyIsAbove(s, key, key(t[|t| - 1]));
    }
  }

  /** No other order does: two sequences in order that agree key by key are equal. */
  lemma {:induction false} StableOrderIsUnique<T>(s: seq<T>, t: seq<T>, key: T -> nat)
    requires AscendingByKey(s, key) && AscendingByKey(t, key) && SameByKey(s, t, key)
    ensures s == t
    decreases |s|
  {
    if s != [] || t != [] {
      LastKeysAgree(s, t, key);
      InitsAgree(s, t, key, key(s[|s| - 1]));
      var s', t' := s[..|s| - 1], t[..|t| - 1];
      forall k: nat ensures OfKey(s', key, k) == OfKey(t', key, k) {
        InitsAgree(s, t, key, k);
      }
      StableOrderIsUnique(s', t', key);
      Strings.Unsnoc(s);
      Strings.Unsnoc(t);
    }
  }

  // ---------- one row ----------

  /** A reference is printed as code, or as it stands after a tilde. */
  function Reference(c: string): string {
    if Strings.StartsWith(c, "~") then c[1..] else "`" + (c + "`")
  }

  predicate IsUnknown(tree: Tree, c: string) {
    && !Strings.StartsWith(c, "~")
    && if Strings.StartsWith(c, SMOKE) then c[|SMOKE|..] !in tree.smokeCalls else c !in tree.functions
  }

  function References(cov: seq<string>): string {
    if cov == [] then ""
    else if |cov| == 1 then Reference(cov[0])
    else References(cov[..|cov| - 1]) + (", " + Reference(cov[|cov| - 1]))
  }

  function Coverage(cov: seq<string>): string {
    if cov == [] then NO_COVERAGE else References(cov)
  }

  function Unknown(tree: Tree, e: Entry, n: nat): seq<(string, string)>
    requires n <= |e.cov|
  {
    if n == 0 then []
    else Unknown(tree, e, n - 1) + if IsUnknown(tree, e.cov[n - 1]) then [(e.id, e.cov[n - 1])] else []
  }

  function AllUnknown(tree: Tree, entries: seq<Entry>): seq<(string, string)> {
    if entries == [] then []
    else
      var end := entries[|entries| - 1];
      AllUnknown(tree, entries[..|entries| - 1]) + Unknown(tree, end, |end.cov|)
  }

  /** Where the surface is found in the order; `str.index` finds any part of it. */
  function SurfaceKey(e: Entry): nat {
    match TextSearch.Find(SURF_ORDER, e.surf)
    case Some(n) => n
    case None => |SURF_ORDER|
  }

  predicate IsKnown(e: Entry) {
    TextSearch.Find(SURF_ORDER, e.surf).Some? && e.cat in CAT && e.who in WHO
  }

  function DataOf(e: Entry): DataRow
    requires IsKnown(e)
  {
    DataRow(e.id, [e.surf, e.point, CAT[e.cat], e.steps, e.expected, Coverage(e.cov), WHO[e.who]], e.bug)
  }

  function AllDataOf(entries: seq<Entry>): (data: seq<DataRow>)
    requires forall i :: 0 <= i < |entries| ==> IsKnown(entries[i])
    ensures |data| == |entries|
    ensures forall i :: 0 <= i < |data| ==> data[i] == DataOf(entries[i])
  {
    seq(|entries|, i requires 0 <= i < |entries| => DataOf(entries[i]))
  }

  function EntryIds(entries: seq<Entry>): (ids: seq<string>)
    ensures |ids| == |entries|
    ensures forall i :: 0 <= i < |ids| ==> ids[i] == entries[i].id
  {
    seq(|entries|, i requires 0 <= i < |entries| => entries[i].id)
  }

  function Sorted(entries: seq<Entry>): seq<Entry> {
    SortByKey(entries, SurfaceKey)
  }

  predicate AllKnown(entries: seq<Entry>) {
    forall i :: 0 <= i < |entries| ==> IsKnown(entries[i])
  }

  /** The summary of the script counts a row as uncovered by its printed cell: that is an entry
      without references, or with one that prints the same word. */
  lemma CoverageIsMissingIff(cov: seq<string>)
    ensures Coverage(cov) == NO_COVERAGE <==> cov == [] || cov == ["~" + NO_COVERAGE]
  {
    if |cov| == 1 {
      ReferenceIsTheWordIff(cov[0]);
      assert cov == [cov[0]];
    } else if |cov| > 1 {
      assert ',' in References(cov);
      assert ',' !in NO_COVERAGE;
    }
  }

  lemma ReferenceIsTheWordIff(c: string)
    ensures Reference(c) == NO_COVERAGE <==> c == "~" + NO_COVERAGE
  {
    if Strings.StartsWith(c, "~") {
      assert c == "~" + c[1..];
    } else {
      assert Reference(c)[0] == '`' && NO_COVERAGE[0] == 'Н';
    }
  }

  /** A reference is printed between backticks, or behind a tilde as it stands. */
  lemma ReferenceIs(c: string)
    ensures Reference("~" + c) == c
    ensures !Strings.StartsWith(c, "~") ==> Reference(c) == "`" + c + "`"
  {
    assert ("~" + c)[1..] == c;
  }

  lemma ReferencesOfOneMore(a: seq<string>, c: string)
    requires a != []
    ensures References(a + [c]) == References(a) + (", " + Reference(c))
  {
    Strings.Snoc(a, c);
  }

  /** The coverage cell lists its references one after the other, with a comma and a space between. */
  lemma {:induction false} ReferencesOfConcat(a: seq<string>, b: seq<string>)
    requires a != [] && b != []
    ensures References(a + b) == References(a) + (", " + References(b))
    decreases |b|
  {
    var init, c := b[..|b| - 1], b[|b| - 1];
    Strings.Unsnoc(b);
    if init == [] {
      assert b == [c];
      ReferencesOfOneMore(a, c);
    } else {
      ReferencesOfConcat(a, init);
      ReferencesOfOneMore(init, c);
      Strings.Assoc(a, init, [c]);
      ReferencesOfOneMore(a + init, c);
      Strings.Assoc(References(a), ", " + References(init), ", " + Reference(c));
      Strings.Assoc(", ", References(init), ", " + Reference(c));
    }
  }

  lemma CoverageOfOne(c: string)
    ensures Coverage([c]) == Reference(c) && Coverage([]) == NO_COVERAGE
  {
  }

  /** Which references are reported: a call of the smoke script that is not there, or a function that is
      not; nothing behind a tilde. */
  lemma UnknownIs(tree: Tree, c: string)
    ensures !IsUnknown(tree, "~" + c)
    ensures IsUnknown(tree, "smoke.js:" + c) <==> c !in tree.smokeCalls
    ensures !Strings.StartsWith(c, "~") && !Strings.StartsWith(c, "smoke.js:") ==>
              (IsUnknown(tree, c) <==> c !in tree.functions)
  {
    var smoke := "smoke.js:" + c;
    assert smoke[..9] == "smoke.js:" && smoke[9..] == c && smoke[0] == 's';
    assert ("~" + c)[..1] == "~";
  }

  lemma {:induction false} UnknownOfOneIff(tree: Tree, e: Entry, n: nat, x: (string, string))
    requires n <= |e.cov|
    ensures x in Unknown(tree, e, n) <==> x.0 == e.id && x.1 in e.cov[..n] && IsUnknown(tree, x.1)
  {
    if n > 0 {
      UnknownOfOneIff(tree, e, n - 1, x);
      assert e.cov[..n] == e.cov[..n - 1] + [e.cov[n - 1]];
    }
  }

  /** A reference is reported exactly if some entry has it and the source tree does not. */
  lemma {:induction false} ReportedIff(tree: Tree, entries: seq<Entry>, x: (string, string))
    ensures x in AllUnknown(tree, entries)
       <==> exists e :: e in entries && x.0 == e.id && x.1 in e.cov && IsUnknown(tree, x.1)
  {
    if entries != [] {
      var init, end := entries[..|entries| - 1], entries[|entries| - 1];
      ReportedIff(tree, init, x);
      UnknownOfOneIff(tree, end, |end.cov|, x);
      Strings.Whole(end.cov);
      Strings.Unsnoc(entries);
      assert forall e :: e in entries <==> e in init || e == end;
    }
  }

  lemma HeadingsAre()
    ensures HEADER[0] == "ID" && HEADER[1] == "Поверхня" && HEADER[2] == "Точка" && HEADER[3] == "Категорія"
    ensures HEADER[4] == "Кроки" && HEADER[5] == "Очікувано" && HEADER[6] == "Наявне автопокриття"
    ensures HEADER[7] == "Виконавець"
    ensures HEADER[VERDICT] == "Вердикт" && HEADER[EVIDENCE] == "Доказ" && HEADER[BUG] == "Баг/задача"
  {
  }

  lemma FactStandsBehindTheId(d: DataRow, kept: Kept, c: nat)
    requires 1 <= c <= 7
    ensures DataLine(d, kept)[0] == d.id && DataLine(d, kept)[c] == d.facts[c - 1]
  {
  }

  /** Each column of an entry's row; the headings are those of `HeadingsAre`. */
  lemma EntryIsPrintedUnderItsHeadings(e: Entry, kept: Kept)
    requires IsKnown(e)
    ensures var row := DataLine(DataOf(e), kept);
            && row[0] == e.id && row[1] == e.surf && row[2] == e.point && row[3] == CAT[e.cat] && row[4] == e.steps
            && row[5] == e.expected && row[6] == Coverage(e.cov) && row[7] == WHO[e.who]
    ensures DataOf(e).id == e.id && DataOf(e).bug == e.bug
  {
    forall c | 1 <= c <= 7 ensures DataLine(DataOf(e), kept)[c] == DataOf(e).facts[c - 1] {
      FactStandsBehindTheId(DataOf(e), kept, c);
    }
    FactStandsBehindTheId(DataOf(e), kept, 1);
  }

  /** Which codes an entry may use: any part of the surfaces' order, and the categories and executors that
      have a name. */
  lemma KnownIff(e: Entry)
    ensures IsKnown(e)
       <==> && TextSearch.Contains(SURF_ORDER, e.surf)
            && e.cat in {"HP", "SB", "MF", "EP", "CR"} && e.who in {"AUTO", "PART", "USER", "CODE"}
  {
  }

  lemma SurfacesAreDistinct()
    ensures |SURF_ORDER| == 9 && forall i, j :: 0 <= i < j < |SURF_ORDER| ==> SURF_ORDER[i] != SURF_ORDER[j]
  {
  }

  /** The key of a surface is its place among A, E, B, C, D, F, H, I and G. */
  lemma SurfaceKeyIsItsPlace(e: Entry, n: nat)
    requires n < |SURF_ORDER| && e.surf == [SURF_ORDER[n]]
    ensures SurfaceKey(e) == n && SURF_ORDER == ['A', 'E', 'B', 'C', 'D', 'F', 'H', 'I', 'G']
  {
    SurfacesAreDistinct();
    assert SURF_ORDER[n..n + 1] == e.surf;
    forall i: nat | i < n ensures !TextSearch.OccursAt(SURF_ORDER, e.surf, i) {
      assert SURF_ORDER[i..i + 1][0] == SURF_ORDER[i];
    }
    TextSearch.FindIs(SURF_ORDER, e.surf, n);
  }

  /** In the table an entry of an earlier surface stands above one of a later one. */
  lemma EarlierSurfaceStandsAbove(entries: seq<Entry>, i: nat, j: nat, m: nat, n: nat)
    requires i < |Sorted(entries)| && j < |Sorted(entries)| && m < n < |SURF_ORDER|
    requires Sorted(entries)[i].surf == [SURF_ORDER[m]] && Sorted(entries)[j].surf == [SURF_ORDER[n]]
    ensures i < j
  {
    SortIsStable(entries, SurfaceKey, 0);
    SurfaceKeyIsItsPlace(Sorted(entries)[i], m);
    SurfaceKeyIsItsPlace(Sorted(entries)[j], n);
    LowerKeyStandsAbove(Sorted(entries), SurfaceKey, i, j);
  }

  lemma LowerKeyStandsAbove<T>(s: seq<T>, key: T -> nat, i: nat, j: nat)
    requires AscendingByKey(s, key) && i < |s| && j < |s| && key(s[i]) < key(s[j])
    ensures i < j
  {
  }

  // ---------- the merge ----------

  lemma {:induction false} InsertKeepsIds(t: seq<Entry>, x: Entry, key: Entry -> nat)
    ensures multiset(EntryIds(InsertByKey(t, x, key))) == multiset(EntryIds(t)) + multiset{x.id}
  {
    if t == [] || key(t[|t| - 1]) <= key(x) {
      IdsSnoc(t, x);
    } else {
      InsertKeepsIds(t[..|t| - 1], x, key);
      IdsSnoc(InsertByKey(t[..|t| - 1], x, key), t[|t| - 1]);
      IdsSnoc(t[..|t| - 1], t[|t| - 1]);
      Strings.Unsnoc(t);
    }
  }

  lemma IdsSnoc(s: seq<Entry>, x: Entry)
    ensures EntryIds(s + [x]) == EntryIds(s) + [x.id]
    ensures multiset(EntryIds(s + [x])) == multiset(EntryIds(s)) + multiset{x.id}
  {
    assert EntryIds(s + [x]) == EntryIds(s) + [x.id];
  }

  lemma {:induction false} SortKeepsIds(s: seq<Entry>, key: Entry -> nat)
    ensures multiset(EntryIds(SortByKey(s, key))) == multiset(EntryIds(s))
  {
    if s != [] {
      SortKeepsIds(s[..|s| - 1], key);
      InsertKeepsIds(SortByKey(s[..|s| - 1], key), s[|s| - 1], key);
      IdsSnoc(s[..|s| - 1], s[|s| - 1]);
      Strings.Unsnoc(s);
    }
  }

  ghost predicate NoneTwice(m: multiset<string>) {
    forall k :: m[k] <= 1
  }

  lemma NoneTwiceOneMore(m: multiset<string>, k: string)
    ensures NoneTwice(m + multiset{k}) <==> NoneTwice(m) && k !in m
  {
    if NoneTwice(m + multiset{k}) {
      assert (m + multiset{k})[k] == m[k] + 1;
      forall j ensures m[j] <= 1 {
        assert m[j] <= (m + multiset{k})[j];
      }
    }
  }

  lemma {:induction false} DistinctIffNoneTwice(keys: seq<string>)
    ensures Distinct(keys) <==> NoneTwice(multiset(keys))
  {
    if keys != [] {
      var init, end := keys[..|keys| - 1], keys[|keys| - 1];
      DistinctIffNoneTwice(init);
      Strings.Unsnoc(keys);
      DistinctSnoc(init, end);
      assert multiset(keys) == multiset(init) + multiset{end};
      NoneTwiceOneMore(multiset(init), end);
    }
  }

  lemma DistinctSnoc(keys: seq<string>, k: string)
    ensures Distinct(keys + [k]) <==> Distinct(keys) && k !in keys
  {
    if Distinct(keys + [k]) {
      forall i, j | 0 <= i < j < |keys| ensures keys[i] != keys[j] {
        assert (keys + [k])[i] != (keys + [k])[j];
      }
      forall i | 0 <= i < |keys| ensures keys[i] != k {
        assert (keys + [k])[i] != (keys + [k])[|keys|];
      }
    }
  }

  lemma {:induction false} SortKeepsMembers(s: seq<Entry>, key: Entry -> nat)
    ensures forall e :: e in SortByKey(s, key) ==> e in s
  {
    if s != [] {
      SortKeepsMembers(s[..|s| - 1], key);
      InsertKeepsMembers(SortByKey(s[..|s| - 1], key), s[|s| - 1], key);
    }
  }

  /** Whether IDs repeat does not depend on the order, so the rows are refused exactly when the
      entries are. */
  lemma SortedKeepsDistinct(entries: seq<Entry>)
    ensures Distinct(EntryIds(Sorted(entries))) <==> Distinct(EntryIds(entries))
    ensures AllKnown(entries) ==> AllKnown(Sorted(entries))
  {
    SortKeepsIds(entries, SurfaceKey);
    DistinctIffNoneTwice(EntryIds(Sorted(entries)));
    DistinctIffNoneTwice(EntryIds(entries));
    SortKeepsMembers(entries, SurfaceKey);
    if AllKnown(entries) {
      forall i | 0 <= i < |Sorted(entries)| ensures IsKnown(Sorted(entries)[i]) {
        assert Sorted(entries)[i] in entries;
      }
    }
  }

  /** The data rows of an accepted data file. */
  function Rows(entries: seq<Entry>): (data: seq<DataRow>)
    requires AllKnown(entries)
    ensures Ids(data) == EntryIds(Sorted(entries))
    ensures Distinct(Ids(data)) <==> Distinct(EntryIds(entries))
  {
    SortedKeepsDistinct(entries);
    AllDataOf(Sorted(entries))
  }

  method ReadReferences(tree: Tree, e: Entry) returns (missing: seq<(string, string)>)
    ensures missing == Unknown(tree, e, |e.cov|)
  {
    missing := [];
    for n := 0 to |e.cov|
      invariant missing == Unknown(tree, e, n)
    {
      if IsUnknown(tree, e.cov[n]) {
        missing := missing + [(e.id, e.cov[n])];
      }
    }
  }

  method DataRows(tree: Tree, sorted: seq<Entry>, kept: Kept)
      returns (out: seq<Row>, missing: seq<(string, string)>)
    requires AllKnown(sorted)
    ensures out == DataLines(AllDataOf(sorted), kept)
    ensures missing == AllUnknown(tree, sorted)
  {
    out, missing := [], [];
    for n := 0 to |sorted|
      invariant out == DataLines(AllDataOf(sorted[..n]), kept)
      invariant missing == AllUnknown(tree, sorted[..n])
    {
      var unknown := ReadReferences(tree, sorted[n]);
      RowsOneMore(tree, sorted, n, kept);
      out := out + [DataLine(DataOf(sorted[n]), kept)];
      missing := missing + unknown;
    }
    assert sorted[..|sorted|] == sorted;
  }

  lemma GoneKeysOfSorted(entries: seq<Entry>, order: seq<string>)
    ensures GoneKeys(order, EntryIds(Sorted(entries))) == GoneKeys(order, EntryIds(entries))
  {
    SortKeepsIds(entries, SurfaceKey);
    GoneKeysOfSame(order, EntryIds(Sorted(entries)), EntryIds(entries));
  }

  /** The merge in `main`: a data file that names an ID twice or uses an unknown code is refused before
      anything is written; otherwise the rows of the data file come first, in the order of their
      surfaces, then those it no longer has. References the source tree does not know are reported,
      and the table is written all the same. */
  method Merge(tree: Tree, entries: seq<Entry>, kept: Kept)
      returns (r: Result<seq<Row>, MergeError>, missing: seq<(string, string)>)
    requires kept.Valid()
    ensures r.Success? <==> Distinct(EntryIds(entries)) && AllKnown(entries)
    ensures r.Success? ==> AllKnown(entries) && r.value == NewRows(Rows(entries), kept)
    ensures r.Success? ==> missing == AllUnknown(tree, Sorted(entries))
    ensures r.Failure? ==> (r.error.DuplicateIds? <==> !Distinct(EntryIds(entries)))
  {
    missing := [];
    if !Distinct(EntryIds(entries)) {
      return Failure(DuplicateIds), missing;
    }
    if !AllKnown(entries) {
      return Failure(UnknownCode), missing;
    }
    SortedKeepsDistinct(entries);
    var out;
    out, missing := DataRows(tree, Sorted(entries), kept);
    var gone := GoneRows(kept, EntryIds(entries));
    GoneKeysOfSorted(entries, kept.order);
    r := Success(out + gone);
  }

  lemma RowsOneMore(tree: Tree, sorted: seq<Entry>, n: nat, kept: Kept)
    requires AllKnown(sorted) && n < |sorted|
    ensures DataLines(AllDataOf(sorted[..n + 1]), kept)
         == DataLines(AllDataOf(sorted[..n]), kept) + [DataLine(DataOf(sorted[n]), kept)]
    ensures AllUnknown(tree, sorted[..n + 1])
         == AllUnknown(tree, sorted[..n]) + Unknown(tree, sorted[n], |sorted[n].cov|)
  {
    assert sorted[..n + 1] == sorted[..n] + [sorted[n]];
    Strings.Snoc(sorted[..n], sorted[n]);
    assert AllDataOf(sorted[..n + 1]) == AllDataOf(sorted[..n]) + [DataOf(sorted[n])];
    DataLinesAppend(AllDataOf(sorted[..n]), DataOf(sorted[n]), kept);
  }

  lemma {:induction false} GoneKeysOfSame(order: seq<string>, a: seq<string>, b: seq<string>)
    requires multiset(a) == multiset(b)
    ensures GoneKeys(order, a) == GoneKeys(order, b)
  {
    if order != [] {
      var end := order[|order| - 1];
      GoneKeysOfSame(order[..|order| - 1], a, b);
      assert end in a <==> end in multiset(a);
      assert end in b <==> end in multiset(b);
    }
  }
}

/**
 * The statistics `analyze_code_changes` gathers over a merge request's
 * changed files: one entry per file, a histogram of file types, and running
 * totals of '+' and '-' characters in the diff texts. The counts are of
 * characters anywhere in a diff, not of added or removed lines.
 */
module ChangeStats {
  import opened Text
  import opened GitLabPR

  /** One element of the report's `files` list. */
  datatype FileEntry = FileEntry(path: string, fileType: string, additions: nat, deletions: nat)

  /** The report returned by `analyze_code_changes`. */
  datatype Analysis = Analysis(
    totalFilesChanged: nat,
    fileTypes: map<string, nat>,
    totalAdditions: nat,
    totalDeletions: nat,
    files: seq<FileEntry>)

  const Unknown := "unknown"

  /**
   * `file_path.split('.')[-1] if '.' in file_path else 'unknown'`: the text
   * after the last '.', or "unknown" for a path without one.
   */
  function FileType(path: string): (t: string)
    ensures '.' !in path ==> t == Unknown
    ensures '.' in path ==> '.' !in t && |t| < |path| && path[|path| - |t| - 1..] == ['.'] + t
  {
    if '.' in path then
      LastPiece(path, '.');
      Split(path, '.')[CountChar(path, '.')]
    else
      Unknown
  }

  /** The entry appended for one change (pr_analyzer.py:135-140). */
  function EntryOf(c: Change): (e: FileEntry)
    ensures e.path == c.newPath && e.fileType == FileType(c.newPath)
    ensures e.additions == multiset(c.diff)['+'] && e.deletions == multiset(c.diff)['-']
  {
    FileEntry(c.newPath, FileType(c.newPath), CountChar(c.diff, '+'), CountChar(c.diff, '-'))
  }

  /** The file type of every change, in order. */
  function Types(changes: seq<Change>): seq<string>
  {
    seq(|changes|, i requires 0 <= i < |changes| => FileType(changes[i].newPath))
  }

  /** The entry of every change, in order. */
  function Entries(changes: seq<Change>): seq<FileEntry>
  {
    seq(|changes|, i requires 0 <= i < |changes| => EntryOf(changes[i]))
  }

  /** The diff texts of all changes, one after the other. */
  function AllDiffs(changes: seq<Change>): string
  {
    if changes == [] then "" else AllDiffs(changes[..|changes| - 1]) + changes[|changes| - 1].diff
  }

  /** `h[k] = h.get(k, 0) + 1`. */
  function Insert(h: map<string, nat>, k: string): (r: map<string, nat>)
    ensures r.Keys == h.Keys + {k}
    ensures r[k] == (if k in h then h[k] else 0) + 1
    ensures forall j :: j in h && j != k ==> r[j] == h[j]
  {
    h[k := (if k in h then h[k] else 0) + 1]
  }

  /** The histogram built by inserting every key of `ks` from left to right. */
  function Histogram(ks: seq<string>): map<string, nat>
  {
    if ks == [] then map[] else Insert(Histogram(ks[..|ks| - 1]), ks[|ks| - 1])
  }

  /**
   * What `analyze_code_changes` reports for a list of changes: their number,
   * the histogram of their types, the '+' and '-' characters over all their
   * diff texts, and one entry per change.
   */
  function AnalysisOf(changes: seq<Change>): Analysis
  {
    Analysis(|changes|, Histogram(Types(changes)),
             CountChar(AllDiffs(changes), '+'), CountChar(AllDiffs(changes), '-'),
             Entries(changes))
  }

  /** The report of a merge request without changes: all zeros, no types, no files. */
  const EmptyAnalysis := Analysis(0, map[], 0, 0, [])

  lemma PrefixStep(changes: seq<Change>, i: nat)
    requires i < |changes|
    ensures Types(changes[..i + 1]) == Types(changes[..i]) + [FileType(changes[i].newPath)]
    ensures Entries(changes[..i + 1]) == Entries(changes[..i]) + [EntryOf(changes[i])]
    ensures AllDiffs(changes[..i + 1]) == AllDiffs(changes[..i]) + changes[i].diff
  {
    assert changes[..i + 1][..i] == changes[..i];
  }

  /** What one more change adds to each part of the report of a prefix. */
  lemma AnalysisStep(changes: seq<Change>, i: nat)
    requires i < |changes|
    ensures var t := FileType(changes[i].newPath);
      Histogram(Types(changes[..i + 1])) == Insert(Histogram(Types(changes[..i])), t)
    ensures CountChar(AllDiffs(changes[..i + 1]), '+') == CountChar(AllDiffs(changes[..i]), '+') + CountChar(changes[i].diff, '+')
    ensures CountChar(AllDiffs(changes[..i + 1]), '-') == CountChar(AllDiffs(changes[..i]), '-') + CountChar(changes[i].diff, '-')
    ensures Entries(changes[..i + 1]) == Entries(changes[..i]) + [EntryOf(changes[i])]
  {
    PrefixStep(changes, i);
    var ts := Types(changes[..i + 1]);
    assert ts[..|ts| - 1] == Types(changes[..i]);
    CountCharConcat(AllDiffs(changes[..i]), changes[i].diff, '+');
    CountCharConcat(AllDiffs(changes[..i]), changes[i].diff, '-');
  }

  /** The aggregation loop of `analyze_code_changes` (pr_analyzer.py:119-143). */
  method Analyze(changes: seq<Change>) returns (a: Analysis)
    ensures a == AnalysisOf(changes)
  {
    var fileTypes: map<string, nat> := map[];
    var additions: nat, deletions: nat := 0, 0;
    var files: seq<FileEntry> := [];
    var i := 0;
    while i < |changes|
      invariant 0 <= i <= |changes|
      invariant fileTypes == Histogram(Types(changes[..i]))
      invariant additions == CountChar(AllDiffs(changes[..i]), '+')
      invariant deletions == CountChar(AllDiffs(changes[..i]), '-')
      invariant files == Entries(changes[..i])
    {
      var change := changes[i];
      var filePath := change.newPath;
      var fileType := FileType(filePath);
      fileTypes := Insert(fileTypes, fileType);
      additions := additions + CountChar(change.diff, '+');
      deletions := deletions + CountChar(change.diff, '-');
      files := files + [FileEntry(filePath, fileType, CountChar(change.diff, '+'), CountChar(change.diff, '-'))];
      AnalysisStep(changes, i);
      i := i + 1;
    }
    assert changes[..|changes|] == changes;
    a := Analysis(|changes|, fileTypes, additions, deletions, files);
  }

  /** One entry per change, in order, each with the change's path, its type and its counts. */
  lemma AnalysisFiles(changes: seq<Change>)
    ensures var a := AnalysisOf(changes);
      && a.totalFilesChanged == |a.files| == |changes|
      && forall i :: 0 <= i < |changes| ==>
        && a.files[i].path == changes[i].newPath
        && a.files[i].fileType == FileType(changes[i].newPath)
        && a.files[i].additions == multiset(changes[i].diff)['+']
        && a.files[i].deletions == multiset(changes[i].diff)['-']
  {
  }

  function SumAdditions(files: seq<FileEntry>): nat
  {
    if files == [] then 0 else SumAdditions(files[..|files| - 1]) + files[|files| - 1].additions
  }

  function SumDeletions(files: seq<FileEntry>): nat
  {
    if files == [] then 0 else SumDeletions(files[..|files| - 1]) + files[|files| - 1].deletions
  }

  /** The running totals equal the sums of the per-file counts. */
  lemma {:induction false} AnalysisTotals(changes: seq<Change>)
    ensures AnalysisOf(changes).totalAdditions == SumAdditions(AnalysisOf(changes).files)
    ensures AnalysisOf(changes).totalDeletions == SumDeletions(AnalysisOf(changes).files)
  {
    if changes != [] {
      var n := |changes| - 1;
      AnalysisTotals(changes[..n]);
      PrefixStep(changes, n);
      assert changes[..n + 1] == changes;
      var files := Entries(changes);
      assert files[..n] == Entries(changes[..n]);
      CountCharConcat(AllDiffs(changes[..n]), changes[n].diff, '+');
      CountCharConcat(AllDiffs(changes[..n]), changes[n].diff, '-');
    }
  }

  /** Sum of the values of a map. */
  ghost function MapSum(m: map<string, nat>): nat
    decreases |m|
  {
    if m == map[] then 0
    else
      var k :| k in m;
      assert |m - {k}| < |m| by { assert (m - {k}).Keys == m.Keys - {k}; }
      m[k] + MapSum(m - {k})
  }

  lemma {:induction false} MapSumRemove(m: map<string, nat>, k: string)
    requires k in m
    ensures MapSum(m) == m[k] + MapSum(m - {k})
    decreases |m|
  {
    var j :| j in m && MapSum(m) == m[j] + MapSum(m - {j});
    if j != k {
      assert (m - {j}).Keys == m.Keys - {j};
      assert (m - {k}).Keys == m.Keys - {k};
      MapSumRemove(m - {j}, k);
      MapSumRemove(m - {k}, j);
      assert m - {j} - {k} == m - {k} - {j};
    }
  }

  /** Each insertion adds exactly one to the sum of the histogram's values. */
  lemma MapSumInsert(h: map<string, nat>, k: string)
    ensures MapSum(Insert(h, k)) == MapSum(h) + 1
  {
    var h' := Insert(h, k);
    MapSumRemove(h', k);
    if k in h {
      MapSumRemove(h, k);
      assert h' - {k} == h - {k};
    } else {
      assert h' - {k} == h;
    }
  }

  /** The histogram has a key exactly for each value in `ks`, mapped to its number of occurrences. */
  lemma {:induction false} HistogramCounts(ks: seq<string>)
    ensures forall k :: k in Histogram(ks) <==> k in ks
    ensures forall k :: k in Histogram(ks) ==> Histogram(ks)[k] == multiset(ks)[k]
  {
    if ks != [] {
      var init := ks[..|ks| - 1];
      HistogramCounts(init);
      assert ks == init + [ks[|ks| - 1]];
      assert multiset(ks) == multiset(init) + multiset{ks[|ks| - 1]};
    }
  }

  /** The values of the histogram add up to the number of keys inserted. */
  lemma {:induction false} HistogramTotal(ks: seq<string>)
    ensures MapSum(Histogram(ks)) == |ks|
  {
    if ks != [] {
      HistogramTotal(ks[..|ks| - 1]);
      MapSumInsert(Histogram(ks[..|ks| - 1]), ks[|ks| - 1]);
    }
  }

  /**
   * The histogram in the report: its values add up to the number of changed
   * files, and each type maps to the number of changes classified to it.
   */
  lemma AnalysisFileTypes(changes: seq<Change>)
    ensures var a := AnalysisOf(changes);
      && MapSum(a.fileTypes) == a.totalFilesChanged
      && (forall t :: t in a.fileTypes <==> t in Types(changes))
      && (forall t :: t in a.fileTypes ==> a.fileTypes[t] == multiset(Types(changes))[t])
  {
    HistogramTotal(Types(changes));
    HistogramCounts(Types(changes));
  }

  /** A merge request with no changes gets the all-zero report. */
  lemma NoChangesNoStatistics()
    ensures AnalysisOf([]) == EmptyAnalysis
  {
  }

  /** The type is the text after the last dot, whatever it contains besides dots (a '/' included). */
  lemma {:induction false} FileTypeOfSuffix(stem: string, ext: string)
    requires '.' !in ext
    ensures FileType(stem + "." + ext) == ext
  {
    var path := stem + "." + ext;
    assert path[|stem|] == '.';
    assert path[|path| - |ext| - 1..] == ['.'] + ext;
    SuffixAfterLastUnique(path, '.', FileType(path), ext);
  }

  /** "unknown" is not reserved for paths without a dot: "notes.unknown" has that type too. */
  lemma FileTypeUnknownSuffix(stem: string)
    ensures FileType(stem + "." + Unknown) == Unknown
  {
    FileTypeOfSuffix(stem, Unknown);
  }

  /** The report of a single change: one file of its type, and the counts of its own diff. */
  lemma SingleChange(c: Change)
    ensures AnalysisOf([c]) == Analysis(1, map[FileType(c.newPath) := 1],
      CountChar(c.diff, '+'), CountChar(c.diff, '-'), [EntryOf(c)])
  {
    assert [c][..0] == [];
    assert AllDiffs([c]) == c.diff;
    assert Entries([c]) == [EntryOf(c)];
    assert Types([c]) == [FileType(c.newPath)];
    assert Types([c])[..0] == [];
    assert Histogram(Types([c])) == Insert(map[], FileType(c.newPath));
  }

  /** A diff of two added lines and one removed line, none of whose texts holds '+' or '-', counts 2 and 1. */
  lemma MarkedDiffCounts(a: string, b: string, r: string)
    requires '+' !in a && '+' !in b && '+' !in r
    requires '-' !in a && '-' !in b && '-' !in r
    ensures CountChar("+" + a + "+" + b + "-" + r, '+') == 2
    ensures CountChar("+" + a + "+" + b + "-" + r, '-') == 1
  {
    assert multiset("+" + a + "+" + b + "-" + r)
        == multiset{'+'} + multiset(a) + multiset{'+'} + multiset(b) + multiset{'-'} + multiset(r);
  }

  /** The counts are of characters: two '+' and one '-' in "+line1\n+line2\n-oldline\n". */
  lemma DiffCountsExample()
    ensures CountChar("+line1\n+line2\n-oldline\n", '+') == 2
    ensures CountChar("+line1\n+line2\n-oldline\n", '-') == 1
  {
    var l1, l2, l3 := "line1\n", "line2\n", "oldline\n";
    assert "+" + l1 + "+" + l2 + "-" + l3 == "+line1\n+line2\n-oldline\n";
    MarkedDiffCounts(l1, l2, l3);
  }

  /**
   * One change to a file `stem.ext` whose diff adds two lines and removes one:
   * one file of type `ext`, two additions, one deletion (for instance
   * "src/app.py" with "+line1\n+line2\n-oldline\n").
   */
  lemma SingleFileScenario(stem: string, ext: string, l1: string, l2: string, l3: string)
    requires '.' !in ext
    requires '+' !in l1 && '+' !in l2 && '+' !in l3
    requires '-' !in l1 && '-' !in l2 && '-' !in l3
    ensures var path := stem + "." + ext;
      AnalysisOf([Change(path, "+" + l1 + "+" + l2 + "-" + l3)])
        == Analysis(1, map[ext := 1], 2, 1, [FileEntry(path, ext, 2, 1)])
  {
    var path := stem + "." + ext;
    FileTypeOfSuffix(stem, ext);
    MarkedDiffCounts(l1, l2, l3);
    SingleChange(Change(path, "+" + l1 + "+" + l2 + "-" + l3));
  }
}

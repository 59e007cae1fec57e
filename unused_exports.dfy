/** The unused-export report (find-unused-exports.js): the analyser's listing of
    unused exports per file is reduced to a report in which Next.js page files do
    not count their framework entry points, and the exit code says whether anything
    is left to report. The analyser itself is not modelled; its output is the input. */
module UnusedExports {
  import opened Common
  import opened Text

  datatype Location = Location(line: int, character: int)

  /** One unused export as the analyser reports it. */
  datatype ExportInfo = ExportInfo(exportName: string, location: Option<Location>)

  /** The analyser's result: file names (the object's keys, in key order) with their unused exports. */
  type Listing = seq<(string, seq<ExportInfo>)>

  datatype ReportEntry = ReportEntry(fileName: string, unusedExports: seq<ExportInfo>)

  const NEXT_PAGES: seq<string> := ["src/pages/"]

  const IGNORE_EXPORTS_IN_NEXT_PAGES: seq<string> := ["getStaticProps", "getServerSideProps", "default"]

  /** `isSomeStringFromListIncludedInString`: some string of the list occurs in `s`;
      never for an empty list. */
  function IsSomeStringFromListIncludedInString(listWithStrings: seq<string>, s: string): (r: bool)
    ensures r <==> exists i :: 0 <= i < |listWithStrings| && Includes(s, listWithStrings[i])
    ensures listWithStrings == [] ==> !r
    decreases |listWithStrings|
  {
    if listWithStrings == [] then false
    else
      var rest := IsSomeStringFromListIncludedInString(listWithStrings[1..], s);
      assert forall i :: 1 <= i < |listWithStrings| ==> listWithStrings[i] == listWithStrings[1..][i - 1];
      Includes(s, listWithStrings[0]) || rest
  }

  /** A file counts as a Next.js page when its name contains "src/pages/". */
  predicate IsNextJsPage(fileName: string) {
    IsSomeStringFromListIncludedInString(NEXT_PAGES, fileName)
  }

  /** A page's unused exports without its framework entry points, in order. */
  function PageExports(exports: seq<ExportInfo>): (r: seq<ExportInfo>)
    ensures IsSubsequence(r, exports)
    ensures forall i :: 0 <= i < |r| ==> r[i].exportName !in IGNORE_EXPORTS_IN_NEXT_PAGES
    ensures forall i :: 0 <= i < |exports| && exports[i].exportName !in IGNORE_EXPORTS_IN_NEXT_PAGES ==> exports[i] in r
  {
    Filter((e: ExportInfo) => e.exportName !in IGNORE_EXPORTS_IN_NEXT_PAGES, exports)
  }

  /** What one file adds to the report (the body of the `reduce` callback): a page
      file with nothing left adds nothing, a page file adds its remaining exports,
      any other file adds its exports as given. */
  function EntryFor(fileName: string, exports: seq<ExportInfo>): (r: seq<ReportEntry>)
    ensures |r| <= 1
    ensures r == [] <==> IsNextJsPage(fileName) && PageExports(exports) == []
    ensures forall j :: 0 <= j < |r| ==> r[j].fileName == fileName && IsSubsequence(r[j].unusedExports, exports)
  {
    if IsNextJsPage(fileName) then
      var filteredExports := PageExports(exports);
      if |filteredExports| > 0 then [ReportEntry(fileName, filteredExports)] else []
    else
      SubsequenceReflexive(exports);
      [ReportEntry(fileName, exports)]
  }

  /** The file names of a listing, in order. */
  function FileNames(listing: Listing): (r: seq<string>)
    ensures |r| == |listing|
    ensures forall k :: 0 <= k < |listing| ==> r[k] == listing[k].0
  {
    seq(|listing|, k requires 0 <= k < |listing| => listing[k].0)
  }

  /** The file names of a report, in order. */
  function EntryNames(report: seq<ReportEntry>): (r: seq<string>)
    ensures |r| == |report|
    ensures forall j :: 0 <= j < |report| ==> r[j] == report[j].fileName
  {
    seq(|report|, j requires 0 <= j < |report| => report[j].fileName)
  }

  /** Lines 25-54, the `reduce` over the listing: at most one entry per file, and
      entries keep the order of the files. */
  function Report(listing: Listing): (r: seq<ReportEntry>)
    ensures |r| <= |listing|
    ensures IsSubsequence(EntryNames(r), FileNames(listing))
    decreases |listing|
  {
    if listing == [] then []
    else
      var prev := listing[..|listing| - 1];
      var acc := Report(prev);
      var (fileName, exports) := listing[|listing| - 1];
      var entry := EntryFor(fileName, exports);
      assert forall k :: 0 <= k < |prev| ==> prev[k] == listing[k];
      assert FileNames(listing) == FileNames(prev) + [fileName];
      if entry == [] then
        SubsequenceSnoc(EntryNames(acc), FileNames(prev), fileName);
        acc
      else
        assert EntryNames(acc + entry) == EntryNames(acc) + [fileName];
        SubsequenceSnoc(EntryNames(acc), FileNames(prev), fileName);
        acc + entry
  }

  /** Appending a file appends what that file adds. */
  lemma ReportSnoc(listing: Listing, file: (string, seq<ExportInfo>))
    ensures Report(listing + [file]) == Report(listing) + EntryFor(file.0, file.1)
  {
    assert (listing + [file])[..|listing|] == listing;
  }

  /** The report of a concatenation is the concatenation of the reports: each file is
      judged on its own. */
  lemma {:induction false} ReportConcat(a: Listing, b: Listing)
    ensures Report(a + b) == Report(a) + Report(b)
    decreases |b|
  {
    if b == [] {
      assert a + b == a;
    } else {
      var init, last := b[..|b| - 1], b[|b| - 1];
      var added := EntryFor(last.0, last.1);
      assert b == init + [last];
      assert a + b == (a + init) + [last];
      calc {
        Report(a + b);
        Report((a + init) + [last]);
        { ReportSnoc(a + init, last); }
        Report(a + init) + added;
        { ReportConcat(a, init); }
        (Report(a) + Report(init)) + added;
        Report(a) + (Report(init) + added);
        { ReportSnoc(init, last); }
        Report(a) + Report(b);
      }
    }
  }

  /** Every report entry comes from one input file and carries a subsequence of that
      file's exports. */
  lemma {:induction false} ReportEntriesComeFromFiles(listing: Listing)
    ensures forall j :: 0 <= j < |Report(listing)| ==>
              exists k :: 0 <= k < |listing| && listing[k].0 == Report(listing)[j].fileName
                                             && IsSubsequence(Report(listing)[j].unusedExports, listing[k].1)
    decreases |listing|
  {
    if listing != [] {
      var prev := listing[..|listing| - 1];
      var last := listing[|listing| - 1];
      ReportEntriesComeFromFiles(prev);
      var acc: seq<ReportEntry> := Report(prev);
      var entry: seq<ReportEntry> := EntryFor(last.0, last.1);
      var all: seq<ReportEntry> := acc + entry;
      assert Report(listing) == all;
      forall j | 0 <= j < |all|
        ensures exists k :: 0 <= k < |listing| && listing[k].0 == all[j].fileName
                                               && IsSubsequence(all[j].unusedExports, listing[k].1)
      {
        if j < |acc| {
          var k :| 0 <= k < |prev| && prev[k].0 == acc[j].fileName && IsSubsequence(acc[j].unusedExports, prev[k].1);
          assert listing[k] == prev[k];
          assert all[j] == acc[j];
          assert listing[k].0 == all[j].fileName && IsSubsequence(all[j].unusedExports, listing[k].1);
        } else {
          var k := |listing| - 1;
          assert all[j] == entry[j - |acc|];
          assert listing[k] == last;
          assert listing[k].0 == all[j].fileName && IsSubsequence(all[j].unusedExports, listing[k].1);
        }
      }
      assert forall j :: 0 <= j < |Report(listing)| ==>
              exists k :: 0 <= k < |listing| && listing[k].0 == Report(listing)[j].fileName
                                             && IsSubsequence(Report(listing)[j].unusedExports, listing[k].1);
    } else {
      assert Report(listing) == [];
    }
  }

  /** Splitting the listing around one file: the report is the report before it, then
      what that file adds, then the report after it. */
  lemma ReportAround(before: Listing, file: (string, seq<ExportInfo>), after: Listing)
    ensures Report(before + [file] + after) == Report(before) + EntryFor(file.0, file.1) + Report(after)
  {
    calc {
      Report(before + [file] + after);
      { ReportConcat(before + [file], after); }
      Report(before + [file]) + Report(after);
      { ReportSnoc(before, file); }
      Report(before) + EntryFor(file.0, file.1) + Report(after);
    }
  }

  /** File names are unique, as the keys of an object are. */
  predicate DistinctFileNames(listing: Listing) {
    forall k, l :: 0 <= k < l < |listing| ==> listing[k].0 != listing[l].0
  }

  /** A listing without `name` gives a report without `name`. */
  lemma ReportOmitsUnlistedName(listing: Listing, name: string)
    requires forall m :: 0 <= m < |listing| ==> listing[m].0 != name
    ensures forall j :: 0 <= j < |Report(listing)| ==> Report(listing)[j].fileName != name
  {
    ReportEntriesComeFromFiles(listing);
  }

  /** The files before and after position `k`. */
  lemma SplitAt(listing: Listing, k: nat) returns (before: Listing, after: Listing)
    requires k < |listing|
    ensures listing == before + [listing[k]] + after
    ensures before == listing[..k] && after == listing[k + 1..]
  {
    before, after := listing[..k], listing[k + 1..];
    assert listing == before + [listing[k]] + after;
  }

  /** An element placed between two sequences is a member of the result. */
  lemma InMiddle(xs: seq<ReportEntry>, x: ReportEntry, ys: seq<ReportEntry>)
    ensures x in xs + [x] + ys
  {
    assert (xs + [x] + ys)[|xs|] == x;
  }

  /** A page file whose only unused exports are framework entry points does not appear. */
  lemma PageFileWithNothingLeftIsOmitted(listing: Listing, k: nat)
    requires DistinctFileNames(listing) && k < |listing|
    requires IsNextJsPage(listing[k].0) && PageExports(listing[k].1) == []
    ensures forall j :: 0 <= j < |Report(listing)| ==> Report(listing)[j].fileName != listing[k].0
  {
    var before, after := SplitAt(listing, k);
    assert forall m :: 0 <= m < |before| ==> before[m] == listing[m];
    assert forall m :: 0 <= m < |after| ==> after[m] == listing[k + 1 + m];
    OmittedBetween(before, listing[k], after);
  }

  /** A file that adds nothing, with its name nowhere else in the listing, has no entry. */
  lemma OmittedBetween(before: Listing, file: (string, seq<ExportInfo>), after: Listing)
    requires EntryFor(file.0, file.1) == []
    requires forall m :: 0 <= m < |before| ==> before[m].0 != file.0
    requires forall m :: 0 <= m < |after| ==> after[m].0 != file.0
    ensures forall j :: 0 <= j < |Report(before + [file] + after)| ==> Report(before + [file] + after)[j].fileName != file.0
  {
    ReportAround(before, file, after);
    ReportOmitsUnlistedName(before, file.0);
    ReportOmitsUnlistedName(after, file.0);
  }

  /** A page file that keeps some unused export appears with exactly the exports that
      are not framework entry points. */
  lemma PageFileReportsRemainingExports(listing: Listing, k: nat)
    requires k < |listing|
    requires IsNextJsPage(listing[k].0) && PageExports(listing[k].1) != []
    ensures ReportEntry(listing[k].0, PageExports(listing[k].1)) in Report(listing)
  {
    var before, after := SplitAt(listing, k);
    ReportAround(before, listing[k], after);
    var entry := ReportEntry(listing[k].0, PageExports(listing[k].1));
    assert EntryFor(listing[k].0, listing[k].1) == [entry];
    InMiddle(Report(before), entry, Report(after));
  }

  /** Any other file appears with its unused exports exactly as given. */
  lemma OtherFileReportedAsGiven(listing: Listing, k: nat)
    requires k < |listing|
    requires !IsNextJsPage(listing[k].0)
    ensures ReportEntry(listing[k].0, listing[k].1) in Report(listing)
  {
    var before, after := SplitAt(listing, k);
    ReportAround(before, listing[k], after);
    var entry := ReportEntry(listing[k].0, listing[k].1);
    assert EntryFor(listing[k].0, listing[k].1) == [entry];
    InMiddle(Report(before), entry, Report(after));
  }

  /** The process exit code: 0 for an empty report, 1 otherwise. */
  function ExitCode(report: seq<ReportEntry>): (code: int)
    ensures code == 0 || code == 1
    ensures code == 0 <==> report == []
  {
    if |report| == 0 then 0 else 1
  }

  /** The script succeeds exactly when every listed file is a page file whose unused
      exports are all framework entry points. */
  lemma {:induction false} ExitCodeZeroIffNothingToReport(listing: Listing)
    ensures ExitCode(Report(listing)) == 0 <==>
            forall k :: 0 <= k < |listing| ==> IsNextJsPage(listing[k].0) && PageExports(listing[k].1) == []
    decreases |listing|
  {
    if listing != [] {
      var prev := listing[..|listing| - 1];
      ExitCodeZeroIffNothingToReport(prev);
      assert forall k :: 0 <= k < |prev| ==> prev[k] == listing[k];
    }
  }
}

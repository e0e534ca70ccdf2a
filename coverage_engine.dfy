/** The EnviCodeCoverage object: the coverage store it keeps across
    measurement windows, and the operations that fill, empty and report it.
    The driver, the filter and the parser are not modelled; what they return
    is passed in (the window, the white list) or fixed at construction (the
    parser, as a function from file name to its parse). */
module Coverage {
  import opened CoverageMerge
  import opened CoverageReport

  /** The white-listed files the store does not know yet, in white-list
      order and with the white list's duplicates: the files addWhiteListFiles
      passes to include_once. */
  function Unseen(whiteList: seq<FileName>, data: map<FileName, LineMap>): seq<FileName>
    decreases |whiteList|
  {
    if whiteList == [] then []
    else
      var f := whiteList[|whiteList| - 1];
      Unseen(whiteList[..|whiteList| - 1], data) + (if f in data then [] else [f])
  }

  /** A file is passed to include_once exactly when it is on the white list
      and not in the store; those files keep their white-list order. */
  lemma {:induction false} UnseenExactly(whiteList: seq<FileName>, data: map<FileName, LineMap>)
    ensures forall f :: f in Unseen(whiteList, data) <==> f in whiteList && f !in data
    ensures |Unseen(whiteList, data)| <= |whiteList|
    decreases |whiteList|
  {
    if whiteList != [] {
      var p := whiteList[..|whiteList| - 1];
      UnseenExactly(p, data);
      assert whiteList == p + [whiteList[|whiteList| - 1]];
    }
  }

  /** A second update of the same file replaces the first. */
  lemma UpdateTwice(m: map<FileName, LineMap>, f: FileName, a: LineMap, b: LineMap)
    ensures m[f := a][f := b] == m[f := b]
  {
  }

  /** Every file of a well-formed store is reported. */
  lemma WellFormedAllIn(s: Store)
    requires WellFormed(s)
    ensures AllIn(s.files, s.data)
  {
    forall i | 0 <= i < |s.files|
      ensures s.files[i] in s.data
    {
      assert s.files[i] in s.files;
    }
  }

  /** After the white-list step every file the window reports, like every
      file stored before, has its lines in coverage_data_all. */
  lemma WindowFilesReported(s: Store, w: Window, parse: FileName -> ParsedFile, f: FileName)
    requires WellFormed(s)
    requires f in s.data || exists i :: 0 <= i < |w| && w[i].file == f
    ensures WellFormed(MergeWindow(s, w))
    ensures var m := MergeWindow(s, w);
            AllIn(m.files, m.data) && f in BuildReport(m.files, m.data, parse).coverageDataAll
  {
    var m := MergeWindow(s, w);
    MergeWindowWellFormed(s, w);
    MergeWindowKeys(s, w);
    WellFormedAllIn(m);
    ReportLines(m.files, m.data, parse);
  }

  /** A method over lines 10-12 of which the store holds 10 (hit once) and
      11 (not hit), each line of weight 1: two recorded lines, one covered,
      rate 50; line 12, never reported, is not counted. */
  lemma HalfCoveredMethod()
    ensures var fl := FileLines(map[10 := 1, 11 := 0], map[10 := 1, 11 := 1, 12 := 1]);
            var m := MethodsOver(fl, [MethodSymbol("m", 10, 12)])["m"];
            m.total == 2 && m.covered == 1 && m.rate == 50.0
  {
    var fl := map[10 := LineResult(1, 1, true), 11 := LineResult(0, 1, false)];
    HalfCoveredLines();
    HalfCoveredRange(fl);
    var ms := [MethodSymbol("m", 10, 12)];
    assert ms[..0] == [];
    assert MethodsOver(fl, ms) == map["m" := RangeSummary(fl, 10, 12)];
  }

  lemma HalfCoveredLines()
    ensures FileLines(map[10 := 1, 11 := 0], map[10 := 1, 11 := 1, 12 := 1]) ==
              map[10 := LineResult(1, 1, true), 11 := LineResult(0, 1, false)]
  {
  }

  lemma HalfCoveredRange(fl: map<int, LineResult>)
    requires fl == map[10 := LineResult(1, 1, true), 11 := LineResult(0, 1, false)]
    ensures RangeSummary(fl, 10, 12).total == 2
    ensures RangeSummary(fl, 10, 12).covered == 1
    ensures RangeSummary(fl, 10, 12).rate == 50.0
  {
    assert Detail(fl, 10, 12) == fl;
    assert fl.Keys == {10, 11};
    assert |fl| == 2;
    assert CoveredLines(fl, 10, 12) == {10};
  }

  class CodeCoverage {
    /** The key order of coverage_data. */
    var files: seq<FileName>
    /** coverage_data: file name -> line -> hit counter. */
    var coverageData: map<FileName, LineMap>
    /** What the parser returns for each file. */
    const parse: FileName -> ParsedFile

    ghost predicate Valid()
      reads this
    {
      WellFormed(Store(files, coverageData))
    }

    ghost function Contents(): Store
      reads this
    {
      Store(files, coverageData)
    }

    /** A new object holds no coverage data. */
    constructor (parse: FileName -> ParsedFile)
      ensures Valid()
      ensures files == [] && coverageData == map[]
      ensures this.parse == parse
    {
      this.parse := parse;
      files := [];
      coverageData := map[];
    }

    /** finish: merge the window the driver returns into the store. */
    method Finish(window: Window)
      requires Valid()
      modifies this
      ensures Valid()
      ensures Contents() == MergeWindow(old(Contents()), window)
    {
      ghost var start := Contents();
      for i := 0 to |window|
        invariant Contents() == MergeWindow(start, window[..i])
      {
        assert window[..i + 1][..i] == window[..i];
        var e := window[i];
        if e.file !in coverageData {
          // a new file is stored as the driver reported it
          files := files + [e.file];
          coverageData := coverageData[e.file := e.lines];
        } else {
          MergeLines(e.file, e.lines);
        }
      }
      assert window[..|window|] == window;
      MergeWindowWellFormed(start, window);
    }

    /** The inner loop of finish for a file the store already holds. */
    method MergeLines(f: FileName, incoming: LineMap)
      requires f in coverageData
      modifies this
      ensures files == old(files)
      ensures coverageData == old(coverageData)[f := MergeFile(old(coverageData)[f], incoming)]
    {
      ghost var before := coverageData;
      ghost var stored := coverageData[f];
      assert Restrict(incoming, {}) == map[];
      MergeFileEmpty(stored);
      assert before[f := stored] == before;
      var pending := incoming.Keys;
      ghost var done: set<int> := {};
      while pending != {}
        invariant done !! pending && done + pending == incoming.Keys
        invariant files == old(files)
        invariant coverageData == before[f := MergeFile(stored, Restrict(incoming, done))]
        decreases pending
      {
        NonEmpty(pending);
        var line :| line in pending;
        var flag := incoming[line];
        MergeFileStep(stored, incoming, done, line);
        pending := pending - {line};
        ghost var next := MergeFile(stored, Restrict(incoming, done + {line}));
        done := done + {line};
        if flag <= 0 {
          continue;
        }
        var cur := coverageData[f];
        if line !in cur || cur[line] <= 0 {
          cur := cur[line := flag];
        } else {
          cur := cur[line := cur[line] + flag];
        }
        assert cur == next;
        UpdateTwice(before, f, coverageData[f], cur);
        coverageData := coverageData[f := cur];
      }
      assert done == incoming.Keys;
      assert Restrict(incoming, incoming.Keys) == incoming;
    }

    /** free: the store is emptied. */
    method Free()
      modifies this
      ensures Valid()
      ensures files == [] && coverageData == map[]
    {
      files := [];
      coverageData := map[];
    }

    /** addWhiteListFiles: the white-listed files the store does not know are
        passed to include_once under a fresh measurement, whose window is
        then merged. Returns the files passed to include_once. */
    method AddWhiteListFiles(whiteList: seq<FileName>, window: Window) returns (included: seq<FileName>)
      requires Valid()
      modifies this
      ensures Valid()
      ensures included == Unseen(whiteList, old(coverageData))
      ensures Contents() == MergeWindow(old(Contents()), window)
    {
      included := [];
      for k := 0 to |whiteList|
        invariant included == Unseen(whiteList[..k], coverageData)
      {
        assert whiteList[..k + 1][..k] == whiteList[..k];
        if whiteList[k] !in coverageData {
          included := included + [whiteList[k]];
        }
      }
      assert whiteList[..|whiteList|] == whiteList;
      Finish(window);
    }

    /** The report loop of getCodeCoverage over a copy of the store. */
    method Rollup() returns (r: Report)
      requires Valid()
      ensures r == BuildReport(files, coverageData, parse)
    {
      WellFormedAllIn(Contents());
      r := ReportFiles(files, coverageData, parse);
    }

    /** getCodeCoverage: optionally adds the white-listed files first, then
        reports; the report itself leaves the store as it is. */
    method GetCodeCoverage(addWhiteListFile: bool, whiteList: seq<FileName>, window: Window)
      returns (r: Report)
      requires Valid()
      modifies this
      ensures Valid()
      ensures addWhiteListFile ==> Contents() == MergeWindow(old(Contents()), window)
      ensures !addWhiteListFile ==> Contents() == old(Contents())
      ensures r == BuildReport(files, coverageData, parse)
    {
      if addWhiteListFile {
        var included := AddWhiteListFiles(whiteList, window);
      }
      r := Rollup();
    }
  }
}

/** The report of EnviCodeCoverage::getCodeCoverage: per-line triples, the
    global covered/total counters, and the per-class and per-method rollups
    over the inclusive line ranges the parser reports. */
module CoverageReport {
  import opened CoverageMerge

  /** A method symbol of the parser: its name and its inclusive line range. */
  datatype MethodSymbol = MethodSymbol(name: string, line: int, endLine: int)

  /** A class symbol of the parser, with its methods in declaration order. */
  datatype ClassSymbol = ClassSymbol(name: string, line: int, endLine: int, methods: seq<MethodSymbol>)

  /** What the parser returns for one file: the weight of each coverable
      line (getCodeRouteCoverage) and the class list (getClassList). */
  datatype ParsedFile = ParsedFile(weights: map<int, int>, classes: seq<ClassSymbol>)

  /** One line of the report: clamped hits, the parser's weight, covered? */
  datatype LineResult = LineResult(hits: int, weight: int, covered: bool)

  /** The two counters of the source: index COVERD and index TOTAL_COVER. */
  datatype Counts = Counts(covered: int, total: int)

  /** 'detail', 'cover_count' and 'cover_rate' of a class or a method. */
  datatype Summary = Summary(detail: map<int, LineResult>, covered: nat, total: nat, rate: real)

  /** One entry of class_coverage_data. The source pre-builds an empty
      'method' array and puts the method entries under 'methods'. */
  datatype ClassReport = ClassReport(cls: Summary, methodSlot: map<string, Summary>,
                                     methods: map<string, Summary>, fileName: FileName)

  /** The array getCodeCoverage returns. */
  datatype Report = Report(coverageDataAll: map<FileName, map<int, LineResult>>,
                           classCoverageData: map<string, ClassReport>,
                           coverCount: Counts, coverRate: real)

  function Plus(a: Counts, b: Counts): Counts
  {
    Counts(a.covered + b.covered, a.total + b.total)
  }

  /** A rate in percent, exact; 0 when nothing is counted. */
  function Rate(covered: int, total: int): real
  {
    if total == 0 then 0.0 else covered as real / total as real * 100.0
  }

  /** The parser weight of a line; a line the parser does not list reads as
      null in the source, which compares and adds like 0. */
  function Weight(weights: map<int, int>, line: int): int
  {
    if line in weights then weights[line] else 0
  }

  /** The triple the source stores for a recorded line. */
  function LineOf(val: int, weight: int): LineResult
  {
    var hits := if val < 0 then 0 else val;
    LineResult(hits, weight, hits >= weight)
  }

  /** What one line adds to the global counters: a covered line its weight to
      both, an uncovered line its hits plus its weight to the total only. */
  function LineCounts(r: LineResult): Counts
  {
    if r.covered then Counts(r.weight, r.weight) else Counts(0, r.hits + r.weight)
  }

  /** 'coverage_data_all' for one file. */
  function FileLines(lines: LineMap, weights: map<int, int>): map<int, LineResult>
  {
    map l | l in lines :: LineOf(lines[l], Weight(weights, l))
  }

  /** What line adds to the covered counter (0 when it is not recorded). */
  function CoveredAt(fl: map<int, LineResult>, line: int): int
  {
    if line in fl then LineCounts(fl[line]).covered else 0
  }

  /** What line adds to the total counter (0 when it is not recorded). */
  function TotalAt(fl: map<int, LineResult>, line: int): int
  {
    if line in fl then LineCounts(fl[line]).total else 0
  }

  /** Some element of a non-empty set. */
  ghost function Pick(keys: set<int>): (l: int)
    requires keys != {}
    ensures l in keys
  {
    NonEmpty(keys);
    var l :| l in keys; l
  }

  /** The covered counter summed over a set of lines. */
  ghost function CoveredOver(fl: map<int, LineResult>, keys: set<int>): int
    decreases keys
  {
    if keys == {} then 0 else var l := Pick(keys); CoveredAt(fl, l) + CoveredOver(fl, keys - {l})
  }

  /** The total counter summed over a set of lines. */
  ghost function TotalOver(fl: map<int, LineResult>, keys: set<int>): int
    decreases keys
  {
    if keys == {} then 0 else var l := Pick(keys); TotalAt(fl, l) + TotalOver(fl, keys - {l})
  }

  /** What one file adds to the global counters. */
  ghost function CountsOf(fl: map<int, LineResult>): Counts
  {
    Counts(CoveredOver(fl, fl.Keys), TotalOver(fl, fl.Keys))
  }

  /** The recorded lines of an inclusive range, with their triples. */
  function Detail(fl: map<int, LineResult>, lo: int, hi: int): map<int, LineResult>
  {
    map l | l in fl && lo <= l <= hi :: fl[l]
  }

  /** The recorded lines of an inclusive range that are covered. */
  function CoveredLines(fl: map<int, LineResult>, lo: int, hi: int): set<int>
  {
    set l | l in fl && lo <= l <= hi && fl[l].covered
  }

  /** A class or method summary: total is the number of recorded lines in
      [lo, hi], covered the number of those that are covered. */
  function RangeSummary(fl: map<int, LineResult>, lo: int, hi: int): Summary
  {
    var d := Detail(fl, lo, hi);
    var c := |CoveredLines(fl, lo, hi)|;
    Summary(d, c, |d|, Rate(c, |d|))
  }

  /** The 'methods' array of a class: one summary per method name, a later
      method of the same name replacing an earlier one. */
  function MethodsOver(fl: map<int, LineResult>, ms: seq<MethodSymbol>): map<string, Summary>
    decreases |ms|
  {
    if ms == [] then map[]
    else
      var m := ms[|ms| - 1];
      MethodsOver(fl, ms[..|ms| - 1])[m.name := RangeSummary(fl, m.line, m.endLine)]
  }

  /** The class_coverage_data entry of class c of file f. */
  function ClassEntry(f: FileName, fl: map<int, LineResult>, c: ClassSymbol): ClassReport
  {
    ClassReport(RangeSummary(fl, c.line, c.endLine), map[], MethodsOver(fl, c.methods), f)
  }

  /** One iteration of the class loop: a class without recorded lines is
      skipped, any other replaces the entry of its name. */
  function ClassStep(classes: map<string, ClassReport>, f: FileName, fl: map<int, LineResult>,
                     c: ClassSymbol): map<string, ClassReport>
  {
    if RangeSummary(fl, c.line, c.endLine).total == 0 then classes
    else classes[c.name := ClassEntry(f, fl, c)]
  }

  function ClassesOver(classes: map<string, ClassReport>, f: FileName, fl: map<int, LineResult>,
                       cs: seq<ClassSymbol>): map<string, ClassReport>
    decreases |cs|
  {
    if cs == [] then classes
    else ClassStep(ClassesOver(classes, f, fl, cs[..|cs| - 1]), f, fl, cs[|cs| - 1])
  }

  ghost predicate AllIn(files: seq<FileName>, data: map<FileName, LineMap>)
  {
    forall i :: 0 <= i < |files| ==> files[i] in data
  }

  /** 'coverage_data_all' after the files of the store, in store order. */
  function LinesAfter(files: seq<FileName>, data: map<FileName, LineMap>,
                      parse: FileName -> ParsedFile): map<FileName, map<int, LineResult>>
    requires AllIn(files, data)
    decreases |files|
  {
    if files == [] then map[]
    else
      var f := files[|files| - 1];
      LinesAfter(files[..|files| - 1], data, parse)[f := FileLines(data[f], parse(f).weights)]
  }

  /** 'class_coverage_data' after the files of the store, in store order. */
  function ClassesAfter(files: seq<FileName>, data: map<FileName, LineMap>,
                        parse: FileName -> ParsedFile): map<string, ClassReport>
    requires AllIn(files, data)
    decreases |files|
  {
    if files == [] then map[]
    else
      var f := files[|files| - 1];
      ClassesOver(ClassesAfter(files[..|files| - 1], data, parse), f,
                  FileLines(data[f], parse(f).weights), parse(f).classes)
  }

  /** The global 'cover_count' after the files of the store. */
  ghost function CountsAfter(files: seq<FileName>, data: map<FileName, LineMap>,
                             parse: FileName -> ParsedFile): Counts
    requires AllIn(files, data)
    decreases |files|
  {
    if files == [] then Counts(0, 0)
    else
      var f := files[|files| - 1];
      Plus(CountsAfter(files[..|files| - 1], data, parse), CountsOf(FileLines(data[f], parse(f).weights)))
  }

  ghost function BuildReport(files: seq<FileName>, data: map<FileName, LineMap>,
                             parse: FileName -> ParsedFile): Report
    requires AllIn(files, data)
  {
    var c := CountsAfter(files, data, parse);
    Report(LinesAfter(files, data, parse), ClassesAfter(files, data, parse), c, Rate(c.covered, c.total))
  }

  // ---------------------------------------------------------------------
  // The loops of getCodeCoverage

  /** The inner line loop over one file: clamp, cover test, triple, and the
      global counters advanced from acc. */
  method LineResults(lines: LineMap, weights: map<int, int>, acc: Counts)
    returns (fl: map<int, LineResult>, counts: Counts)
    ensures fl == FileLines(lines, weights)
    ensures counts == Plus(acc, CountsOf(fl))
  {
    ghost var full := FileLines(lines, weights);
    fl := map[];
    counts := acc;
    var pending := lines.Keys;
    ghost var done: set<int> := {};
    while pending != {}
      invariant done !! pending && done + pending == lines.Keys
      invariant fl.Keys == done && forall l :: l in done ==> fl[l] == full[l]
      invariant counts == Counts(acc.covered + CoveredOver(full, done), acc.total + TotalOver(full, done))
      decreases pending
    {
      NonEmpty(pending);
      var line :| line in pending;
      var val := lines[line];
      if val < 0 {
        val := 0;
      }
      var w := Weight(weights, line);
      var isCover := val >= w;
      if isCover {
        counts := Counts(counts.covered + w, counts.total + w);
      } else {
        counts := Counts(counts.covered, counts.total + val + w);
      }
      fl := fl[line := LineResult(val, w, isCover)];
      LineStep(lines, weights, done, line);
      pending := pending - {line};
      done := done + {line};
    }
    assert fl == full;
  }

  /** One line of the line loop: its triple, and what it adds to the sums
      over the lines taken before it. */
  lemma LineStep(lines: LineMap, weights: map<int, int>, done: set<int>, line: int)
    requires line in lines && line !in done
    ensures var full := FileLines(lines, weights);
            var v := if lines[line] < 0 then 0 else lines[line];
            var w := Weight(weights, line);
            && full[line] == LineResult(v, w, v >= w)
            && CoveredOver(full, done + {line}) == CoveredOver(full, done) + (if v >= w then w else 0)
            && TotalOver(full, done + {line}) == TotalOver(full, done) + (if v >= w then w else v + w)
  {
    var full := FileLines(lines, weights);
    SumRemove(full, done + {line}, line);
    assert done + {line} - {line} == done;
  }

  /** The while ($line <= $end_line) walk over one class or method range. */
  method RollupRange(fl: map<int, LineResult>, lo: int, hi: int) returns (s: Summary)
    ensures s == RangeSummary(fl, lo, hi)
  {
    var detail: map<int, LineResult> := map[];
    var covered, total := 0, 0;
    var line := lo;
    RangeStart(fl, lo);
    while line <= hi
      invariant lo <= line && (line <= hi + 1 || line == lo)
      invariant Walked(fl, lo, line, detail, covered, total)
      decreases hi - line
    {
      RangeStep(fl, lo, line, detail, covered, total);
      if line in fl {
        detail := detail[line := fl[line]];
        total := total + 1;
        if fl[line].covered {
          covered := covered + 1;
        }
      }
      line := line + 1;
    }
    RangeEnd(fl, lo, hi, line, detail, covered, total);
    s := Summary(detail, covered, total, Rate(covered, total));
  }

  /** The state of the range walk before line: detail holds the recorded
      lines in [lo, line), total counts them and covered the covered ones. */
  ghost predicate Walked(fl: map<int, LineResult>, lo: int, line: int,
                         detail: map<int, LineResult>, covered: int, total: int)
  {
    && detail == Detail(fl, lo, line - 1)
    && total == |detail|
    && covered == |CoveredLines(fl, lo, line - 1)|
  }

  lemma RangeStart(fl: map<int, LineResult>, lo: int)
    ensures Walked(fl, lo, lo, map[], 0, 0)
  {
    assert Detail(fl, lo, lo - 1) == map[];
    assert CoveredLines(fl, lo, lo - 1) == {};
  }

  /** Walking over one more line. */
  lemma RangeStep(fl: map<int, LineResult>, lo: int, line: int,
                  detail: map<int, LineResult>, covered: int, total: int)
    requires lo <= line && Walked(fl, lo, line, detail, covered, total)
    ensures line in fl ==> Walked(fl, lo, line + 1, detail[line := fl[line]],
                                  if fl[line].covered then covered + 1 else covered, total + 1)
    ensures line !in fl ==> Walked(fl, lo, line + 1, detail, covered, total)
  {
    DetailStep(fl, lo, line);
    CoveredStep(fl, lo, line);
  }

  lemma DetailStep(fl: map<int, LineResult>, lo: int, line: int)
    requires lo <= line
    ensures line !in Detail(fl, lo, line - 1)
    ensures line in fl ==> Detail(fl, lo, line) == Detail(fl, lo, line - 1)[line := fl[line]]
    ensures line !in fl ==> Detail(fl, lo, line) == Detail(fl, lo, line - 1)
  {
  }

  lemma CoveredStep(fl: map<int, LineResult>, lo: int, line: int)
    requires lo <= line
    ensures line !in CoveredLines(fl, lo, line - 1)
    ensures line in fl && fl[line].covered ==>
              CoveredLines(fl, lo, line) == CoveredLines(fl, lo, line - 1) + {line}
    ensures !(line in fl && fl[line].covered) ==> CoveredLines(fl, lo, line) == CoveredLines(fl, lo, line - 1)
  {
  }

  lemma RangeEnd(fl: map<int, LineResult>, lo: int, hi: int, line: int,
                 detail: map<int, LineResult>, covered: int, total: int)
    requires lo <= line && (line == hi + 1 || (line == lo && lo > hi))
    requires Walked(fl, lo, line, detail, covered, total)
    ensures Summary(detail, covered, total, Rate(covered, total)) == RangeSummary(fl, lo, hi)
  {
    assert Detail(fl, lo, line - 1) == Detail(fl, lo, hi);
    assert CoveredLines(fl, lo, line - 1) == CoveredLines(fl, lo, hi);
  }

  /** The method loop of one class. */
  method MethodRollup(fl: map<int, LineResult>, ms: seq<MethodSymbol>)
    returns (methods: map<string, Summary>)
    ensures methods == MethodsOver(fl, ms)
  {
    methods := map[];
    for k := 0 to |ms|
      invariant methods == MethodsOver(fl, ms[..k])
    {
      var m := ms[k];
      var summary := RollupRange(fl, m.line, m.endLine);
      assert ms[..k + 1][..k] == ms[..k];
      methods := methods[m.name := summary];
    }
    assert ms[..|ms|] == ms;
  }

  /** The class loop of one file. */
  method ClassRollup(classes: map<string, ClassReport>, f: FileName, fl: map<int, LineResult>,
                     cs: seq<ClassSymbol>) returns (out: map<string, ClassReport>)
    ensures out == ClassesOver(classes, f, fl, cs)
  {
    out := classes;
    for j := 0 to |cs|
      invariant out == ClassesOver(classes, f, fl, cs[..j])
    {
      var c := cs[j];
      assert cs[..j + 1][..j] == cs[..j];
      var summary := RollupRange(fl, c.line, c.endLine);
      if summary.total == 0 {
        // a class without recorded lines takes no part in the report
        continue;
      }
      var methods := MethodRollup(fl, c.methods);
      out := out[c.name := ClassReport(summary, map[], methods, f)];
    }
    assert cs[..|cs|] == cs;
  }

  // ---------------------------------------------------------------------
  // The set sum

  /** One file of the report loop: the three folds over the first i + 1
      files extend those over the first i by file i. */
  lemma RollupStep(files: seq<FileName>, data: map<FileName, LineMap>,
                   parse: FileName -> ParsedFile, i: int)
    requires AllIn(files, data) && 0 <= i < |files|
    ensures AllIn(files[..i], data) && AllIn(files[..i + 1], data)
    ensures var f := files[i];
            var fl := FileLines(data[f], parse(f).weights);
            LinesAfter(files[..i + 1], data, parse) == LinesAfter(files[..i], data, parse)[f := fl] &&
            ClassesAfter(files[..i + 1], data, parse) ==
              ClassesOver(ClassesAfter(files[..i], data, parse), f, fl, parse(f).classes) &&
            CountsAfter(files[..i + 1], data, parse) == Plus(CountsAfter(files[..i], data, parse), CountsOf(fl))
  {
    var q := files[..i + 1];
    assert q[..i] == files[..i] && q[i] == files[i];
    assert forall k :: 0 <= k < |q| ==> q[k] == files[k];
  }

  /** The report loop of getCodeCoverage over the files of a store, in
      store order: per file the line loop, then the class loop. */
  method ReportFiles(files: seq<FileName>, data: map<FileName, LineMap>,
                     parse: FileName -> ParsedFile) returns (r: Report)
    requires AllIn(files, data)
    ensures r == BuildReport(files, data, parse)
  {
    var all: map<FileName, map<int, LineResult>> := map[];
    var classes: map<string, ClassReport> := map[];
    var counts := Counts(0, 0);
    for i := 0 to |files|
      invariant AllIn(files[..i], data)
      invariant all == LinesAfter(files[..i], data, parse)
      invariant classes == ClassesAfter(files[..i], data, parse)
      invariant counts == CountsAfter(files[..i], data, parse)
    {
      var f := files[i];
      RollupStep(files, data, parse, i);
      var pf := parse(f);
      var fl;
      fl, counts := LineResults(data[f], pf.weights, counts);
      classes := ClassRollup(classes, f, fl, pf.classes);
      all := all[f := fl];
    }
    assert files[..|files|] == files;
    assert counts == CountsAfter(files, data, parse);
    assert all == LinesAfter(files, data, parse);
    assert classes == ClassesAfter(files, data, parse);
    r := Report(all, classes, counts, Rate(counts.covered, counts.total));
  }

  /** The sums do not depend on the order in which lines are taken. */
  lemma {:induction false} SumRemove(fl: map<int, LineResult>, keys: set<int>, x: int)
    requires x in keys
    ensures CoveredOver(fl, keys) == CoveredAt(fl, x) + CoveredOver(fl, keys - {x})
    ensures TotalOver(fl, keys) == TotalAt(fl, x) + TotalOver(fl, keys - {x})
    decreases keys
  {
    var y := Pick(keys);
    if y != x {
      SumRemove(fl, keys - {y}, x);
      SumRemove(fl, keys - {x}, y);
      assert keys - {y} - {x} == keys - {x} - {y};
    }
  }

  // ---------------------------------------------------------------------
  // Properties of the report

  /** Every recorded line of a file becomes the triple (max(val, 0), weight,
      max(val, 0) >= weight); a line the parser gives no weight has weight 0
      and is covered. */
  lemma LineTriple(lines: LineMap, weights: map<int, int>, line: int)
    requires line in lines
    ensures line in FileLines(lines, weights)
    ensures var r := FileLines(lines, weights)[line];
            && r.hits == (if lines[line] < 0 then 0 else lines[line])
            && r.weight == Weight(weights, line)
            && (r.covered <==> r.hits >= r.weight)
    ensures line !in weights ==> FileLines(lines, weights)[line].weight == 0
    ensures line !in weights ==> FileLines(lines, weights)[line].covered
  {
  }

  predicate NonNegativeWeights(weights: map<int, int>)
  {
    forall l :: l in weights ==> weights[l] >= 0
  }

  predicate Bounded(c: Counts)
  {
    0 <= c.covered <= c.total
  }

  /** With non-negative weights every line adds at least as much to the total
      as to the covered counter, and nothing negative. */
  lemma {:induction false} CountsOverBounded(fl: map<int, LineResult>, keys: set<int>)
    requires forall l :: l in fl ==> Bounded(LineCounts(fl[l]))
    ensures 0 <= CoveredOver(fl, keys) <= TotalOver(fl, keys)
    decreases keys
  {
    if keys != {} {
      var x := Pick(keys);
      CountsOverBounded(fl, keys - {x});
    }
  }

  lemma FileCountsBounded(lines: LineMap, weights: map<int, int>)
    requires NonNegativeWeights(weights)
    ensures Bounded(CountsOf(FileLines(lines, weights)))
  {
    var fl := FileLines(lines, weights);
    forall l | l in fl
      ensures Bounded(LineCounts(fl[l]))
    {
      assert Weight(weights, l) >= 0;
    }
    CountsOverBounded(fl, fl.Keys);
  }

  lemma RateInRange(covered: int, total: int)
    requires 0 <= covered <= total
    ensures 0.0 <= Rate(covered, total) <= 100.0
  {
    if total != 0 {
      var q := covered as real / total as real;
      assert q * (total as real) == covered as real;
      assert q <= 1.0;
    }
  }

  /** A class or method summary: its total is the number of recorded lines
      in the inclusive range, detail holds exactly those lines, covered counts
      the covered ones, covered <= total, the rate lies in [0, 100] and is 0
      when the total is 0. */
  lemma RangeSummaryFacts(fl: map<int, LineResult>, lo: int, hi: int)
    ensures var s := RangeSummary(fl, lo, hi);
            && (forall l :: l in s.detail <==> l in fl && lo <= l <= hi)
            && (forall l :: l in s.detail ==> s.detail[l] == fl[l])
            && s.total == |s.detail|
            && s.covered == |set l | l in s.detail && s.detail[l].covered|
            && s.covered <= s.total
            && 0.0 <= s.rate <= 100.0
            && (s.total == 0 ==> s.rate == 0.0)
  {
    var s := RangeSummary(fl, lo, hi);
    var cl := set l | l in s.detail && s.detail[l].covered;
    assert cl == CoveredLines(fl, lo, hi);
    assert cl <= s.detail.Keys;
    SubsetCard(cl, s.detail.Keys);
    RateInRange(s.covered, s.total);
  }

  lemma {:induction false} SubsetCard(a: set<int>, b: set<int>)
    requires a <= b
    ensures |a| <= |b|
    decreases b
  {
    if b != {} {
      NonEmpty(b);
      var x :| x in b;
      SubsetCard(a - {x}, b - {x});
    }
  }

  /** Every method of a class has an entry in its 'methods' array, so a
      method without recorded lines is still listed, with rate 0. */
  lemma {:induction false} MethodsOverHas(fl: map<int, LineResult>, ms: seq<MethodSymbol>, i: int)
    requires 0 <= i < |ms|
    ensures ms[i].name in MethodsOver(fl, ms)
    decreases |ms|
  {
    var n := |ms| - 1;
    if i < n {
      assert ms[..n][i] == ms[i];
      MethodsOverHas(fl, ms[..n], i);
    }
  }

  /** Every entry of a class's 'methods' array is the summary of the LAST
      method of the class with that name. */
  lemma {:induction false} MethodsOverFrom(fl: map<int, LineResult>, ms: seq<MethodSymbol>, name: string)
    returns (i: int)
    requires name in MethodsOver(fl, ms)
    ensures 0 <= i < |ms| && ms[i].name == name
    ensures MethodsOver(fl, ms)[name] == RangeSummary(fl, ms[i].line, ms[i].endLine)
    ensures forall k :: i < k < |ms| ==> ms[k].name != name
    decreases |ms|
  {
    var n := |ms| - 1;
    if ms[n].name == name {
      i := n;
    } else {
      var p := ms[..n];
      i := MethodsOverFrom(fl, p, name);
      assert p[i] == ms[i];
      forall k | i < k < |ms|
        ensures ms[k].name != name
      {
        if k < n {
          assert p[k] == ms[k];
        }
      }
    }
  }

  /** The class with index j of the file with index i has recorded lines. */
  ghost predicate HasLinesAt(files: seq<FileName>, data: map<FileName, LineMap>,
                             parse: FileName -> ParsedFile, i: int, j: int)
  {
    && 0 <= i < |files| && files[i] in data && 0 <= j < |parse(files[i]).classes|
    && var c := parse(files[i]).classes[j];
       RangeSummary(FileLines(data[files[i]], parse(files[i]).weights), c.line, c.endLine).total > 0
  }

  /** cr is the entry of the class with index j of the file with index i,
      that class is called name and has recorded lines, and the entry's
      'method' array is empty. */
  ghost predicate IsClassEntryAt(cr: ClassReport, name: string, files: seq<FileName>,
                                 data: map<FileName, LineMap>, parse: FileName -> ParsedFile, i: int, j: int)
  {
    && HasLinesAt(files, data, parse, i, j)
    && var c := parse(files[i]).classes[j];
       && c.name == name
       && cr == ClassEntry(files[i], FileLines(data[files[i]], parse(files[i]).weights), c)
       && cr.methodSlot == map[]
  }

  ghost predicate IsClassEntry(cr: ClassReport, name: string, files: seq<FileName>,
                               data: map<FileName, LineMap>, parse: FileName -> ParsedFile)
  {
    exists i, j :: IsClassEntryAt(cr, name, files, data, parse, i, j)
  }

  /** Every entry comes from a class of one of the files. */
  ghost predicate ClassesSound(classes: map<string, ClassReport>, files: seq<FileName>,
                               data: map<FileName, LineMap>, parse: FileName -> ParsedFile)
  {
    forall name :: name in classes ==> IsClassEntry(classes[name], name, files, data, parse)
  }

  /** Every class with recorded lines has an entry under its name. */
  ghost predicate ClassesComplete(classes: map<string, ClassReport>, files: seq<FileName>,
                                  data: map<FileName, LineMap>, parse: FileName -> ParsedFile)
  {
    forall i, j :: HasLinesAt(files, data, parse, i, j) ==> parse(files[i]).classes[j].name in classes
  }

  /** The class loop of one file only adds entries. */
  lemma {:induction false} ClassesOverKeeps(classes: map<string, ClassReport>, f: FileName,
                                            fl: map<int, LineResult>, cs: seq<ClassSymbol>, name: string)
    requires name in classes
    ensures name in ClassesOver(classes, f, fl, cs)
    decreases |cs|
  {
    if cs != [] {
      ClassesOverKeeps(classes, f, fl, cs[..|cs| - 1], name);
    }
  }

  /** One file's class loop gives every class of the file with recorded
      lines an entry under its name. */
  lemma {:induction false} ClassesOverCovers(classes: map<string, ClassReport>, f: FileName,
                                             fl: map<int, LineResult>, cs: seq<ClassSymbol>, j: int)
    requires 0 <= j < |cs| && RangeSummary(fl, cs[j].line, cs[j].endLine).total > 0
    ensures cs[j].name in ClassesOver(classes, f, fl, cs)
    decreases |cs|
  {
    var n := |cs| - 1;
    var prev := ClassesOver(classes, f, fl, cs[..n]);
    assert ClassesOver(classes, f, fl, cs) == ClassStep(prev, f, fl, cs[n]);
    if j < n {
      assert cs[..n][j] == cs[j];
      ClassesOverCovers(classes, f, fl, cs[..n], j);
      assert cs[j].name in prev;
    }
  }

  /** After one file's class loop an entry is either the one from before, or
      the entry of the LAST class of the file with that name and recorded
      lines (j < 0 says the former). */
  lemma {:induction false} ClassesOverFrom(classes: map<string, ClassReport>, f: FileName,
                                           fl: map<int, LineResult>, cs: seq<ClassSymbol>, name: string)
    returns (j: int)
    requires name in ClassesOver(classes, f, fl, cs)
    ensures j < 0 ==> name in classes && ClassesOver(classes, f, fl, cs)[name] == classes[name]
    ensures j >= 0 ==> && j < |cs| && cs[j].name == name
                       && RangeSummary(fl, cs[j].line, cs[j].endLine).total > 0
                       && ClassesOver(classes, f, fl, cs)[name] == ClassEntry(f, fl, cs[j])
                       && forall k :: j < k < |cs| && cs[k].name == name ==>
                            RangeSummary(fl, cs[k].line, cs[k].endLine).total == 0
    decreases |cs|
  {
    if cs == [] {
      j := -1;
    } else {
      var n := |cs| - 1;
      var c := cs[n];
      if c.name == name && RangeSummary(fl, c.line, c.endLine).total > 0 {
        j := n;
      } else {
        var p := cs[..n];
        j := ClassesOverFrom(classes, f, fl, p, name);
        if j >= 0 {
          assert p[j] == cs[j];
          forall k | j < k < |cs| && cs[k].name == name
            ensures RangeSummary(fl, cs[k].line, cs[k].endLine).total == 0
          {
            if k < n {
              assert p[k] == cs[k];
            }
          }
        }
      }
    }
  }

  /** The whole class_coverage_data: every entry belongs to a class with at
      least one recorded line (so a class with total 0, and with it all its
      methods, has no entry unless another class of that name has lines), its
      'method' array is empty, and every class with recorded lines has an
      entry. */
  lemma {:induction false} ReportClasses(files: seq<FileName>, data: map<FileName, LineMap>,
                                         parse: FileName -> ParsedFile)
    requires AllIn(files, data)
    ensures ClassesSound(ClassesAfter(files, data, parse), files, data, parse)
    ensures ClassesComplete(ClassesAfter(files, data, parse), files, data, parse)
    decreases |files|
  {
    if files != [] {
      var p := files[..|files| - 1];
      assert AllIn(p, data);
      ReportClasses(p, data, parse);
      ClassesSoundStep(files, data, parse);
    }
    forall i, j | HasLinesAt(files, data, parse, i, j)
      ensures parse(files[i]).classes[j].name in ClassesAfter(files, data, parse)
    {
      ClassCompleteFor(files, data, parse, i, j);
    }
  }

  lemma ClassesSoundStep(files: seq<FileName>, data: map<FileName, LineMap>, parse: FileName -> ParsedFile)
    requires AllIn(files, data) && files != [] && AllIn(files[..|files| - 1], data)
    requires ClassesSound(ClassesAfter(files[..|files| - 1], data, parse), files[..|files| - 1], data, parse)
    ensures ClassesSound(ClassesAfter(files, data, parse), files, data, parse)
  {
    var n := |files| - 1;
    var p := files[..n];
    var prev := ClassesAfter(p, data, parse);
    var r := ClassesAfter(files, data, parse);
    var f := files[n];
    var pf := parse(f);
    var fl := FileLines(data[f], pf.weights);
    assert r == ClassesOver(prev, f, fl, pf.classes);
    forall name | name in r
      ensures IsClassEntry(r[name], name, files, data, parse)
    {
      var j := ClassesOverFrom(prev, f, fl, pf.classes, name);
      if j < 0 {
        var i, j' :| IsClassEntryAt(prev[name], name, p, data, parse, i, j');
        assert files[i] == p[i];
        assert IsClassEntryAt(r[name], name, files, data, parse, i, j');
      } else {
        assert IsClassEntryAt(r[name], name, files, data, parse, n, j);
      }
    }
  }

  /** A class with recorded lines has an entry once its file's class loop
      has run, and keeps it through the loops of the later files. */
  lemma {:induction false} ClassCompleteFor(files: seq<FileName>, data: map<FileName, LineMap>,
                                            parse: FileName -> ParsedFile, i: int, j: int)
    requires AllIn(files, data) && HasLinesAt(files, data, parse, i, j)
    ensures parse(files[i]).classes[j].name in ClassesAfter(files, data, parse)
    decreases |files|
  {
    var n := |files| - 1;
    assert AllIn(files[..n], data);
    if i < n {
      HasLinesPrefix(files, data, parse, i, j);
      ClassCompleteFor(files[..n], data, parse, i, j);
      ClassKept(files, data, parse, parse(files[i]).classes[j].name);
    } else {
      ClassAdded(files, data, parse, j);
    }
  }

  /** A class with recorded lines of an earlier file has them in the prefix
      of the files as well. */
  lemma HasLinesPrefix(files: seq<FileName>, data: map<FileName, LineMap>, parse: FileName -> ParsedFile,
                       i: int, j: int)
    requires HasLinesAt(files, data, parse, i, j) && i < |files| - 1
    ensures HasLinesAt(files[..|files| - 1], data, parse, i, j)
    ensures files[..|files| - 1][i] == files[i]
  {
  }

  /** An entry made for an earlier file survives the last file's class loop. */
  lemma ClassKept(files: seq<FileName>, data: map<FileName, LineMap>, parse: FileName -> ParsedFile,
                  name: string)
    requires AllIn(files, data) && files != [] && AllIn(files[..|files| - 1], data)
    requires name in ClassesAfter(files[..|files| - 1], data, parse)
    ensures name in ClassesAfter(files, data, parse)
  {
    var n := |files| - 1;
    var f := files[n];
    var prev := ClassesAfter(files[..n], data, parse);
    var fl := FileLines(data[f], parse(f).weights);
    assert ClassesAfter(files, data, parse) == ClassesOver(prev, f, fl, parse(f).classes);
    ClassesOverKeeps(prev, f, fl, parse(f).classes, name);
  }

  /** A class of the last file with recorded lines gets an entry. */
  lemma ClassAdded(files: seq<FileName>, data: map<FileName, LineMap>, parse: FileName -> ParsedFile,
                   j: int)
    requires AllIn(files, data) && files != [] && AllIn(files[..|files| - 1], data)
    requires HasLinesAt(files, data, parse, |files| - 1, j)
    ensures parse(files[|files| - 1]).classes[j].name in ClassesAfter(files, data, parse)
  {
    var n := |files| - 1;
    var f := files[n];
    var prev := ClassesAfter(files[..n], data, parse);
    var fl := FileLines(data[f], parse(f).weights);
    assert ClassesAfter(files, data, parse) == ClassesOver(prev, f, fl, parse(f).classes);
    ClassesOverCovers(prev, f, fl, parse(f).classes, j);
  }

  /** coverage_data_all has exactly the store's files, each mapped to the
      triples of its own lines. */
  lemma {:induction false} ReportLines(files: seq<FileName>, data: map<FileName, LineMap>,
                                       parse: FileName -> ParsedFile)
    requires AllIn(files, data)
    ensures forall f :: f in LinesAfter(files, data, parse) <==> f in files
    ensures forall f :: f in LinesAfter(files, data, parse) ==>
              LinesAfter(files, data, parse)[f] == FileLines(data[f], parse(f).weights)
    decreases |files|
  {
    if files != [] {
      var p := files[..|files| - 1];
      assert AllIn(p, data);
      ReportLines(p, data, parse);
      assert forall f :: f in files <==> f in p || f == files[|files| - 1];
    }
  }

  /** With non-negative parser weights, 0 <= covered <= total globally and
      the global rate lies in [0, 100]; it is 0 when the total is 0. */
  lemma GlobalRateInRange(files: seq<FileName>, data: map<FileName, LineMap>,
                          parse: FileName -> ParsedFile)
    requires AllIn(files, data)
    requires forall i :: 0 <= i < |files| ==> NonNegativeWeights(parse(files[i]).weights)
    ensures Bounded(BuildReport(files, data, parse).coverCount)
    ensures 0.0 <= BuildReport(files, data, parse).coverRate <= 100.0
    ensures BuildReport(files, data, parse).coverCount.total == 0 ==>
              BuildReport(files, data, parse).coverRate == 0.0
  {
    CountsAfterBounded(files, data, parse);
    var c := CountsAfter(files, data, parse);
    RateInRange(c.covered, c.total);
  }

  lemma {:induction false} CountsAfterBounded(files: seq<FileName>, data: map<FileName, LineMap>,
                                              parse: FileName -> ParsedFile)
    requires AllIn(files, data)
    requires forall i :: 0 <= i < |files| ==> NonNegativeWeights(parse(files[i]).weights)
    ensures Bounded(CountsAfter(files, data, parse))
    decreases |files|
  {
    if files != [] {
      var n := |files| - 1;
      var p := files[..n];
      assert AllIn(p, data);
      assert forall i :: 0 <= i < |p| ==> p[i] == files[i];
      CountsAfterBounded(p, data, parse);
      FileCountsBounded(data[files[n]], parse(files[n]).weights);
    }
  }

  /** The global counters depend on the store's contents only at its files. */
  lemma {:induction false} CountsAfterFrame(files: seq<FileName>, d1: map<FileName, LineMap>,
                                            d2: map<FileName, LineMap>, parse: FileName -> ParsedFile)
    requires AllIn(files, d1) && AllIn(files, d2)
    requires forall i :: 0 <= i < |files| ==> d1[files[i]] == d2[files[i]]
    ensures CountsAfter(files, d1, parse) == CountsAfter(files, d2, parse)
    decreases |files|
  {
    if files != [] {
      var p := files[..|files| - 1];
      assert AllIn(p, d1) && AllIn(p, d2);
      CountsAfterFrame(p, d1, d2, parse);
    }
  }

  /** One unfolding of the global counters' fold. */
  lemma CountsAfterSnoc(init: seq<FileName>, last: FileName, data: map<FileName, LineMap>,
                        parse: FileName -> ParsedFile)
    requires AllIn(init, data) && last in data
    ensures AllIn(init + [last], data)
    ensures CountsAfter(init + [last], data, parse) ==
              Plus(CountsAfter(init, data, parse), CountsOf(FileLines(data[last], parse(last).weights)))
  {
    var g := init + [last];
    assert g[..|g| - 1] == init;
  }

  lemma PlusAssoc(a: Counts, b: Counts, c: Counts)
    ensures Plus(Plus(a, b), c) == Plus(a, Plus(b, c))
  {
  }

  lemma AllInConcat(f1: seq<FileName>, d1: map<FileName, LineMap>,
                    f2: seq<FileName>, d2: map<FileName, LineMap>)
    requires AllIn(f1, d1) && AllIn(f2, d2)
    ensures AllIn(f1 + f2, d1 + d2)
  {
    forall i | 0 <= i < |f1 + f2|
      ensures (f1 + f2)[i] in d1 + d2
    {
      if i >= |f1| {
        assert (f1 + f2)[i] == f2[i - |f1|];
      }
    }
  }

  /** Adding a store over other files leaves the counters of a store's files. */
  lemma CountsAfterWiden(f1: seq<FileName>, d1: map<FileName, LineMap>, d2: map<FileName, LineMap>,
                         parse: FileName -> ParsedFile)
    requires AllIn(f1, d1) && d1.Keys !! d2.Keys
    ensures AllIn(f1, d1 + d2)
    ensures CountsAfter(f1, d1 + d2, parse) == CountsAfter(f1, d1, parse)
  {
    var d := d1 + d2;
    forall i | 0 <= i < |f1|
      ensures f1[i] in d && d1[f1[i]] == d[f1[i]]
    {
      assert f1[i] !in d2;
    }
    CountsAfterFrame(f1, d1, d, parse);
  }

  /** Two stores over disjoint files, reported one after the other: the
      global counters of the combination are the sums of both. */
  lemma {:induction false} CountsAfterConcat(f1: seq<FileName>, d1: map<FileName, LineMap>,
                                             f2: seq<FileName>, d2: map<FileName, LineMap>,
                                             parse: FileName -> ParsedFile)
    requires AllIn(f1, d1) && AllIn(f2, d2) && d1.Keys !! d2.Keys
    ensures AllIn(f1 + f2, d1 + d2)
    ensures CountsAfter(f1 + f2, d1 + d2, parse) ==
              Plus(CountsAfter(f1, d1, parse), CountsAfter(f2, d2, parse))
    decreases |f2|
  {
    AllInConcat(f1, d1, f2, d2);
    if f2 == [] {
      assert f1 + f2 == f1;
      CountsAfterWiden(f1, d1, d2, parse);
      var x := CountsAfter(f1, d1, parse);
      assert CountsAfter(f2, d2, parse) == Counts(0, 0);
      assert Plus(x, Counts(0, 0)) == x;
    } else {
      var d := d1 + d2;
      var n := |f2| - 1;
      var p := f2[..n];
      var last := f2[n];
      assert f2 == p + [last];
      assert f1 + f2 == (f1 + p) + [last];
      assert AllIn(p, d2);
      CountsAfterConcat(f1, d1, p, d2, parse);
      assert d[last] == d2[last];
      var c := CountsOf(FileLines(d2[last], parse(last).weights));
      CountsAfterSnoc(f1 + p, last, d, parse);
      CountsAfterSnoc(p, last, d2, parse);
      var a, b := CountsAfter(f1, d1, parse), CountsAfter(p, d2, parse);
      assert CountsAfter(f1 + f2, d, parse) == Plus(Plus(a, b), c);
      assert CountsAfter(f2, d2, parse) == Plus(b, c);
      PlusAssoc(a, b, c);
    }
  }
}

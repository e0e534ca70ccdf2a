/** Hit data of the coverage store and the rule by which one measurement
    window is merged into it (EnviCodeCoverage::finish). */
module CoverageMerge {

  type FileName = string

  /** Line number -> signed hit counter, as the driver reports it and as the
      store keeps it. Positive: executed that often; 0: not executed;
      negative: a marker such as UnUseFlag. */
  type LineMap = map<int, int>

  /** The counter value the driver uses for a line that was not used. */
  const UnUseFlag: int := -2

  /** One entry of a driver window: a file and its line counters. */
  datatype FileHits = FileHits(file: FileName, lines: LineMap)

  /** A driver window, in the order of the array the driver returns. */
  type Window = seq<FileHits>

  /** The store: the key order of the coverage array and its contents. */
  datatype Store = Store(files: seq<FileName>, data: map<FileName, LineMap>)

  predicate DistinctFiles(files: seq<FileName>)
  {
    forall i, j :: 0 <= i < j < |files| ==> files[i] != files[j]
  }

  /** The files of a store are exactly its keys, each listed once. */
  ghost predicate WellFormed(s: Store)
  {
    DistinctFiles(s.files) && forall f :: f in s.data <==> f in s.files
  }

  /** A window is an array keyed by file name: no file occurs twice. */
  predicate DistinctWindow(w: Window)
  {
    forall i, j :: 0 <= i < j < |w| ==> w[i].file != w[j].file
  }

  /** A non-empty set has an element (what a such-that choice over it needs). */
  lemma NonEmpty(keys: set<int>)
    requires keys != {}
    ensures exists x :: x in keys
  {
    if forall x :: x !in keys {
      assert false;
    }
  }

  predicate NonPositive(lines: LineMap)
  {
    forall l :: l in lines ==> lines[l] <= 0
  }

  function Restrict(m: LineMap, keys: set<int>): (r: LineMap)
    ensures r.Keys == m.Keys * keys
    ensures forall l :: l in r ==> r[l] == m[l]
  {
    map l | l in m && l in keys :: m[l]
  }

  /** The new value of a line that receives a positive count: a positive
      stored count is increased, anything else (a count <= 0, or no entry at
      all, which the source reads as null <= 0) is replaced. */
  function MergeLine(stored: LineMap, line: int, flag: int): int
  {
    if line in stored && stored[line] > 0 then stored[line] + flag else flag
  }

  /** Merging the counters of one window into those a file already has:
      counts <= 0 are skipped, positive counts go through MergeLine. */
  function MergeFile(stored: LineMap, incoming: LineMap): LineMap
  {
    map l | l in stored.Keys + incoming.Keys && (l in stored || incoming[l] > 0) ::
      if l in incoming && incoming[l] > 0 then MergeLine(stored, l, incoming[l]) else stored[l]
  }

  /** What the store holds for the file of entry e after e is merged. */
  function RecordedValue(data: map<FileName, LineMap>, e: FileHits): LineMap
  {
    if e.file in data then MergeFile(data[e.file], e.lines) else e.lines
  }

  /** One iteration of the outer loop of finish: an unseen file is appended
      with its counters as they are, a known file is merged line by line. */
  function RecordFile(s: Store, e: FileHits): Store
  {
    if e.file !in s.data then Store(s.files + [e.file], s.data[e.file := e.lines])
    else Store(s.files, s.data[e.file := MergeFile(s.data[e.file], e.lines)])
  }

  /** The store after merging a whole window, entry after entry. */
  function MergeWindow(s: Store, w: Window): Store
    decreases |w|
  {
    if w == [] then s else RecordFile(MergeWindow(s, w[..|w| - 1]), w[|w| - 1])
  }

  /** The files of w that data does not know yet, in window order. */
  function NewFiles(data: map<FileName, LineMap>, w: Window): (r: seq<FileName>)
    ensures forall f :: f in r ==> f !in data
    decreases |w|
  {
    if w == [] then []
    else NewFiles(data, w[..|w| - 1]) + (if w[|w| - 1].file in data then [] else [w[|w| - 1].file])
  }

  function WindowFiles(w: Window): set<FileName>
  {
    set i | 0 <= i < |w| :: w[i].file
  }

  // ---------------------------------------------------------------------
  // The per-file merge

  lemma MergeFileEmpty(stored: LineMap)
    ensures MergeFile(stored, map[]) == stored
  {
  }

  /** A window entry without a positive count changes nothing. */
  lemma MergeFileNonPositive(stored: LineMap, incoming: LineMap)
    requires NonPositive(incoming)
    ensures MergeFile(stored, incoming) == stored
  {
    var r := MergeFile(stored, incoming);
    assert r.Keys == stored.Keys;
    assert forall l :: l in r ==> r[l] == stored[l];
  }

  /** One step of the inner loop of finish: adding line to the processed
      part of incoming either leaves the merged map alone (count <= 0) or
      updates that single line with MergeLine. */
  lemma MergeFileStep(stored: LineMap, incoming: LineMap, done: set<int>, line: int)
    requires line in incoming && line !in done
    ensures var cur := MergeFile(stored, Restrict(incoming, done));
            MergeFile(stored, Restrict(incoming, done + {line})) ==
              if incoming[line] > 0 then cur[line := MergeLine(cur, line, incoming[line])] else cur
  {
    var cur := MergeFile(stored, Restrict(incoming, done));
    var nxt := MergeFile(stored, Restrict(incoming, done + {line}));
    assert line in cur <==> line in stored;
    assert line in cur ==> cur[line] == stored[line];
    assert MergeLine(cur, line, incoming[line]) == MergeLine(stored, line, incoming[line]);
    if incoming[line] > 0 {
      var exp := cur[line := MergeLine(cur, line, incoming[line])];
      assert nxt.Keys == exp.Keys;
      assert forall l :: l in nxt ==> nxt[l] == exp[l];
    } else {
      assert nxt.Keys == cur.Keys;
      assert forall l :: l in nxt ==> nxt[l] == cur[l];
    }
  }

  // ---------------------------------------------------------------------
  // The window merge, file by file

  /** A file the window does not mention keeps its presence and its value. */
  lemma {:induction false} MergeWindowOutside(s: Store, w: Window, f: FileName)
    requires forall i :: 0 <= i < |w| ==> w[i].file != f
    ensures f in MergeWindow(s, w).data <==> f in s.data
    ensures f in s.data ==> MergeWindow(s, w).data[f] == s.data[f]
    decreases |w|
  {
    if w != [] {
      MergeWindowOutside(s, w[..|w| - 1], f);
    }
  }

  /** For a window with distinct files, the value of every window file after
      the merge is that file's entry merged into what the store held before. */
  lemma {:induction false} MergeWindowAt(s: Store, w: Window, i: int)
    requires DistinctWindow(w) && 0 <= i < |w|
    ensures w[i].file in MergeWindow(s, w).data
    ensures MergeWindow(s, w).data[w[i].file] == RecordedValue(s.data, w[i])
    decreases |w|
  {
    var n := |w| - 1;
    var p := w[..n];
    assert DistinctWindow(p);
    if i == n {
      MergeWindowOutside(s, p, w[n].file);
    } else {
      MergeWindowAt(s, p, i);
    }
  }

  /** The files of the merged store are the old ones plus those of the window. */
  lemma {:induction false} MergeWindowKeys(s: Store, w: Window)
    ensures MergeWindow(s, w).data.Keys == s.data.Keys + WindowFiles(w)
    decreases |w|
  {
    if w != [] {
      var p := w[..|w| - 1];
      MergeWindowKeys(s, p);
      assert WindowFiles(w) == WindowFiles(p) + {w[|w| - 1].file};
    }
  }

  /** The key order of the merged store: the old order, then the window's
      new files in window order. */
  lemma {:induction false} MergeWindowFiles(s: Store, w: Window)
    requires DistinctWindow(w)
    ensures MergeWindow(s, w).files == s.files + NewFiles(s.data, w)
    decreases |w|
  {
    if w != [] {
      var n := |w| - 1;
      var p := w[..n];
      assert DistinctWindow(p);
      MergeWindowFiles(s, p);
      MergeWindowOutside(s, p, w[n].file);
    }
  }

  /** Merging keeps the file list and the keys in step, each file once. */
  lemma {:induction false} MergeWindowWellFormed(s: Store, w: Window)
    requires WellFormed(s)
    ensures WellFormed(MergeWindow(s, w))
    decreases |w|
  {
    if w != [] {
      MergeWindowWellFormed(s, w[..|w| - 1]);
    }
  }

  // ---------------------------------------------------------------------
  // Properties of the merge rule

  /** A file not yet in the store is inserted with the window's counters
      exactly as reported, zero and negative entries included. */
  lemma NewFileCopiedVerbatim(s: Store, w: Window, i: int)
    requires DistinctWindow(w) && 0 <= i < |w| && w[i].file !in s.data
    ensures w[i].file in MergeWindow(s, w).data
    ensures MergeWindow(s, w).data[w[i].file] == w[i].lines
  {
    MergeWindowAt(s, w, i);
  }

  /** For a known file, a count <= 0 is skipped: the stored value (or its
      absence) is left as it was, so a stored 5 stays 5 and a stored -2
      stays -2. */
  lemma NonPositiveCountSkipped(s: Store, w: Window, i: int, line: int)
    requires DistinctWindow(w) && 0 <= i < |w| && w[i].file in s.data
    requires line in w[i].lines && w[i].lines[line] <= 0
    ensures w[i].file in MergeWindow(s, w).data
    ensures line in MergeWindow(s, w).data[w[i].file] <==> line in s.data[w[i].file]
    ensures line in s.data[w[i].file] ==>
              MergeWindow(s, w).data[w[i].file][line] == s.data[w[i].file][line]
  {
    MergeWindowAt(s, w, i);
  }

  /** For a known file, a positive count replaces a stored value <= 0 or a
      missing line, and is added to a stored positive value. */
  lemma PositiveCountMerged(s: Store, w: Window, i: int, line: int)
    requires DistinctWindow(w) && 0 <= i < |w| && w[i].file in s.data
    requires line in w[i].lines && w[i].lines[line] > 0
    ensures w[i].file in MergeWindow(s, w).data
    ensures line in MergeWindow(s, w).data[w[i].file]
    ensures var old_ := s.data[w[i].file];
            MergeWindow(s, w).data[w[i].file][line] ==
              if line in old_ && old_[line] > 0 then old_[line] + w[i].lines[line]
              else w[i].lines[line]
  {
    MergeWindowAt(s, w, i);
  }

  /** Merging never removes a stored line and never decreases its count. */
  lemma MergeNeverDecreases(s: Store, w: Window, f: FileName, line: int)
    requires DistinctWindow(w) && f in s.data && line in s.data[f]
    ensures f in MergeWindow(s, w).data && line in MergeWindow(s, w).data[f]
    ensures MergeWindow(s, w).data[f][line] >= s.data[f][line]
  {
    if i :| 0 <= i < |w| && w[i].file == f {
      MergeWindowAt(s, w, i);
    } else {
      MergeWindowOutside(s, w, f);
    }
  }

  /** A line of a known file that the window does not report keeps its
      presence and its value. */
  lemma MergeKeepsUnreportedLine(s: Store, w: Window, f: FileName, line: int)
    requires DistinctWindow(w) && f in s.data
    requires forall i :: 0 <= i < |w| && w[i].file == f ==> line !in w[i].lines
    ensures f in MergeWindow(s, w).data
    ensures line in MergeWindow(s, w).data[f] <==> line in s.data[f]
    ensures line in s.data[f] ==> MergeWindow(s, w).data[f][line] == s.data[f][line]
  {
    if i :| 0 <= i < |w| && w[i].file == f {
      MergeWindowAt(s, w, i);
    } else {
      MergeWindowOutside(s, w, f);
    }
  }

  /** A window whose every entry is a known file without a positive count
      (in particular the empty window) leaves the store as it is. */
  lemma {:induction false} NonPositiveWindowNoOp(s: Store, w: Window)
    requires forall i :: 0 <= i < |w| ==> w[i].file in s.data && NonPositive(w[i].lines)
    ensures MergeWindow(s, w) == s
    decreases |w|
  {
    if w != [] {
      var e := w[|w| - 1];
      NonPositiveWindowNoOp(s, w[..|w| - 1]);
      MergeFileNonPositive(s.data[e.file], e.lines);
    }
  }

  /** A line seen once, then reported with 0, keeps its count; a line stored
      with the unused marker takes a later positive count. */
  lemma ZeroAfterHitKeepsCount()
    ensures var s1 := MergeWindow(Store([], map[]), [FileHits("F", map[10 := 1, 12 := UnUseFlag])]);
            var s2 := MergeWindow(s1, [FileHits("F", map[10 := 0, 12 := 3])]);
            s2.files == ["F"] && s2.data["F"] == map[10 := 1, 12 := 3]
  {
    var w1 := [FileHits("F", map[10 := 1, 12 := UnUseFlag])];
    var w2 := [FileHits("F", map[10 := 0, 12 := 3])];
    var s1 := MergeWindow(Store([], map[]), w1);
    assert w1[..0] == [];
    assert MergeWindow(Store([], map[]), w1[..0]) == Store([], map[]);
    assert s1 == Store(["F"], map["F" := map[10 := 1, 12 := UnUseFlag]]);
    var s2 := MergeWindow(s1, w2);
    assert w2[..0] == [];
    assert MergeWindow(s1, w2[..0]) == s1;
    var m := MergeFile(map[10 := 1, 12 := UnUseFlag], map[10 := 0, 12 := 3]);
    assert m.Keys == {10, 12};
    assert m == map[10 := 1, 12 := 3];
  }
}

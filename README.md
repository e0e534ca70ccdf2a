# EnviCodeCoverage and EnviOrMapBase in Dafny

This project models two classes of the Envi3 PHP framework and proves properties of the model.

**EnviCodeCoverage** keeps a coverage store: file name → line → signed hit counter. It has four operations:

- `finish` merges each measurement window the instrumentation driver returns into the store, using a three-way rule.
- `free` empties the store.
- `getCodeCoverage` can first add the white-listed files the store has not seen. It then reports on a copy of the store:
  - per-line triples (clamped hits, parser weight, covered?);
  - global covered/total counters and the global rate;
  - a class entry for every class with recorded lines, with per-method entries in that class's `methods` array.
- `addWhiteListFiles` is what `getCodeCoverage` calls to do the adding step.

**EnviOrMapBase** is the base class of ORM records. Its state is three fields:

- `_from_hydrate`: the row as last read or written;
- `to_save`: the working copy;
- `_is_modify`: the dirty flag.

It has `hydrate`, `toArray`, the magic `__set`, `__get` and `__call` (which maps accessor names like `getUserName` to the key `user_name`), and the choices `save` and `delete` make between database actions.

Files:

- `coverage_merge.dfy`, module `CoverageMerge`: the store as a value (key order plus contents) and the merge rule of `finish`, with its properties.
- `coverage_report.dfy`, module `CoverageReport`:
  - the report as specification functions, folded over the store's files in key order;
  - the report's loops as methods proved against those functions;
  - the properties of the report.
- `coverage_engine.dfy`, module `Coverage`: the class `CodeCoverage`.
  - Its fields are the store's key order, its contents and the parser.
  - Its methods are `Finish`, `Free`, `AddWhiteListFiles` and `GetCodeCoverage`. Each is proved against the functions of the two modules above.
- `ormap.dfy`, module `OrMap`:
  - a record's state and its transitions as functions;
  - the class `Record`, whose methods are proved to perform those transitions;
  - a recorder class `Dbi` that stands for the database handle;
  - the accessor-name conversion and its round trip.

External collaborators:

- The parser is a function from file name to `ParsedFile`: the weight of each line, and the classes in order, each with its line range and its methods.
- The driver's window and the filter's white list are parameters.
- The database handle records the calls made on it. `lastInsertId` answers with a value fixed when the handle is created.

## Model

| member | source | states |
|---|---|---|
| CoverageMerge.MergeFileEmpty | libs/envi3/util/EnviCodeCoverage.php:172-181 | an entry without lines leaves a known file's counters as they are |
| CoverageMerge.MergeFileNonPositive | libs/envi3/util/EnviCodeCoverage.php:172-175 | an entry whose counts are all <= 0 leaves a known file's counters exactly as they were |
| CoverageMerge.MergeFileStep | libs/envi3/util/EnviCodeCoverage.php:172-181 | one pass of the inner loop changes only the current line: a count <= 0 changes nothing, a positive count goes through the replace-or-add rule |
| CoverageMerge.MergeWindowOutside | libs/envi3/util/EnviCodeCoverage.php:166-182 | a file the window does not mention keeps its presence and its counters |
| CoverageMerge.MergeWindowAt | libs/envi3/util/EnviCodeCoverage.php:167-181 | each window file ends up as its entry merged into what the store held before (or as the entry itself for a new file) |
| CoverageMerge.MergeWindowKeys | libs/envi3/util/EnviCodeCoverage.php:167-170 | the files after the merge are the old files plus the window's files |
| CoverageMerge.MergeWindowFiles | libs/envi3/util/EnviCodeCoverage.php:167-170 | the key order after the merge is the old order followed by the window's new files, in window order |
| CoverageMerge.MergeWindowWellFormed | libs/envi3/util/EnviCodeCoverage.php:166-182 | the merge keeps the key list and the contents in step, with each file listed once |
| CoverageMerge.NewFileCopiedVerbatim | libs/envi3/util/EnviCodeCoverage.php:168-170 | a file not yet stored is inserted with the window's counters exactly, zero and negative counts included |
| CoverageMerge.NonPositiveCountSkipped | libs/envi3/util/EnviCodeCoverage.php:172-175 | for a known file, an incoming count <= 0 leaves the stored value and its presence unchanged |
| CoverageMerge.PositiveCountMerged | libs/envi3/util/EnviCodeCoverage.php:176-179 | for a known file, a positive count replaces a stored value <= 0 or a missing line, and is added to a stored positive value |
| CoverageMerge.MergeNeverDecreases | libs/envi3/util/EnviCodeCoverage.php:166-182 | a merge never removes a stored line and never lowers its count |
| CoverageMerge.MergeKeepsUnreportedLine | libs/envi3/util/EnviCodeCoverage.php:166-182 | a stored line the window does not report keeps its presence and its value |
| CoverageMerge.NonPositiveWindowNoOp | libs/envi3/util/EnviCodeCoverage.php:166-182 | a window of known files without positive counts, the empty window in particular, leaves the store unchanged |
| CoverageMerge.ZeroAfterHitKeepsCount | libs/envi3/util/EnviCodeCoverage.php:166-182 | a concrete case: a line hit once and then reported 0 stays 1, and a line stored with the unused marker -2 takes a later count of 3 |
| CoverageReport.LineResults | libs/envi3/util/EnviCodeCoverage.php:218-231 | the line loop builds the file's triples and advances the global counters by the file's sums, whatever order the lines are taken in |
| CoverageReport.RollupRange | libs/envi3/util/EnviCodeCoverage.php:245-254 | the walk over an inclusive range gives the range's summary: its recorded lines, how many there are, how many are covered, and the rate |
| CoverageReport.MethodRollup | libs/envi3/util/EnviCodeCoverage.php:262-281 | the method loop builds the class's `methods` array, one summary per method name |
| CoverageReport.ClassRollup | libs/envi3/util/EnviCodeCoverage.php:233-283 | the class loop skips classes with no recorded lines and stores every other class's entry under its name |
| CoverageReport.ReportFiles | libs/envi3/util/EnviCodeCoverage.php:213-292 | the file loop (line loop, then class loop, per file in store order) returns the report function of the files: `coverage_data_all`, `class_coverage_data`, the global counters and the rate |
| CoverageReport.LineTriple | libs/envi3/util/EnviCodeCoverage.php:219-222 | each recorded line becomes (max(val, 0), weight, max(val, 0) >= weight); a line without a parser weight has weight 0 and is covered |
| CoverageReport.CountsOverBounded | libs/envi3/util/EnviCodeCoverage.php:223-229 | when no line adds more to covered than to total, or anything negative, the summed counters satisfy 0 <= covered <= total |
| CoverageReport.FileCountsBounded | libs/envi3/util/EnviCodeCoverage.php:223-229 | with non-negative weights, a covered line adds its weight to both counters and an uncovered line adds hits plus weight to the total only, so one file's counters satisfy 0 <= covered <= total |
| CoverageReport.RateInRange | libs/envi3/util/EnviCodeCoverage.php:291 | a rate computed from 0 <= covered <= total lies in [0, 100] |
| CoverageReport.RangeSummaryFacts | libs/envi3/util/EnviCodeCoverage.php:245-259 | a class or method `detail` holds exactly the recorded lines of its inclusive range, total is their number, covered counts the covered ones, covered <= total, the rate is in [0, 100] and is 0 when total is 0 |
| CoverageReport.MethodsOverHas | libs/envi3/util/EnviCodeCoverage.php:262-281 | every method of an included class has an entry, even one with no recorded lines |
| CoverageReport.MethodsOverFrom | libs/envi3/util/EnviCodeCoverage.php:262-281 | every `methods` entry is the summary of the last method of the class with that name |
| CoverageReport.ClassesOverKeeps | libs/envi3/util/EnviCodeCoverage.php:233-283 | one file's class loop never removes an entry |
| CoverageReport.ClassesOverCovers | libs/envi3/util/EnviCodeCoverage.php:245-260 | every class of the file that has recorded lines gets an entry under its name |
| CoverageReport.ClassesOverFrom | libs/envi3/util/EnviCodeCoverage.php:245-260 | after one file's class loop, an entry is either the one from before or the entry of the file's last class of that name with recorded lines |
| CoverageReport.ReportClasses | libs/envi3/util/EnviCodeCoverage.php:215-283 | each entry of `class_coverage_data` belongs to a class with recorded lines and has an empty `method` array (so a class with total 0 is left out together with its methods); every class with recorded lines has an entry |
| CoverageReport.ReportLines | libs/envi3/util/EnviCodeCoverage.php:212-231 | `coverage_data_all` holds exactly the store's files, each mapped to the triples of its own lines |
| CoverageReport.GlobalRateInRange | libs/envi3/util/EnviCodeCoverage.php:287-291 | with non-negative weights the global counters satisfy 0 <= covered <= total, and the global rate is in [0, 100] and is 0 when total is 0 |
| CoverageReport.CountsAfterBounded | libs/envi3/util/EnviCodeCoverage.php:223-229 | with non-negative weights, the global counters summed over all files satisfy 0 <= covered <= total |
| CoverageReport.CountsAfterConcat | libs/envi3/util/EnviCodeCoverage.php:215-229 | reporting two stores over disjoint files one after the other gives global counters that are the sums of each store's counters |
| Coverage.UnseenExactly | libs/envi3/util/EnviCodeCoverage.php:301-305 | a white-listed file is passed to `include_once` exactly when the store does not hold it |
| Coverage.WindowFilesReported | libs/envi3/util/EnviCodeCoverage.php:206-215 | after the white-list step, every file the window reports has its lines in `coverage_data_all`, as does every file stored before |
| Coverage.HalfCoveredMethod | libs/envi3/util/EnviCodeCoverage.php:262-280 | a concrete case: a method over lines 10-12 with line 10 hit and line 11 not hit has total 2, covered 1 and rate 50 |
| Coverage.CodeCoverage.constructor | libs/envi3/util/EnviCodeCoverage.php:49 | a new coverage object holds no data |
| Coverage.CodeCoverage.Finish | libs/envi3/util/EnviCodeCoverage.php:164-183 | the store after `finish` is the old store with the window merged into it, and the key list and contents stay in step |
| Coverage.CodeCoverage.MergeLines | libs/envi3/util/EnviCodeCoverage.php:172-181 | the inner loop updates one known file in place to the merged map, and no other file changes |
| Coverage.CodeCoverage.Free | libs/envi3/util/EnviCodeCoverage.php:192-195 | `free` leaves the store empty |
| Coverage.CodeCoverage.AddWhiteListFiles | libs/envi3/util/EnviCodeCoverage.php:297-307 | returns exactly the white-listed files the store does not hold, in white-list order, as the files passed to `include_once`, then merges the window |
| Coverage.CodeCoverage.Rollup | libs/envi3/util/EnviCodeCoverage.php:212-292 | reporting on a copy of the store leaves the store as it is and returns exactly the report function of the store |
| Coverage.CodeCoverage.GetCodeCoverage | libs/envi3/util/EnviCodeCoverage.php:206-293 | without the white-list step the store is unchanged; with it, the store is the old store with the window merged in; either way the result is the report of the resulting store |
| OrMap.Lookup | libs/envi3/EnviOrMapBase.php:162 | the value is non-null exactly when the key is set, and equals the stored value then |
| OrMap.SaveDecision | libs/envi3/EnviOrMapBase.php:86-97 | insert exactly when the first primary key is not set in the hydrated row; do nothing exactly when it is set and the record is clean; update exactly when it is set and the record is dirty |
| OrMap.InsertedRow | libs/envi3/EnviOrMapBase.php:88-90 | after an insert, the first primary key is filled from the insert id only if the working copy does not set it |
| OrMap.AccessorOf | libs/envi3/EnviOrMapBase.php:176-185 | a name starting with "get" is a getter and otherwise one starting with "set" is a setter, each of the key the conversion derives; any other name is no accessor |
| OrMap.Record.constructor | libs/envi3/EnviOrMapBase.php:38-40 | a fresh record is dirty and holds no data |
| OrMap.Record.Hydrate | libs/envi3/EnviOrMapBase.php:53-58 | `hydrate` sets the snapshot and the working copy to the row and clears the dirty flag |
| OrMap.HydrateThenToArray | libs/envi3/EnviOrMapBase.php:53-70 | `toArray` straight after `hydrate(arr)` returns `arr`, and the record is clean with `arr` as its snapshot |
| OrMap.SetThenToArray | libs/envi3/EnviOrMapBase.php:67-70 | `toArray` after `__set(name, v)` is the earlier `toArray` with that one column written: `name` reads back as `v`, every other column as before |
| OrMap.Record.Set | libs/envi3/EnviOrMapBase.php:146-150 | `__set` writes one column of the working copy and sets the dirty flag; the snapshot is untouched |
| OrMap.Record.Get | libs/envi3/EnviOrMapBase.php:160-163 | `__get` returns the column's value, or null when it is not set |
| OrMap.Record.Call | libs/envi3/EnviOrMapBase.php:174-186 | a getter returns the derived key's value and changes nothing; a setter stores the first argument (null if none) under the derived key, sets the dirty flag and returns null; any other name changes nothing and is reported undefined |
| OrMap.Record.Save | libs/envi3/EnviOrMapBase.php:80-108 | `save` takes SaveDecision's action, leaves the state Saved describes, and makes exactly the calls SaveCalls lists: insert (then lastInsertId, only when needed), nothing, or one update bound to the primary keys |
| OrMap.Record.Delete | libs/envi3/EnviOrMapBase.php:118-134 | `delete` succeeds exactly when every primary key is set in the snapshot; on failure it changes nothing and makes no call; on success it makes one query bound to the keys' values and clears the dirty flag |
| OrMap.AssignedThenLookup | libs/envi3/EnviOrMapBase.php:146-163 | a column written with `__set` reads back with `__get`, null staying null; every other column reads as before |
| OrMap.HydratedSavesAsUpdate | libs/envi3/EnviOrMapBase.php:53-58 | after hydrating a row with the first primary key set, `save` does nothing until a column is written, and updates after one is |
| OrMap.HydratedWithoutKeyInserts | libs/envi3/EnviOrMapBase.php:86-93 | after hydrating a row that does not set the first primary key, `save` inserts, before or after a column is written |
| OrMap.FreshRecordInserts | libs/envi3/EnviOrMapBase.php:86-93 | a record that was never hydrated is inserted |
| OrMap.SavedIsClean | libs/envi3/EnviOrMapBase.php:86-108 | after `save` the record is clean; after an insert or an update the snapshot equals the working copy; a save that does nothing changes nothing |
| OrMap.SaveTwiceSavesOnce | libs/envi3/EnviOrMapBase.php:86-108 | a second `save` straight after one that wrote the row makes no call, provided the saved row sets the first primary key |
| OrMap.WhereBindsKeys | libs/envi3/EnviOrMapBase.php:99-105 | the update's WHERE list binds every primary key, in order, to its hydrated value |
| OrMap.DeleteBindsKeys | libs/envi3/EnviOrMapBase.php:123-132 | the delete query's parameters are the primary keys' hydrated values, in order |
| OrMap.DeleteEffect | libs/envi3/EnviOrMapBase.php:118-134 | a failed delete leaves the state as it was and makes no call; a successful one changes only the dirty flag and makes exactly one call |
| OrMap.AccessorRoundTrip | libs/envi3/EnviOrMapBase.php:176-183 | for a snake_case key k, `get` and `set` followed by k's CamelCase spelling both address k: getUserName and setUserName reach user_name |
| OrMap.PrefixRoundTrip | libs/envi3/EnviOrMapBase.php:177 | inserting underscores, dropping four characters and lowercasing turns any three-lowercase-letter prefix followed by a CamelCase key back into the key |
| OrMap.LowercaseGetterLosesLetter | libs/envi3/EnviOrMapBase.php:177 | the conversion drops the fourth character whatever it is: `getname` reads the key `ame` |

## Behaviour of the code worth noting

- A file new to the store keeps its window counters as reported, zero and negative ones included (`CoverageMerge.NewFileCopiedVerbatim`).
- Class and method totals count every recorded line in the range, whatever its weight.
- A class without recorded lines is skipped before its method loop, so none of its methods is reported.
- `hydrate` makes `save` an update only when the hydrated row sets the first primary key. Hydrating a row that does not set it still makes `save` insert (`OrMap.HydratedWithoutKeyInserts`).
- The white-list step passes to `include_once` only the files the store does not hold. A stored file's unreported lines stay absent from the store and from the report: for a method over lines 10-12 whose file holds {10: 1, 11: 0}, the rate is 50, because line 12 is not stored and so is not counted (`Coverage.HalfCoveredMethod`).

## Left out

- `initialize`, `factory` and `subClassFactory` are left out; they are runtime bootstrap (xdebug check, `dl`, OS detection, dynamic `include` of sub-classes).
- The `driver`, `filter` and `parser` accessors and `start` are left out; they only hand out or call the collaborators.
- The internals of the driver, the filter and the parser are left out. They enter as the window parameter, the white-list parameter and the constructor's parse function.
- `include_once` of the white-listed files is file I/O. `AddWhiteListFiles` returns the list of files it passes to `include_once`. The window that measurement produces is a parameter, so the model does not tie that window to those files.
- `include_once` does nothing for a file already included earlier in the process, or for a white-list duplicate the second time. Such a file is not loaded again, so the window need not report it.
- The report's key order is not modelled. PHP's arrays are ordered: a file's triples follow the store's line order, and `class_coverage_data` keeps an overwritten class at its first position. The model's `Summary.detail`, `ClassReport.methods`, `Report.coverageDataAll` and `Report.classCoverageData` are maps. A class without methods has no `methods` element in the source and an empty map here.
- PHP iterates a file's lines in key order. The model's loops take lines in any order. Each line is merged on its own and the counters are sums, so the order does not matter.
- Rates are exact `real` numbers, not floating point. A rate of 0 is the integer 0 in the source and 0.0 here.
- Counters are unbounded integers. PHP's switch to float on 64-bit overflow is not modelled.
- Counter values are assumed to be integers. Any other PHP value a driver could return is not modelled.
- The pre-built `method` element of a class entry is the field `methodSlot`, because `method` is a keyword.
- No default database handle: `Save` and `Delete` must be given a handle. The lookup through `extension()->DBI()` and `default_instance_name` is left out.
- The SQL text and `quoteSmart` are left out. Calls are recorded as values: the table, the row, and the key/value bindings.
- `trigger_error` of `__call` is left out. The call returns `UndefinedMethod`.
- PHP's warnings and notices for undefined offsets are not modelled. They arise for a positive count on a line the stored file lacks, a line without a parser weight, `$pkeys[0]` on an empty key list, a primary key missing from `_from_hydrate` in an update, and `$arguments[0]` with no argument. The model follows PHP's default of reading null and continuing.
- `mb_ereg_replace` and `strtolower` are modelled on ASCII letters only.
- Column values are null, integers or strings. Other PHP values are not modelled.
- CoverageReport.Weight: for a line the parser does not list, the source's triple stores null as the weight. The model stores 0; comparisons and sums treat the two alike.
- OrMap.Record.ToArray: `_from_hydrate` and `to_save` start as PHP null and are modelled as the empty map. Every isset, read and write in the source treats the two alike. Only `toArray` on a record that was never written, and the row that `save` passes to the insert of such a record, are null in the source and the empty map here.
- `save` returns `true` after an insert and null otherwise. This is modelled as the `SaveAction` taken.
- `delete` returns false on failure and null on success. This is modelled as `false` and `true`.
- `libs/envi3/task/plugin/db/help.php` is left out; it only prints help text and exits.

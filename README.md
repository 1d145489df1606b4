# IGV alignment loading and D4 coverage statistics, modelled in Dafny

This project models five pieces of the IGV genome browser:

- **The alignment data manager** (`alignment_data_manager.dfy`, module `AlignmentData`). Per alignment track it keeps:
  - a cache of loaded intervals and a cache of packed alignments, both keyed by the genomic range of a reference frame;
  - a single-flight load coordinator driven by the `isLoading` flag;
  - the alias table that maps the genome's chromosome names to the names the alignment file uses.

  It also covers `load` with its fetch window, `loadAlignments`, `loadInterval`, `repackAlignments`, `sortRows`, `getGroups`, `clear`, `getNLevels`, `getMaxGroupCount`, `setViewAsPairs` and `setMinJunctionCoverage`.
  - The range-keyed cache is in `position_map.dfy` (module `PositionMaps`).
  - The stable row sort that `sortRows` relies on is in `row_sort.dfy` (module `RowSort`).
- **The alignment reader factory** (`alignment_reader_factory.dfy`, module `ReaderFactory`):
  - the first-match dispatch of `getReader` on the locator's type and path;
  - `.bam.list` files with their `#replace key=value` directives;
  - comma-separated merged readers;
  - the set of upper-cased platform names of a file header.
- **The D4 bucket statistics of the native library** (`d4_stat.dfy`, module `D4Stat`):
  - `d4_run_stat` lays out equal-width buckets;
  - `task_init` clips the buckets to each part of the file;
  - `task_proc` scans a part's values, keeping per-bucket minima and maxima;
  - `task_clean` merges the parts into the bucket table;
  - the `d4_stat_get_*` accessors read the table.
- **The Java side of the D4 source** (`d4_source.dfy`, module `D4Source`):
  - the `SummizedValue` scores and their end encoding;
  - the chromosome map its constructor builds;
  - `getPrecomputedSummaryScores`, with its guard, its bin-count clamp and its window-function switch.
- **The methylation track's single-slot cache** (`methyl_track.dfy`, module `Methyl`): the `render` decision, the widened load, and the choice of resolution threshold.

Two supporting modules hold what several of these rely on:

- `java_lang.dfy` (module `JavaLang`): 32-bit `int` wrap-around, division truncating toward zero, the `String` operations (`startsWith`, `contains`, `trim`, `split`, `replace`, and case conversion restricted to ASCII letters), and a `HashMap` filled by successive `put` calls.
- `wrappers.dfy` (module `Wrappers`): `Option` and `Result`.

Code that changes state in place is modelled as classes and methods:

- the manager, its packed alignments, its splice-junction helpers and the render options it shares;
- the methylation track;
- the D4 scores and parser.

The D4 bucket table is an `array`, updated in place by `task_clean`; a part's context is another `array`, updated in place by `task_proc`. Every loop is proved against a function that specifies it. The properties the source promises are proved as lemmas about those functions.

Work that the model does not run itself enters as parameters:

- the tile loader;
- the alignment packer;
- a row's score;
- the opening of a nested reader;
- the lines of a list file;
- the values a D4 file part holds;
- the methylation data source.

The background load of the manager is modelled in two sequential steps:

1. `LoadAlignments` submits the load (the field `task`).
2. `CompleteLoad` runs it to its normal end; `AbortLoad` ends it with an exception thrown by `loadInterval`.

The range-keyed cache class is not part of this model. It is modelled as a list of entries in storage order:

- a lookup answers the most recently stored entry whose range contains the query range;
- a store under a range already present replaces that entry.

## Model

| member | source | states |
|---|---|---|
| `JavaLang.PutInOrder` | src/org/broad/igv/sam/AlignmentDataManager.java:89-92 | after a sequence of `put` calls the map's keys are exactly the old keys plus every key put |
| `JavaLang.PutInOrderLastWins` | src/org/broad/igv/sam/AlignmentDataManager.java:89-92 | the value of a key is the one of its last `put` |
| `JavaLang.PutInOrderFromPairs` | src/org/broad/igv/sam/AlignmentDataManager.java:89-92 | every key of the filled map holds the value of some `put` under that key, or the value it had before |
| `JavaLang.ContainsIffOccurs` | src/org/broad/igv/methyl/MethylTrack.java:59 | `String.contains` holds exactly when the marker occurs at some index |
| `PositionMaps.Find` | src/org/broad/igv/sam/AlignmentDataManager.java:286 | of the cache as modelled above: a lookup finds a value exactly when some stored range contains the query, and the value found is stored under such a range |
| `PositionMaps.GetAfterPut` | src/org/broad/igv/sam/AlignmentDataManager.java:347 | of the cache as modelled above: after storing `v` under `r`, every query `r` contains finds `v` and every other query finds what it found before |
| `PositionMaps.PutAllFindsValue` | src/org/broad/igv/sam/AlignmentDataManager.java:273 | of the cache as modelled above: after one packing is stored under every frame's range, each of those ranges finds it |
| `PositionMaps.PutAllElsewhere` | src/org/broad/igv/sam/AlignmentDataManager.java:273 | of the cache as modelled above: a query no frame's range contains is unaffected by the stores |
| `PositionMaps.PutEntries` | src/org/broad/igv/sam/AlignmentDataManager.java:347 | of the cache as modelled above: after `put(r, v)` the stored entries, which `getLoadedIntervals` lists, are `(r, v)` and every old entry stored under another range, and nothing else |
| `PositionMaps.PutKeepsRangesDistinct` | src/org/broad/igv/sam/AlignmentDataManager.java:347 | of the cache as modelled above: when no two entries share a range, none do after a `put` |
| `RowSort.StableSortSortsAndPermutes` | src/org/broad/igv/sam/AlignmentDataManager.java:177 | the sort of a group's rows is ordered by score and is a permutation of the rows |
| `RowSort.StableSortIsStable` | src/org/broad/igv/sam/AlignmentDataManager.java:177 | rows of equal score keep their relative order |
| `RowSort.StableSortOfSorted` | src/org/broad/igv/sam/AlignmentDataManager.java:177 | sorting rows already in score order changes nothing |
| `AlignmentData.FetchWindow` | src/org/broad/igv/sam/AlignmentDataManager.java:288-305 | with `expandEnds` the window starts at 0 or later, ends at or after the request's end, and starts at or before a non-negative request start; without it the window is the request |
| `AlignmentData.FetchWindowIsSymmetric` | src/org/broad/igv/sam/AlignmentDataManager.java:290-305 | without overflow or clamping the window is `[c - e, c + e]` around the centre `c`, where `e = max(end - start, windowSize / 2)`, so it is at least twice the request and about the window size wide |
| `AlignmentData.AliasMapsToLastName` | src/org/broad/igv/sam/AlignmentDataManager.java:85-95 | every alias maps to the last sequence name that has it |
| `AlignmentData.SortGroupsWithinGroups` | src/org/broad/igv/sam/AlignmentDataManager.java:173-178 | each group is sorted by score on its own, keeps exactly its rows, and keeps equal-score rows in order |
| `AlignmentData.AlignmentDataManager.constructor` | src/org/broad/igv/sam/AlignmentDataManager.java:69-75 | empty caches, not loading, default options; the alias table is filled only when there is a genome and the reader has sequence names |
| `AlignmentData.AlignmentDataManager.InitChrMap` | src/org/broad/igv/sam/AlignmentDataManager.java:85-95 | the alias table is the old one with each sequence name put under its alias, in order, and nothing else changes |
| `AlignmentData.AlignmentDataManager.Load` | src/org/broad/igv/sam/AlignmentDataManager.java:278-309 | a load is submitted exactly when the interval cached for the frame does not contain the request, no load is running and the chromosome is not `All`; it asks for the fetch window; the caches are not written |
| `AlignmentData.AlignmentDataManager.LoadAlignments` | src/org/broad/igv/sam/AlignmentDataManager.java:326-356 | single flight: a load is submitted exactly when none is running and the chromosome is not `All`, and then the flag is set |
| `AlignmentData.AlignmentDataManager.LoadInterval` | src/org/broad/igv/sam/AlignmentDataManager.java:358-386 | the tile is queried under the alias-mapped name (the name itself when unmapped); the interval is labelled with the requested name and range and carries a junction helper with the current options |
| `AlignmentData.AlignmentDataManager.CompleteLoad` | src/org/broad/igv/sam/AlignmentDataManager.java:342-353 | the interval is the one `loadInterval` builds (the tile queried under the alias-mapped name, a fresh junction helper with the current options) and is stored under its own range and found there; if the frame then has a loaded interval, a fresh packing of that interval, with the load's pairing option, is stored under the frame's range and nothing else in the packed cache changes; otherwise the packed cache is unchanged; the flag is cleared |
| `AlignmentData.AlignmentDataManager.AbortLoad` | src/org/broad/igv/sam/AlignmentDataManager.java:342-353 | an exception from `loadInterval` stores nothing and, as written, leaves the flag set |
| `AlignmentData.AlignmentDataManager.FailLoad` | src/org/broad/igv/sam/AlignmentDataManager.java:342-353 | a failed load stores nothing and clears the flag |
| `AlignmentData.AlignmentDataManager.RepackAlignments` | src/org/broad/igv/sam/AlignmentDataManager.java:258-275 | all or nothing: when a frame has no loaded interval nothing is written; otherwise one fresh object holding exactly the packer's output for the frames' intervals (group keys, group rows, level count) is stored under every frame's range, and the rest of the packed cache is as before |
| `AlignmentData.AlignmentDataManager.CollectIntervals` | src/org/broad/igv/sam/AlignmentDataManager.java:260-268 | the lookup loop answers the interval loaded for each frame, in frame order, exactly when every frame has one |
| `AlignmentData.AlignmentDataManager.StoreAll` | src/org/broad/igv/sam/AlignmentDataManager.java:273 | the packing is stored under each frame's range in turn and nothing else changes |
| `AlignmentData.AlignmentDataManager.SortRows` | src/org/broad/igv/sam/AlignmentDataManager.java:166-180 | fails exactly when either cache lacks the frame; otherwise that packing's groups are each stably sorted by score and no other packing changes |
| `AlignmentData.AlignmentDataManager.GetGroups` | src/org/broad/igv/sam/AlignmentDataManager.java:311-318 | the load it issues submits the request itself exactly when the cached interval misses, no load is running and the chromosome is not `All`; an existing packing leaves the packed cache unchanged; otherwise, when every frame has a loaded interval, a fresh packing of all frames' intervals is stored under every frame's range, and when one is missing nothing is written; the answer is the packing now cached for the frame, present when the frame is among the frames and all are loaded |
| `AlignmentData.AlignmentDataManager.Clear` | src/org/broad/igv/sam/AlignmentDataManager.java:320-324 | both caches are empty afterwards; the load state is untouched |
| `AlignmentData.AlignmentDataManager.GetNLevels` | src/org/broad/igv/sam/AlignmentDataManager.java:408-415 | the maximum level count over the cached packings, or 0 when there are none |
| `AlignmentData.AlignmentDataManager.GetMaxGroupCount` | src/org/broad/igv/sam/AlignmentDataManager.java:421-428 | the maximum group count over the cached packings, or 0 when there are none |
| `AlignmentData.AlignmentDataManager.SetViewAsPairs` | src/org/broad/igv/sam/AlignmentDataManager.java:182-189 | the option takes the new value; an unchanged option repacks nothing; a changed one stores, when all frames are loaded, a fresh packing of their intervals made with the new option under every frame's range, and writes nothing otherwise; the loaded intervals, load state, alias table and load options are untouched |
| `AlignmentData.AlignmentDataManager.SetMinJunctionCoverage` | src/org/broad/igv/sam/AlignmentDataManager.java:459-464 | new options with the new coverage and the old flanking width, pushed to the junction helper of every loaded interval |
| `AlignmentData.LoadAfterFailedLoad` | src/org/broad/igv/sam/AlignmentDataManager.java:330-353 | as written, after a load that ends in an exception the next load is dropped |
| `AlignmentData.LoadAfterFailedLoadCorrected` | src/org/broad/igv/sam/AlignmentDataManager.java:330-353 | with the flag cleared on failure, the next load is submitted |
| `ReaderFactory.SelectBranchIsFirstMatch` | src/org/broad/igv/sam/reader/AlignmentReaderFactory.java:58-95 | the dispatch takes a branch exactly when its test holds and no earlier branch's test does, in the order alist, CGI, SAM, Gerald, BAM, list, Goby, Google |
| `ReaderFactory.SelectBranchFailsIffNoMatch` | src/org/broad/igv/sam/reader/AlignmentReaderFactory.java:58-99 | the "cannot find reader" error happens exactly when no branch's test holds |
| `ReaderFactory.OpenAllInOrder` | src/org/broad/igv/sam/reader/AlignmentReaderFactory.java:156-159 | opening succeeds exactly when every path opens, giving each path's reader at its index; otherwise the error is that of the first path that fails |
| `ReaderFactory.GetMergedReader` | src/org/broad/igv/sam/reader/AlignmentReaderFactory.java:150-170 | a reader for each comma-separated entry, collapsed, or the first failure |
| `ReaderFactory.ReplaceDirectiveRoundTrip` | src/org/broad/igv/sam/reader/AlignmentReaderFactory.java:114-120 | a directive `#replace key=value` is read back as that key and value |
| `ReaderFactory.ReadDirective` | src/org/broad/igv/sam/reader/AlignmentReaderFactory.java:114-120 | after a well-formed directive the table maps its key to its value and every other key as before; a malformed one changes nothing |
| `ReaderFactory.PutFinds` | src/org/broad/igv/sam/reader/AlignmentReaderFactory.java:119 | after `put(k, v)` the table maps `k` to `v` |
| `ReaderFactory.PutElsewhere` | src/org/broad/igv/sam/reader/AlignmentReaderFactory.java:119 | `put(k, v)` leaves the lookup of every other key unchanged |
| `ReaderFactory.PutReplacesInPlace` | src/org/broad/igv/sam/reader/AlignmentReaderFactory.java:119 | a key already present keeps the position of its entry, which takes the new value |
| `ReaderFactory.PutAppendsNew` | src/org/broad/igv/sam/reader/AlignmentReaderFactory.java:119 | a new key becomes the last entry of the table |
| `ReaderFactory.ApplyInOrder` | src/org/broad/igv/sam/reader/AlignmentReaderFactory.java:123-125 | each replacement of the table is applied to the path, in table order |
| `ReaderFactory.ListPathsOnePerEntry` | src/org/broad/igv/sam/reader/AlignmentReaderFactory.java:112-129 | every line that is not a directive yields exactly one path, and directives yield none |
| `ReaderFactory.ListPathsWithoutDirectives` | src/org/broad/igv/sam/reader/AlignmentReaderFactory.java:121-128 | without directives the paths are the trimmed lines, in order |
| `ReaderFactory.EntryPathUsesEarlierDirectives` | src/org/broad/igv/sam/reader/AlignmentReaderFactory.java:112-129 | the entry on line `j` is the path numbered by the entries before it, trimmed and rewritten by the table of exactly the directives on the lines before it, so a directive applies to every later entry and to no earlier one |
| `ReaderFactory.GetBamListReader` | src/org/broad/igv/sam/reader/AlignmentReaderFactory.java:104-148 | a reader for each path of the list, in file order, collapsed, or the first failure |
| `ReaderFactory.GetReader` | src/org/broad/igv/sam/reader/AlignmentReaderFactory.java:49-102 | the reader of the selected branch: merged for alist, the list reader for list files, the BAM reader by locality, one reader per other branch when its constructor returns; a `MalformedURLException` from the HTTP BAM reader becomes `Error loading BAM file: <exception>`, any `IOException` from the Goby reader becomes `Cannot load Goby alignment <path>`, and every other constructor exception propagates unchanged; exactly the `Cannot find reader for aligment file: <path>` error when no branch matches |
| `ReaderFactory.GetPlatforms` | src/org/broad/igv/sam/reader/AlignmentReaderFactory.java:176-191 | null exactly without a header or read groups; otherwise exactly the upper-cased platforms the read groups name |
| `Methyl.ContainsIsInclusion` | src/org/broad/igv/methyl/MethylTrack.java:129-131 | `contains` is inclusion of the requested positions in the loaded ones, on the same chromosome |
| `Methyl.EmptySlotMisses` | src/org/broad/igv/methyl/MethylTrack.java:56 | the initial slot serves no request with a non-negative end |
| `Methyl.ExpandedWindow` | src/org/broad/igv/methyl/MethylTrack.java:94-96 | the widened window never starts before 0 |
| `Methyl.ExpandedWindowCovers` | src/org/broad/igv/methyl/MethylTrack.java:94-96 | without overflow the widened window contains the request and extends it by half its length |
| `Methyl.ResolutionThresholdChoice` | src/org/broad/igv/methyl/MethylTrack.java:59-60 | the threshold is 1000000 for a path containing the WGBS marker and `Integer.MAX_VALUE` otherwise |
| `Methyl.MethylTrack.constructor` | src/org/broad/igv/methyl/MethylTrack.java:48-62 | the slot starts empty and the threshold follows the path |
| `Methyl.MethylTrack.Render` | src/org/broad/igv/methyl/MethylTrack.java:71-109 | a message exactly for the whole genome or beyond the resolution, with the matching text; served from the slot exactly when the slot contains the request; otherwise a load of the request |
| `Methyl.MethylTrack.RunLoad` | src/org/broad/igv/methyl/MethylTrack.java:92-105 | the slot is replaced by the widened window and every record the source returned, in order; without overflow the new slot contains the request |
| `D4Stat.LayoutBuckets` | d4lib/D4FileParser.cpp:160-187 | the count is clamped to the number of positions in `[left, right]`, and the table built is the layout with `unit = n / size` and `rem = n % size` |
| `D4Stat.LayoutParamsBounds` | d4lib/D4FileParser.cpp:170-171 | the width is at least 1, the remainder is below the count, and the widths plus the remainder add up to the range |
| `D4Stat.LayoutShape` | d4lib/D4FileParser.cpp:170-182 | the first bucket starts at `left`, the last ends at the exclusive end, and the first `rem` buckets are each followed by a one-position gap |
| `D4Stat.LayoutAscending` | d4lib/D4FileParser.cpp:176-182 | buckets are disjoint and in ascending order |
| `D4Stat.GapPositionUncovered` | d4lib/D4FileParser.cpp:176-182 | the position after each of the first `rem` buckets lies in no bucket |
| `D4Stat.GapExample` | d4lib/D4FileParser.cpp:170-182 | `[0, 9]` in 3 buckets gives `[0, 3)`, `[4, 7)`, `[7, 10)`, and position 3 is in none of them |
| `D4Stat.TiledLayoutCovers` | d4lib/D4FileParser.cpp:176-182 | with the first `rem` buckets one wider, consecutive buckets touch and run from `left` to the exclusive end |
| `D4Stat.TiledLayoutPartitions` | d4lib/D4FileParser.cpp:176-182 | with the first `rem` buckets one wider, every position lies in exactly one bucket |
| `D4Stat.ClipFromShape` | d4lib/D4FileParser.cpp:58-90 | every kept bucket is a bucket of the table on the file's chromosome, overlaps `[l, r]` and is clipped to `[max(l, left), min(r, right)]` with fresh extremes; kept buckets are in table order |
| `D4Stat.ClipKeepsOverlapping` | d4lib/D4FileParser.cpp:58-90 | on an ascending table a part keeps a bucket exactly when its chromosome is the table's and the bucket overlaps `[l, r]` |
| `D4Stat.TaskInit` | d4lib/D4FileParser.cpp:44-97 | the loop up to the terminating entry collects exactly the clipped buckets |
| `D4Stat.Scan` | d4lib/D4FileParser.cpp:111-129 | the scan never moves, adds or drops a bucket |
| `D4Stat.TaskProc` | d4lib/D4FileParser.cpp:99-136 | an empty context is left alone; otherwise the context becomes the scan of its values |
| `D4Stat.ScanFoldsRanges` | d4lib/D4FileParser.cpp:111-129 | the scan merges into each bucket exactly the values of the positions in its range |
| `D4Stat.ClippedLayoutScanOrder` | d4lib/D4FileParser.cpp:58-90 | the clipped buckets of a laid-out table are ascending, and the scan starts in a consistent position |
| `D4Stat.PartResultFolds` | d4lib/D4FileParser.cpp:99-136 | for a part with one value per position, each clipped bucket's extremes combine exactly the values of its own range |
| `D4Stat.MergeCtxPerEntry` | d4lib/D4FileParser.cpp:142-150 | merging adds the clipped widths to an entry's count and combines its minimum and maximum with the part's, per entry |
| `D4Stat.TaskClean` | d4lib/D4FileParser.cpp:138-156 | the table becomes every part merged in order; a part without a context contributes nothing |
| `D4Stat.MergeKeepsBounds` | d4lib/D4FileParser.cpp:138-156 | merging never moves a bucket or changes its chromosome |
| `D4Stat.RunStat` | d4lib/D4FileParser.cpp:158-205 | the handle's table is the layout with every part clipped, scanned and merged; it has `size + 1` entries and `1 <= size <= count` |
| `D4Stat.AccessorsOutOfRange` | d4lib/D4FileParser.cpp:221-253 | every accessor answers 0 for an index outside `[0, size)` |
| `D4Stat.RunStatBounds` | d4lib/D4FileParser.cpp:243-253 | after the statistic, bucket `i` reports the begin and end of the layout, whatever the parts held |
| `D4Source.SummizedValue.constructor` | src/main/java/org/broad/igv/d4/D4FileParser.java:22-26 | stores the bucket's start and end and the value |
| `D4Source.SummizedValue.SetStart` | src/main/java/org/broad/igv/d4/D4FileParser.java:28-30 | changes only the start |
| `D4Source.SummizedValue.SetEnd` | src/main/java/org/broad/igv/d4/D4FileParser.java:32-38 | stores the end plus one and `getEnd` then reports the end set |
| `D4Source.EndEncodingRoundTrip` | src/main/java/org/broad/igv/d4/D4FileParser.java:32-38 | `getEnd` after `setEnd(e)` is `e` for every `int`, `Integer.MAX_VALUE` included |
| `D4Source.ChromMapKeys` | src/main/java/org/broad/igv/d4/D4FileParser.java:74-79 | the map's keys are exactly the genome names of the file chromosomes, and each maps to a file chromosome with that genome name |
| `D4Source.ChromMapResolves` | src/main/java/org/broad/igv/d4/D4FileParser.java:74-79 | a request under a file chromosome's genome name reads that chromosome, unless a later one has the same genome name |
| `D4Source.ChromMapPassesUnknown` | src/main/java/org/broad/igv/d4/D4FileParser.java:134-135 | a name that is no file chromosome's genome name is passed to the library unchanged |
| `D4Source.D4FileParser.constructor` | src/main/java/org/broad/igv/d4/D4FileParser.java:69-84 | the chromosome map is the result of the constructor's `put` calls in file order |
| `D4Source.BinCount` | src/main/java/org/broad/igv/d4/D4FileParser.java:137-140 | the bin count is 700 or the width of the range, whichever is smaller |
| `D4Source.BinCountSurvivesClamp` | src/main/java/org/broad/igv/d4/D4FileParser.java:137-141 | for a non-empty range the library lays out exactly the requested number of bins, at least one |
| `D4Source.SelectStat` | src/main/java/org/broad/igv/d4/D4FileParser.java:149-158 | `Maximum` selects the maximum, `Minimum` the minimum, and any other name the mean |
| `D4Source.StatFor` | src/main/java/org/broad/igv/d4/D4FileParser.java:134-141 | the statistic over the mapped chromosome has as many buckets as the bin count |
| `D4Source.ScoresAscending` | src/main/java/org/broad/igv/d4/D4FileParser.java:144-165 | each emitted score is a non-empty range, and it ends at or before the start of every later score |
| `D4Source.D4FileParser.GetPrecomputedSummaryScores` | src/main/java/org/broad/igv/d4/D4FileParser.java:129-170 | no scores behind the guard; otherwise one score per bucket in index order, with the bucket's begin and end and the selected value |

## Left out

- Concurrency. The following are not modelled: `synchronized`, the load lock, `volatile`, `LongRunningTask.submit`, and the parallel parts of `d4_file_run_task`. A load is a submit step followed by a complete or abort step. The D4 parts run one after another, and `task_clean` runs once at the end.
- I/O and the user interface. The following are not modelled: `EventBus` posting, the cancel button, the progress monitor, logging, `repaint`, the drawing of tracks, and the debug print in `getPrecomputedSummaryScores`.
- Collaborators outside this model enter as parameters:
  - the tile loader (`AlignmentTileLoader.loadTile`);
  - the alignment packer;
  - the score a sort option gives a row (`Row.updateScore`);
  - the reader constructors (htsjdk, Goby, Google API, BAM over HTTP), as a function giving the exception a constructor throws for a path, if any;
  - `FileUtils.getAbsolutePath`, folded into the `open` parameter;
  - the Goby and Google API file-type checks;
  - the methylation data source.
- `PositionMap` is not part of this model. It is modelled as described above, with a lookup that scans the entries rather than a constant-time one.
- The downsampling options, the paired-end statistics and the bisulfite context passed to `loadTile` are not modelled: they only reach the tile loader.
- These members of the manager are not modelled. Each is a plain getter or a delegation to the reader, or depends on the packer's contents:
  - `getGroupedAlignmentsContaining`;
  - `updatePEStats`;
  - `finalize`;
  - `getLoadedInterval`;
  - `isIonTorrent`;
  - `getSequenceNames`;
  - the remaining getters and setters.
- The `requireIndex` flag and the convenience overloads of `getReader` are not modelled: they only reach reader constructors.
- Exceptions become `Err` results carrying their message: the no-match error, the two wrapped constructor failures of `getReader`, the other constructor exceptions it lets through, and the failures of nested readers. The exception's class, its cause and the file path a `DataLoadException` also carries are not modelled.
- An exception thrown after the interval is stored (by the repacking at AlignmentDataManager.java line 349 or the event post at line 350) is not modelled: it would end the load with the interval, and possibly the packing, already stored and the flag still set.
- Opening, reading and closing the list file are not modelled: its lines enter `GetBamListReader` and `GetReader` as a parameter, so a failure to read it (rethrown as `Error parsing: <list file> (<exception>)`) does not occur in the model.
- ReaderFactory.GetBamListReader: an `IOException` while opening a listed file is rethrown wrapped as `Error parsing: <list file> (<exception>)`; the model returns the nested failure unchanged, as it does for every other failure, because the `open` parameter does not tell an `IOException` from other exceptions.
- ReaderFactory.GetMergedReader: an `IOException` while opening an entry is rethrown wrapped as `Error instantiating reader for : <entry> (<exception>)`; the model returns the nested failure unchanged, for the same reason.
- ReaderFactory.GetPlatforms: `toUpperCase` is modelled on ASCII letters only and without the default locale, so a platform name with other letters (`ß`, which Java turns into `SS`, or `ſ`) is upper-cased differently from Java, and so is any name with an `i` under a Turkish locale (where `i` upper-cases to `İ`).
- ReaderFactory.GetReader: `toLowerCase` is modelled on ASCII letters only and without the default locale, so under a Turkish locale (where `I` lowers to a dotless `ı`) or with non-ASCII letters in the path the model's CGI and `.sam.list` tests can differ from Java's.
- Iteration order of the `#replace` `HashMap`: the model uses insertion order, and a repeated key keeps its place. Java's hash order is not modelled.
- Floating point is not modelled:
  - the D4 `sum` field and `d4_stat_get_value` (the mean);
  - the conversion of a bucket's integer minimum or maximum to the `float` score;
  - `getDataMax`, `getDataMin` and `getValueString`.
  A score holding a mean records only its bucket index.
- The methylation track's visible-width gate (`context.getScale() * rect.width > resolutionThreshold`) is a floating-point comparison. It enters `Render` as a boolean.
- These parts of the native library are not modelled:
  - memory management (`malloc`, `realloc`, `free`) and buffer growth in `task_init`;
  - the 32-byte chromosome-name buffer, which truncates longer names;
  - the reading of values in chunks of 10000, modelled as one sequence of values per part;
  - `d4_open`, `d4_close`, `d4_chrom_name` and `d4_stat_free`.
- The D4 parser's constructor throws `FileNotFoundException` when the file does not open. This is not modelled: the chromosome names and the file's parts are parameters.
- Positions in the D4 library are non-negative. So its mixed signed and unsigned comparisons, and the `uint32_t` bucket count, are modelled as integer comparisons and an unbounded integer.
- `chr == "All"` in `getPrecomputedSummaryScores` compares references, not contents. It enters as the boolean `chrIsAllLiteral`.
- `D4Stat.RunStat`: requires `count >= 1` and `right < Integer.MAX_VALUE`. A count of 0 makes the library divide by zero, and `right += 1` would overflow.
- `D4Source.D4FileParser.GetPrecomputedSummaryScores`: requires `start < end < Integer.MAX_VALUE` for requests that pass the guard. The reason is that the Java code passes a count of `end - start` when that is below 700. When `end == start` the library then divides by zero, and when `end < start` the count is negative.
- `AlignmentData.FetchWindow`: states bounds on the window in all cases. Its exact value is stated, by `FetchWindowIsSymmetric`, only where no 32-bit overflow and no clamping at 0 occur.
- `Methyl.ExpandedWindow`: states only that the window starts at 0 or later. Containment of the request is stated, by `ExpandedWindowCovers`, only where no 32-bit overflow occurs.

## Findings

| source | as written | input that shows it | evidently intended | confidence | as-written member | corrected member |
|---|---|---|---|---|---|---|
| src/org/broad/igv/sam/AlignmentDataManager.java:342-353 | `isLoading = false` is the last statement of the background load, with no `finally`, so an exception from `loadInterval` or the repack leaves the flag set | a load whose tile query throws; every later `loadAlignments` call then returns at line 330 and nothing is loaded again | the flag cleared on every exit from the load, so that a failed load returns the manager to idle | high, not executed | `AlignmentData.LoadAfterFailedLoad` | `AlignmentData.LoadAfterFailedLoadCorrected` |
| d4lib/D4FileParser.cpp:176-182 | each of the first `rem` buckets keeps width `unit_size` while the next bucket starts one position later, so one position after each of them lies in no bucket | `[0, 9]` in 3 buckets: `[0, 3)`, `[4, 7)`, `[7, 10)`; the value at position 3 is never counted | the first `rem` buckets one position wider, so that the buckets tile the range | medium, not executed | `D4Stat.GapExample` | `D4Stat.TiledLayoutPartitions` |

The manager's failed load is modelled both ways:

- `AbortLoad` is the exception path as written, for an exception thrown by `loadInterval`;
- `FailLoad` clears the flag.

The D4 statistic keeps the layout as written, because the bucket begins and ends the Java side reports come from it. The widened layout is defined by `TiledRight`, and it is proved to cover the range (`TiledLayoutCovers`) and to partition it (`TiledLayoutPartitions`).

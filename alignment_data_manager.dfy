/**
 * The alignment data manager: per track, a cache of loaded intervals and a
 * cache of packed alignments, both keyed by the range of a reference frame,
 * a single-flight load coordinator driven by the `isLoading` flag, and the
 * chromosome-alias table used when querying the alignment file.
 *
 * The background load is split into two steps: `LoadAlignments` submits it
 * (the submitted task is the field `task`), and `CompleteLoad` runs it.
 * The tile loader and the packer, whose algorithms are outside this model,
 * are function parameters.
 */
module AlignmentData {
  import opened Wrappers
  import opened JavaLang
  import opened PositionMaps
  import opened RowSort

  /** The chromosome name of the whole-genome view. */
  const CHR_ALL: string := "All"

  /** Options for splice-junction evidence. */
  datatype LoadOptions = LoadOptions(minJunctionCoverage: int, minReadFlankingWidth: int)

  /** Collects the splice junctions of one interval under the options it holds. */
  class SpliceJunctionHelper {
    var loadOptions: LoadOptions

    constructor (options: LoadOptions)
      ensures loadOptions == options
    {
      loadOptions := options;
    }
  }

  /** The render options shared by a track and the loads it submits. */
  class RenderOptions {
    var viewPairs: bool

    constructor (viewPairs: bool)
      ensures this.viewPairs == viewPairs
    {
      this.viewPairs := viewPairs;
    }
  }

  /** What the tile loader returns for one query; its records are not modelled. */
  datatype Tile = Tile(records: seq<nat>)

  /** The result of one load: the requested range and what the tile loader returned for it. */
  datatype AlignmentInterval = AlignmentInterval(chr: string, start: int, end: int, tile: Tile,
                                                 junctions: SpliceJunctionHelper)
  {
    function GetRange(): Range {
      Range(chr, start, end)
    }

    predicate Contains(chr': string, start': int, end': int) {
      GetRange().Contains(chr', start', end')
    }
  }

  /** What the packer produces: the groups, keyed and in order, and the number of levels. */
  datatype Packing = Packing(groups: seq<(string, seq<Row>)>, nLevels: int)

  /** The keys of a packing's groups, in order. */
  function GroupKeys(p: Packing): (ks: seq<string>)
    ensures |ks| == |p.groups| && forall g | 0 <= g < |ks| :: ks[g] == p.groups[g].0
  {
    seq(|p.groups|, g requires 0 <= g < |p.groups| => p.groups[g].0)
  }

  /** The rows of a packing's groups, in order. */
  function GroupRows(p: Packing): (rs: seq<seq<Row>>)
    ensures |rs| == |p.groups| && forall g | 0 <= g < |rs| :: rs[g] == p.groups[g].1
  {
    seq(|p.groups|, g requires 0 <= g < |p.groups| => p.groups[g].1)
  }

  /** Packed alignments: the group keys, fixed by the packer, and each group's rows, which sorting reorders. */
  class PackedAlignments {
    const keys: seq<string>
    var rows: seq<seq<Row>>
    const nLevels: int

    constructor (p: Packing)
      ensures Holds(p)
    {
      keys := GroupKeys(p);
      rows := GroupRows(p);
      nLevels := p.nLevels;
    }

    /** The object holds exactly what the packer produced: its group keys and rows, in order, and its level count. */
    predicate Holds(p: Packing)
      reads this
    {
      keys == GroupKeys(p) && rows == GroupRows(p) && nLevels == p.nLevels
    }

    /** `size()`: the number of groups. */
    function Size(): int {
      |keys|
    }
  }

  /** The background load `loadAlignments` submits, with the values it captured. */
  datatype LoadTask = LoadTask(chr: string, start: int, end: int, options: RenderOptions)

  /** The fetch window `load` computes. */
  datatype Window = Window(start: int, end: int)

  /**
   * The window `load` asks for: with `expandEnds` the request widened around its
   * centre by `max(end - start, windowSize / 2)` on each side and clamped at 0,
   * in 32-bit arithmetic, where `windowSize` is the maximum visible range
   * preference times 1000; otherwise the request itself.
   */
  function FetchWindow(start: int, end: int, expandEnds: bool, maxVisibleRangeKb: int): (w: Window)
    requires IsInt(start) && IsInt(end)
    ensures expandEnds ==> w.start >= 0 && w.end >= end
    ensures expandEnds && start >= 0 ==> w.start <= start
    ensures !expandEnds ==> w == Window(start, end)
  {
    if expandEnds then
      var windowSize := Wrap(maxVisibleRangeKb * 1000);
      var center := Half(Wrap(end + start));
      var expand := Max(Wrap(end - start), Half(windowSize));
      Window(Max(0, Min(start, Wrap(center - expand))), Max(end, Wrap(center + expand)))
    else
      Window(start, end)
  }

  /**
   * Without overflow and without clamping, the expanded window is symmetric
   * about the centre of the request and reaches at least the request's width
   * and half the window size on each side.
   */
  lemma FetchWindowIsSymmetric(start: int, end: int, maxVisibleRangeKb: int)
    requires 0 <= start <= end && end + start <= INT_MAX
    requires 0 <= maxVisibleRangeKb && maxVisibleRangeKb * 1000 <= INT_MAX
    requires var c := (end + start) / 2;
             var e := Max(end - start, maxVisibleRangeKb * 1000 / 2);
             0 <= c - e && c + e <= INT_MAX
    ensures var c := (end + start) / 2;
            var e := Max(end - start, maxVisibleRangeKb * 1000 / 2);
            FetchWindow(start, end, true, maxVisibleRangeKb) == Window(c - e, c + e)
    ensures var w := FetchWindow(start, end, true, maxVisibleRangeKb);
            w.end - w.start >= 2 * (end - start) && w.end - w.start >= maxVisibleRangeKb * 1000 - 1
  {
    var windowSize := maxVisibleRangeKb * 1000;
    var c := (end + start) / 2;
    var e := Max(end - start, windowSize / 2);
    assert Wrap(windowSize) == windowSize && Wrap(end + start) == end + start && Wrap(end - start) == end - start;
    assert Half(end + start) == c && Half(windowSize) == windowSize / 2;
    assert Wrap(c - e) == c - e && Wrap(c + e) == c + e;
    assert c - e <= start && end <= c + e;
  }

  /** The name pairs `initChrMap` stores: each sequence name under its alias. */
  function AliasPairs(names: seq<string>, alias: string -> string): (pairs: seq<(string, string)>)
    ensures |pairs| == |names|
    ensures forall i | 0 <= i < |names| :: pairs[i] == (alias(names[i]), names[i])
  {
    seq(|names|, i requires 0 <= i < |names| => (alias(names[i]), names[i]))
  }

  /** Every alias maps to the last sequence name that has it. */
  lemma AliasMapsToLastName(m: map<string, string>, names: seq<string>, alias: string -> string, j: int)
    requires 0 <= j < |names|
    requires forall i | j < i < |names| :: alias(names[i]) != alias(names[j])
    ensures alias(names[j]) in PutInOrder(m, AliasPairs(names, alias))
    ensures PutInOrder(m, AliasPairs(names, alias))[alias(names[j])] == names[j]
  {
    PutInOrderLastWins(m, AliasPairs(names, alias), j);
  }

  /** The rows of every group sorted by `score`, groups kept in place. */
  function SortGroups(rows: seq<seq<Row>>, score: Row -> int): (sorted: seq<seq<Row>>)
    ensures |sorted| == |rows|
  {
    seq(|rows|, g requires 0 <= g < |rows| => StableSort(rows[g], score))
  }

  /**
   * Sorting the groups moves no row from one group to another: each group is
   * reordered by score, keeps exactly its rows, and rows of equal score keep
   * their order.
   */
  lemma SortGroupsWithinGroups(rows: seq<seq<Row>>, score: Row -> int, g: int, k: int)
    requires 0 <= g < |rows|
    ensures SortedBy(SortGroups(rows, score)[g], score)
    ensures multiset(SortGroups(rows, score)[g]) == multiset(rows[g])
    ensures WithKey(SortGroups(rows, score)[g], score, k) == WithKey(rows[g], score, k)
  {
    StableSortSortsAndPermutes(rows[g], score);
    StableSortIsStable(rows[g], score, k);
  }

  class AlignmentDataManager {
    var loadedIntervalCache: PositionMap<AlignmentInterval>
    var packedAlignmentsCache: PositionMap<PackedAlignments>
    var chrMappings: map<string, string>
    var isLoading: bool
    var loadOptions: LoadOptions
    /** The load submitted to the background and not yet run. */
    var task: Option<LoadTask>

    /**
     * `genomeAlias` is the genome's alias function, absent without a genome;
     * `sequenceNames` the sequence names the reader reports, absent when it has none.
     */
    constructor (defaults: LoadOptions, genomeAlias: Option<string -> string>, sequenceNames: Option<seq<string>>)
      ensures loadedIntervalCache == Empty() && packedAlignmentsCache == Empty()
      ensures !isLoading && task == None
      ensures loadOptions == defaults
      ensures genomeAlias.None? || sequenceNames.None? ==> chrMappings == map[]
      ensures genomeAlias.Some? && sequenceNames.Some? ==>
                chrMappings == PutInOrder(map[], AliasPairs(sequenceNames.value, genomeAlias.value))
    {
      loadedIntervalCache := Empty();
      packedAlignmentsCache := Empty();
      chrMappings := map[];
      isLoading := false;
      loadOptions := defaults;
      task := None;
      new;
      InitChrMap(genomeAlias, sequenceNames);
    }

    /** Stores every sequence name under its alias, a later name replacing an earlier one with the same alias. */
    method InitChrMap(genomeAlias: Option<string -> string>, sequenceNames: Option<seq<string>>)
      modifies this
      ensures genomeAlias.None? || sequenceNames.None? ==> chrMappings == old(chrMappings)
      ensures genomeAlias.Some? && sequenceNames.Some? ==>
                chrMappings == PutInOrder(old(chrMappings), AliasPairs(sequenceNames.value, genomeAlias.value))
      ensures loadedIntervalCache == old(loadedIntervalCache) && packedAlignmentsCache == old(packedAlignmentsCache)
      ensures isLoading == old(isLoading) && task == old(task) && loadOptions == old(loadOptions)
    {
      if genomeAlias.Some? && sequenceNames.Some? {
        var alias := genomeAlias.value;
        var names := sequenceNames.value;
        var i := 0;
        while i < |names|
          invariant 0 <= i <= |names|
          invariant chrMappings == PutInOrder(old(chrMappings), AliasPairs(names[..i], alias))
          invariant loadedIntervalCache == old(loadedIntervalCache) && packedAlignmentsCache == old(packedAlignmentsCache)
          invariant isLoading == old(isLoading) && task == old(task) && loadOptions == old(loadOptions)
        {
          var pairs := AliasPairs(names[..i + 1], alias);
          assert pairs[..i] == AliasPairs(names[..i], alias);
          chrMappings := chrMappings[alias(names[i]) := names[i]];
          i := i + 1;
        }
        assert names[..i] == names;
      }
    }

    /** `getLoadedIntervals()`. */
    function LoadedIntervals(): seq<AlignmentInterval>
      reads this
    {
      Values(loadedIntervalCache)
    }

    /** The splice-junction helpers of the loaded intervals. */
    function JunctionHelpers(): set<SpliceJunctionHelper>
      reads this
    {
      set i | 0 <= i < |loadedIntervalCache.entries| :: loadedIntervalCache.entries[i].1.junctions
    }

    /** The packed alignments held in the cache. */
    function PackedObjects(): set<PackedAlignments>
      reads this
    {
      set i | 0 <= i < |packedAlignmentsCache.entries| :: packedAlignmentsCache.entries[i].1
    }

    /**
     * `load`: nothing happens when the interval cached for the frame's range
     * already contains the request; otherwise the fetch window is submitted
     * through `LoadAlignments`. The caches are never written here.
     */
    method Load(frameRange: Range, chr: string, start: int, end: int, expandEnds: bool,
                maxVisibleRangeKb: int, options: RenderOptions) returns (submitted: bool)
      requires IsInt(start) && IsInt(end)
      modifies this
      ensures var cached := Get(loadedIntervalCache, frameRange);
              var hit := cached.Some? && cached.value.Contains(chr, start, end);
              submitted <==> !hit && !old(isLoading) && chr != CHR_ALL
      ensures var w := FetchWindow(start, end, expandEnds, maxVisibleRangeKb);
              submitted ==> isLoading && task == Some(LoadTask(chr, w.start, w.end, options))
      ensures !submitted ==> isLoading == old(isLoading) && task == old(task)
      ensures loadedIntervalCache == old(loadedIntervalCache) && packedAlignmentsCache == old(packedAlignmentsCache)
      ensures chrMappings == old(chrMappings) && loadOptions == old(loadOptions)
    {
      var loadedInterval := Get(loadedIntervalCache, frameRange);
      if loadedInterval.Some? && loadedInterval.value.Contains(chr, start, end) {
        return false;
      }
      var w := FetchWindow(start, end, expandEnds, maxVisibleRangeKb);
      submitted := LoadAlignments(chr, w.start, w.end, options);
    }

    /** `loadAlignments`: the single-flight guard. A call while a load is running, or for the whole genome, is dropped. */
    method LoadAlignments(chr: string, start: int, end: int, options: RenderOptions) returns (submitted: bool)
      modifies this
      ensures submitted <==> !old(isLoading) && chr != CHR_ALL
      ensures submitted ==> isLoading && task == Some(LoadTask(chr, start, end, options))
      ensures !submitted ==> isLoading == old(isLoading) && task == old(task)
      ensures loadedIntervalCache == old(loadedIntervalCache) && packedAlignmentsCache == old(packedAlignmentsCache)
      ensures chrMappings == old(chrMappings) && loadOptions == old(loadOptions)
    {
      if isLoading || chr == CHR_ALL {
        return false;
      }
      isLoading := true;
      task := Some(LoadTask(chr, start, end, options));
      submitted := true;
    }

    /**
     * `loadInterval`: the tile is queried under the alias-mapped sequence name,
     * and the interval is labelled with the requested name.
     */
    method LoadInterval(chr: string, start: int, end: int, loadTile: (string, int, int) -> Tile)
      returns (interval: AlignmentInterval)
      ensures interval.GetRange() == Range(chr, start, end)
      ensures chr in chrMappings ==> interval.tile == loadTile(chrMappings[chr], start, end)
      ensures chr !in chrMappings ==> interval.tile == loadTile(chr, start, end)
      ensures fresh(interval.junctions) && interval.junctions.loadOptions == loadOptions
    {
      var sequence := if chr in chrMappings then chrMappings[chr] else chr;
      var helper := new SpliceJunctionHelper(loadOptions);
      interval := AlignmentInterval(chr, start, end, loadTile(sequence, start, end), helper);
    }

    /**
     * The submitted load runs to its normal end: the interval is stored under
     * its own range, the frame is repacked and the flag is cleared.
     * `frameRange` is the frame's range when the load finishes.
     */
    method CompleteLoad(frameRange: Range, loadTile: (string, int, int) -> Tile,
                        pack: (seq<AlignmentInterval>, bool) -> Packing)
      returns (interval: AlignmentInterval)
      requires task.Some?
      modifies this
      ensures var t := old(task.value);
              interval.GetRange() == Range(t.chr, t.start, t.end) &&
              loadedIntervalCache == Put(old(loadedIntervalCache), interval.GetRange(), interval)
      ensures var t := old(task.value);
              (t.chr in chrMappings ==> interval.tile == loadTile(chrMappings[t.chr], t.start, t.end)) &&
              (t.chr !in chrMappings ==> interval.tile == loadTile(t.chr, t.start, t.end))
      ensures fresh(interval.junctions) && interval.junctions.loadOptions == loadOptions
      ensures Get(loadedIntervalCache, interval.GetRange()) == Some(interval)
      ensures ContainsKey(loadedIntervalCache, frameRange) ==> ContainsKey(packedAlignmentsCache, frameRange)
      ensures ContainsKey(loadedIntervalCache, frameRange) ==>
                exists p: PackedAlignments ::
                  fresh(p) && packedAlignmentsCache == PutAll(old(packedAlignmentsCache), [frameRange], p) &&
                  p.Holds(pack(IntervalsFor(loadedIntervalCache, [frameRange]), old(task.value).options.viewPairs))
      ensures !ContainsKey(loadedIntervalCache, frameRange) ==> packedAlignmentsCache == old(packedAlignmentsCache)
      ensures !isLoading && task == None
      ensures chrMappings == old(chrMappings) && loadOptions == old(loadOptions)
    {
      var t := task.value;
      interval := LoadInterval(t.chr, t.start, t.end, loadTile);
      loadedIntervalCache := Put(loadedIntervalCache, interval.GetRange(), interval);
      GetAfterPut(old(loadedIntervalCache), interval.GetRange(), interval, interval.GetRange());
      RepackFrame(frameRange, t.options, pack);
      isLoading := false;
      task := None;
    }

    /** `repackAlignments` for the single frame of a finished load: it is packed exactly when its interval is loaded. */
    method RepackFrame(frameRange: Range, options: RenderOptions, pack: (seq<AlignmentInterval>, bool) -> Packing)
      modifies this
      ensures ContainsKey(loadedIntervalCache, frameRange) ==> ContainsKey(packedAlignmentsCache, frameRange)
      ensures ContainsKey(loadedIntervalCache, frameRange) ==>
                exists p: PackedAlignments ::
                  fresh(p) && packedAlignmentsCache == PutAll(old(packedAlignmentsCache), [frameRange], p) &&
                  p.Holds(pack(IntervalsFor(loadedIntervalCache, [frameRange]), options.viewPairs))
      ensures !ContainsKey(loadedIntervalCache, frameRange) ==> packedAlignmentsCache == old(packedAlignmentsCache)
      ensures loadedIntervalCache == old(loadedIntervalCache)
      ensures isLoading == old(isLoading) && task == old(task)
      ensures chrMappings == old(chrMappings) && loadOptions == old(loadOptions)
    {
      ghost var packedBefore := packedAlignmentsCache;
      var repacked := RepackAlignments([frameRange], options, pack);
      assert [frameRange][0] == frameRange;
      if repacked {
        ghost var p: PackedAlignments :| fresh(p) && packedAlignmentsCache == PutAll(packedBefore, [frameRange], p) &&
          p.Holds(pack(IntervalsFor(loadedIntervalCache, [frameRange]), options.viewPairs));
        PutAllFindsValue(packedBefore, [frameRange], p, 0);
      }
    }

    /**
     * The submitted load ends with an exception thrown while loading the
     * interval: nothing is stored and, as written, the flag stays set.
     */
    method AbortLoad()
      requires task.Some?
      modifies this
      ensures task == None
      ensures isLoading == old(isLoading)
      ensures loadedIntervalCache == old(loadedIntervalCache) && packedAlignmentsCache == old(packedAlignmentsCache)
      ensures chrMappings == old(chrMappings) && loadOptions == old(loadOptions)
    {
      task := None;
    }

    /** The failed load as the coordinator intends it: nothing is stored and the flag is cleared. */
    method FailLoad()
      requires task.Some?
      modifies this
      ensures task == None && !isLoading
      ensures loadedIntervalCache == old(loadedIntervalCache) && packedAlignmentsCache == old(packedAlignmentsCache)
      ensures chrMappings == old(chrMappings) && loadOptions == old(loadOptions)
    {
      task := None;
      isLoading := false;
    }

    /** The loaded intervals of `frames`, one per frame, in order. */
    static function IntervalsFor(cache: PositionMap<AlignmentInterval>, frames: seq<Range>): (ivs: seq<AlignmentInterval>)
      requires forall i | 0 <= i < |frames| :: ContainsKey(cache, frames[i])
      ensures |ivs| == |frames|
      ensures forall i | 0 <= i < |frames| :: Get(cache, frames[i]) == Some(ivs[i])
    {
      seq(|frames|, i requires 0 <= i < |frames| && ContainsKey(cache, frames[i]) => Get(cache, frames[i]).value)
    }

    /**
     * `repackAlignments`: all or nothing. When some frame has no loaded
     * interval, nothing is written; otherwise one packing of all the frames'
     * intervals is stored under every frame's range.
     */
    method RepackAlignments(frames: seq<Range>, options: RenderOptions,
                            pack: (seq<AlignmentInterval>, bool) -> Packing) returns (repacked: bool)
      modifies this
      ensures repacked <==> forall i | 0 <= i < |frames| :: ContainsKey(loadedIntervalCache, frames[i])
      ensures !repacked ==> packedAlignmentsCache == old(packedAlignmentsCache)
      ensures repacked ==>
                exists p: PackedAlignments ::
                  fresh(p) && packedAlignmentsCache == PutAll(old(packedAlignmentsCache), frames, p) &&
                  p.Holds(pack(IntervalsFor(loadedIntervalCache, frames), options.viewPairs))
      ensures loadedIntervalCache == old(loadedIntervalCache)
      ensures isLoading == old(isLoading) && task == old(task)
      ensures chrMappings == old(chrMappings) && loadOptions == old(loadOptions)
    {
      var intervals := CollectIntervals(frames);
      if intervals.None? {
        return false;
      }
      var p := new PackedAlignments(pack(intervals.value, options.viewPairs));
      StoreAll(frames, p);
      repacked := true;
    }

    /** The lookup loop of `repackAlignments`: the loaded interval of each frame, or nothing when one is missing. */
    method CollectIntervals(frames: seq<Range>) returns (intervals: Option<seq<AlignmentInterval>>)
      ensures intervals.Some? <==> forall i | 0 <= i < |frames| :: ContainsKey(loadedIntervalCache, frames[i])
      ensures intervals.Some? ==> intervals.value == IntervalsFor(loadedIntervalCache, frames)
    {
      var found: seq<AlignmentInterval> := [];
      var i := 0;
      while i < |frames|
        invariant 0 <= i <= |frames|
        invariant forall k | 0 <= k < i :: ContainsKey(loadedIntervalCache, frames[k])
        invariant |found| == i
        invariant forall k | 0 <= k < i :: Get(loadedIntervalCache, frames[k]) == Some(found[k])
      {
        var loaded := Get(loadedIntervalCache, frames[i]);
        if loaded.None? {
          return None;
        }
        found := found + [loaded.value];
        i := i + 1;
      }
      assert found == IntervalsFor(loadedIntervalCache, frames);
      intervals := Some(found);
    }

    /** The store loop of `repackAlignments`: `p` put under each frame's range in turn. */
    method StoreAll(frames: seq<Range>, p: PackedAlignments)
      modifies this
      ensures packedAlignmentsCache == PutAll(old(packedAlignmentsCache), frames, p)
      ensures loadedIntervalCache == old(loadedIntervalCache)
      ensures isLoading == old(isLoading) && task == old(task)
      ensures chrMappings == old(chrMappings) && loadOptions == old(loadOptions)
    {
      var j := 0;
      while j < |frames|
        invariant 0 <= j <= |frames|
        invariant packedAlignmentsCache == PutAll(old(packedAlignmentsCache), frames[..j], p)
        invariant loadedIntervalCache == old(loadedIntervalCache)
        invariant isLoading == old(isLoading) && task == old(task)
        invariant chrMappings == old(chrMappings) && loadOptions == old(loadOptions)
      {
        assert frames[..j + 1][..j] == frames[..j] && frames[..j + 1][j] == frames[j];
        packedAlignmentsCache := Put(packedAlignmentsCache, frames[j], p);
        j := j + 1;
      }
      assert frames[..j] == frames;
    }

    /**
     * `sortRows`: fails when either cache has nothing for the frame; otherwise
     * stably sorts the rows of each group of the cached packing in place, by
     * the scores `score` assigns given the cached interval.
     */
    method SortRows(frameRange: Range, score: (AlignmentInterval, Row) -> int) returns (sorted: bool)
      modifies PackedObjects()
      ensures sorted <==> ContainsKey(packedAlignmentsCache, frameRange) && ContainsKey(loadedIntervalCache, frameRange)
      ensures sorted ==>
                var p := Get(packedAlignmentsCache, frameRange).value;
                var interval := Get(loadedIntervalCache, frameRange).value;
                p.rows == SortGroups(old(p.rows), (row: Row) => score(interval, row)) &&
                forall q | q in PackedObjects() && q != p :: q.rows == old(q.rows)
      ensures !sorted ==> forall q | q in PackedObjects() :: q.rows == old(q.rows)
    {
      var packed := Get(packedAlignmentsCache, frameRange);
      var loaded := Get(loadedIntervalCache, frameRange);
      if packed.None? || loaded.None? {
        return false;
      }
      var p := packed.value;
      var interval := loaded.value;
      var key := (row: Row) => score(interval, row);
      ghost var before := p.rows;
      var g := 0;
      while g < |p.rows|
        invariant 0 <= g <= |p.rows| == |before|
        invariant forall k | 0 <= k < g :: p.rows[k] == StableSort(before[k], key)
        invariant forall k | g <= k < |before| :: p.rows[k] == before[k]
        invariant forall q | q in PackedObjects() && q != p :: q.rows == old(q.rows)
      {
        p.rows := p.rows[g := StableSort(p.rows[g], key)];
        g := g + 1;
      }
      sorted := true;
    }

    /**
     * `getGroups`: issues a `load` (without widening), repacks all frames when
     * nothing is packed for this frame, and answers the packing cached for it.
     */
    method GetGroups(frameRange: Range, chr: string, start: int, end: int, allFrames: seq<Range>,
                     maxVisibleRangeKb: int, options: RenderOptions,
                     pack: (seq<AlignmentInterval>, bool) -> Packing) returns (groups: Option<PackedAlignments>)
      requires IsInt(start) && IsInt(end)
      modifies this
      ensures var cached := Get(old(loadedIntervalCache), frameRange);
              var submitted := !(cached.Some? && cached.value.Contains(chr, start, end)) && !old(isLoading) && chr != CHR_ALL;
              (submitted ==> isLoading && task == Some(LoadTask(chr, start, end, options))) &&
              (!submitted ==> isLoading == old(isLoading) && task == old(task))
      ensures groups == Get(packedAlignmentsCache, frameRange)
      ensures ContainsKey(old(packedAlignmentsCache), frameRange) ==> packedAlignmentsCache == old(packedAlignmentsCache)
      ensures (!ContainsKey(old(packedAlignmentsCache), frameRange) &&
               exists i :: 0 <= i < |allFrames| && !ContainsKey(loadedIntervalCache, allFrames[i]))
                ==> packedAlignmentsCache == old(packedAlignmentsCache)
      ensures (!ContainsKey(old(packedAlignmentsCache), frameRange) &&
               forall i | 0 <= i < |allFrames| :: ContainsKey(loadedIntervalCache, allFrames[i]))
                ==> exists p: PackedAlignments ::
                      fresh(p) && packedAlignmentsCache == PutAll(old(packedAlignmentsCache), allFrames, p) &&
                      p.Holds(pack(IntervalsFor(loadedIntervalCache, allFrames), options.viewPairs))
      ensures (frameRange in allFrames && forall i | 0 <= i < |allFrames| :: ContainsKey(loadedIntervalCache, allFrames[i]))
                ==> groups.Some?
      ensures loadedIntervalCache == old(loadedIntervalCache)
      ensures chrMappings == old(chrMappings) && loadOptions == old(loadOptions)
    {
      var _ := Load(frameRange, chr, start, end, false, maxVisibleRangeKb, options);
      if !ContainsKey(packedAlignmentsCache, frameRange) {
        var repacked := RepackAlignments(allFrames, options, pack);
        if repacked && frameRange in allFrames {
          ghost var k :| 0 <= k < |allFrames| && allFrames[k] == frameRange;
          ghost var p :| packedAlignmentsCache == PutAll(old(packedAlignmentsCache), allFrames, p);
          PutAllFindsValue(old(packedAlignmentsCache), allFrames, p, k);
        }
      }
      groups := Get(packedAlignmentsCache, frameRange);
    }

    /** `clear`: both caches are emptied. */
    method Clear()
      modifies this
      ensures loadedIntervalCache == Empty() && packedAlignmentsCache == Empty()
      ensures isLoading == old(isLoading) && task == old(task)
      ensures chrMappings == old(chrMappings) && loadOptions == old(loadOptions)
    {
      loadedIntervalCache := Empty();
      packedAlignmentsCache := Empty();
    }

    /** `getNLevels`: the largest level count of the cached packings, 0 when there are none. */
    method GetNLevels() returns (nLevels: int)
      ensures var vs := Values(packedAlignmentsCache);
              nLevels >= 0 &&
              (forall i | 0 <= i < |vs| :: vs[i].nLevels <= nLevels) &&
              (nLevels == 0 || exists i :: 0 <= i < |vs| && vs[i].nLevels == nLevels)
    {
      var vs := Values(packedAlignmentsCache);
      nLevels := 0;
      var i := 0;
      while i < |vs|
        invariant 0 <= i <= |vs|
        invariant nLevels >= 0
        invariant forall k | 0 <= k < i :: vs[k].nLevels <= nLevels
        invariant nLevels == 0 || exists k :: 0 <= k < i && vs[k].nLevels == nLevels
      {
        nLevels := Max(nLevels, vs[i].nLevels);
        i := i + 1;
      }
    }

    /** `getMaxGroupCount`: the largest group count of the cached packings, 0 when there are none. */
    method GetMaxGroupCount() returns (groupCount: int)
      ensures var vs := Values(packedAlignmentsCache);
              groupCount >= 0 &&
              (forall i | 0 <= i < |vs| :: vs[i].Size() <= groupCount) &&
              (groupCount == 0 || exists i :: 0 <= i < |vs| && vs[i].Size() == groupCount)
    {
      var vs := Values(packedAlignmentsCache);
      groupCount := 0;
      var i := 0;
      while i < |vs|
        invariant 0 <= i <= |vs|
        invariant groupCount >= 0
        invariant forall k | 0 <= k < i :: vs[k].Size() <= groupCount
        invariant groupCount == 0 || exists k :: 0 <= k < i && vs[k].Size() == groupCount
      {
        groupCount := Max(groupCount, vs[i].Size());
        i := i + 1;
      }
    }

    /** `setViewAsPairs`: a change of the option repacks all frames. */
    method SetViewAsPairs(option: bool, options: RenderOptions, allFrames: seq<Range>,
                          pack: (seq<AlignmentInterval>, bool) -> Packing)
      modifies this, options
      ensures options.viewPairs == option
      ensures option == old(options.viewPairs) ==> packedAlignmentsCache == old(packedAlignmentsCache)
      ensures (option != old(options.viewPairs) && exists i :: 0 <= i < |allFrames| && !ContainsKey(loadedIntervalCache, allFrames[i]))
                ==> packedAlignmentsCache == old(packedAlignmentsCache)
      ensures (option != old(options.viewPairs) && forall i | 0 <= i < |allFrames| :: ContainsKey(loadedIntervalCache, allFrames[i]))
                ==> exists p: PackedAlignments ::
                      fresh(p) && packedAlignmentsCache == PutAll(old(packedAlignmentsCache), allFrames, p) &&
                      p.Holds(pack(IntervalsFor(loadedIntervalCache, allFrames), option))
      ensures loadedIntervalCache == old(loadedIntervalCache)
      ensures isLoading == old(isLoading) && task == old(task)
      ensures chrMappings == old(chrMappings) && loadOptions == old(loadOptions)
    {
      if option == options.viewPairs {
        return;
      }
      options.viewPairs := option;
      var _ := RepackAlignments(allFrames, options, pack);
    }

    /** `setMinJunctionCoverage`: new options, pushed to the junction helper of every loaded interval. */
    method SetMinJunctionCoverage(minJunctionCoverage: int)
      modifies this, JunctionHelpers()
      ensures loadOptions == LoadOptions(minJunctionCoverage, old(loadOptions).minReadFlankingWidth)
      ensures forall i | 0 <= i < |loadedIntervalCache.entries| ::
                loadedIntervalCache.entries[i].1.junctions.loadOptions == loadOptions
      ensures loadedIntervalCache == old(loadedIntervalCache) && packedAlignmentsCache == old(packedAlignmentsCache)
      ensures isLoading == old(isLoading) && task == old(task) && chrMappings == old(chrMappings)
    {
      loadOptions := LoadOptions(minJunctionCoverage, loadOptions.minReadFlankingWidth);
      var intervals := LoadedIntervals();
      var i := 0;
      while i < |intervals|
        invariant 0 <= i <= |intervals|
        invariant intervals == LoadedIntervals()
        invariant loadOptions == LoadOptions(minJunctionCoverage, old(loadOptions).minReadFlankingWidth)
        invariant forall k | 0 <= k < i :: intervals[k].junctions.loadOptions == loadOptions
        invariant loadedIntervalCache == old(loadedIntervalCache) && packedAlignmentsCache == old(packedAlignmentsCache)
        invariant isLoading == old(isLoading) && task == old(task) && chrMappings == old(chrMappings)
      {
        intervals[i].junctions.loadOptions := loadOptions;
        i := i + 1;
      }
    }
  }

  /**
   * As written: after a load that ends in an exception, the flag stays set and
   * every later load is dropped.
   */
  method LoadAfterFailedLoad() returns (first: bool, second: bool)
    ensures first && !second
  {
    var m := new AlignmentDataManager(LoadOptions(0, 0), None, None);
    var options := new RenderOptions(false);
    first := m.LoadAlignments("chr1", 0, 100, options);
    m.AbortLoad();
    second := m.LoadAlignments("chr1", 0, 100, options);
  }

  /** With the flag cleared on failure, the next load is submitted again. */
  method LoadAfterFailedLoadCorrected() returns (first: bool, second: bool)
    ensures first && second
  {
    var m := new AlignmentDataManager(LoadOptions(0, 0), None, None);
    var options := new RenderOptions(false);
    first := m.LoadAlignments("chr1", 0, 100, options);
    m.FailLoad();
    second := m.LoadAlignments("chr1", 0, 100, options);
  }
}

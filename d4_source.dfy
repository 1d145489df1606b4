/**
 * The Java side of the D4 coverage source: the `SummizedValue` scores it
 * emits, the map from the genome's chromosome names to the file's, and
 * `getPrecomputedSummaryScores`, which asks the native library for bucket
 * statistics over a range and turns each bucket into one score.
 *
 * The file's data is the sequence of task parts the native library reads
 * (`D4Stat.TaskPart`); it is fixed when the source is built. The mean value
 * of a bucket is a float and is not modelled: a score that would hold it
 * records the bucket index instead.
 */
module D4Source {
  import opened Wrappers
  import opened JavaLang
  import opened D4Stat

  /** The value of a score: a bucket's minimum or maximum, or the (unmodelled) mean of bucket `bucket`. */
  datatype ScoreValue = Extreme(v: int) | Mean(bucket: int)

  /**
   * A score over one bucket. The end is stored one past the end it reports:
   * `setEnd(e)` stores `e + 1` and `getEnd()` answers the stored end minus one,
   * both in 32-bit arithmetic.
   */
  class SummizedValue {
    var start: int
    var end: int
    var value: ScoreValue

    constructor(left: int, right: int, value: ScoreValue)
      ensures start == left && end == right && this.value == value
    {
      start := left;
      end := right;
      this.value := value;
    }

    method SetStart(s: int)
      modifies this
      ensures start == s && end == old(end) && value == old(value)
    {
      start := s;
    }

    method SetEnd(e: int)
      requires IsInt(e)
      modifies this
      ensures end == Wrap(e + 1) && start == old(start) && value == old(value)
      ensures GetEnd() == e
    {
      end := Wrap(e + 1);
      EndEncodingRoundTrip(e);
    }

    function GetEnd(): int
      reads this
    {
      Wrap(end - 1)
    }

    function GetStart(): int
      reads this
    {
      start
    }
  }

  /** Storing `e + 1` and reading back one less gives `e` for every `int`, `Integer.MAX_VALUE` included. */
  lemma EndEncodingRoundTrip(e: int)
    requires IsInt(e)
    ensures Wrap(Wrap(e + 1) - 1) == e
  {
    if e == INT_MAX {
      assert Wrap(e + 1) == INT_MIN;
    }
  }

  // ---------------------------------------------------------------------
  // The chromosome map

  /**
   * The genome's name for the file chromosome `c`: its canonical name when
   * there is a genome and it knows one, `c` itself otherwise.
   */
  function UiName(c: string, canonical: Option<string -> Option<string>>): string {
    match canonical
    case None => c
    case Some(f) => if f(c).Some? then f(c).value else c
  }

  /** The `put` calls the constructor makes: genome name to file name, in the file's order. */
  function ChromPairs(names: seq<string>, canonical: Option<string -> Option<string>>): (ps: seq<(string, string)>)
    ensures |ps| == |names|
    ensures forall i | 0 <= i < |ps| :: ps[i] == (UiName(names[i], canonical), names[i])
  {
    seq(|names|, i requires 0 <= i < |names| => (UiName(names[i], canonical), names[i]))
  }

  /** The file chromosome a request for `chr` reads: `chromMap[chr]` when present, `chr` otherwise. */
  function FileChrom(chromMap: map<string, string>, chr: string): string {
    if chr in chromMap then chromMap[chr] else chr
  }

  /**
   * The map's keys are exactly the genome names of the file chromosomes, and
   * each maps to a file chromosome with that genome name.
   */
  lemma ChromMapKeys(names: seq<string>, canonical: Option<string -> Option<string>>)
    ensures forall k :: k in PutInOrder(map[], ChromPairs(names, canonical)) <==>
                        exists i :: 0 <= i < |names| && UiName(names[i], canonical) == k
    ensures forall k | k in PutInOrder(map[], ChromPairs(names, canonical)) ::
              exists i :: 0 <= i < |names| && UiName(names[i], canonical) == k &&
                          PutInOrder(map[], ChromPairs(names, canonical))[k] == names[i]
  {
    var ps := ChromPairs(names, canonical);
    var m := PutInOrder(map[], ps);
    forall k | k in m
      ensures exists i :: 0 <= i < |names| && UiName(names[i], canonical) == k && m[k] == names[i]
    {
      PutInOrderFromPairs(map[], ps, k);
      var i :| 0 <= i < |ps| && ps[i] == (k, m[k]);
    }
    forall k | exists i :: 0 <= i < |names| && UiName(names[i], canonical) == k
      ensures k in m
    {
      var i :| 0 <= i < |names| && UiName(names[i], canonical) == k;
      assert ps[i].0 == k;
    }
  }

  /**
   * A request under the genome's name of a file chromosome reads that
   * chromosome, unless a later file chromosome has the same genome name
   * (the later `put` wins).
   */
  lemma ChromMapResolves(names: seq<string>, canonical: Option<string -> Option<string>>, j: int)
    requires 0 <= j < |names|
    requires forall i | j < i < |names| :: UiName(names[i], canonical) != UiName(names[j], canonical)
    ensures FileChrom(PutInOrder(map[], ChromPairs(names, canonical)), UiName(names[j], canonical)) == names[j]
  {
    PutInOrderLastWins(map[], ChromPairs(names, canonical), j);
  }

  /** A name that is no file chromosome's genome name is passed to the library unchanged. */
  lemma ChromMapPassesUnknown(names: seq<string>, canonical: Option<string -> Option<string>>, chr: string)
    requires forall i | 0 <= i < |names| :: UiName(names[i], canonical) != chr
    ensures FileChrom(PutInOrder(map[], ChromPairs(names, canonical)), chr) == chr
  {
    var ps := ChromPairs(names, canonical);
    assert forall i | 0 <= i < |ps| :: ps[i].0 != chr;
  }

  // ---------------------------------------------------------------------
  // The bin count and the statistic

  /** The number of bins requested: 700, or the width of the range when that is smaller. */
  function BinCount(start: int, end: int): (n: int)
    ensures n <= 700 && n <= end - start
    ensures n == 700 || n == end - start
  {
    if 700 > end - start then end - start else 700
  }

  /**
   * The native layout clamps its count to the number of positions in
   * `[start, end]`, one more than the Java clamp allows for, so it lays out
   * exactly the requested number of bins.
   */
  lemma BinCountSurvivesClamp(start: int, end: int)
    requires start < end
    ensures 1 <= BinCount(start, end)
    ensures BucketCount(start, end + 1, BinCount(start, end)) == BinCount(start, end)
  {
  }

  /** The statistic a window function selects. */
  datatype Stat = MaxStat | MinStat | MeanStat

  function SelectStat(windowFunction: string): (s: Stat)
    ensures s == MaxStat <==> windowFunction == "Maximum"
    ensures s == MinStat <==> windowFunction == "Minimum"
    ensures s == MeanStat <==> windowFunction != "Maximum" && windowFunction != "Minimum"
  {
    if windowFunction == "Maximum" then MaxStat
    else if windowFunction == "Minimum" then MinStat
    else MeanStat
  }

  /** The value bucket `i` of a statistic reports under `stat`. */
  function ScoreFor(r: StatResult, stat: Stat, i: int): ScoreValue
    requires |r.data| > r.size
  {
    match stat
    case MaxStat => Extreme(GetMax(r, i))
    case MinStat => Extreme(GetMin(r, i))
    case MeanStat => Mean(i)
  }

  /** The statistic the native library computes for a request that passed the guard. */
  function StatFor(parts: seq<TaskPart>, chromMap: map<string, string>, chr: string, start: int, end: int): (r: StatResult)
    requires 0 <= start < end
    ensures |r.data| == r.size + 1 && r.size == BinCount(start, end)
  {
    var r := RunStatSpec(parts, FileChrom(chromMap, chr), start, end, BinCount(start, end));
    BinCountSurvivesClamp(start, end);
    r
  }

  /** The guard: the literal `"All"` (the same string object), or a negative bound, yields no scores. */
  predicate Guarded(chrIsAllLiteral: bool, start: int, end: int) {
    chrIsAllLiteral || start < 0 || end < 0
  }

  /**
   * The scores of a request are ordered and disjoint: score `i` reports the
   * `i`-th bucket of the layout, which ends before the next one starts.
   */
  lemma ScoresAscending(parts: seq<TaskPart>, chromMap: map<string, string>, chr: string, start: int, end: int,
                        i: int, j: int)
    requires 0 <= start < end
    requires 0 <= i < j < BinCount(start, end)
    ensures GetBegin(StatFor(parts, chromMap, chr, start, end), i) < GetEnd(StatFor(parts, chromMap, chr, start, end), i)
    ensures GetEnd(StatFor(parts, chromMap, chr, start, end), i) <= GetBegin(StatFor(parts, chromMap, chr, start, end), j)
  {
    var n := BinCount(start, end);
    var unit := (end + 1 - start) / n;
    var rem := (end + 1 - start) % n;
    BinCountSurvivesClamp(start, end);
    LayoutParamsBounds(start, end + 1, n, unit, rem);
    var chrom := FileChrom(chromMap, chr);
    RunStatBounds(parts, chrom, start, end, n, unit, rem, i);
    RunStatBounds(parts, chrom, start, end, n, unit, rem, j);
    LayoutAscending(start, unit, rem, i, j);
  }

  /** The D4 coverage source: the file's chromosome map and its data. */
  class D4FileParser {
    var chromMap: map<string, string>
    const parts: seq<TaskPart>

    /**
     * Builds the map from each file chromosome's genome name to the file
     * name, one `put` per chromosome in the file's order; `canonical` is
     * absent when there is no genome.
     */
    constructor(names: seq<string>, canonical: Option<string -> Option<string>>, parts: seq<TaskPart>)
      ensures chromMap == PutInOrder(map[], ChromPairs(names, canonical)) && this.parts == parts
    {
      this.parts := parts;
      chromMap := map[];
      new;
      var i := 0;
      while i < |names|
        invariant 0 <= i <= |names|
        invariant chromMap == PutInOrder(map[], ChromPairs(names[..i], canonical))
      {
        var uiName := UiName(names[i], canonical);
        chromMap := chromMap[uiName := names[i]];
        assert ChromPairs(names[..i + 1], canonical)[..i] == ChromPairs(names[..i], canonical);
        i := i + 1;
      }
      assert names[..i] == names;
    }

    /**
     * `getPrecomputedSummaryScores`: no scores behind the guard; otherwise one
     * score per bucket of the statistic, in bucket order, holding the
     * bucket's begin and end and the value the window function selects.
     */
    method GetPrecomputedSummaryScores(chr: string, chrIsAllLiteral: bool, start: int, end: int, windowFunction: string)
      returns (ret: seq<SummizedValue>)
      requires IsInt(start) && IsInt(end)
      requires !Guarded(chrIsAllLiteral, start, end) ==> start < end < INT_MAX
      ensures Guarded(chrIsAllLiteral, start, end) ==> ret == []
      ensures !Guarded(chrIsAllLiteral, start, end) ==>
                var r := StatFor(parts, chromMap, chr, start, end);
                |ret| == BinCount(start, end) &&
                forall i | 0 <= i < |ret| ::
                  ret[i].start == GetBegin(r, i) && ret[i].end == GetEnd(r, i) &&
                  ret[i].value == ScoreFor(r, SelectStat(windowFunction), i)
    {
      if chrIsAllLiteral || start < 0 || end < 0 {
        return [];
      }
      var d4Chr := if chr in chromMap then chromMap[chr] else chr;
      var nBins := 700;
      if nBins > end - start {
        nBins := end - start;
      }
      var result := RunStat(parts, d4Chr, start, end, nBins);
      ghost var r := StatFor(parts, chromMap, chr, start, end);
      assert result == r;
      var stat := SelectStat(windowFunction);
      ret := [];
      var size := result.size;
      var i := 0;
      while i < size
        invariant 0 <= i <= size
        invariant |ret| == i
        invariant forall k | 0 <= k < i ::
                    ret[k].start == GetBegin(r, k) && ret[k].end == GetEnd(r, k) &&
                    ret[k].value == ScoreFor(r, stat, k)
      {
        var left := GetBegin(result, i);
        var right := GetEnd(result, i);
        var value := ScoreFor(result, stat, i);
        var score := new SummizedValue(left, right, value);
        ret := ret + [score];
        i := i + 1;
      }
    }
  }
}

/**
 * The bucket statistics of the D4 native library: `d4_run_stat` splits an
 * inclusive range into equal-width buckets, each task part of the file clips
 * the buckets to its own range (`task_init`), scans its values updating the
 * per-bucket minimum and maximum (`task_proc`), and the partial results are
 * merged back into the bucket table (`task_clean`). The `d4_stat_get_*`
 * accessors read the table.
 *
 * The floating-point `sum` of each bucket, and with it the mean value, is
 * not modelled. Positions are non-negative, so the library's mixed signed and
 * unsigned comparisons are modelled as comparisons of integers.
 */
module D4Stat {
  import opened Wrappers
  import opened JavaLang

  /** One entry of the bucket table; `chrom` is absent in the zeroed entry that ends the table. */
  datatype BucketInfo = BucketInfo(chrom: Option<string>, left: int, right: int, count: int, min: int, max: int)

  /** The zeroed entry `calloc` leaves after the last bucket. */
  const TERMINATOR: BucketInfo := BucketInfo(None, 0, 0, 0, 0, 0)

  /** The per-part view of one bucket: the table index, the clipped range and the partial minimum and maximum. */
  datatype BucketCtx = BucketCtx(info: int, left: int, right: int, min: int, max: int)

  // ---------------------------------------------------------------------
  // d4_run_stat: the bucket layout

  /** The number of buckets `d4_run_stat` lays out for `count` requested over the exclusive end `end`. */
  function BucketCount(left: int, end: int, count: int): int {
    if count > end - left then end - left else count
  }

  /** `i` bucket widths of `unit` positions laid end to end, that is `i * unit`. */
  function Units(i: int, unit: int): int
    decreases i
  {
    if i <= 0 then 0 else Units(i - 1, unit) + unit
  }

  lemma {:induction false} UnitsIsProduct(i: nat, unit: int)
    ensures Units(i, unit) == i * unit
  {
    if i > 0 {
      UnitsIsProduct(i - 1, unit);
      assert (i - 1) * unit + unit == i * unit;
    }
  }

  /** Where bucket `i` starts: `i` whole units past `left`, plus one for each earlier bucket among the first `rem`. */
  function BucketLeft(left: int, unit: int, rem: int, i: int): int {
    left + Units(i, unit) + (if i < rem then i else rem)
  }

  /** `size` buckets of width `unit` starting at `BucketLeft`, then the terminating entry. */
  predicate IsLayout(bs: seq<BucketInfo>, chrom: string, left: int, unit: int, rem: int, size: int) {
    0 <= size && |bs| == size + 1 && bs[size] == TERMINATOR &&
    forall i | 0 <= i < size ::
      bs[i] == BucketInfo(Some(chrom), BucketLeft(left, unit, rem, i), BucketLeft(left, unit, rem, i) + unit,
                          0, INT_MAX, INT_MIN)
  }

  /** The table `d4_run_stat` builds. */
  function Layout(chrom: string, left: int, unit: int, rem: int, size: int): (bs: seq<BucketInfo>)
    requires 0 <= size
    ensures IsLayout(bs, chrom, left, unit, rem, size)
  {
    seq(size + 1, i requires 0 <= i <= size =>
      if i < size then BucketInfo(Some(chrom), BucketLeft(left, unit, rem, i), BucketLeft(left, unit, rem, i) + unit,
                                  0, INT_MAX, INT_MIN)
      else TERMINATOR)
  }

  /** The width and the remainder `d4_run_stat` derives for `size` buckets over `[left, end)`. */
  predicate LayoutParams(left: int, end: int, size: int, unit: int, rem: int) {
    1 <= size && unit == (end - left) / size && rem == (end - left) % size
  }

  /**
   * `d4_run_stat`'s layout loop for the inclusive range `[left, right]`: the
   * count is clamped to the number of positions and the buckets are written
   * into a zeroed table one longer than the count.
   */
  method LayoutBuckets(chrom: string, left: int, right: int, count: int)
    returns (buckets: array<BucketInfo>, size: int, unit: int, rem: int)
    requires 0 <= left <= right < INT_MAX
    requires count >= 1
    ensures size == BucketCount(left, right + 1, count) && 1 <= size <= count
    ensures LayoutParams(left, right + 1, size, unit, rem)
    ensures fresh(buckets) && buckets[..] == Layout(chrom, left, unit, rem, size)
  {
    var end := right + 1;
    size := BucketCount(left, end, count);
    buckets := new BucketInfo[size + 1](_ => TERMINATOR);
    unit := (end - left) / size;
    rem := (end - left) % size;
    var used := 0;
    var i := 0;
    while i < size
      invariant 0 <= i <= size
      invariant used == Min(i, rem)
      invariant buckets[size] == TERMINATOR
      invariant forall k | 0 <= k < i ::
                  buckets[k] == BucketInfo(Some(chrom), BucketLeft(left, unit, rem, k), BucketLeft(left, unit, rem, k) + unit,
                                           0, INT_MAX, INT_MIN)
    {
      var bucketLeft := left + i * unit + used;
      UnitsIsProduct(i, unit);
      if used < rem {
        used := used + 1;
      }
      buckets[i] := BucketInfo(Some(chrom), bucketLeft, bucketLeft + unit, 0, INT_MAX, INT_MIN);
      i := i + 1;
    }
    assert buckets[..] == Layout(chrom, left, unit, rem, size);
  }

  lemma {:induction false} BucketLeftStep(left: int, unit: int, rem: int, i: int)
    requires 0 <= i && 0 <= rem
    ensures BucketLeft(left, unit, rem, i + 1) == BucketLeft(left, unit, rem, i) + unit + (if i < rem then 1 else 0)
  {
  }

  lemma {:induction false} BucketLeftMonotone(left: int, unit: int, rem: int, i: int, j: int)
    requires 0 <= i <= j && 0 <= rem && 0 <= unit
    ensures BucketLeft(left, unit, rem, i) <= BucketLeft(left, unit, rem, j)
    decreases j - i
  {
    if i < j {
      BucketLeftMonotone(left, unit, rem, i, j - 1);
      BucketLeftStep(left, unit, rem, j - 1);
    }
  }

  /** The width is at least one position and the remainder is smaller than the bucket count. */
  lemma {:induction false} LayoutParamsBounds(left: int, end: int, size: int, unit: int, rem: int)
    requires left < end && size <= end - left
    requires LayoutParams(left, end, size, unit, rem)
    ensures unit >= 1 && 0 <= rem < size
    ensures left + size * unit + rem == end
  {
  }

  /**
   * The layout, as written: every bucket is `unit` wide, the first starts at
   * `left`, the last ends exactly at the exclusive end, and each of the first
   * `rem` buckets is followed by a one-position gap.
   */
  lemma {:induction false} LayoutShape(left: int, end: int, size: int, unit: int, rem: int)
    requires left < end && size <= end - left
    requires LayoutParams(left, end, size, unit, rem)
    ensures unit >= 1 && 0 <= rem < size
    ensures BucketLeft(left, unit, rem, 0) == left
    ensures BucketLeft(left, unit, rem, size - 1) + unit == end
    ensures forall i | 0 <= i < size - 1 ::
              BucketLeft(left, unit, rem, i + 1) - (BucketLeft(left, unit, rem, i) + unit) == (if i < rem then 1 else 0)
  {
    LayoutParamsBounds(left, end, size, unit, rem);
    UnitsIsProduct(size, unit);
    assert Units(size, unit) == Units(size - 1, unit) + unit;
    forall i | 0 <= i < size - 1
      ensures BucketLeft(left, unit, rem, i + 1) - (BucketLeft(left, unit, rem, i) + unit) == (if i < rem then 1 else 0)
    {
      BucketLeftStep(left, unit, rem, i);
    }
  }

  /** Buckets are disjoint and in ascending order. */
  lemma {:induction false} LayoutAscending(left: int, unit: int, rem: int, i: int, j: int)
    requires unit >= 0 && rem >= 0
    requires 0 <= i < j
    ensures BucketLeft(left, unit, rem, i) + unit <= BucketLeft(left, unit, rem, j)
  {
    BucketLeftMonotone(left, unit, rem, i + 1, j);
    BucketLeftStep(left, unit, rem, i);
  }

  /** Some bucket of the layout holds position `p`. */
  predicate InSomeBucket(left: int, unit: int, rem: int, size: int, p: int) {
    exists j :: 0 <= j < size && BucketLeft(left, unit, rem, j) <= p < BucketLeft(left, unit, rem, j) + unit
  }

  /** The position after each of the first `rem` buckets lies in no bucket, so its value is never counted. */
  lemma {:induction false} GapPositionUncovered(left: int, unit: int, rem: int, size: int, i: int)
    requires unit >= 0 && 0 <= i < rem
    ensures !InSomeBucket(left, unit, rem, size, BucketLeft(left, unit, rem, i) + unit)
  {
    var p := BucketLeft(left, unit, rem, i) + unit;
    forall j | 0 <= j < size
      ensures !(BucketLeft(left, unit, rem, j) <= p < BucketLeft(left, unit, rem, j) + unit)
    {
      if j < i {
        LayoutAscending(left, unit, rem, j, i);
      } else if j > i {
        LayoutAscending(left, unit, rem, i, j);
        BucketLeftMonotone(left, unit, rem, i + 1, j);
        BucketLeftStep(left, unit, rem, i);
      }
    }
  }

  /** The range `[0, 9]` in 3 buckets: `[0, 3)`, `[4, 7)`, `[7, 10)`; position 3 is in none of them. */
  lemma GapExample()
    ensures BucketCount(0, 10, 3) == 3 && LayoutParams(0, 10, 3, 3, 1)
    ensures BucketLeft(0, 3, 1, 0) == 0 && BucketLeft(0, 3, 1, 1) == 4 && BucketLeft(0, 3, 1, 2) == 7
    ensures !InSomeBucket(0, 3, 1, 3, 3)
  {
    GapPositionUncovered(0, 3, 1, 3, 0);
  }

  /** The evidently intended layout: the first `rem` buckets are one position wider instead of being followed by a gap. */
  function TiledRight(left: int, unit: int, rem: int, i: int): int {
    BucketLeft(left, unit, rem, i) + unit + (if i < rem then 1 else 0)
  }

  /** In the widened layout consecutive buckets touch, and together they run from `left` to the exclusive end. */
  lemma {:induction false} TiledLayoutCovers(left: int, end: int, size: int, unit: int, rem: int)
    requires left < end && size <= end - left
    requires LayoutParams(left, end, size, unit, rem)
    ensures BucketLeft(left, unit, rem, 0) == left
    ensures TiledRight(left, unit, rem, size - 1) == end
    ensures forall i | 0 <= i < size - 1 :: TiledRight(left, unit, rem, i) == BucketLeft(left, unit, rem, i + 1)
  {
    LayoutShape(left, end, size, unit, rem);
    forall i | 0 <= i < size - 1 ensures TiledRight(left, unit, rem, i) == BucketLeft(left, unit, rem, i + 1) {
      BucketLeftStep(left, unit, rem, i);
    }
  }

  /** Every position of `[left, end)` lies in exactly one bucket of the widened layout. */
  lemma {:induction false} TiledLayoutPartitions(left: int, end: int, size: int, unit: int, rem: int, p: int)
    requires left < end && size <= end - left
    requires LayoutParams(left, end, size, unit, rem)
    requires left <= p < end
    ensures exists j :: 0 <= j < size && BucketLeft(left, unit, rem, j) <= p < TiledRight(left, unit, rem, j)
    ensures forall j, k | 0 <= j < k < size :: TiledRight(left, unit, rem, j) <= BucketLeft(left, unit, rem, k)
  {
    TiledLayoutCovers(left, end, size, unit, rem);
    LayoutParamsBounds(left, end, size, unit, rem);
    forall j, k | 0 <= j < k < size ensures TiledRight(left, unit, rem, j) <= BucketLeft(left, unit, rem, k) {
      BucketLeftMonotone(left, unit, rem, j + 1, k);
      BucketLeftStep(left, unit, rem, j);
    }
    var j := 0;
    while TiledRight(left, unit, rem, j) <= p
      invariant 0 <= j < size
      invariant BucketLeft(left, unit, rem, j) <= p
      decreases size - j
    {
      j := j + 1;
    }
  }

  // ---------------------------------------------------------------------
  // task_init: clipping the buckets to one part

  /**
   * The clipped buckets `task_init` collects from index `i` on: buckets on
   * another chromosome are passed over, buckets ending before `l` are
   * skipped, the first bucket starting after `r` ends the walk, and every
   * kept bucket is clipped to `[l, r]` with a fresh minimum and maximum.
   */
  function ClipFrom(bs: seq<BucketInfo>, name: string, l: int, r: int, i: int): seq<BucketCtx>
    requires 0 <= i
    decreases |bs| - i
  {
    if i >= |bs| || bs[i].chrom.None? then []
    else if bs[0].chrom != Some(name) then ClipFrom(bs, name, l, r, i + 1)
    else if bs[i].right < l then ClipFrom(bs, name, l, r, i + 1)
    else if r < bs[i].left then []
    else [BucketCtx(i, Max(l, bs[i].left), Min(r, bs[i].right), INT_MAX, INT_MIN)] + ClipFrom(bs, name, l, r, i + 1)
  }

  /**
   * Every kept bucket is a bucket of the table from index `i` on, overlaps
   * `[l, r]` and is clipped to it with a fresh minimum and maximum; kept
   * buckets are in table order.
   */
  predicate ClipShape(bs: seq<BucketInfo>, l: int, r: int, i: int, out: seq<BucketCtx>) {
    (forall k | 0 <= k < |out| ::
       0 <= i <= out[k].info < |bs| && bs[out[k].info].chrom.Some? &&
       l <= bs[out[k].info].right && bs[out[k].info].left <= r &&
       out[k] == BucketCtx(out[k].info, Max(l, bs[out[k].info].left), Min(r, bs[out[k].info].right), INT_MAX, INT_MIN)) &&
    (forall k, k' | 0 <= k < k' < |out| :: out[k].info < out[k'].info)
  }

  lemma {:induction false} ClipFromShape(bs: seq<BucketInfo>, name: string, l: int, r: int, i: int)
    requires 0 <= i
    ensures ClipShape(bs, l, r, i, ClipFrom(bs, name, l, r, i))
    decreases |bs| - i
  {
    if i < |bs| && bs[i].chrom.Some? {
      ClipFromShape(bs, name, l, r, i + 1);
      var rest := ClipFrom(bs, name, l, r, i + 1);
      var out := ClipFrom(bs, name, l, r, i);
      if bs[0].chrom != Some(name) || bs[i].right < l {
        assert out == rest;
      } else if r < bs[i].left {
        assert out == [];
      } else {
        assert out == [out[0]] + rest;
        assert forall k | 0 < k < |out| :: out[k] == rest[k - 1];
      }
    }
  }

  /** The table `task_init` walks: `size` buckets, then the terminating entry. */
  predicate IsTable(bs: seq<BucketInfo>, size: int) {
    0 <= size < |bs| && bs[size].chrom.None? && forall j | 0 <= j < size :: bs[j].chrom.Some?
  }

  /** Some clipped bucket of `out` belongs to table entry `j`. */
  predicate HasInfo(out: seq<BucketCtx>, j: int) {
    exists k :: 0 <= k < |out| && out[k].info == j
  }

  lemma HasInfoCons(x: BucketCtx, rest: seq<BucketCtx>, j: int)
    ensures HasInfo([x] + rest, j) <==> x.info == j || HasInfo(rest, j)
  {
    var out := [x] + rest;
    assert out[0] == x;
    if HasInfo(rest, j) {
      var k :| 0 <= k < |rest| && rest[k].info == j;
      assert out[k + 1] == rest[k];
    }
    if HasInfo(out, j) {
      var k :| 0 <= k < |out| && out[k].info == j;
      if k != 0 {
        assert rest[k - 1] == out[k];
      }
    }
  }

  /**
   * On a table whose buckets start in ascending order, the part keeps exactly
   * the buckets that overlap `[l, r]` when its chromosome is the table's, and
   * none otherwise.
   */
  lemma {:induction false} ClipKeepsOverlapping(bs: seq<BucketInfo>, size: int, name: string, l: int, r: int, i: int, j: int)
    requires IsTable(bs, size)
    requires forall a, b | 0 <= a < b < size :: bs[a].left <= bs[b].left
    requires 0 <= i <= j < size
    ensures HasInfo(ClipFrom(bs, name, l, r, i), j) <==> bs[0].chrom == Some(name) && l <= bs[j].right && bs[j].left <= r
    decreases size - i
  {
    var out := ClipFrom(bs, name, l, r, i);
    if bs[0].chrom != Some(name) || bs[i].right < l {
      if i < j {
        ClipKeepsOverlapping(bs, size, name, l, r, i + 1, j);
      } else {
        ClipFromShape(bs, name, l, r, i + 1);
      }
    } else if r < bs[i].left {
      assert bs[i].left <= bs[j].left;
    } else {
      var rest := ClipFrom(bs, name, l, r, i + 1);
      HasInfoCons(out[0], rest, j);
      assert out == [out[0]] + rest;
      if i < j {
        ClipKeepsOverlapping(bs, size, name, l, r, i + 1, j);
      }
    }
  }

  /** `task_init`: walks the table up to its terminating entry, collecting the clipped buckets of one part. */
  method TaskInit(buckets: array<BucketInfo>, name: string, l: int, r: int) returns (ctx: seq<BucketCtx>)
    requires buckets.Length >= 1 && buckets[buckets.Length - 1].chrom.None?
    ensures ctx == ClipFrom(buckets[..], name, l, r, 0)
  {
    ghost var bs := buckets[..];
    ctx := [];
    var i := 0;
    while buckets[i].chrom.Some?
      invariant 0 <= i < buckets.Length
      invariant ClipFrom(bs, name, l, r, 0) == ctx + ClipFrom(bs, name, l, r, i)
      decreases buckets.Length - i
    {
      assert bs[i] == buckets[i] && bs[0] == buckets[0];
      if buckets[0].chrom != Some(name) {
        i := i + 1;
        continue;
      }
      if buckets[i].right < l {
        i := i + 1;
        continue;
      } else if r < buckets[i].left {
        assert ClipFrom(bs, name, l, r, i) == [];
        assert ctx + [] == ctx;
        return;
      }
      var il := l;
      var ir := r;
      if il < buckets[i].left {
        il := buckets[i].left;
      }
      if buckets[i].right < ir {
        ir := buckets[i].right;
      }
      var c := BucketCtx(i, il, ir, INT_MAX, INT_MIN);
      assert ClipFrom(bs, name, l, r, i) == [c] + ClipFrom(bs, name, l, r, i + 1);
      assert ctx + ([c] + ClipFrom(bs, name, l, r, i + 1)) == (ctx + [c]) + ClipFrom(bs, name, l, r, i + 1);
      ctx := ctx + [c];
      i := i + 1;
    }
    assert bs[i] == buckets[i];
    assert ctx + [] == ctx;
  }

  // ---------------------------------------------------------------------
  // task_proc: the scan of one part

  /** One value merged into a bucket's partial minimum and maximum. */
  function Absorb(b: BucketCtx, v: int): BucketCtx {
    b.(min := Min(b.min, v), max := Max(b.max, v))
  }

  /** The value of position `pos` merged into bucket `c` when the position is at or after the bucket's start. */
  function Merge(bs: seq<BucketCtx>, c: int, pos: int, v: int): (next: seq<BucketCtx>)
    requires 0 <= c < |bs|
    ensures |next| == |bs|
  {
    if bs[c].left <= pos then bs[c := Absorb(bs[c], v)] else bs
  }

  /**
   * The scan from position `pos` with bucket `current`: at each position the
   * scan moves on by one bucket once the position reaches the current
   * bucket's end, stops when no bucket is left, and merges the value into the
   * current bucket when the position is at or after its start.
   */
  function Scan(bs: seq<BucketCtx>, current: int, pos: int, values: seq<int>): (out: seq<BucketCtx>)
    requires 0 <= current < |bs|
    ensures |out| == |bs|
    ensures forall j | 0 <= j < |bs| ::
              out[j].info == bs[j].info && out[j].left == bs[j].left && out[j].right == bs[j].right
    decreases |values|
  {
    if values == [] then bs
    else
      var c := if bs[current].right <= pos then current + 1 else current;
      if c >= |bs| then bs else Scan(Merge(bs, c, pos, values[0]), c, pos + 1, values[1..])
  }

  /** `task_proc` over the values of positions `l, l + 1, ...`, updating the part's buckets in place. */
  method TaskProc(ctx: array<BucketCtx>, l: int, values: seq<int>)
    modifies ctx
    ensures ctx.Length == 0 ==> ctx[..] == old(ctx[..])
    ensures ctx.Length > 0 ==> ctx[..] == Scan(old(ctx[..]), 0, l, values)
  {
    if ctx.Length == 0 {
      return;
    }
    var current := 0;
    var i := 0;
    while i < |values|
      invariant 0 <= i <= |values|
      invariant 0 <= current < ctx.Length
      invariant Scan(old(ctx[..]), 0, l, values) == Scan(ctx[..], current, l + i, values[i..])
    {
      var valuePos := l + i;
      if ctx[current].right <= valuePos {
        current := current + 1;
      }
      if current >= ctx.Length {
        return;
      }
      if ctx[current].left <= valuePos {
        ctx[current] := Absorb(ctx[current], values[i]);
      }
      assert values[i..][1..] == values[i + 1..];
      i := i + 1;
    }
  }

  /** Bucket `b` with the values of the positions from `pos` on that fall in `[b.left, b.right)` merged in. */
  function FoldRange(b: BucketCtx, pos: int, values: seq<int>): BucketCtx
    decreases |values|
  {
    if values == [] then b
    else FoldRange(if b.left <= pos < b.right then Absorb(b, values[0]) else b, pos + 1, values[1..])
  }

  lemma FoldRangeStep(b: BucketCtx, pos: int, values: seq<int>)
    requires values != []
    ensures FoldRange(b, pos, values) ==
            FoldRange(if b.left <= pos < b.right then Absorb(b, values[0]) else b, pos + 1, values[1..])
  {
  }

  lemma {:induction false} FoldRangePast(b: BucketCtx, pos: int, values: seq<int>)
    requires b.right <= pos
    ensures FoldRange(b, pos, values) == b
    decreases |values|
  {
    if values != [] {
      FoldRangePast(b, pos + 1, values[1..]);
    }
  }

  /**
   * The buckets a part scans: in ascending order, none reversed, and none
   * empty except the first and those starting at or after the scan's end.
   */
  predicate ScanOrder(bs: seq<BucketCtx>, end: int) {
    (forall j | 0 <= j < |bs| :: bs[j].left <= bs[j].right) &&
    (forall j | 0 < j < |bs| :: bs[j].left < bs[j].right || end <= bs[j].left) &&
    (forall j, k | 0 <= j < k < |bs| :: bs[j].right <= bs[k].left)
  }

  /** Where the scan stands: every earlier bucket has ended and the current one has not ended before `pos`. */
  predicate ScanPosition(bs: seq<BucketCtx>, current: int, pos: int)
    requires 0 <= current < |bs|
  {
    pos <= bs[current].right && forall k | 0 <= k < current :: bs[k].right <= pos
  }

  /** One scan step from bucket `current` at `pos`: where the scan moves and the buckets after merging the value. */
  lemma ScanStep(bs: seq<BucketCtx>, current: int, pos: int, end: int, v: int, c: int)
    requires 0 <= current < |bs|
    requires pos < end && ScanOrder(bs, end) && ScanPosition(bs, current, pos)
    requires c == (if bs[current].right <= pos then current + 1 else current) && c < |bs|
    ensures pos < bs[c].right
    ensures ScanOrder(Merge(bs, c, pos, v), end) && ScanPosition(Merge(bs, c, pos, v), c, pos + 1)
    ensures forall j | 0 <= j < |bs| ::
              Merge(bs, c, pos, v)[j] == if bs[j].left <= pos < bs[j].right then Absorb(bs[j], v) else bs[j]
  {
    var next := Merge(bs, c, pos, v);
    if c > current {
      assert bs[current].right <= bs[c].left;
    }
    forall j | 0 <= j < |bs|
      ensures next[j] == if bs[j].left <= pos < bs[j].right then Absorb(bs[j], v) else bs[j]
    {
      if j < c {
        assert bs[j].right <= pos;
      } else if j > c {
        assert bs[c].right <= bs[j].left;
      }
    }
  }

  /**
   * The scan merges into each bucket exactly the values of the positions that
   * lie in the bucket's range: the minimum (maximum) of each bucket becomes
   * the smaller (larger) of its start value and the values in its range.
   */
  lemma {:induction false} ScanFoldsRanges(bs: seq<BucketCtx>, current: int, pos: int, values: seq<int>)
    requires 0 <= current < |bs|
    requires ScanOrder(bs, pos + |values|)
    requires ScanPosition(bs, current, pos)
    ensures forall j | 0 <= j < |bs| :: Scan(bs, current, pos, values)[j] == FoldRange(bs[j], pos, values)
    decreases |values|, 1
  {
    if values != [] {
      var c := if bs[current].right <= pos then current + 1 else current;
      if c >= |bs| {
        ScanFoldsEnd(bs, current, pos, values);
      } else {
        ScanFoldsMoving(bs, current, pos, values, c);
      }
    }
  }

  /** The case of `ScanFoldsRanges` where the scan has a bucket `c` to merge the first value into. */
  lemma {:induction false} ScanFoldsMoving(bs: seq<BucketCtx>, current: int, pos: int, values: seq<int>, c: int)
    requires 0 <= current < |bs| && values != []
    requires ScanOrder(bs, pos + |values|)
    requires ScanPosition(bs, current, pos)
    requires c == (if bs[current].right <= pos then current + 1 else current) && c < |bs|
    ensures forall j | 0 <= j < |bs| :: Scan(bs, current, pos, values)[j] == FoldRange(bs[j], pos, values)
    decreases |values|, 0
  {
    ScanStep(bs, current, pos, pos + |values|, values[0], c);
    assert (pos + 1) + |values[1..]| == pos + |values|;
    ScanFoldsRanges(Merge(bs, c, pos, values[0]), c, pos + 1, values[1..]);
    ScanFoldsStep(bs, current, pos, values, c);
  }

  /** Once every bucket has ended, the scan stops and no later value falls in a bucket. */
  lemma ScanFoldsEnd(bs: seq<BucketCtx>, current: int, pos: int, values: seq<int>)
    requires 0 <= current < |bs| && values != []
    requires ScanPosition(bs, current, pos)
    requires bs[current].right <= pos && current + 1 >= |bs|
    ensures forall j | 0 <= j < |bs| :: Scan(bs, current, pos, values)[j] == FoldRange(bs[j], pos, values)
  {
    forall j | 0 <= j < |bs| ensures Scan(bs, current, pos, values)[j] == FoldRange(bs[j], pos, values) {
      FoldRangePast(bs[j], pos, values);
    }
  }

  /** The inductive step of `ScanFoldsRanges`: folding the first value, then the rest, is folding them all. */
  lemma ScanFoldsStep(bs: seq<BucketCtx>, current: int, pos: int, values: seq<int>, c: int)
    requires 0 <= current < |bs| && values != []
    requires c == (if bs[current].right <= pos then current + 1 else current) && c < |bs|
    requires forall j | 0 <= j < |bs| ::
               Merge(bs, c, pos, values[0])[j] == if bs[j].left <= pos < bs[j].right then Absorb(bs[j], values[0]) else bs[j]
    requires forall j | 0 <= j < |bs| ::
               Scan(Merge(bs, c, pos, values[0]), c, pos + 1, values[1..])[j] ==
               FoldRange(Merge(bs, c, pos, values[0])[j], pos + 1, values[1..])
    ensures forall j | 0 <= j < |bs| :: Scan(bs, current, pos, values)[j] == FoldRange(bs[j], pos, values)
  {
    var next := Merge(bs, c, pos, values[0]);
    assert Scan(bs, current, pos, values) == Scan(next, c, pos + 1, values[1..]);
    forall j | 0 <= j < |bs| ensures Scan(bs, current, pos, values)[j] == FoldRange(bs[j], pos, values) {
      FoldRangeStep(bs[j], pos, values);
    }
  }

  /** A clipped bucket of a laid-out table: its layout bucket, clipped to `[l, r]`, overlaps `[l, r]`. */
  lemma ClipOfLayout(bs: seq<BucketInfo>, chrom: string, left: int, unit: int, rem: int,
                     size: int, name: string, l: int, r: int, k: int)
    requires IsLayout(bs, chrom, left, unit, rem, size)
    requires 0 <= k < |ClipFrom(bs, name, l, r, 0)|
    ensures var c := ClipFrom(bs, name, l, r, 0)[k];
            var b := BucketLeft(left, unit, rem, c.info);
            0 <= c.info < size && l <= b + unit && b <= r &&
            c.left == Max(l, b) && c.right == Min(r, b + unit)
  {
    ClipFromShape(bs, name, l, r, 0);
    var c := ClipFrom(bs, name, l, r, 0)[k];
    assert bs[c.info].chrom.Some?;
  }

  /** The clipped buckets of a laid-out table are disjoint and ascending. */
  lemma ClippedDisjoint(bs: seq<BucketInfo>, chrom: string, left: int, unit: int, rem: int,
                        size: int, name: string, l: int, r: int)
    requires unit >= 1 && rem >= 0
    requires IsLayout(bs, chrom, left, unit, rem, size)
    ensures var out := ClipFrom(bs, name, l, r, 0);
            forall j, k | 0 <= j < k < |out| :: out[j].right <= out[k].left
  {
    var out := ClipFrom(bs, name, l, r, 0);
    ClipFromShape(bs, name, l, r, 0);
    forall j, k | 0 <= j < k < |out| ensures out[j].right <= out[k].left {
      ClipOfLayout(bs, chrom, left, unit, rem, size, name, l, r, j);
      ClipOfLayout(bs, chrom, left, unit, rem, size, name, l, r, k);
      LayoutAscending(left, unit, rem, out[j].info, out[k].info);
    }
  }

  /** Every clipped bucket after the first is non-empty unless it starts at or after `r`. */
  lemma ClippedNonEmpty(bs: seq<BucketInfo>, chrom: string, left: int, unit: int, rem: int,
                        size: int, name: string, l: int, r: int)
    requires unit >= 1 && rem >= 0
    requires IsLayout(bs, chrom, left, unit, rem, size)
    ensures var out := ClipFrom(bs, name, l, r, 0);
            forall j | 0 < j < |out| :: out[j].left < out[j].right || r <= out[j].left
  {
    var out := ClipFrom(bs, name, l, r, 0);
    ClipFromShape(bs, name, l, r, 0);
    forall j | 0 < j < |out| ensures out[j].left < out[j].right || r <= out[j].left {
      ClipOfLayout(bs, chrom, left, unit, rem, size, name, l, r, 0);
      ClipOfLayout(bs, chrom, left, unit, rem, size, name, l, r, j);
      LayoutAscending(left, unit, rem, out[0].info, out[j].info);
    }
  }

  /** The buckets `task_init` produces for a part `[l, r)` of a laid-out table are in scan order. */
  lemma {:induction false} ClippedLayoutScanOrder(bs: seq<BucketInfo>, chrom: string, left: int, unit: int, rem: int,
                                                 size: int, name: string, l: int, r: int)
    requires unit >= 1 && rem >= 0
    requires IsLayout(bs, chrom, left, unit, rem, size)
    requires l <= r
    ensures ScanOrder(ClipFrom(bs, name, l, r, 0), r)
    ensures |ClipFrom(bs, name, l, r, 0)| > 0 ==> ScanPosition(ClipFrom(bs, name, l, r, 0), 0, l)
  {
    var out := ClipFrom(bs, name, l, r, 0);
    forall j | 0 <= j < |out| ensures out[j].left <= out[j].right {
      ClipOfLayout(bs, chrom, left, unit, rem, size, name, l, r, j);
    }
    ClippedDisjoint(bs, chrom, left, unit, rem, size, name, l, r);
    ClippedNonEmpty(bs, chrom, left, unit, rem, size, name, l, r);
    if |out| > 0 {
      ClipOfLayout(bs, chrom, left, unit, rem, size, name, l, r, 0);
    }
  }

  // ---------------------------------------------------------------------
  // task_clean: merging the parts

  /** One part's bucket merged into its table entry: the clipped width is counted and the extremes combined. */
  function MergeOne(info: BucketInfo, c: BucketCtx): BucketInfo {
    info.(count := info.count + (c.right - c.left), min := Min(info.min, c.min), max := Max(info.max, c.max))
  }

  predicate IndicesIn(ctx: seq<BucketCtx>, n: int) {
    forall k | 0 <= k < |ctx| :: 0 <= ctx[k].info < n
  }

  /** The buckets of one part merged into the table, in order. */
  function MergeCtx(bs: seq<BucketInfo>, ctx: seq<BucketCtx>): (out: seq<BucketInfo>)
    requires IndicesIn(ctx, |bs|)
    ensures |out| == |bs|
    decreases |ctx|
  {
    if ctx == [] then bs
    else MergeCtx(bs[ctx[0].info := MergeOne(bs[ctx[0].info], ctx[0])], ctx[1..])
  }

  /** The results of all parts merged into the table; a part without a context contributes nothing. */
  function MergeParts(bs: seq<BucketInfo>, parts: seq<Option<seq<BucketCtx>>>): (out: seq<BucketInfo>)
    requires forall p | 0 <= p < |parts| :: parts[p].Some? ==> IndicesIn(parts[p].value, |bs|)
    ensures |out| == |bs|
    decreases |parts|
  {
    if parts == [] then bs
    else MergeParts(if parts[0].None? then bs else MergeCtx(bs, parts[0].value), parts[1..])
  }

  /** The sum of the clipped widths a part contributes to table entry `j`. */
  function WidthFor(ctx: seq<BucketCtx>, j: int): int
    decreases |ctx|
  {
    if ctx == [] then 0
    else (if ctx[0].info == j then ctx[0].right - ctx[0].left else 0) + WidthFor(ctx[1..], j)
  }

  /** `init` combined with the partial minima a part holds for entry `j`. */
  function MinFor(ctx: seq<BucketCtx>, j: int, init: int): int
    decreases |ctx|
  {
    if ctx == [] then init else MinFor(ctx[1..], j, if ctx[0].info == j then Min(init, ctx[0].min) else init)
  }

  /** `init` combined with the partial maxima a part holds for entry `j`. */
  function MaxFor(ctx: seq<BucketCtx>, j: int, init: int): int
    decreases |ctx|
  {
    if ctx == [] then init else MaxFor(ctx[1..], j, if ctx[0].info == j then Max(init, ctx[0].max) else init)
  }

  /**
   * Merging is per entry: the count of entry `j` grows by the widths of the
   * part's buckets for `j`, its minimum and maximum combine with theirs, and
   * nothing else of it changes.
   */
  lemma {:induction false} MergeCtxPerEntry(bs: seq<BucketInfo>, ctx: seq<BucketCtx>, j: int)
    requires IndicesIn(ctx, |bs|)
    requires 0 <= j < |bs|
    ensures MergeCtx(bs, ctx)[j] ==
            bs[j].(count := bs[j].count + WidthFor(ctx, j),
                   min := MinFor(ctx, j, bs[j].min),
                   max := MaxFor(ctx, j, bs[j].max))
    decreases |ctx|
  {
    if ctx != [] {
      var next := bs[ctx[0].info := MergeOne(bs[ctx[0].info], ctx[0])];
      MergeCtxPerEntry(next, ctx[1..], j);
    }
  }

  /** `task_clean`: every part's buckets merged into their table entries in place. */
  method TaskClean(buckets: array<BucketInfo>, parts: seq<Option<seq<BucketCtx>>>)
    requires forall p | 0 <= p < |parts| :: parts[p].Some? ==> IndicesIn(parts[p].value, buckets.Length)
    modifies buckets
    ensures buckets[..] == MergeParts(old(buckets[..]), parts)
  {
    var i := 0;
    while i < |parts|
      invariant 0 <= i <= |parts|
      invariant MergeParts(old(buckets[..]), parts) == MergeParts(buckets[..], parts[i..])
    {
      assert parts[i..][1..] == parts[i + 1..];
      if parts[i].None? {
        i := i + 1;
        continue;
      }
      var ctx := parts[i].value;
      ghost var before := buckets[..];
      var j := 0;
      while j < |ctx|
        invariant 0 <= j <= |ctx|
        invariant MergeCtx(buckets[..], ctx[j..]) == MergeCtx(before, ctx)
      {
        assert ctx[j..][1..] == ctx[j + 1..];
        var info := ctx[j].info;
        buckets[info] := MergeOne(buckets[info], ctx[j]);
        j := j + 1;
      }
      i := i + 1;
    }
  }

  // ---------------------------------------------------------------------
  // The whole statistic and its accessors

  /** One part of the file as the task runner hands it to the callbacks: its chromosome, its range and its values. */
  datatype TaskPart = TaskPart(chrom: string, l: int, r: int, values: seq<int>)

  /** The part's clipped buckets after its scan. */
  function PartResult(bs: seq<BucketInfo>, part: TaskPart): (ctx: seq<BucketCtx>)
    ensures IndicesIn(ctx, |bs|)
  {
    var clipped := ClipFrom(bs, part.chrom, part.l, part.r, 0);
    ClipFromShape(bs, part.chrom, part.l, part.r, 0);
    assert IndicesIn(clipped, |bs|);
    if clipped == [] then clipped else Scan(clipped, 0, part.l, part.values)
  }

  /**
   * For a part supplying one value per position of `[l, r)`, each clipped
   * bucket of a laid-out table ends up with exactly the values of its own
   * range folded into its minimum and maximum.
   */
  lemma {:induction false} PartResultFolds(bs: seq<BucketInfo>, chrom: string, left: int, unit: int, rem: int, size: int,
                                           part: TaskPart, k: int)
    requires unit >= 1 && rem >= 0
    requires IsLayout(bs, chrom, left, unit, rem, size)
    requires part.l <= part.r && |part.values| == part.r - part.l
    requires 0 <= k < |ClipFrom(bs, part.chrom, part.l, part.r, 0)|
    ensures PartResult(bs, part)[k] == FoldRange(ClipFrom(bs, part.chrom, part.l, part.r, 0)[k], part.l, part.values)
  {
    var clipped := ClipFrom(bs, part.chrom, part.l, part.r, 0);
    ClippedLayoutScanOrder(bs, chrom, left, unit, rem, size, part.chrom, part.l, part.r);
    ScanFoldsRanges(clipped, 0, part.l, part.values);
  }

  function PartResults(bs: seq<BucketInfo>, parts: seq<TaskPart>): (out: seq<Option<seq<BucketCtx>>>)
    ensures |out| == |parts|
    ensures forall p | 0 <= p < |out| :: out[p] == Some(PartResult(bs, parts[p])) && IndicesIn(out[p].value, |bs|)
  {
    seq(|parts|, p requires 0 <= p < |parts| => Some(PartResult(bs, parts[p])))
  }

  /** The handle `d4_run_stat` returns: the bucket count and the table. */
  datatype StatResult = StatResult(size: int, data: seq<BucketInfo>)

  /** What `d4_run_stat` computes: the layout, every part clipped and scanned, and the parts merged. */
  function RunStatSpec(parts: seq<TaskPart>, chrom: string, left: int, right: int, count: int): StatResult
    requires 0 <= left <= right && count >= 1
  {
    var end := right + 1;
    var size := BucketCount(left, end, count);
    var layout := Layout(chrom, left, (end - left) / size, (end - left) % size, size);
    StatResult(size, MergeParts(layout, PartResults(layout, parts)))
  }

  /**
   * `d4_run_stat`: lays out the buckets, runs `task_init` and `task_proc` for
   * every part, then `task_clean` once.
   */
  method RunStat(parts: seq<TaskPart>, chrom: string, left: int, right: int, count: int) returns (result: StatResult)
    requires 0 <= left <= right < INT_MAX
    requires count >= 1
    ensures result == RunStatSpec(parts, chrom, left, right, count)
    ensures |result.data| == result.size + 1 && 1 <= result.size <= count
  {
    var buckets, size, unit, rem := LayoutBuckets(chrom, left, right, count);
    ghost var layout := buckets[..];
    var results: seq<Option<seq<BucketCtx>>> := [];
    var p := 0;
    while p < |parts|
      invariant 0 <= p <= |parts|
      invariant buckets[..] == layout
      invariant |results| == p
      invariant forall q | 0 <= q < p :: results[q] == Some(PartResult(layout, parts[q]))
    {
      var part := parts[p];
      var clipped := TaskInit(buckets, part.chrom, part.l, part.r);
      var ctx := new BucketCtx[|clipped|](k requires 0 <= k < |clipped| => clipped[k]);
      assert ctx[..] == clipped;
      TaskProc(ctx, part.l, part.values);
      assert ctx[..] == PartResult(layout, part);
      results := results + [Some(ctx[..])];
      p := p + 1;
    }
    assert results == PartResults(layout, parts);
    TaskClean(buckets, results);
    result := StatResult(size, buckets[..]);
  }

  /** The bucket starts and ends are those of the layout: the scan and the merge never move a bucket. */
  lemma {:induction false} MergeKeepsBounds(bs: seq<BucketInfo>, parts: seq<Option<seq<BucketCtx>>>, j: int)
    requires forall p | 0 <= p < |parts| :: parts[p].Some? ==> IndicesIn(parts[p].value, |bs|)
    requires 0 <= j < |bs|
    ensures MergeParts(bs, parts)[j].left == bs[j].left && MergeParts(bs, parts)[j].right == bs[j].right
    ensures MergeParts(bs, parts)[j].chrom == bs[j].chrom
    decreases |parts|
  {
    if parts != [] {
      var next := if parts[0].None? then bs else MergeCtx(bs, parts[0].value);
      if parts[0].Some? {
        MergeCtxPerEntry(bs, parts[0].value, j);
      }
      MergeKeepsBounds(next, parts[1..], j);
    }
  }

  /** `d4_stat_get_begin`; the index is compared as an unsigned size, so a negative index is out of range. */
  function GetBegin(r: StatResult, idx: int): int
    requires |r.data| > r.size
  {
    if 0 <= idx < r.size then r.data[idx].left else 0
  }

  /** `d4_stat_get_end`. */
  function GetEnd(r: StatResult, idx: int): int
    requires |r.data| > r.size
  {
    if 0 <= idx < r.size then r.data[idx].right else 0
  }

  /** `d4_stat_get_max`. */
  function GetMax(r: StatResult, idx: int): int
    requires |r.data| > r.size
  {
    if 0 <= idx < r.size then r.data[idx].max else 0
  }

  /** `d4_stat_get_min`. */
  function GetMin(r: StatResult, idx: int): int
    requires |r.data| > r.size
  {
    if 0 <= idx < r.size then r.data[idx].min else 0
  }

  /** Every accessor answers 0 for an index outside `[0, size)`. */
  lemma AccessorsOutOfRange(r: StatResult, idx: int)
    requires |r.data| > r.size
    requires idx < 0 || r.size <= idx
    ensures GetBegin(r, idx) == 0 && GetEnd(r, idx) == 0 && GetMax(r, idx) == 0 && GetMin(r, idx) == 0
  {
  }

  /**
   * After `d4_run_stat`, bucket `i` reports the begin and end of the layout,
   * one `unit` apart, whatever the parts held.
   */
  lemma {:induction false} RunStatBounds(parts: seq<TaskPart>, chrom: string, left: int, right: int, count: int,
                                          unit: int, rem: int, i: int)
    requires 0 <= left <= right && count >= 1
    requires LayoutParams(left, right + 1, BucketCount(left, right + 1, count), unit, rem)
    requires 0 <= i < BucketCount(left, right + 1, count)
    ensures GetBegin(RunStatSpec(parts, chrom, left, right, count), i) == BucketLeft(left, unit, rem, i)
    ensures GetEnd(RunStatSpec(parts, chrom, left, right, count), i) == BucketLeft(left, unit, rem, i) + unit
  {
    var size := BucketCount(left, right + 1, count);
    var layout := Layout(chrom, left, unit, rem, size);
    MergeKeepsBounds(layout, PartResults(layout, parts), i);
  }
}

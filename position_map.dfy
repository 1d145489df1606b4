/**
 * The range-keyed cache the alignment manager keeps its loaded intervals and
 * packed alignments in. Entries are stored under a genomic range; a lookup
 * with a query range answers the most recently stored entry whose range
 * contains the query, and a store under a range already present replaces
 * that entry.
 */
module PositionMaps {
  import opened Wrappers

  /** A genomic range on one chromosome. */
  datatype Range = Range(chr: string, start: int, end: int)
  {
    /** Same chromosome and `[start', end']` lies within `[start, end]`. */
    predicate Contains(chr': string, start': int, end': int) {
      chr == chr' && start <= start' && end >= end'
    }

    predicate Covers(q: Range) {
      Contains(q.chr, q.start, q.end)
    }
  }

  /** Entries in the order they were stored. */
  datatype PositionMap<V> = PositionMap(entries: seq<(Range, V)>)

  function Empty<V>(): (m: PositionMap<V>)
    ensures |m.entries| == 0
  {
    PositionMap([])
  }

  /** The value of the last entry of `es` whose range covers `q`. */
  function Find<V>(es: seq<(Range, V)>, q: Range): (r: Option<V>)
    ensures r.Some? <==> exists i :: 0 <= i < |es| && es[i].0.Covers(q)
    ensures r.Some? ==> exists i :: 0 <= i < |es| && es[i].0.Covers(q) && es[i].1 == r.value
    decreases |es|
  {
    if es == [] then None
    else if es[|es| - 1].0.Covers(q) then Some(es[|es| - 1].1)
    else
      var r := Find(es[..|es| - 1], q);
      assert forall i | 0 <= i < |es| - 1 :: es[..|es| - 1][i] == es[i];
      r
  }

  /** `get(q)`: the most recently stored value whose range contains `q`, if any. */
  function Get<V>(m: PositionMap<V>, q: Range): Option<V> {
    Find(m.entries, q)
  }

  /** `contains(q)`: a lookup with `q` finds a value. */
  predicate ContainsKey<V>(m: PositionMap<V>, q: Range) {
    Get(m, q).Some?
  }

  /** The entries whose range is not exactly `r`, in order. */
  function Without<V>(es: seq<(Range, V)>, r: Range): (out: seq<(Range, V)>)
    ensures |out| <= |es|
    ensures forall i | 0 <= i < |out| :: out[i].0 != r
    decreases |es|
  {
    if es == [] then []
    else
      var rest := Without(es[..|es| - 1], r);
      if es[|es| - 1].0 == r then rest else rest + [es[|es| - 1]]
  }

  /** `put(r, v)`: `v` becomes the entry stored under `r`, and the most recent one. */
  function Put<V>(m: PositionMap<V>, r: Range, v: V): PositionMap<V> {
    PositionMap(Without(m.entries, r) + [(r, v)])
  }

  /** `values()`: the stored values, in storage order. */
  function Values<V>(m: PositionMap<V>): (vs: seq<V>)
    ensures |vs| == |m.entries|
    ensures forall i | 0 <= i < |vs| :: vs[i] == m.entries[i].1
  {
    seq(|m.entries|, i requires 0 <= i < |m.entries| => m.entries[i].1)
  }

  /** The entries left by `Without` are those of `es` stored under another range. */
  lemma {:induction false} WithoutMembers<V>(es: seq<(Range, V)>, r: Range, e: (Range, V))
    ensures e in Without(es, r) <==> e in es && e.0 != r
    decreases |es|
  {
    if es != [] {
      var init := es[..|es| - 1];
      WithoutMembers(init, r, e);
      assert es == init + [es[|es| - 1]];
    }
  }

  /** After `put(r, v)` the cache holds `(r, v)` and every old entry stored under another range, and nothing else. */
  lemma PutEntries<V>(m: PositionMap<V>, r: Range, v: V)
    ensures forall e :: e in Put(m, r, v).entries <==> (e in m.entries && e.0 != r) || e == (r, v)
  {
    forall e ensures e in Put(m, r, v).entries <==> (e in m.entries && e.0 != r) || e == (r, v) {
      WithoutMembers(m.entries, r, e);
    }
  }

  /** No two entries share a range. */
  predicate DistinctRanges<V>(es: seq<(Range, V)>) {
    forall i, j | 0 <= i < j < |es| :: es[i].0 != es[j].0
  }

  lemma {:induction false} WithoutKeepsDistinct<V>(es: seq<(Range, V)>, r: Range)
    requires DistinctRanges(es)
    ensures DistinctRanges(Without(es, r))
    decreases |es|
  {
    if es != [] {
      var init := es[..|es| - 1];
      var last := es[|es| - 1];
      WithoutKeepsDistinct(init, r);
      if last.0 != r {
        var w := Without(init, r);
        forall i | 0 <= i < |w| ensures w[i].0 != last.0 {
          WithoutMembers(init, r, w[i]);
          assert w[i] in w;
          var k :| 0 <= k < |init| && init[k] == w[i];
          assert es[k] == init[k];
        }
      }
    }
  }

  /** A cache built by `put` stores each range at most once: `put` keeps the ranges distinct. */
  lemma PutKeepsRangesDistinct<V>(m: PositionMap<V>, r: Range, v: V)
    requires DistinctRanges(m.entries)
    ensures DistinctRanges(Put(m, r, v).entries)
  {
    WithoutKeepsDistinct(m.entries, r);
  }

  /** `v` stored under each range of `rs` in turn. */
  function PutAll<V>(m: PositionMap<V>, rs: seq<Range>, v: V): PositionMap<V>
    decreases |rs|
  {
    if rs == [] then m else Put(PutAll(m, rs[..|rs| - 1], v), rs[|rs| - 1], v)
  }

  /** Removing the entries stored under a range that does not cover `q` does not change the lookup of `q`. */
  lemma {:induction false} FindWithout<V>(es: seq<(Range, V)>, r: Range, q: Range)
    requires !r.Covers(q)
    ensures Find(Without(es, r), q) == Find(es, q)
    decreases |es|
  {
    if es != [] {
      var init := es[..|es| - 1];
      FindWithout(init, r, q);
      if es[|es| - 1].0 != r {
        var w := Without(init, r) + [es[|es| - 1]];
        assert w[..|w| - 1] == Without(init, r);
      }
    }
  }

  /** After `put(r, v)`, every query `r` contains finds `v`, and every other query finds what it found before. */
  lemma {:induction false} GetAfterPut<V>(m: PositionMap<V>, r: Range, v: V, q: Range)
    ensures r.Covers(q) ==> Get(Put(m, r, v), q) == Some(v)
    ensures !r.Covers(q) ==> Get(Put(m, r, v), q) == Get(m, q)
  {
    var es := Without(m.entries, r) + [(r, v)];
    assert es[..|es| - 1] == Without(m.entries, r);
    if !r.Covers(q) {
      FindWithout(m.entries, r, q);
    }
  }

  /** After storing one value under every range of `rs`, each of those ranges finds that value. */
  lemma {:induction false} PutAllFindsValue<V>(m: PositionMap<V>, rs: seq<Range>, v: V, k: int)
    requires 0 <= k < |rs|
    ensures Get(PutAll(m, rs, v), rs[k]) == Some(v)
    decreases |rs|
  {
    var init := rs[..|rs| - 1];
    var last := rs[|rs| - 1];
    GetAfterPut(PutAll(m, init, v), last, v, rs[k]);
    if k < |rs| - 1 && !last.Covers(rs[k]) {
      assert init[k] == rs[k];
      PutAllFindsValue(m, init, v, k);
    }
  }

  /** A query no range of `rs` covers finds what it found before the stores. */
  lemma {:induction false} PutAllElsewhere<V>(m: PositionMap<V>, rs: seq<Range>, v: V, q: Range)
    requires forall i | 0 <= i < |rs| :: !rs[i].Covers(q)
    ensures Get(PutAll(m, rs, v), q) == Get(m, q)
    decreases |rs|
  {
    if rs != [] {
      var init := rs[..|rs| - 1];
      assert forall i | 0 <= i < |init| :: init[i] == rs[i];
      PutAllElsewhere(m, init, v, q);
      GetAfterPut(PutAll(m, init, v), rs[|rs| - 1], v, q);
    }
  }
}

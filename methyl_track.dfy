/**
 * The methylation track's single-slot interval cache: one loaded interval,
 * a render step that either serves the request from it or submits a load,
 * and the load itself, which widens the request on both sides and replaces
 * the slot wholesale.
 */
module Methyl {
  import opened JavaLang

  /** The chromosome name that stands for the whole-genome view. */
  const CHR_ALL: string := "All"

  /** Paths containing this marker hold whole-genome bisulfite data. */
  const WGBS_MARKER: string := "BiSeq_cpgMethylation"

  const WGBS_RESOLUTION_THRESHOLD: int := 1000000

  const WHOLE_GENOME_MESSAGE: string := "Zoom in to see features."
  const ZOOM_IN_MESSAGE: string := "Zoom in to see features, or right-click to increase Feature Visibility Window."

  /** One record returned by the methylation data source (its fields are not used here). */
  datatype MethylScore = MethylScore(id: nat)

  /** A loaded region and the scores the data source returned for it, in source order. */
  datatype Interval = Interval(chr: string, start: int, end: int, scores: seq<MethylScore>)
  {
    predicate Contains(chr': string, start': int, end': int) {
      chr == chr' && start <= start' && end >= end'
    }

    predicate CoversPosition(p: int) {
      start <= p <= end
    }
  }

  /** The slot the track starts with: it contains no real request. */
  const EMPTY_INTERVAL: Interval := Interval("", -1, -1, [])

  /** For a non-empty request, `Contains` is inclusion of the position sets. */
  lemma ContainsIsInclusion(iv: Interval, chr: string, start: int, end: int)
    requires start <= end
    ensures iv.Contains(chr, start, end) <==>
            iv.chr == chr && forall p :: start <= p <= end ==> iv.CoversPosition(p)
  {
    if iv.chr == chr && forall p :: start <= p <= end ==> iv.CoversPosition(p) {
      assert iv.CoversPosition(start) && iv.CoversPosition(end);
    }
  }

  /** The initial slot never serves a request on a chromosome with a non-negative end. */
  lemma EmptySlotMisses(chr: string, start: int, end: int)
    requires end >= 0
    ensures !EMPTY_INTERVAL.Contains(chr, start, end)
  {
  }

  /** The window the load actually queries: the request widened by half its length on each side. */
  datatype Window = Window(start: int, end: int)

  function ExpandedWindow(start: int, end: int): (w: Window)
    requires IsInt(start) && IsInt(end)
    ensures w.start >= 0
  {
    var width := Half(Wrap(end - start));
    Window(Max(0, Wrap(start - width)), Wrap(end + width))
  }

  /** Without overflow, the expanded window contains the request `[start, end]`. */
  lemma ExpandedWindowCovers(start: int, end: int)
    requires 0 <= start <= end && end + (end - start) / 2 <= INT_MAX
    ensures ExpandedWindow(start, end).start <= start
    ensures ExpandedWindow(start, end).end >= end
    ensures ExpandedWindow(start, end).end == end + (end - start) / 2
  {
  }

  /** `resolutionThreshold` chosen by the constructor from the data path. */
  function ResolutionThreshold(path: string): int {
    if Contains(path, WGBS_MARKER) then WGBS_RESOLUTION_THRESHOLD else INT_MAX
  }

  lemma {:induction false} ResolutionThresholdChoice(path: string)
    ensures (exists i :: OccursAt(path, WGBS_MARKER, i)) ==> ResolutionThreshold(path) == 1000000
    ensures (forall i :: !OccursAt(path, WGBS_MARKER, i)) ==> ResolutionThreshold(path) == 0x7fff_ffff
  {
    ContainsIffOccurs(path, WGBS_MARKER);
  }

  /** What a call of `render` does. */
  datatype RenderOutcome =
    | Message(text: string)                              // zoomed out: draw a hint, load nothing
    | Cached(scores: seq<MethylScore>)                   // served from the slot
    | LoadSubmitted(chr: string, start: int, end: int)   // a background load was submitted

  class MethylTrack {
    var loadedInterval: Interval
    const resolutionThreshold: int

    constructor (path: string)
      ensures loadedInterval == EMPTY_INTERVAL
      ensures resolutionThreshold == ResolutionThreshold(path)
    {
      loadedInterval := EMPTY_INTERVAL;
      resolutionThreshold := ResolutionThreshold(path);
    }

    /**
     * The decision `render` makes. `beyondResolution` is the outcome of the
     * floating-point comparison of the visible width with `resolutionThreshold`.
     */
    method Render(chr: string, start: int, end: int, beyondResolution: bool) returns (outcome: RenderOutcome)
      ensures outcome.Message? <==> chr == CHR_ALL || beyondResolution
      ensures outcome.Message? ==>
                outcome.text == if chr == CHR_ALL then WHOLE_GENOME_MESSAGE else ZOOM_IN_MESSAGE
      ensures outcome.Cached? <==>
                chr != CHR_ALL && !beyondResolution && loadedInterval.Contains(chr, start, end)
      ensures outcome.Cached? ==> outcome.scores == loadedInterval.scores
      ensures outcome.LoadSubmitted? ==> outcome == LoadSubmitted(chr, start, end)
    {
      if chr == CHR_ALL || beyondResolution {
        outcome := Message(if chr == CHR_ALL then WHOLE_GENOME_MESSAGE else ZOOM_IN_MESSAGE);
      } else if loadedInterval.Contains(chr, start, end) {
        outcome := Cached(loadedInterval.scores);
      } else {
        outcome := LoadSubmitted(chr, start, end);
      }
    }

    /**
     * The submitted load: query the expanded window, collect the records in
     * iteration order and replace the slot. `query` stands for the data source.
     */
    method RunLoad(chr: string, start: int, end: int, query: (string, int, int) -> seq<MethylScore>)
      requires IsInt(start) && IsInt(end)
      modifies this
      ensures var w := ExpandedWindow(start, end);
              loadedInterval == Interval(chr, w.start, w.end, query(chr, w.start, w.end))
      ensures 0 <= start <= end && end + (end - start) / 2 <= INT_MAX ==>
                loadedInterval.Contains(chr, start, end)
    {
      var w := ExpandedWindow(start, end);
      var source := query(chr, w.start, w.end);
      var scores: seq<MethylScore> := [];
      var i := 0;
      while i < |source|
        invariant 0 <= i <= |source|
        invariant scores == source[..i]
      {
        scores := scores + [source[i]];
        i := i + 1;
      }
      loadedInterval := Interval(chr, w.start, w.end, scores);
      if 0 <= start <= end && end + (end - start) / 2 <= INT_MAX {
        ExpandedWindowCovers(start, end);
      }
    }
  }
}

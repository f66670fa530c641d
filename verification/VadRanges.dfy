/**
 Padding detected speech segments and cutting them out of the samples
 (crates/vinpst-asr/src/sherpa_vad.rs). The detector is foreign: its segments are inputs.
 */
module VadRanges {
  import opened Wrappers

  const USIZE_MAX: nat := 0xFFFF_FFFF_FFFF_FFFF
  type usize = x: nat | x <= USIZE_MAX

  datatype Segment = Segment(start: usize, length: usize)

  datatype Range = Range(start: usize, end: usize)

  function SaturatingAdd(a: usize, b: usize): usize {
    Min(a + b, USIZE_MAX)
  }

  function SaturatingSub(a: usize, b: usize): usize {
    if a < b then 0 else a - b
  }

  /** The padded range of the segment at `index`, unless it is empty. */
  function PaddedRange(count: usize, index: nat, segment: Segment, padding: usize, guard: usize): Option<Range> {
    var padded := SaturatingSub(segment.start, padding);
    var start: usize := if index == 0 && padded <= guard then 0 else padded;
    var end: usize := Min(SaturatingAdd(SaturatingAdd(segment.start, segment.length), padding), count);
    if start < end then Some(Range(start, end)) else None
  }

  function PaddedSegmentRanges(count: usize, segments: seq<Segment>, padding: usize, guard: usize): (ranges: seq<Range>)
    ensures InBounds(ranges, count)
  {
    if segments == [] then []
    else
      var n := |segments| - 1;
      var last := PaddedRange(count, n, segments[n], padding, guard);
      PaddedSegmentRanges(count, segments[..n], padding, guard) + (if last.Some? then [last.value] else [])
  }

  predicate InBounds(ranges: seq<Range>, count: usize) {
    forall i :: 0 <= i < |ranges| ==> ranges[i].start < ranges[i].end <= count
  }

  /** Ranges that follow each other without overlap. */
  predicate Increasing(ranges: seq<Range>) {
    forall i, j :: 0 <= i < j < |ranges| ==> ranges[i].end <= ranges[j].start
  }

  /** Segments in order, with at least twice the padding between one's end and the next one's start. */
  predicate WellSpaced(segments: seq<Segment>, padding: usize) {
    forall i, j :: 0 <= i < j < |segments| ==>
      segments[i].start + segments[i].length + 2 * padding <= segments[j].start
  }

  /** A kept range covers what lies in bounds of its segment; only a segment with nothing in bounds is dropped. */
  lemma PaddedRangeCoversItsSegment(count: usize, index: nat, segment: Segment, padding: usize, guard: usize)
    ensures var r := PaddedRange(count, index, segment, padding, guard);
            if r.Some? then
              && r.value.start <= segment.start && r.value.start < r.value.end
              && Min(segment.start + segment.length, count) <= r.value.end <= count
            else segment.start >= count || segment.length == 0
  {
  }

  /** The segments whose padded range is kept. */
  function KeptSegments(count: usize, segments: seq<Segment>, padding: usize, guard: usize): seq<Segment> {
    if segments == [] then []
    else
      var n := |segments| - 1;
      KeptSegments(count, segments[..n], padding, guard)
      + (if PaddedRange(count, n, segments[n], padding, guard).Some? then [segments[n]] else [])
  }

  /**
   `range` is what the padding makes of the k-th kept segment. It stood at `k` or later in the
   list of all segments; the guard only asks whether that was the very first place.
   */
  predicate Pads(count: usize, k: nat, segment: Segment, padding: usize, guard: usize, range: Range) {
    || PaddedRange(count, k, segment, padding, guard) == Some(range)
    || PaddedRange(count, k + 1, segment, padding, guard) == Some(range)
  }

  lemma {:induction false} RangesPadTheKeptSegments(count: usize, segments: seq<Segment>, padding: usize, guard: usize)
    ensures var ranges := PaddedSegmentRanges(count, segments, padding, guard);
            var kept := KeptSegments(count, segments, padding, guard);
            && |ranges| == |kept| <= |segments|
            && forall i :: 0 <= i < |ranges| ==> Pads(count, i, kept[i], padding, guard, ranges[i])
  {
    if segments != [] {
      RangesPadTheKeptSegments(count, segments[..|segments| - 1], padding, guard);
    }
  }

  /** One range ends before another that is not the first begins exactly when their segments are spaced. */
  lemma RangesApartIffSpaced(
    count: usize, k: nat, l: nat, a: Segment, b: Segment, padding: usize, guard: usize, ra: Range, rb: Range)
    requires Pads(count, k, a, padding, guard, ra) && Pads(count, l, b, padding, guard, rb) && 0 < l
    ensures ra.end <= rb.start <==> a.start + a.length + 2 * padding <= b.start
  {
  }

  /** For all segments: the ranges increase exactly when the segments that are kept are well spaced. */
  lemma RangesIncreaseIffWellSpaced(count: usize, segments: seq<Segment>, padding: usize, guard: usize)
    ensures Increasing(PaddedSegmentRanges(count, segments, padding, guard)) <==>
            WellSpaced(KeptSegments(count, segments, padding, guard), padding)
  {
    var ranges := PaddedSegmentRanges(count, segments, padding, guard);
    var kept := KeptSegments(count, segments, padding, guard);
    RangesPadTheKeptSegments(count, segments, padding, guard);
    forall i, j | 0 <= i < j < |kept|
      ensures ranges[i].end <= ranges[j].start <==> kept[i].start + kept[i].length + 2 * padding <= kept[j].start
    {
      RangesApartIffSpaced(count, i, j, kept[i], kept[j], padding, guard, ranges[i], ranges[j]);
    }
  }

  lemma {:induction false} KeptSegmentsStayInOrder(count: usize, segments: seq<Segment>, padding: usize, guard: usize)
    requires WellSpaced(segments, padding)
    ensures WellSpaced(KeptSegments(count, segments, padding, guard), padding)
    ensures forall s :: s in KeptSegments(count, segments, padding, guard) ==> s in segments
  {
    if segments != [] {
      var n := |segments| - 1;
      KeptSegmentsStayInOrder(count, segments[..n], padding, guard);
      var before := KeptSegments(count, segments[..n], padding, guard);
      forall i | 0 <= i < |before|
        ensures before[i].start + before[i].length + 2 * padding <= segments[n].start
      {
        assert before[i] in segments[..n];
      }
    }
  }

  // ---- Cutting ----

  function IndicesOf(range: Range): seq<nat>
    requires range.start <= range.end
  {
    seq(range.end - range.start, i requires 0 <= i < range.end - range.start => range.start + i)
  }

  function Indices(ranges: seq<Range>, count: usize): (indices: seq<nat>)
    requires InBounds(ranges, count)
    ensures forall k :: 0 <= k < |indices| ==> indices[k] < count
  {
    if ranges == [] then []
    else Indices(ranges[..|ranges| - 1], count) + IndicesOf(ranges[|ranges| - 1])
  }

  function TotalLength(ranges: seq<Range>): int {
    if ranges == [] then 0
    else TotalLength(ranges[..|ranges| - 1]) + ranges[|ranges| - 1].end - ranges[|ranges| - 1].start
  }

  ghost predicate StrictlyIncreasing(indices: seq<nat>) {
    forall i, j :: 0 <= i < j < |indices| ==> indices[i] < indices[j]
  }

  /** The samples at the given indices, in that order. */
  function Select<T>(samples: seq<T>, indices: seq<nat>): seq<T>
    requires forall k :: 0 <= k < |indices| ==> indices[k] < |samples|
  {
    seq(|indices|, k requires 0 <= k < |indices| => samples[indices[k]])
  }

  lemma SelectJoins<T>(samples: seq<T>, a: seq<nat>, b: seq<nat>)
    requires forall k :: 0 <= k < |a| ==> a[k] < |samples|
    requires forall k :: 0 <= k < |b| ==> b[k] < |samples|
    ensures Select(samples, a + b) == Select(samples, a) + Select(samples, b)
  {
  }

  lemma SelectOfRange<T>(samples: seq<T>, range: Range)
    requires range.start <= range.end <= |samples|
    ensures Select(samples, IndicesOf(range)) == samples[range.start..range.end]
  {
  }

  method CollectRanges<T>(samples: seq<T>, ranges: seq<Range>) returns (result: seq<T>)
    requires |samples| <= USIZE_MAX && InBounds(ranges, |samples|)
    ensures result == Select(samples, Indices(ranges, |samples|))
  {
    result := [];
    for n := 0 to |ranges|
      invariant result == Select(samples, Indices(ranges[..n], |samples|))
    {
      assert ranges[..n + 1][..n] == ranges[..n] && ranges[..n + 1][n] == ranges[n];
      SelectJoins(samples, Indices(ranges[..n], |samples|), IndicesOf(ranges[n]));
      SelectOfRange(samples, ranges[n]);
      result := result + samples[ranges[n].start..ranges[n].end];
    }
    assert ranges[..|ranges|] == ranges;
  }

  lemma {:induction false} IncreasingRangesIncrease(ranges: seq<Range>, count: usize)
    requires InBounds(ranges, count) && Increasing(ranges)
    ensures |Indices(ranges, count)| == TotalLength(ranges)
    ensures StrictlyIncreasing(Indices(ranges, count))
    ensures forall k :: 0 <= k < |Indices(ranges, count)| ==>
              ranges != [] && Indices(ranges, count)[k] < ranges[|ranges| - 1].end
  {
    if ranges != [] {
      var n := |ranges| - 1;
      IncreasingRangesIncrease(ranges[..n], count);
      var before := Indices(ranges[..n], count);
      forall i | 0 <= i < |before|
        ensures before[i] < ranges[n].start
      {
        assert ranges[..n][n - 1].end <= ranges[n].start;
      }
    }
  }

  /** The converse: ranges that overlap or go back select some sample twice or out of order. */
  lemma StrictlyIncreasingNeedsIncreasingRanges(ranges: seq<Range>, count: usize)
    requires InBounds(ranges, count) && StrictlyIncreasing(Indices(ranges, count))
    ensures Increasing(ranges)
  {
    forall i, j | 0 <= i < j < |ranges|
      ensures ranges[i].end <= ranges[j].start
    {
      IndicesOfRangeAppear(ranges, count, i, j);
    }
  }

  lemma {:induction false} IndicesPrefix(ranges: seq<Range>, count: usize, m: nat)
    requires InBounds(ranges, count) && m <= |ranges|
    ensures Indices(ranges[..m], count) <= Indices(ranges, count)
  {
    var n := |ranges| - 1;
    if m <= n {
      assert ranges[..n][..m] == ranges[..m];
      IndicesPrefix(ranges[..n], count, m);
    } else {
      assert ranges[..m] == ranges;
    }
  }

  /** Where range `i` stands among the indices. */
  lemma RangeAppears(ranges: seq<Range>, count: usize, i: nat)
    requires InBounds(ranges, count) && i < |ranges|
    ensures var before, upto := |Indices(ranges[..i], count)|, |Indices(ranges[..i + 1], count)|;
            && before < upto <= |Indices(ranges, count)|
            && Indices(ranges, count)[before] == ranges[i].start
            && Indices(ranges, count)[upto - 1] == ranges[i].end - 1
  {
    assert ranges[..i + 1][..i] == ranges[..i];
    IndicesPrefix(ranges, count, i + 1);
  }

  /** The last index of range `i` comes before the first index of a later range `j`. */
  lemma IndicesOfRangeAppear(ranges: seq<Range>, count: usize, i: nat, j: nat)
    requires InBounds(ranges, count) && i < j < |ranges|
    ensures exists p, q ::
              && 0 <= p < q < |Indices(ranges, count)|
              && Indices(ranges, count)[p] == ranges[i].end - 1 && Indices(ranges, count)[q] == ranges[j].start
  {
    RangeAppears(ranges, count, i);
    RangeAppears(ranges, count, j);
    assert ranges[..j][..i + 1] == ranges[..i + 1];
    IndicesPrefix(ranges[..j], count, i + 1);
  }

  /** For all segments: the cut is a subsequence of the input if and only if the kept ones are well spaced. */
  lemma CutIsASubsequenceIffWellSpaced(count: usize, segments: seq<Segment>, padding: usize, guard: usize)
    ensures StrictlyIncreasing(Indices(PaddedSegmentRanges(count, segments, padding, guard), count))
       <==> WellSpaced(KeptSegments(count, segments, padding, guard), padding)
  {
    var ranges := PaddedSegmentRanges(count, segments, padding, guard);
    RangesIncreaseIffWellSpaced(count, segments, padding, guard);
    if Increasing(ranges) {
      IncreasingRangesIncrease(ranges, count);
    } else if StrictlyIncreasing(Indices(ranges, count)) {
      StrictlyIncreasingNeedsIncreasingRanges(ranges, count);
    }
  }

  const CLOSE_SEGMENTS := [Segment(0, 10), Segment(12, 10)]

  lemma CloseSegmentsOverlap()
    ensures PaddedSegmentRanges(100, CLOSE_SEGMENTS, 5, 0) == [Range(0, 15), Range(7, 27)]
  {
    var a := CLOSE_SEGMENTS[..1];
    assert a == [Segment(0, 10)] && a[..0] == [];
    assert PaddedSegmentRanges(100, a, 5, 0) == [Range(0, 15)];
  }

  /** Two segments 2 apart with padding 5: the samples around the gap are cut out twice. */
  lemma CloseSegmentsRepeatSamples()
    ensures var indices := Indices(PaddedSegmentRanges(100, CLOSE_SEGMENTS, 5, 0), 100);
            !WellSpaced(CLOSE_SEGMENTS, 5) && |indices| == 35 && indices[7] == indices[15] == 7
  {
    CloseSegmentsOverlap();
    var ranges := [Range(0, 15), Range(7, 27)];
    assert ranges[..1] == [Range(0, 15)] && ranges[..1][..0] == [];
    assert Indices(ranges[..1], 100) == IndicesOf(Range(0, 15));
    assert CLOSE_SEGMENTS[0].start + CLOSE_SEGMENTS[0].length + 2 * 5 > CLOSE_SEGMENTS[1].start;
  }

  /**
   Sorted segments with gaps of at least twice the padding: what is cut out is a subsequence of
   the input (no sample twice, none out of order), as long as the ranges together.
   */
  lemma WellSpacedCutIsASubsequence<T>(samples: seq<T>, segments: seq<Segment>, padding: usize, guard: usize)
    requires |samples| <= USIZE_MAX && WellSpaced(segments, padding)
    ensures var ranges := PaddedSegmentRanges(|samples|, segments, padding, guard);
            && Increasing(ranges)
            && StrictlyIncreasing(Indices(ranges, |samples|))
            && |Select(samples, Indices(ranges, |samples|))| == TotalLength(ranges) <= |samples|
  {
    var ranges := PaddedSegmentRanges(|samples|, segments, padding, guard);
    KeptSegmentsStayInOrder(|samples|, segments, padding, guard);
    RangesIncreaseIffWellSpaced(|samples|, segments, padding, guard);
    IncreasingRangesIncrease(ranges, |samples|);
    IncreasingFits(Indices(ranges, |samples|), |samples|);
  }

  lemma {:induction false} IncreasingFits(indices: seq<nat>, bound: nat)
    requires StrictlyIncreasing(indices) && forall k :: 0 <= k < |indices| ==> indices[k] < bound
    ensures |indices| <= bound
  {
    if indices != [] {
      var n := |indices| - 1;
      IncreasingFits(indices[..n], indices[n]);
    }
  }

  /**
   The sample is within the padding of the segment; or it comes before the very first one, and
   at most the padding and the guard of silence does.
   */
  predicate IsNear(index: nat, segment: Segment, padding: usize, guard: usize, x: nat) {
    && x < segment.start + segment.length + padding
    && (segment.start <= x + padding || (index == 0 && segment.start <= padding + guard))
  }

  /** The padded range holds exactly the samples near its segment, and is missing only when there are none. */
  lemma PaddedRangeIsWhatIsNear(count: usize, index: nat, segment: Segment, padding: usize, guard: usize, x: nat)
    ensures var r := PaddedRange(count, index, segment, padding, guard);
            x < count && IsNear(index, segment, padding, guard, x) <==> r.Some? && r.value.start <= x < r.value.end
  {
  }

  ghost predicate IsNearSome(segments: seq<Segment>, padding: usize, guard: usize, x: nat) {
    exists k :: 0 <= k < |segments| && IsNear(k, segments[k], padding, guard, x)
  }

  lemma IndicesOfAppend(ranges: seq<Range>, range: Range, count: usize, x: nat)
    requires InBounds(ranges, count) && range.start < range.end <= count
    ensures InBounds(ranges + [range], count)
    ensures x in Indices(ranges + [range], count) <==> x in Indices(ranges, count) || range.start <= x < range.end
  {
    assert (ranges + [range])[..|ranges|] == ranges;
    if range.start <= x < range.end {
      assert IndicesOf(range)[x - range.start] == x;
    }
  }

  /** What is cut out are exactly the samples near some segment: all speech, its padding, and no more silence. */
  lemma {:induction false} TheCutIsWhatIsNear(
    count: usize, segments: seq<Segment>, padding: usize, guard: usize, x: nat)
    ensures x in Indices(PaddedSegmentRanges(count, segments, padding, guard), count) <==>
            x < count && IsNearSome(segments, padding, guard, x)
  {
    if segments != [] {
      var n := |segments| - 1;
      var before := PaddedSegmentRanges(count, segments[..n], padding, guard);
      var last := PaddedRange(count, n, segments[n], padding, guard);
      TheCutIsWhatIsNear(count, segments[..n], padding, guard, x);
      PaddedRangeIsWhatIsNear(count, n, segments[n], padding, guard, x);
      NearSomeOfOneMore(segments, padding, guard, x);
      if last.Some? {
        IndicesOfAppend(before, last.value, count, x);
      } else {
        assert before + [] == before;
      }
    }
  }

  lemma NearSomeOfOneMore(segments: seq<Segment>, padding: usize, guard: usize, x: nat)
    requires segments != []
    ensures var n := |segments| - 1;
            IsNearSome(segments, padding, guard, x) <==>
            IsNearSome(segments[..n], padding, guard, x) || IsNear(n, segments[n], padding, guard, x)
  {
    assert forall k :: 0 <= k < |segments| - 1 ==> segments[..|segments| - 1][k] == segments[k];
  }

  /** Every in-bounds sample of every segment is cut out, whatever the spacing. */
  lemma EverySpeechSampleIsKept(
    count: usize, segments: seq<Segment>, padding: usize, guard: usize, k: nat, x: nat)
    requires k < |segments| && segments[k].start <= x < segments[k].start + segments[k].length && x < count
    ensures x in Indices(PaddedSegmentRanges(count, segments, padding, guard), count)
  {
    TheCutIsWhatIsNear(count, segments, padding, guard, x);
    assert IsNear(k, segments[k], padding, guard, x);
  }

  // ---- The trimmer ----


  /** A detected segment as the foreign API reports it, with signed 32-bit fields. */
  datatype RawSegment = RawSegment(start: int, n: int)

  /** A conversion to `usize` that falls back to 0. */
  function ToUsize(x: int): usize {
    if 0 <= x <= 0x7FFF_FFFF then x else 0
  }

  /** The detected segments that are not empty, in order. */
  function NonEmpty(detected: seq<RawSegment>): seq<Segment> {
    if detected == [] then []
    else
      var raw := detected[|detected| - 1];
      NonEmpty(detected[..|detected| - 1])
      + (if ToUsize(raw.n) > 0 then [Segment(ToUsize(raw.start), ToUsize(raw.n))] else [])
  }

  /** The detector reported the segment; a start it cannot have counts as 0. */
  predicate Reports(raw: RawSegment, segment: Segment) {
    && 0 < raw.n <= 0x7FFF_FFFF && segment.length == raw.n
    && segment.start == (if 0 <= raw.start <= 0x7FFF_FFFF then raw.start else 0)
  }

  lemma {:induction false} NonEmptyJoins(a: seq<RawSegment>, b: seq<RawSegment>)
    ensures NonEmpty(a + b) == NonEmpty(a) + NonEmpty(b)
  {
    if b == [] {
      assert a + b == a;
    } else {
      assert (a + b)[..|a + b| - 1] == a + b[..|b| - 1];
      NonEmptyJoins(a, b[..|b| - 1]);
    }
  }

  /** Each report of some speech is one segment, and no other one is; reports keep their order. */
  lemma SegmentsAreTheReports(before: seq<RawSegment>, raw: RawSegment, after: seq<RawSegment>, segment: Segment)
    ensures Reports(raw, segment) ==>
              NonEmpty(before + [raw] + after) == NonEmpty(before) + [segment] + NonEmpty(after)
    ensures raw.n <= 0 || raw.n > 0x7FFF_FFFF ==>
              NonEmpty(before + [raw] + after) == NonEmpty(before) + NonEmpty(after)
  {
    NonEmptyJoins(before + [raw], after);
    NonEmptyJoins(before, [raw]);
    assert NonEmpty([raw][..0]) == [] && [raw][..0] == [];
    assert NonEmpty(before) + [] == NonEmpty(before);
  }

  const SAMPLE_RATE_HZ := 16_000

  /**
   Cuts the samples down to the padded segments, or keeps them all when the rate is not the
   detector's or nothing would be left: speech is never lost and audio never becomes empty.
   */
  method Trim<T>(samples: seq<T>, sampleRateHz: nat, detected: seq<RawSegment>, padding: usize, guard: usize)
      returns (result: seq<T>)
    requires |samples| <= USIZE_MAX
    ensures result == [] <==> samples == []
    ensures var ranges := PaddedSegmentRanges(|samples|, NonEmpty(detected), padding, guard);
            var cut := Select(samples, Indices(ranges, |samples|));
            result == if sampleRateHz != 16_000 || cut == [] then samples else cut
  {
    if samples == [] || sampleRateHz != SAMPLE_RATE_HZ {
      return samples;
    }
    var segments: seq<Segment> := [];
    for n := 0 to |detected|
      invariant segments == NonEmpty(detected[..n])
    {
      assert detected[..n + 1][..n] == detected[..n];
      var start := ToUsize(detected[n].start);
      var length := ToUsize(detected[n].n);
      if length > 0 {
        segments := segments + [Segment(start, length)];
      }
    }
    assert detected[..|detected|] == detected;
    var ranges := PaddedSegmentRanges(|samples|, segments, padding, guard);
    var trimmed := CollectRanges(samples, ranges);
    return if trimmed == [] then samples else trimmed;
  }
}

/**
 Typed PCM buffers: construction, frame-aligned chunking and silence trimming
 (crates/vinpst-audio/src/lib.rs).
 */
module Pcm {
  import opened Wrappers
  import opened Bytes

  datatype AudioError =
    | InvalidSampleRate(rate: u32)
    | InvalidChannelCount(channels: u16)
    | UnalignedSamples(samples: nat, channelCount: u16)
    | OddPcmByteCount(bytes: nat)
    | InvalidWav(message: string)
    | InvalidChunkFrameCount(frames: nat)
    | SourceExhausted
    | RecorderAlreadyRecording
    | RecorderNotRecording
    | BackendUnavailable(message: string)

  datatype PcmSpec = PcmSpec(sampleRateHz: u32, channels: u16) {
    predicate Valid() {
      sampleRateHz != 0 && channels != 0
    }

    function Validate(): (r: Result<PcmSpec, AudioError>)
      ensures r.Ok? <==> Valid()
      ensures r.Ok? ==> r.value == this
    {
      if sampleRateHz == 0 then Err(InvalidSampleRate(sampleRateHz))
      else if channels == 0 then Err(InvalidChannelCount(channels))
      else Ok(this)
    }
  }

  /** 16 kHz mono. */
  const DEFAULT_SPEC := PcmSpec(16_000, 1)

  datatype PcmBuffer = PcmBuffer(spec: PcmSpec, samples: seq<i16>) {
    /** What every constructor of the type establishes. */
    predicate Valid() {
      spec.Valid() && |samples| % spec.channels == 0
    }

    function FrameLen(): nat
      requires Valid()
    {
      |samples| / spec.channels
    }

    predicate IsSilent(thresholdAbs: i16) {
      forall i :: 0 <= i < |samples| ==> Magnitude(samples[i]) <= Magnitude(thresholdAbs)
    }
  }

  function WithSpec(spec: PcmSpec, samples: seq<i16>): (r: Result<PcmBuffer, AudioError>)
    ensures r.Ok? <==> PcmBuffer(spec, samples).Valid()
    ensures r.Ok? ==> r.value == PcmBuffer(spec, samples)
  {
    match spec.Validate()
    case Err(e) => Err(e)
    case Ok(valid) =>
      if |samples| % valid.channels != 0 then Err(UnalignedSamples(|samples|, valid.channels))
      else Ok(PcmBuffer(valid, samples))
  }

  function FromPcm16leBytes(spec: PcmSpec, bytes: seq<byte>): (r: Result<PcmBuffer, AudioError>)
    ensures r.Ok? <==> |bytes| % 2 == 0 && spec.Valid() && |bytes| / 2 % spec.channels == 0
    ensures r.Ok? ==> r.value.Valid() && r.value.spec == spec && SamplesToBytes(r.value.samples) == bytes
    ensures r.Err? ==> r.error == if |bytes| % 2 != 0 then OddPcmByteCount(|bytes|)
                                  else if spec.sampleRateHz == 0 then InvalidSampleRate(0)
                                  else if spec.channels == 0 then InvalidChannelCount(0)
                                  else UnalignedSamples(|bytes| / 2, spec.channels)
  {
    if |bytes| % 2 != 0 then Err(OddPcmByteCount(|bytes|))
    else
      SamplesToBytesOfBytesToSamples(bytes);
      WithSpec(spec, BytesToSamples(bytes))
  }

  // ---- Chunking by frames ----

  datatype ChunkRange = ChunkRange(startFrame: nat, frameLen: nat)

  /** How many pieces of at most `max` cover `total`. */
  function PieceCount(total: nat, max: nat): nat
    requires max > 0
  {
    if total == 0 then 0 else 1 + PieceCount(total - Min(max, total), max)
  }

  lemma {:induction false} PieceCountIsCeiling(total: nat, max: nat)
    requires max > 0
    ensures PieceCount(total, max) == (total + max - 1) / max
  {
    if total > max {
      var rest := total - 1;
      PieceCountIsCeiling(total - max, max);
      QuotientIsUnique(rest + max, max, rest / max + 1, rest % max);
    } else if total > 0 {
      QuotientIsUnique(total + max - 1, max, 1, total - 1);
    } else {
      QuotientIsUnique(max - 1, max, 0, max - 1);
    }
  }

  lemma {:induction false} PieceCountCovers(total: nat, max: nat, i: nat)
    requires max > 0
    ensures i < PieceCount(total, max) <==> Times(i, max) < total
  {
    if total > 0 && i > 0 {
      PieceCountCovers(total - Min(max, total), max, i - 1);
    }
  }

  /** The i-th piece of the partition of `total` frames into pieces of at most `max`. */
  function Piece(total: nat, max: nat, i: nat): ChunkRange
    requires Times(i, max) < total
  {
    ChunkRange(Times(i, max), Min(max, total - Times(i, max)))
  }

  ghost predicate IsPiece(ranges: seq<ChunkRange>, total: nat, max: nat, i: nat)
    requires i < |ranges|
  {
    Times(i, max) < total && ranges[i] == Piece(total, max, i)
  }

  ghost predicate IsPartition(ranges: seq<ChunkRange>, total: nat, max: nat)
    requires max > 0
  {
    && |ranges| == PieceCount(total, max)
    && (forall i: nat :: i < |ranges| ==> IsPiece(ranges, total, max, i))
  }

  /** Ceil(frames/max) pieces of size `max` but for the last, or an error for `max == 0`. */
  method ChunkRangesByFrames(pcm: PcmBuffer, maxFrames: nat) returns (r: Result<seq<ChunkRange>, AudioError>)
    requires pcm.Valid()
    ensures maxFrames == 0 ==> r == Err(InvalidChunkFrameCount(0))
    ensures maxFrames > 0 ==> r.Ok? && IsPartition(r.value, pcm.FrameLen(), maxFrames)
  {
    if maxFrames == 0 {
      return Err(InvalidChunkFrameCount(maxFrames));
    }
    var ranges: seq<ChunkRange> := [];
    var startFrame := 0;
    var totalFrames := pcm.FrameLen();
    while startFrame < totalFrames
      invariant startFrame == Min(Times(|ranges|, maxFrames), totalFrames)
      invariant |ranges| + PieceCount(totalFrames - startFrame, maxFrames) == PieceCount(totalFrames, maxFrames)
      invariant forall i: nat :: i < |ranges| ==> IsPiece(ranges, totalFrames, maxFrames, i)
    {
      var frameLen := Min(totalFrames - startFrame, maxFrames);
      ghost var before := ranges;
      ranges := ranges + [ChunkRange(startFrame, frameLen)];
      startFrame := startFrame + frameLen;
      forall i: nat | i < |ranges|
        ensures IsPiece(ranges, totalFrames, maxFrames, i)
      {
        if i < |before| { assert IsPiece(before, totalFrames, maxFrames, i); }
      }
    }
    return Ok(ranges);
  }

  /** Consecutive, non-empty, exhaustive: a partition starts at 0, has no gap and ends at `total`. */
  lemma PartitionIsContiguous(ranges: seq<ChunkRange>, total: nat, max: nat)
    requires max > 0 && IsPartition(ranges, total, max)
    ensures forall i :: 0 <= i < |ranges| ==> 0 < ranges[i].frameLen <= max
    ensures forall i :: 0 <= i < |ranges| - 1 ==> ranges[i].frameLen == max
    ensures if ranges == [] then total == 0 else
              && ranges[0].startFrame == 0
              && ranges[|ranges| - 1].startFrame + ranges[|ranges| - 1].frameLen == total
    ensures forall i :: 0 <= i < |ranges| - 1 ==>
              ranges[i + 1].startFrame == ranges[i].startFrame + ranges[i].frameLen
  {
    PieceCountCovers(total, max, |ranges|);
    forall i | 0 <= i < |ranges|
      ensures 0 < ranges[i].frameLen <= max
      ensures i == |ranges| - 1 ==> ranges[i].startFrame + ranges[i].frameLen == total
      ensures i < |ranges| - 1 ==> ranges[i].frameLen == max
      ensures i < |ranges| - 1 ==> ranges[i + 1].startFrame == ranges[i].startFrame + ranges[i].frameLen
    {
      assert IsPiece(ranges, total, max, i);
      if i + 1 < |ranges| {
        assert IsPiece(ranges, total, max, i + 1);
        assert ranges[i].frameLen == max;
      }
    }
    if |ranges| > 0 { assert IsPiece(ranges, total, max, 0); }
  }

  /** A frame range lies inside the buffer, and its sample range has whole frames. */
  lemma SliceInBounds(pcm: PcmBuffer, start: nat, len: nat)
    requires pcm.Valid() && start + len <= pcm.FrameLen()
    ensures Times(start, pcm.spec.channels) + Times(len, pcm.spec.channels)
         == Times(start + len, pcm.spec.channels) <= |pcm.samples|
    ensures Times(len, pcm.spec.channels) % pcm.spec.channels == 0
  {
    var c: nat := pcm.spec.channels;
    TimesAdd(start, len, c);
    TimesAdd(start + len, pcm.FrameLen() - (start + len), c);
    TimesOfQuotient(|pcm.samples|, c);
    TimesMod(len, c);
  }

  /** The buffer made of `len` frames from `start` on. */
  function FrameSlice(pcm: PcmBuffer, start: nat, len: nat): (r: PcmBuffer)
    requires pcm.Valid() && start + len <= pcm.FrameLen()
    ensures r.Valid() && r.spec == pcm.spec && |r.samples| == Times(len, pcm.spec.channels)
  {
    SliceInBounds(pcm, start, len);
    PcmBuffer(pcm.spec, pcm.samples[Times(start, pcm.spec.channels)..Times(start + len, pcm.spec.channels)])
  }

  ghost predicate IsChunk(chunks: seq<PcmBuffer>, pcm: PcmBuffer, max: nat, i: nat)
    requires pcm.Valid() && i < |chunks|
  {
    && Times(i, max) < pcm.FrameLen()
    && chunks[i] == FrameSlice(pcm, Times(i, max), Piece(pcm.FrameLen(), max, i).frameLen)
  }

  /** The chunks of a buffer, piece by piece. */
  ghost predicate AreChunksOf(chunks: seq<PcmBuffer>, pcm: PcmBuffer, max: nat)
    requires pcm.Valid() && max > 0
  {
    && |chunks| == PieceCount(pcm.FrameLen(), max)
    && (forall i: nat :: i < |chunks| ==> IsChunk(chunks, pcm, max, i))
  }

  function SamplesOf(chunks: seq<PcmBuffer>): (parts: seq<seq<i16>>)
    ensures |parts| == |chunks|
  {
    seq(|chunks|, i requires 0 <= i < |chunks| => chunks[i].samples)
  }

  /** Never fails for a positive size: every piece it cuts is whole frames of the same layout. */
  method ChunksByFrames(pcm: PcmBuffer, maxFrames: nat) returns (r: Result<seq<PcmBuffer>, AudioError>)
    requires pcm.Valid()
    ensures maxFrames == 0 ==> r == Err(InvalidChunkFrameCount(0))
    ensures maxFrames > 0 ==> r.Ok? && AreChunksOf(r.value, pcm, maxFrames)
  {
    var channels: nat := pcm.spec.channels;
    var planned := ChunkRangesByFrames(pcm, maxFrames);
    if planned.Err? {
      return Err(planned.error);
    }
    var ranges := planned.value;
    var chunks: seq<PcmBuffer> := [];
    for n := 0 to |ranges|
      invariant |chunks| == n
      invariant forall i: nat :: i < n ==> IsChunk(chunks, pcm, maxFrames, i)
    {
      var range := ranges[n];
      assert IsPiece(ranges, pcm.FrameLen(), maxFrames, n);
      SliceInBounds(pcm, range.startFrame, range.frameLen);
      var start := Times(range.startFrame, channels);
      var end := start + Times(range.frameLen, channels);
      var chunk := WithSpec(pcm.spec, pcm.samples[start..end]);
      assert PcmBuffer(pcm.spec, pcm.samples[start..end]) == FrameSlice(pcm, range.startFrame, range.frameLen);
      ghost var before := chunks;
      match chunk {
        case Err(error) => return Err(error);
        case Ok(whole) => chunks := chunks + [whole];
      }
      forall i: nat | i < |chunks|
        ensures IsChunk(chunks, pcm, maxFrames, i)
      {
        if i < |before| { assert IsChunk(before, pcm, maxFrames, i); }
      }
    }
    return Ok(chunks);
  }

  lemma {:induction false} ChunkPrefix(chunks: seq<PcmBuffer>, pcm: PcmBuffer, max: nat, n: nat)
    requires pcm.Valid() && max > 0 && AreChunksOf(chunks, pcm, max) && n <= |chunks|
    ensures Flatten(SamplesOf(chunks)[..n]) == FrameSlice(pcm, 0, Min(Times(n, max), pcm.FrameLen())).samples
  {
    if n > 0 {
      ChunkPrefix(chunks, pcm, max, n - 1);
      var parts := SamplesOf(chunks);
      assert parts[..n][..n - 1] == parts[..n - 1];
      assert IsChunk(chunks, pcm, max, n - 1);
      var piece := Piece(pcm.FrameLen(), max, n - 1);
      SlicesJoin(pcm, piece.startFrame, piece.frameLen);
    }
  }

  lemma SlicesJoin(pcm: PcmBuffer, start: nat, len: nat)
    requires pcm.Valid() && start + len <= pcm.FrameLen()
    ensures FrameSlice(pcm, 0, start).samples + FrameSlice(pcm, start, len).samples
         == FrameSlice(pcm, 0, start + len).samples
  {
    SliceInBounds(pcm, 0, start);
    SliceInBounds(pcm, start, len);
    SliceInBounds(pcm, 0, start + len);
  }

  lemma ChunksGiveTheBufferBack(chunks: seq<PcmBuffer>, pcm: PcmBuffer, max: nat)
    requires pcm.Valid() && max > 0 && AreChunksOf(chunks, pcm, max)
    ensures Flatten(SamplesOf(chunks)) == pcm.samples
  {
    var n := |chunks|;
    ChunkPrefix(chunks, pcm, max, n);
    PieceCountCovers(pcm.FrameLen(), max, n);
    assert SamplesOf(chunks)[..n] == SamplesOf(chunks);
    TimesOfQuotient(|pcm.samples|, pcm.spec.channels);
    assert FrameSlice(pcm, 0, pcm.FrameLen()).samples == pcm.samples;
  }

  // ---- Silence trimming ----

  /** `i16::unsigned_abs`: 32768 for -32768. */
  function Magnitude(sample: i16): (m: nat)
    ensures m <= 0x8000
  {
    if sample < 0 then 0 - (sample as int) else sample
  }

  /** Some sample of frame `k` exceeds the threshold. */
  predicate Loud(pcm: PcmBuffer, threshold: nat, k: nat)
    requires pcm.Valid() && k < pcm.FrameLen()
  {
    var frame := FrameSlice(pcm, k, 1).samples;
    exists i :: 0 <= i < |frame| && Magnitude(frame[i]) > threshold
  }

  /** The first loud frame at or after `from`. */
  function Position(pcm: PcmBuffer, threshold: nat, from: nat): (r: Option<nat>)
    requires pcm.Valid() && from <= pcm.FrameLen()
    ensures r.None? ==> forall k :: from <= k < pcm.FrameLen() ==> !Loud(pcm, threshold, k)
    ensures r.Some? ==>
              && from <= r.value < pcm.FrameLen() && Loud(pcm, threshold, r.value)
              && forall k :: from <= k < r.value ==> !Loud(pcm, threshold, k)
    decreases pcm.FrameLen() - from
  {
    if from == pcm.FrameLen() then None
    else if Loud(pcm, threshold, from) then Some(from)
    else Position(pcm, threshold, from + 1)
  }

  /** The last loud frame before `end`. */
  function RPosition(pcm: PcmBuffer, threshold: nat, end: nat): (r: Option<nat>)
    requires pcm.Valid() && end <= pcm.FrameLen()
    ensures r.None? ==> forall k :: 0 <= k < end ==> !Loud(pcm, threshold, k)
    ensures r.Some? ==>
              && r.value < end && Loud(pcm, threshold, r.value)
              && forall k :: r.value < k < end ==> !Loud(pcm, threshold, k)
  {
    if end == 0 then None
    else if Loud(pcm, threshold, end - 1) then Some(end - 1)
    else RPosition(pcm, threshold, end - 1)
  }

  /** `first..last` are the loud ends of the buffer: everything outside them is quiet. */
  ghost predicate LoudEnds(pcm: PcmBuffer, threshold: nat, first: nat, last: nat)
    requires pcm.Valid()
  {
    && first <= last < pcm.FrameLen()
    && Loud(pcm, threshold, first) && Loud(pcm, threshold, last)
    && (forall k :: 0 <= k < pcm.FrameLen() && (k < first || last < k) ==> !Loud(pcm, threshold, k))
  }

  function TrimmedSilence(pcm: PcmBuffer, thresholdAbs: i16): (trimmed: PcmBuffer)
    requires pcm.Valid()
    ensures trimmed.Valid() && trimmed.spec == pcm.spec
  {
    var threshold := Magnitude(thresholdAbs);
    match Position(pcm, threshold, 0)
    case None => PcmBuffer(pcm.spec, [])
    case Some(start) =>
      match RPosition(pcm, threshold, pcm.FrameLen())
      case Some(end) => FrameSlice(pcm, start, end + 1 - start)
      case None => assert false; pcm
  }

  lemma LoudSampleHasItsFrame(pcm: PcmBuffer, threshold: nat, i: nat)
    requires pcm.Valid() && i < |pcm.samples| && Magnitude(pcm.samples[i]) > threshold
    ensures exists k :: 0 <= k < pcm.FrameLen() && Loud(pcm, threshold, k)
  {
    var c: nat := pcm.spec.channels;
    var k := i / c;
    TimesOfQuotient(i, c);
    TimesOfQuotient(|pcm.samples|, c);
    if pcm.FrameLen() < k {
      TimesLess(pcm.FrameLen(), k, c);
    }
    var frame := FrameSlice(pcm, k, 1).samples;
    SliceInBounds(pcm, k, 1);
    assert Times(1, c) == Times(0, c) + c;
    assert frame[i - Times(k, c)] == pcm.samples[i];
    assert Loud(pcm, threshold, k);
  }

  lemma SilentIffNoLoudFrame(pcm: PcmBuffer, thresholdAbs: i16)
    requires pcm.Valid()
    ensures pcm.IsSilent(thresholdAbs) <==>
            forall k :: 0 <= k < pcm.FrameLen() ==> !Loud(pcm, Magnitude(thresholdAbs), k)
  {
    var threshold := Magnitude(thresholdAbs);
    var c: nat := pcm.spec.channels;
    forall k | 0 <= k < pcm.FrameLen() && Loud(pcm, threshold, k)
      ensures !pcm.IsSilent(thresholdAbs)
    {
      var frame := FrameSlice(pcm, k, 1).samples;
      var i :| 0 <= i < |frame| && Magnitude(frame[i]) > threshold;
      SliceInBounds(pcm, k, 1);
      assert frame[i] == pcm.samples[Times(k, c) + i];
    }
    forall i | 0 <= i < |pcm.samples| && Magnitude(pcm.samples[i]) > threshold
      ensures exists k :: 0 <= k < pcm.FrameLen() && Loud(pcm, threshold, k)
    {
      LoudSampleHasItsFrame(pcm, threshold, i);
    }
  }

  lemma LoudEndsAreUnique(pcm: PcmBuffer, threshold: nat, a: nat, b: nat, first: nat, last: nat)
    requires pcm.Valid() && LoudEnds(pcm, threshold, a, b) && LoudEnds(pcm, threshold, first, last)
    ensures a == first && b == last
  {
  }

  /**
   The trim is empty exactly on a silent buffer; otherwise it is cut at the loud ends,
   and no other cut has loud ends and only quiet frames outside.
   */
  lemma TrimIsTheUniqueMaximalTrim(pcm: PcmBuffer, thresholdAbs: i16)
    requires pcm.Valid()
    ensures TrimmedSilence(pcm, thresholdAbs).samples == [] <==> pcm.IsSilent(thresholdAbs)
    ensures pcm.IsSilent(thresholdAbs) ||
            exists first: nat, last: nat :: LoudEnds(pcm, Magnitude(thresholdAbs), first, last)
    ensures forall first: nat, last: nat :: LoudEnds(pcm, Magnitude(thresholdAbs), first, last) ==>
              TrimmedSilence(pcm, thresholdAbs) == FrameSlice(pcm, first, last + 1 - first)
  {
    var threshold := Magnitude(thresholdAbs);
    SilentIffNoLoudFrame(pcm, thresholdAbs);
    var start := Position(pcm, threshold, 0);
    if start.Some? {
      var end := RPosition(pcm, threshold, pcm.FrameLen()).value;
      assert LoudEnds(pcm, threshold, start.value, end);
      TimesLess(0, end + 1 - start.value, pcm.spec.channels);
      forall first: nat, last: nat | LoudEnds(pcm, threshold, first, last)
        ensures first == start.value && last == end
      {
        LoudEndsAreUnique(pcm, threshold, start.value, end, first, last);
      }
    }
  }

  lemma NestedSlices(s: seq<i16>, a: nat, b: nat, from: nat, to: nat)
    requires a <= b <= |s| && from <= to <= b - a
    ensures s[a..b][from..to] == s[a + from..a + to]
  {
    var inner, outer := s[a..b][from..to], s[a + from..a + to];
    forall i | 0 <= i < to - from
      ensures inner[i] == outer[i]
    {
      assert inner[i] == s[a..b][from + i];
    }
    assert inner == outer;
  }

  lemma SliceFrameLen(pcm: PcmBuffer, start: nat, len: nat)
    requires pcm.Valid() && start + len <= pcm.FrameLen()
    ensures FrameSlice(pcm, start, len).FrameLen() == len
  {
    TimesMod(len, pcm.spec.channels);
  }

  lemma NestedFrames(samples: seq<i16>, c: nat, start: nat, len: nat, k: nat)
    requires k < len && Times(start + len, c) <= |samples|
    ensures Times(start, c) <= Times(start + len, c) && Times(start + k, c) <= Times(start + k + 1, c) <= |samples|
    ensures Times(k, c) <= Times(k + 1, c) <= Times(start + len, c) - Times(start, c)
    ensures samples[Times(start, c)..Times(start + len, c)][Times(k, c)..Times(k + 1, c)]
         == samples[Times(start + k, c)..Times(start + k + 1, c)]
  {
    TimesAdd(start, len, c);
    TimesAdd(start, k, c);
    TimesAdd(start, k + 1, c);
    TimesAdd(k + 1, len - (k + 1), c);
    NestedSlices(samples, Times(start, c), Times(start + len, c), Times(k, c), Times(k + 1, c));
  }

  lemma SliceOfSlice(pcm: PcmBuffer, start: nat, len: nat, k: nat)
    requires pcm.Valid() && start + len <= pcm.FrameLen() && k < len
    ensures FrameSlice(pcm, start, len).FrameLen() == len
    ensures FrameSlice(FrameSlice(pcm, start, len), k, 1) == FrameSlice(pcm, start + k, 1)
  {
    SliceFrameLen(pcm, start, len);
    SliceInBounds(pcm, start, len);
    NestedFrames(pcm.samples, pcm.spec.channels, start, len, k);
  }

  lemma WholeSlice(pcm: PcmBuffer)
    requires pcm.Valid()
    ensures FrameSlice(pcm, 0, pcm.FrameLen()) == pcm
  {
    TimesOfQuotient(|pcm.samples|, pcm.spec.channels);
  }

  /** A loud frame of the buffer is a loud frame of a slice that has it. */
  lemma SliceKeepsLoud(pcm: PcmBuffer, threshold: nat, start: nat, len: nat, k: nat)
    requires pcm.Valid() && start + len <= pcm.FrameLen() && k < len && Loud(pcm, threshold, start + k)
    ensures k < FrameSlice(pcm, start, len).FrameLen() && Loud(FrameSlice(pcm, start, len), threshold, k)
  {
    SliceOfSlice(pcm, start, len, k);
  }

  /** Cutting at the loud ends leaves a buffer whose loud ends are its ends. */
  lemma CutHasLoudEnds(pcm: PcmBuffer, threshold: nat, first: nat, last: nat)
    requires pcm.Valid() && LoudEnds(pcm, threshold, first, last)
    ensures var cut := FrameSlice(pcm, first, last + 1 - first);
            cut.FrameLen() == last + 1 - first && LoudEnds(cut, threshold, 0, last - first)
  {
    SliceFrameLen(pcm, first, last + 1 - first);
    SliceKeepsLoud(pcm, threshold, first, last + 1 - first, 0);
    SliceKeepsLoud(pcm, threshold, first, last + 1 - first, last - first);
  }

  lemma TrimIsIdempotent(pcm: PcmBuffer, thresholdAbs: i16)
    requires pcm.Valid()
    ensures TrimmedSilence(TrimmedSilence(pcm, thresholdAbs), thresholdAbs) == TrimmedSilence(pcm, thresholdAbs)
  {
    var threshold := Magnitude(thresholdAbs);
    var trimmed := TrimmedSilence(pcm, thresholdAbs);
    TrimIsTheUniqueMaximalTrim(pcm, thresholdAbs);
    if trimmed.samples != [] {
      var first: nat, last: nat :| LoudEnds(pcm, threshold, first, last);
      CutHasLoudEnds(pcm, threshold, first, last);
      TrimIsTheUniqueMaximalTrim(trimmed, thresholdAbs);
      WholeSlice(trimmed);
    }
  }
}

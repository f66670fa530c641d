/**
 `SourceAudioRecorder`: a start/stop recorder over a one-shot audio source, which may
 read and deliver a capture early and hand the same capture out when it is stopped.
 The source is any finite script of results; it is exhausted after its last entry.
 */
module SourceRecorder {
  import opened Wrappers
  import opened Pcm

  datatype CapturedAudio = CapturedAudio(pcm: PcmBuffer, sourceName: Option<string>)

  /** What the callback was given for one read of the source. */
  datatype Delivery = Delivery(read: nat, chunks: seq<PcmBuffer>)

  ghost predicate ChunksFor(chunkFrames: Option<nat>, pcm: PcmBuffer, chunks: seq<PcmBuffer>)
    requires pcm.Valid()
  {
    match chunkFrames
    case None => chunks == [pcm]
    case Some(max) => max > 0 && AreChunksOf(chunks, pcm, max)
  }

  /** Whatever the chunk size, the callback hears exactly the captured samples. */
  lemma DeliveryIsTheCapture(chunkFrames: Option<nat>, pcm: PcmBuffer, chunks: seq<PcmBuffer>)
    requires pcm.Valid() && ChunksFor(chunkFrames, pcm, chunks)
    ensures Flatten(SamplesOf(chunks)) == pcm.samples
  {
    match chunkFrames
    case None =>
      assert SamplesOf(chunks) == [pcm.samples];
      assert Flatten([pcm.samples]) == Flatten([pcm.samples][..0]) + pcm.samples;
    case Some(max) => ChunksGiveTheBufferBack(chunks, pcm, max);
  }

  ghost predicate Increasing(indices: seq<nat>, bound: nat) {
    && (forall i :: 0 <= i < |indices| ==> indices[i] < bound)
    && (forall i, j :: 0 <= i < j < |indices| ==> indices[i] < indices[j])
  }

  function ReadsOf(deliveries: seq<Delivery>): (indices: seq<nat>)
    ensures |indices| == |deliveries|
  {
    seq(|deliveries|, i requires 0 <= i < |deliveries| => deliveries[i].read)
  }

  class SourceAudioRecorder {
    const source: seq<Result<CapturedAudio, AudioError>>
    var next: nat
    var recording: bool
    var chunkCallback: bool
    var chunkFrames: Option<nat>
    var pendingCapture: Option<CapturedAudio>

    /** Every delivery to the callback, and the read behind every successful stop. */
    ghost var delivered: seq<Delivery>
    ghost var returned: seq<nat>

    /** `Increasing` twice: no read is delivered twice and none is returned twice, over the whole life. */
    ghost predicate Valid()
      reads this
    {
      && (forall i :: 0 <= i < |source| && source[i].Ok? ==> source[i].value.pcm.Valid())
      && next <= |source|
      && chunkFrames != Some(0)
      && (pendingCapture.Some? ==>
            && recording
            && 0 < next && source[next - 1] == Ok(pendingCapture.value)
            && Increasing(returned, next - 1))
      && Increasing(returned, next)
      && Increasing(ReadsOf(delivered), next)
      && (forall i :: 0 <= i < |delivered| ==> delivered[i].read < next && source[delivered[i].read].Ok?)
    }

    constructor (source: seq<Result<CapturedAudio, AudioError>>)
      requires forall i :: 0 <= i < |source| && source[i].Ok? ==> source[i].value.pcm.Valid()
      ensures Valid() && this.source == source && next == 0 && !recording && !chunkCallback
      ensures chunkFrames == None && pendingCapture == None && delivered == [] && returned == []
    {
      this.source := source;
      next, recording, chunkCallback := 0, false, false;
      chunkFrames, pendingCapture := None, None;
      delivered, returned := [], [];
    }

    method WithChunkFrames(maxFrames: nat) returns (r: Result<(), AudioError>)
      requires Valid()
      modifies this`chunkFrames
      ensures Valid()
      ensures maxFrames == 0 ==> r == Err(InvalidChunkFrameCount(0)) && chunkFrames == old(chunkFrames)
      ensures maxFrames > 0 ==> r.Ok? && chunkFrames == Some(maxFrames)
    {
      if maxFrames == 0 {
        return Err(InvalidChunkFrameCount(maxFrames));
      }
      chunkFrames := Some(maxFrames);
      return Ok(());
    }

    method SetChunkCallback(installed: bool)
      requires Valid()
      modifies this`chunkCallback
      ensures Valid() && chunkCallback == installed
    {
      chunkCallback := installed;
    }

    method ReadBuffer() returns (r: Result<CapturedAudio, AudioError>)
      requires Valid() && pendingCapture.None?
      modifies this`next
      ensures Valid()
      ensures old(next) == |source| ==> next == old(next) && r == Err(SourceExhausted)
      ensures old(next) < |source| ==> next == old(next) + 1 && r == source[old(next)]
    {
      if next == |source| {
        return Err(SourceExhausted);
      }
      r := source[next];
      next := next + 1;
    }

    /** Hands the last read to the callback, if there is one. */
    method DeliverCapture(captured: CapturedAudio) returns (r: Result<(), AudioError>)
      requires Valid() && 0 < next && source[next - 1] == Ok(captured)
      requires Increasing(ReadsOf(delivered), next - 1)
      modifies this`delivered
      ensures Valid() && r.Ok?
      ensures !chunkCallback ==> delivered == old(delivered)
      ensures chunkCallback ==>
                && |delivered| == |old(delivered)| + 1
                && delivered[..|old(delivered)|] == old(delivered)
                && delivered[|old(delivered)|].read == next - 1
                && ChunksFor(chunkFrames, captured.pcm, delivered[|old(delivered)|].chunks)
    {
      if !chunkCallback {
        return Ok(());
      }
      ghost var chunks: seq<PcmBuffer>;
      if chunkFrames.Some? {
        var split := ChunksByFrames(captured.pcm, chunkFrames.value);
        match split {
          case Err(_) => assert false;
          case Ok(parts) => chunks := parts;
        }
      } else {
        chunks := [captured.pcm];
      }
      ghost var before := ReadsOf(delivered);
      delivered := delivered + [Delivery(next - 1, chunks)];
      assert ReadsOf(delivered) == before + [next - 1];
      return Ok(());
    }

    /** The only errors are the lifecycle error and the source's own: delivery never fails. */
    method BeginRecording() returns (r: Result<(), AudioError>)
      requires Valid()
      modifies this
      ensures Valid() && chunkCallback == old(chunkCallback) && chunkFrames == old(chunkFrames)
      ensures returned == old(returned)
      ensures old(recording) ==>
                && r == Err(RecorderAlreadyRecording) && recording && next == old(next)
                && pendingCapture == old(pendingCapture) && delivered == old(delivered)
      ensures !old(recording) && !chunkCallback ==>
                r.Ok? && recording && pendingCapture.None? && next == old(next) && delivered == old(delivered)
      ensures !old(recording) && chunkCallback && old(next) == |source| ==>
                && r == Err(SourceExhausted) && !recording && pendingCapture.None? && next == old(next)
                && delivered == old(delivered)
      ensures !old(recording) && chunkCallback && old(next) < |source| ==>
                && next == old(next) + 1
                && (source[old(next)].Err? ==>
                      && r == Err(source[old(next)].error) && !recording && pendingCapture.None?
                      && delivered == old(delivered))
                && (source[old(next)].Ok? ==>
                      && r.Ok? && recording && pendingCapture == Some(source[old(next)].value)
                      && |delivered| == |old(delivered)| + 1
                      && delivered[..|old(delivered)|] == old(delivered)
                      && delivered[|old(delivered)|].read == old(next)
                      && ChunksFor(chunkFrames, source[old(next)].value.pcm, delivered[|old(delivered)|].chunks))
    {
      if recording {
        return Err(RecorderAlreadyRecording);
      }
      recording := true;
      if chunkCallback {
        var read := ReadBuffer();
        if read.Err? {
          recording := false;
          return Err(read.error);
        }
        var handed := DeliverCapture(read.value);
        match handed {
          case Err(_) => assert false;
          case Ok(_) => pendingCapture := Some(read.value);
        }
      }
      return Ok(());
    }

    /** Returns the capture that was already delivered, or reads, delivers and returns the next one. */
    method StopAndGetBuffer() returns (r: Result<CapturedAudio, AudioError>)
      requires Valid()
      modifies this
      ensures Valid() && !recording && pendingCapture.None?
      ensures chunkCallback == old(chunkCallback) && chunkFrames == old(chunkFrames)
      ensures !old(recording) ==>
                && r == Err(RecorderNotRecording)
                && next == old(next) && delivered == old(delivered) && returned == old(returned)
      ensures old(recording) && old(pendingCapture).Some? ==>
                && r == Ok(old(pendingCapture).value)
                && next == old(next) && delivered == old(delivered) && returned == old(returned) + [next - 1]
      ensures old(recording) && old(pendingCapture).None? && old(next) == |source| ==>
                && r == Err(SourceExhausted)
                && next == old(next) && delivered == old(delivered) && returned == old(returned)
      ensures old(recording) && old(pendingCapture).None? && old(next) < |source| ==>
                && r == source[old(next)] && next == old(next) + 1
                && returned == (if r.Ok? then old(returned) + [old(next)] else old(returned))
                && (r.Err? || !chunkCallback ==> delivered == old(delivered))
                && (r.Ok? && chunkCallback ==>
                      && |delivered| == |old(delivered)| + 1
                      && delivered[..|old(delivered)|] == old(delivered)
                      && delivered[|old(delivered)|].read == old(next)
                      && ChunksFor(chunkFrames, r.value.pcm, delivered[|old(delivered)|].chunks))
    {
      if !recording {
        return Err(RecorderNotRecording);
      }
      recording := false;
      if pendingCapture.Some? {
        r := Ok(pendingCapture.value);
        pendingCapture := None;
        returned := returned + [next - 1];
        return;
      }
      r := ReadBuffer();
      if r.Err? {
        return;
      }
      var handed := DeliverCapture(r.value);
      match handed {
        case Err(_) => assert false;
        case Ok(_) => returned := returned + [next - 1];
      }
    }

    method CancelRecording() returns (r: Result<(), AudioError>)
      requires Valid()
      modifies this`recording, this`pendingCapture
      ensures Valid() && r.Ok? && !recording && pendingCapture.None?
    {
      recording := false;
      pendingCapture := None;
      return Ok(());
    }
  }
}

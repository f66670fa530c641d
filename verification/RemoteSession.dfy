/**
 The buffered remote recognition session (crates/vinpst-asr/src/remote.rs): audio is
 collected, and `finish` sends it as one WAV request over a foreign transport. What the
 transport answers is a parameter of the call.
 */
module RemoteSession {
  import opened Wrappers
  import opened Bytes
  import opened Pcm
  import opened Text
  import opened Recognition
  import WavCodec

  /** A response body: not JSON, or JSON with or without a string under `text`. */
  datatype Body = NotJson | Json(text: Option<string>)

  /** What the transport gives back for the request, if it is asked. */
  type Reply = Result<Body, AsrError>

  function Transcription(body: Body): (r: Result<string, AsrError>)
    ensures r.Ok? <==> body.Json? && body.text.Some? && Trim(body.text.value) != ""
    ensures r.Ok? ==> r.value == Trim(body.text.value) && r.value != "" && IsTrimmed(r.value)
  {
    match body
    case NotJson => Err(Backend("invalid remote ASR response JSON"))
    case Json(text) =>
      if text.Some? && Trim(text.value) != "" then
        TrimTrims(text.value);
        Ok(Trim(text.value))
      else Err(Backend("remote ASR response missing final text"))
  }

  /** `requests` is every WAV payload handed to the transport. */
  datatype State = State(
    pcm: PcmSpec, samples: seq<i16>, finished: bool, cancelled: bool,
    events: seq<RecognitionEvent>, requests: seq<seq<byte>>)

  const NEW := State(DEFAULT_SPEC, [], false, false, [], [])

  datatype Op = PushPcm(pcm: PcmBuffer) | PushAudio(samples: seq<i16>) | Finish(reply: Reply) | Cancel | Poll

  type Outcome = Result<seq<RecognitionEvent>, AsrError>

  function Writable(s: State): Result<(), AsrError> {
    if s.cancelled then Err(Cancelled) else if s.finished then Err(AlreadyFinished) else Ok(())
  }

  function FinishStep(s: State, reply: Reply): (State, Outcome) {
    var done := s.(finished := true);
    if s.samples == [] then (done, Err(Backend("remote ASR request contains no audio")))
    else match WavCodec.Encode(s.pcm, s.samples)
      case Err(message) => (done, Err(Backend(message)))
      case Ok(wav) =>
        var sent := done.(requests := s.requests + [wav]);
        if reply.Err? then (sent, Err(reply.error))
        else match Transcription(reply.value)
          case Err(error) => (sent, Err(error))
          case Ok(text) => (sent.(events := [FinalText(text), Completed]), Ok([]))
  }

  function Step(s: State, op: Op): (State, Outcome) {
    match op
    case Cancel => (s.(cancelled := true, events := []), Ok([]))
    case Poll => (s.(events := []), Ok(s.events))
    case PushPcm(pcm) =>
      if Writable(s).Err? then (s, Err(Writable(s).error))
      else if s.samples != [] && s.pcm != pcm.spec then (s, Err(Backend("remote ASR PCM spec changed")))
      else (s.(pcm := pcm.spec, samples := s.samples + pcm.samples), Ok([]))
    case PushAudio(samples) =>
      if Writable(s).Err? then (s, Err(Writable(s).error))
      else (s.(samples := s.samples + samples), Ok([]))
    case Finish(reply) =>
      if Writable(s).Err? then (s, Err(Writable(s).error)) else FinishStep(s, reply)
  }

  class RemoteRecognitionSession {
    var pcm: PcmSpec
    var samples: seq<i16>
    var finished: bool
    var cancelled: bool
    var events: seq<RecognitionEvent>
    ghost var requests: seq<seq<byte>>

    ghost function View(): State
      reads this
    {
      State(pcm, samples, finished, cancelled, events, requests)
    }

    constructor ()
      ensures View() == NEW
    {
      pcm, samples, finished, cancelled, events, requests := DEFAULT_SPEC, [], false, false, [], [];
    }

    method EnsureWritable() returns (r: Result<(), AsrError>)
      ensures r == Writable(View())
    {
      if cancelled {
        return Err(Cancelled);
      }
      if finished {
        return Err(AlreadyFinished);
      }
      return Ok(());
    }

    method Push(buffer: PcmBuffer) returns (r: Outcome)
      modifies this
      ensures (View(), r) == Step(old(View()), PushPcm(buffer))
    {
      var writable := EnsureWritable();
      if writable.Err? {
        return Err(writable.error);
      }
      var nextPcm := buffer.spec;
      if samples != [] && pcm != nextPcm {
        return Err(Backend("remote ASR PCM spec changed"));
      }
      pcm := nextPcm;
      samples := samples + buffer.samples;
      return Ok([]);
    }

    method PushRaw(more: seq<i16>) returns (r: Outcome)
      modifies this
      ensures (View(), r) == Step(old(View()), PushAudio(more))
    {
      var writable := EnsureWritable();
      if writable.Err? {
        return Err(writable.error);
      }
      samples := samples + more;
      return Ok([]);
    }

    method FinishWith(reply: Reply) returns (r: Outcome)
      modifies this
      ensures (View(), r) == Step(old(View()), Finish(reply))
    {
      var writable := EnsureWritable();
      if writable.Err? {
        return Err(writable.error);
      }
      finished := true;
      if samples == [] {
        return Err(Backend("remote ASR request contains no audio"));
      }
      var encoded := WavCodec.EncodePcm16leWav(pcm, samples);
      if encoded.Err? {
        return Err(Backend(encoded.error));
      }
      requests := requests + [encoded.value];
      if reply.Err? {
        return Err(reply.error);
      }
      var text := Transcription(reply.value);
      if text.Err? {
        return Err(text.error);
      }
      events := [FinalText(text.value), Completed];
      return Ok([]);
    }

    method CancelSession() returns (r: Outcome)
      modifies this
      ensures (View(), r) == Step(old(View()), Cancel)
    {
      cancelled := true;
      events := [];
      return Ok([]);
    }

    method PollEvents() returns (r: Outcome)
      modifies this
      ensures (View(), r) == Step(old(View()), Poll)
    {
      r := Ok(events);
      events := [];
    }
  }

  // ---- Runs ----

  function Run(ops: seq<Op>): State {
    if ops == [] then NEW else Step(Run(ops[..|ops| - 1]), ops[|ops| - 1]).0
  }

  /** What the n-th call of the run answered. */
  function Answer(ops: seq<Op>, n: nat): Outcome
    requires n < |ops|
  {
    Step(Run(ops[..n]), ops[n]).1
  }

  function AudioOf(op: Op): seq<i16> {
    match op
    case PushPcm(pcm) => pcm.samples
    case PushAudio(samples) => samples
    case _ => []
  }

  /** The audio of every push that answered Ok, in order. */
  function AcceptedAudio(ops: seq<Op>): seq<i16> {
    if ops == [] then []
    else
      var n := |ops| - 1;
      AcceptedAudio(ops[..n]) + (if Answer(ops, n).Ok? then AudioOf(ops[n]) else [])
  }

  /** The layout of the last buffer accepted. */
  function AcceptedSpec(ops: seq<Op>): PcmSpec {
    if ops == [] then DEFAULT_SPEC
    else
      var n := |ops| - 1;
      if ops[n].PushPcm? && Answer(ops, n).Ok? then ops[n].pcm.spec else AcceptedSpec(ops[..n])
  }

  /** Every event a poll of the run handed out, in order. */
  function PolledEvents(ops: seq<Op>): seq<RecognitionEvent> {
    if ops == [] then []
    else
      var n := |ops| - 1;
      PolledEvents(ops[..n]) + (if ops[n].Poll? && Answer(ops, n).Ok? then Answer(ops, n).value else [])
  }

  lemma {:induction false} SessionHoldsTheAcceptedAudio(ops: seq<Op>)
    ensures Run(ops).samples == AcceptedAudio(ops) && Run(ops).pcm == AcceptedSpec(ops)
  {
    if ops != [] {
      SessionHoldsTheAcceptedAudio(ops[..|ops| - 1]);
    }
  }

  ghost predicate RequestIsTheAudio(s: State) {
    && |s.requests| <= 1
    && (s.requests != [] ==>
          && s.finished && s.samples != []
          && WavCodec.Decode(s.requests[0]) == Ok(PcmBuffer(s.pcm, s.samples)))
  }

  lemma StepKeepsTheRequest(s: State, op: Op)
    requires RequestIsTheAudio(s) && (!s.finished ==> s.requests == [])
    ensures var next := Step(s, op).0;
            RequestIsTheAudio(next) && (!next.finished ==> next.requests == [])
  {
    if op.Finish? && Writable(s).Ok? && WavCodec.Encode(s.pcm, s.samples).Ok? {
      WavCodec.DecodeOfEncode(s.pcm, s.samples);
    }
  }

  lemma {:induction false} RunKeepsTheRequest(ops: seq<Op>)
    ensures RequestIsTheAudio(Run(ops)) && (!Run(ops).finished ==> Run(ops).requests == [])
  {
    if ops != [] {
      RunKeepsTheRequest(ops[..|ops| - 1]);
      StepKeepsTheRequest(Run(ops[..|ops| - 1]), ops[|ops| - 1]);
    }
  }

  /**
   Over every run, mixed pushes and rejected calls included: the transport is asked at most
   once, and its WAV payload decodes to exactly the accepted layout and the accepted audio.
   */
  lemma OneRequestWithAllTheAudio(ops: seq<Op>)
    ensures |Run(ops).requests| <= 1
    ensures Run(ops).requests != [] ==>
              WavCodec.Decode(Run(ops).requests[0]) == Ok(PcmBuffer(AcceptedSpec(ops), AcceptedAudio(ops)))
  {
    RunKeepsTheRequest(ops);
    SessionHoldsTheAcceptedAudio(ops);
  }

  /** Audio comes only as typed buffers. */
  ghost predicate OnlyBuffers(ops: seq<Op>) {
    forall i :: 0 <= i < |ops| ==> !ops[i].PushAudio? && (ops[i].PushPcm? ==> ops[i].pcm.Valid())
  }

  lemma AlignedSum(a: seq<i16>, b: seq<i16>, channels: nat)
    requires channels > 0 && |a| % channels == 0 && |b| % channels == 0
    ensures |a + b| % channels == 0
  {
    var p, q := |a| / channels, |b| / channels;
    TimesOfQuotient(|a|, channels);
    TimesOfQuotient(|b|, channels);
    TimesAdd(p, q, channels);
    TimesMod(p + q, channels);
  }

  lemma PushKeepsFrames(s: State, op: Op)
    requires PcmBuffer(s.pcm, s.samples).Valid() && !op.PushAudio? && (op.PushPcm? ==> op.pcm.Valid())
    ensures var next := Step(s, op).0;
            && PcmBuffer(next.pcm, next.samples).Valid()
            && (s.samples != [] ==> next.pcm == s.pcm && next.samples != [])
            && (op.PushPcm? && Step(s, op).1.Ok? && op.pcm.samples != [] ==>
                  next.pcm == op.pcm.spec && next.samples != [])
  {
    if op.PushPcm? && s.pcm == op.pcm.spec {
      AlignedSum(s.samples, op.pcm.samples, s.pcm.channels);
    } else {
      assert op.PushPcm? ==> [] + op.pcm.samples == op.pcm.samples;
    }
  }

  /** The n-th call gave the session some audio. */
  ghost predicate Fed(ops: seq<Op>, n: nat)
    requires n < |ops|
  {
    ops[n].PushPcm? && Answer(ops, n).Ok? && ops[n].pcm.samples != []
  }

  /**
   Fed by typed buffers alone, the session always holds whole frames of one valid layout, that
   of every buffer it got audio from; only empty buffers before the first audio may differ.
   */
  lemma {:induction false} BuffersKeepFrames(ops: seq<Op>)
    requires OnlyBuffers(ops)
    ensures PcmBuffer(Run(ops).pcm, Run(ops).samples).Valid()
    ensures forall i: nat :: i < |ops| && Fed(ops, i) ==> ops[i].pcm.spec == Run(ops).pcm && Run(ops).samples != []
  {
    if ops != [] {
      var n := |ops| - 1;
      var before := ops[..n];
      BuffersKeepFrames(before);
      PushKeepsFrames(Run(before), ops[n]);
      forall i: nat | i < n && Fed(ops, i)
        ensures ops[i].pcm.spec == Run(ops).pcm && Run(ops).samples != []
      {
        FedBefore(ops, i);
      }
    }
  }

  lemma FedBefore(ops: seq<Op>, i: nat)
    requires i < |ops| - 1 && Fed(ops, i)
    ensures Fed(ops[..|ops| - 1], i)
  {
    assert ops[..|ops| - 1][..i] == ops[..i];
  }

  /** So `finish` asks the transport exactly when there is audio and the header's 32 and 16 bits can hold it. */
  lemma FinishAsksIffTheAudioFits(ops: seq<Op>, reply: Reply)
    requires OnlyBuffers(ops) && Writable(Run(ops)).Ok?
    ensures Run(ops + [Finish(reply)]).requests != [] <==>
              && AcceptedAudio(ops) != []
              && 36 + 2 * |AcceptedAudio(ops)| < 0x1_0000_0000
              && WavCodec.ByteRate(AcceptedSpec(ops)) < 0x1_0000_0000
              && AcceptedSpec(ops).channels < 0x8000
  {
    BuffersKeepFrames(ops);
    SessionHoldsTheAcceptedAudio(ops);
    RunKeepsTheRequest(ops);
    var all := ops + [Finish(reply)];
    assert all[..|all| - 1] == ops;
  }

  // ---- Events ----

  ghost predicate IsTranscript(events: seq<RecognitionEvent>) {
    && |events| == 2 && events[0].FinalText? && events[0].text != "" && IsTrimmed(events[0].text)
    && events[1] == Completed
  }

  /** What polls have taken so far and what the state holds for the next one are together one transcript or nothing. */
  ghost predicate IsDelivered(polled: seq<RecognitionEvent>, s: State) {
    && (polled + s.events == [] || (IsTranscript(polled + s.events) && s.requests != []))
    && (polled == [] || s.events == [])
    && (!s.finished ==> polled == [] && s.events == [])
    && (s.cancelled ==> s.events == [])
  }

  lemma PollDelivers(polled: seq<RecognitionEvent>, s: State)
    requires IsDelivered(polled, s)
    ensures IsDelivered(polled + s.events, Step(s, Poll).0)
  {
    assert polled + s.events + [] == polled + s.events;
  }

  lemma OtherStepDelivers(polled: seq<RecognitionEvent>, s: State, op: Op)
    requires IsDelivered(polled, s) && !op.Poll?
    ensures IsDelivered(polled, Step(s, op).0)
  {
    if op.Cancel? {
      assert polled + [] == polled;
    } else if op.Finish? && Writable(s).Ok? {
      assert [] + Step(s, op).0.events == Step(s, op).0.events;
    }
  }

  /**
   A run hands out nothing, or one transcript once: a result needs a finished request, and
   what a poll has taken or a cancel has cleared never comes back.
   */
  lemma {:induction false} ATranscriptIsDeliveredAtMostOnce(ops: seq<Op>)
    ensures IsDelivered(PolledEvents(ops), Run(ops))
  {
    if ops != [] {
      var n := |ops| - 1;
      var before, op := ops[..n], ops[n];
      ATranscriptIsDeliveredAtMostOnce(before);
      if op.Poll? {
        PollDelivers(PolledEvents(before), Run(before));
      } else {
        OtherStepDelivers(PolledEvents(before), Run(before), op);
        assert PolledEvents(before) + [] == PolledEvents(before);
      }
    }
  }

  // ---- Which calls are accepted, and what they answer ----

  /** No call before the n-th has cancelled or finished the session. */
  predicate IsOpen(ops: seq<Op>, n: nat)
    requires n <= |ops|
  {
    forall i :: 0 <= i < n ==> !ops[i].Cancel? && !ops[i].Finish?
  }

  /** The first call that brings audio. */
  ghost predicate BringsTheFirstAudio(ops: seq<Op>, a: nat) {
    a < |ops| && AudioOf(ops[a]) != [] && forall i :: 0 <= i < a ==> AudioOf(ops[i]) == []
  }

  /** The layout of the last buffer among the calls. */
  function LastLayout(ops: seq<Op>): PcmSpec {
    if ops == [] then DEFAULT_SPEC
    else if ops[|ops| - 1].PushPcm? then ops[|ops| - 1].pcm.spec
    else LastLayout(ops[..|ops| - 1])
  }

  /** Once there is audio, a buffer must have the layout that held when the first audio came. */
  ghost predicate Fits(ops: seq<Op>, n: nat)
    requires n < |ops|
  {
    ops[n].PushPcm? ==>
      forall a: nat :: a < n && BringsTheFirstAudio(ops, a) ==> ops[n].pcm.spec == LastLayout(ops[..a + 1])
  }

  predicate IsPush(op: Op) {
    op.PushPcm? || op.PushAudio?
  }

  ghost predicate IsSilent(ops: seq<Op>) {
    forall i :: 0 <= i < |ops| ==> AudioOf(ops[i]) == []
  }

  /** An open session knows whether there is audio, and which layout it has. */
  ghost predicate Knows(ops: seq<Op>, s: State) {
    && !s.cancelled && !s.finished
    && (s.samples == [] <==> IsSilent(ops))
    && (IsSilent(ops) ==> s.pcm == LastLayout(ops))
    && (forall a: nat :: BringsTheFirstAudio(ops, a) ==> s.pcm == LastLayout(ops[..a + 1]))
  }

  lemma FirstAudioOfOneMore(ops: seq<Op>, a: nat)
    requires ops != []
    ensures var n := |ops| - 1;
            BringsTheFirstAudio(ops, a) <==>
            if a == n then IsSilent(ops[..n]) && AudioOf(ops[n]) != [] else BringsTheFirstAudio(ops[..n], a)
  {
    var before := ops[..|ops| - 1];
    assert forall i :: 0 <= i < |before| ==> before[i] == ops[i];
  }

  lemma {:induction false} SomeoneBringsTheFirstAudio(ops: seq<Op>) returns (a: nat)
    requires !IsSilent(ops)
    ensures BringsTheFirstAudio(ops, a)
  {
    var before := ops[..|ops| - 1];
    if IsSilent(before) {
      a := |ops| - 1;
    } else {
      a := SomeoneBringsTheFirstAudio(before);
    }
    FirstAudioOfOneMore(ops, a);
  }

  /** A push to an open session is refused exactly when its layout does not fit. */
  lemma OpenPush(ops: seq<Op>, s: State)
    requires ops != [] && IsPush(ops[|ops| - 1]) && Knows(ops[..|ops| - 1], s)
    ensures Step(s, ops[|ops| - 1]).1.Ok? <==> Fits(ops, |ops| - 1)
  {
    var n := |ops| - 1;
    var before := ops[..n];
    if !IsSilent(before) {
      var a := SomeoneBringsTheFirstAudio(before);
      FirstAudioOfOneMore(ops, a);
      assert ops[..a + 1] == before[..a + 1];
    }
    forall a: nat | a < n && BringsTheFirstAudio(ops, a)
      ensures !IsSilent(before) && s.pcm == LastLayout(ops[..a + 1])
    {
      FirstAudioOfOneMore(ops, a);
      assert ops[..a + 1] == before[..a + 1] && AudioOf(before[a]) != [];
    }
  }

  lemma OpenStepKnows(ops: seq<Op>, s: State)
    requires ops != [] && IsOpen(ops, |ops|) && Knows(ops[..|ops| - 1], s)
    ensures Knows(ops, Step(s, ops[|ops| - 1]).0)
  {
    var n := |ops| - 1;
    var before, s' := ops[..n], Step(s, ops[n]).0;
    assert ops == before + [ops[n]];
    assert IsSilent(ops) <==> IsSilent(before) && AudioOf(ops[n]) == [];
    forall a: nat | BringsTheFirstAudio(ops, a)
      ensures s'.pcm == LastLayout(ops[..a + 1])
    {
      FirstAudioOfOneMore(ops, a);
      if a == n {
        assert ops[..n + 1] == ops;
      } else {
        assert ops[..a + 1] == before[..a + 1] && AudioOf(before[a]) != [];
      }
    }
  }

  lemma {:induction false} OpenRunKnows(ops: seq<Op>)
    requires IsOpen(ops, |ops|)
    ensures Knows(ops, Run(ops))
  {
    if ops != [] {
      OpenRunKnows(ops[..|ops| - 1]);
      OpenStepKnows(ops, Run(ops[..|ops| - 1]));
    }
  }

  ghost predicate HasCancel(ops: seq<Op>) {
    exists i :: 0 <= i < |ops| && ops[i].Cancel?
  }

  lemma {:induction false} OpenIffWritable(ops: seq<Op>)
    ensures Run(ops).cancelled <==> HasCancel(ops)
    ensures Writable(Run(ops)).Ok? <==> IsOpen(ops, |ops|)
  {
    if ops != [] {
      OpenIffWritable(ops[..|ops| - 1]);
      assert ops == ops[..|ops| - 1] + [ops[|ops| - 1]];
    }
  }

  lemma FitsInPrefix(ops: seq<Op>, m: nat, k: nat)
    requires k < m <= |ops|
    ensures Fits(ops[..m], k) <==> Fits(ops, k)
  {
    var prefix := ops[..m];
    forall a: nat | a < k
      ensures BringsTheFirstAudio(prefix, a) <==> BringsTheFirstAudio(ops, a)
      ensures prefix[..a + 1] == ops[..a + 1]
    {
      assert forall i :: 0 <= i <= a ==> prefix[i] == ops[i];
    }
  }

  /**
   A push is accepted if and only if nothing has cancelled or finished the session and, for a
   buffer, there is no audio yet or its layout is that of the audio; and which error it gets if not.
   */
  lemma PushIsAcceptedIffOpenAndFitting(ops: seq<Op>, n: nat)
    requires n < |ops| && IsPush(ops[n])
    ensures Answer(ops, n).Ok? <==> IsOpen(ops, n) && Fits(ops, n)
    ensures !IsOpen(ops, n) ==> Answer(ops, n) == Err(if HasCancel(ops[..n]) then Cancelled else AlreadyFinished)
    ensures IsOpen(ops, n) && !Fits(ops, n) ==> Answer(ops, n) == Err(Backend("remote ASR PCM spec changed"))
  {
    var upTo := ops[..n + 1];
    var before := ops[..n];
    assert upTo[..n] == before && IsOpen(before, n) == IsOpen(ops, n);
    OpenIffWritable(before);
    if IsOpen(ops, n) {
      OpenRunKnows(before);
      OpenPush(upTo, Run(before));
      FitsInPrefix(ops, n + 1, n);
    }
  }

  /** The audio of every push that comes while the session is open and fits. */
  ghost function FittingAudio(ops: seq<Op>): seq<i16> {
    if ops == [] then []
    else
      var n := |ops| - 1;
      FittingAudio(ops[..n]) + (if IsPush(ops[n]) && IsOpen(ops, n) && Fits(ops, n) then AudioOf(ops[n]) else [])
  }

  lemma {:induction false} AcceptedAudioFits(ops: seq<Op>)
    ensures AcceptedAudio(ops) == FittingAudio(ops)
  {
    if ops != [] {
      var n := |ops| - 1;
      AcceptedAudioFits(ops[..n]);
      if IsPush(ops[n]) {
        PushIsAcceptedIffOpenAndFitting(ops, n);
      }
    }
  }

  /** With the first audio the layout is settled. */
  lemma {:induction false} LayoutIsSettled(ops: seq<Op>, a: nat)
    requires FittingAudio(ops) != [] && BringsTheFirstAudio(ops, a)
    ensures Run(ops).pcm == LastLayout(ops[..a + 1])
  {
    if IsOpen(ops, |ops|) {
      OpenRunKnows(ops);
    } else {
      var before := ops[..|ops| - 1];
      ClosedStepAddsNothing(ops);
      ClosedStepKeepsLayout(ops);
      if IsSilent(before) {
        SilentSessionHasNoAudio(before);
      }
      FirstAudioOfOneMore(ops, a);
      LayoutIsSettled(before, a);
      assert before[..a + 1] == ops[..a + 1];
    }
  }

  lemma ClosedStepAddsNothing(ops: seq<Op>)
    requires ops != [] && !IsOpen(ops, |ops|)
    ensures FittingAudio(ops) == FittingAudio(ops[..|ops| - 1])
  {
    var n := |ops| - 1;
    assert IsPush(ops[n]) ==> !IsOpen(ops, n);
  }

  lemma {:induction false} SilentSessionHasNoAudio(ops: seq<Op>)
    requires IsSilent(ops)
    ensures FittingAudio(ops) == []
  {
    if ops != [] {
      SilentSessionHasNoAudio(ops[..|ops| - 1]);
    }
  }

  /** A push after the end changes nothing, and no other call changes the layout. */
  lemma ClosedStepKeepsLayout(ops: seq<Op>)
    requires ops != [] && !IsOpen(ops, |ops|)
    ensures Run(ops).pcm == Run(ops[..|ops| - 1]).pcm
  {
    var before, op := ops[..|ops| - 1], ops[|ops| - 1];
    if IsPush(op) {
      assert ops == before + [op];
      OpenIffWritable(before);
    }
    OnlyAcceptedPushesSetTheLayout(Run(before), op);
  }

  lemma OnlyAcceptedPushesSetTheLayout(s: State, op: Op)
    ensures !IsPush(op) || Writable(s).Err? ==> Step(s, op).0.pcm == s.pcm
  {
  }

  /** So the one request holds every push of an open session, but buffers of another layout than the audio. */
  lemma TheRequestHoldsEveryFittingPush(ops: seq<Op>, a: nat)
    requires Run(ops).requests != [] && BringsTheFirstAudio(ops, a)
    ensures WavCodec.Decode(Run(ops).requests[0]) == Ok(PcmBuffer(LastLayout(ops[..a + 1]), FittingAudio(ops)))
  {
    OneRequestWithAllTheAudio(ops);
    AcceptedAudioFits(ops);
    SessionHoldsTheAcceptedAudio(ops);
    RunKeepsTheRequest(ops);
    LayoutIsSettled(ops, a);
  }

  function AllAudio(ops: seq<Op>): seq<i16> {
    if ops == [] then [] else AllAudio(ops[..|ops| - 1]) + AudioOf(ops[|ops| - 1])
  }

  lemma {:induction false} EverythingFits(ops: seq<Op>)
    requires IsOpen(ops, |ops|) && forall n: nat :: n < |ops| ==> Fits(ops, n)
    ensures FittingAudio(ops) == AllAudio(ops)
  {
    if ops != [] {
      var n := |ops| - 1;
      var before := ops[..n];
      forall k: nat | k < n
        ensures Fits(before, k)
      {
        FitsInPrefix(ops, n, k);
      }
      EverythingFits(before);
    }
  }

  lemma FinishAddsNoAudio(ops: seq<Op>, reply: Reply)
    ensures FittingAudio(ops + [Finish(reply)]) == FittingAudio(ops)
  {
    assert (ops + [Finish(reply)])[..|ops|] == ops;
  }

  /** A session whose buffers share one layout sends everything that was pushed. */
  lemma AUniformSessionSendsEverything(ops: seq<Op>, reply: Reply, a: nat)
    requires IsOpen(ops, |ops|) && forall n: nat :: n < |ops| ==> Fits(ops, n)
    requires BringsTheFirstAudio(ops, a) && Run(ops + [Finish(reply)]).requests != []
    ensures WavCodec.Decode(Run(ops + [Finish(reply)]).requests[0]) ==
            Ok(PcmBuffer(LastLayout(ops[..a + 1]), AllAudio(ops)))
  {
    var all := ops + [Finish(reply)];
    assert all[..|all| - 1] == ops && all[..a + 1] == ops[..a + 1];
    FirstAudioOfOneMore(all, a);
    TheRequestHoldsEveryFittingPush(all, a);
    EverythingFits(ops);
    FinishAddsNoAudio(ops, reply);
  }

  // ---- What comes of a finish ----

  /** The reply is a JSON object whose text is not blank. */
  predicate HasTranscript(reply: Reply) {
    reply.Ok? && reply.value.Json? && reply.value.text.Some? && Trim(reply.value.text.value) != ""
  }

  predicate CanEncode(s: State) {
    WavCodec.Encode(s.pcm, s.samples).Ok?
  }

  /** A finish succeeds if and only if the session is open, its audio can be sent, and the reply has a text. */
  lemma FinishSucceedsIffTheReplyHasAText(ops: seq<Op>, n: nat)
    requires n < |ops| && ops[n].Finish?
    ensures Answer(ops, n).Ok? <==>
              IsOpen(ops, n) && FittingAudio(ops[..n]) != [] && CanEncode(Run(ops[..n])) && HasTranscript(ops[n].reply)
    ensures !IsOpen(ops, n) ==> Answer(ops, n) == Err(if HasCancel(ops[..n]) then Cancelled else AlreadyFinished)
    ensures IsOpen(ops, n) && FittingAudio(ops[..n]) != [] && CanEncode(Run(ops[..n])) && ops[n].reply.Err? ==>
              Answer(ops, n) == Err(ops[n].reply.error)
  {
    var before := ops[..n];
    assert IsOpen(before, n) == IsOpen(ops, n);
    OpenIffWritable(before);
    SessionHoldsTheAcceptedAudio(before);
    AcceptedAudioFits(before);
  }

  ghost predicate Succeeds(ops: seq<Op>, f: nat) {
    f < |ops| && ops[f].Finish? && Answer(ops, f).Ok? && HasTranscript(ops[f].reply)
  }

  /** The trimmed text of the reply, and the end. */
  function TranscriptOf(reply: Reply): seq<RecognitionEvent>
    requires HasTranscript(reply)
  {
    [FinalText(Trim(reply.value.text.value)), Completed]
  }

  predicate Disturbs(op: Op) {
    op.Poll? || op.Cancel?
  }

  /** The transcript of the finish at `f` has been neither polled nor cleared. */
  ghost predicate IsWaiting(ops: seq<Op>, f: nat) {
    Succeeds(ops, f) && forall k :: f < k < |ops| ==> !Disturbs(ops[k])
  }

  /** The call at `p` is the first to poll or cancel after `f`, and it polls. */
  ghost predicate FirstPolls(ops: seq<Op>, f: nat, p: nat) {
    f < p < |ops| && ops[p].Poll? && forall k :: f < k < p ==> !Disturbs(ops[k])
  }

  ghost predicate PollComes(ops: seq<Op>, f: nat) {
    exists p: nat :: FirstPolls(ops, f, p)
  }

  /** After the finish at `f` a poll came before any cancel. */
  ghost predicate IsPolled(ops: seq<Op>, f: nat) {
    Succeeds(ops, f) && PollComes(ops, f)
  }

  lemma {:induction false} SucceedsOnce(ops: seq<Op>, f: nat, g: nat)
    requires Succeeds(ops, f) && Succeeds(ops, g)
    ensures f == g
  {
    FinishSucceedsIffTheReplyHasAText(ops, f);
    FinishSucceedsIffTheReplyHasAText(ops, g);
  }

  /** What the session holds for the next poll. */
  ghost predicate HoldsReply(ops: seq<Op>, events: seq<RecognitionEvent>) {
    && (forall f: nat :: IsWaiting(ops, f) ==> events == TranscriptOf(ops[f].reply))
    && ((forall f: nat :: !IsWaiting(ops, f)) ==> events == [])
  }

  ghost predicate HandedOutReply(ops: seq<Op>, polled: seq<RecognitionEvent>) {
    && (forall f: nat :: IsPolled(ops, f) ==> polled == TranscriptOf(ops[f].reply))
    && ((forall f: nat :: !IsPolled(ops, f)) ==> polled == [])
  }

  lemma SucceedsOfOneMore(ops: seq<Op>, f: nat)
    requires ops != []
    ensures var n := |ops| - 1;
            Succeeds(ops, f) <==> if f == n then ops[n].Finish? && Answer(ops, n).Ok? else Succeeds(ops[..n], f)
  {
    var n := |ops| - 1;
    if f < n {
      assert ops[..n][..f] == ops[..f];
    } else if f == n && ops[n].Finish? {
      FinishSucceedsIffTheReplyHasAText(ops, n);
    }
  }

  lemma WaitingOfOneMore(ops: seq<Op>, f: nat)
    requires ops != []
    ensures var n := |ops| - 1;
            IsWaiting(ops, f) <==>
            if f == n then Succeeds(ops, n) else IsWaiting(ops[..n], f) && !Disturbs(ops[n])
  {
    SucceedsOfOneMore(ops, f);
  }

  lemma FirstPollsOfOneMore(ops: seq<Op>, f: nat, p: nat)
    requires ops != [] && f < |ops| - 1
    ensures var n := |ops| - 1;
            FirstPolls(ops, f, p) <==>
            if p == n then ops[n].Poll? && forall k :: f < k < n ==> !Disturbs(ops[..n][k])
            else FirstPolls(ops[..n], f, p)
  {
    var before := ops[..|ops| - 1];
    assert forall k :: 0 <= k < |before| ==> before[k] == ops[k];
  }

  lemma PollComesOfOneMore(ops: seq<Op>, f: nat)
    requires ops != [] && f < |ops| - 1
    ensures var n := |ops| - 1;
            PollComes(ops, f) <==>
            PollComes(ops[..n], f) || (ops[n].Poll? && forall k :: f < k < n ==> !Disturbs(ops[..n][k]))
  {
    var n := |ops| - 1;
    if PollComes(ops, f) {
      var p: nat :| FirstPolls(ops, f, p);
      FirstPollsOfOneMore(ops, f, p);
    }
    if PollComes(ops[..n], f) {
      var p: nat :| FirstPolls(ops[..n], f, p);
      FirstPollsOfOneMore(ops, f, p);
    }
    FirstPollsOfOneMore(ops, f, n);
  }

  lemma PolledOfOneMore(ops: seq<Op>, f: nat)
    requires ops != []
    ensures var n := |ops| - 1;
            IsPolled(ops, f) <==> IsPolled(ops[..n], f) || (ops[n].Poll? && IsWaiting(ops[..n], f))
  {
    SucceedsOfOneMore(ops, f);
    if f < |ops| - 1 {
      PollComesOfOneMore(ops, f);
    }
  }

  /** What a call does to the events that are held. */
  ghost predicate Turns(ops: seq<Op>, events: seq<RecognitionEvent>, events': seq<RecognitionEvent>)
    requires ops != []
  {
    var n := |ops| - 1;
    events' == (if Succeeds(ops, n) then TranscriptOf(ops[n].reply) else if Disturbs(ops[n]) then [] else events)
  }

  lemma StepTurns(s: State, op: Op)
    ensures op.Finish? && Step(s, op).1.Ok? ==>
              HasTranscript(op.reply) && Step(s, op).0.events == TranscriptOf(op.reply)
    ensures !(op.Finish? && Step(s, op).1.Ok?) ==>
              Step(s, op).0.events == (if Disturbs(op) then [] else s.events)
  {
  }

  lemma RunTurns(ops: seq<Op>)
    requires ops != []
    ensures Turns(ops, Run(ops[..|ops| - 1]).events, Run(ops).events)
  {
    var n := |ops| - 1;
    StepTurns(Run(ops[..n]), ops[n]);
  }

  lemma HoldsAfterOneMore(ops: seq<Op>, events: seq<RecognitionEvent>, events': seq<RecognitionEvent>)
    requires ops != [] && HoldsReply(ops[..|ops| - 1], events) && Turns(ops, events, events')
    ensures HoldsReply(ops, events')
  {
    var n := |ops| - 1;
    var before := ops[..n];
    forall f: nat
      ensures IsWaiting(ops, f) <==>
              if f == n then Succeeds(ops, n) else IsWaiting(before, f) && !Disturbs(ops[n])
      ensures IsWaiting(ops, f) && Succeeds(ops, n) ==> f == n
    {
      WaitingOfOneMore(ops, f);
      if IsWaiting(ops, f) && Succeeds(ops, n) {
        SucceedsOnce(ops, f, n);
      }
    }
    if Succeeds(ops, n) {
      assert IsWaiting(ops, n);
    }
  }

  lemma HandedOutAfterOneMore(ops: seq<Op>, events: seq<RecognitionEvent>, polled: seq<RecognitionEvent>)
    requires ops != [] && (polled != [] ==> events == [])
    requires HoldsReply(ops[..|ops| - 1], events) && HandedOutReply(ops[..|ops| - 1], polled)
    ensures HandedOutReply(ops, if ops[|ops| - 1].Poll? then polled + events else polled)
  {
    var n := |ops| - 1;
    var before := ops[..n];
    forall f: nat
      ensures IsPolled(ops, f) <==> IsPolled(before, f) || (ops[n].Poll? && IsWaiting(before, f))
      ensures IsPolled(before, f) || IsWaiting(before, f) ==> before[f] == ops[f]
    {
      PolledOfOneMore(ops, f);
    }
    forall f: nat | IsPolled(ops, f)
      ensures (if ops[n].Poll? then polled + events else polled) == TranscriptOf(ops[f].reply)
    {
      if IsPolled(before, f) {
        assert polled + [] == polled;
      } else {
        assert [] + events == events;
      }
    }
  }

  lemma PolledAfterOneMore(ops: seq<Op>)
    requires ops != []
    ensures var n := |ops| - 1;
            PolledEvents(ops) ==
            if ops[n].Poll? then PolledEvents(ops[..n]) + Run(ops[..n]).events else PolledEvents(ops[..n])
  {
  }

  /**
   Over every run: the session holds, and polls hand out, exactly the trimmed text of the one
   successful reply. It waits until the first poll or cancel after its finish; a poll that
   comes first gets it, and nothing else is ever handed out.
   */
  lemma {:induction false} PollsHandOutTheReply(ops: seq<Op>)
    ensures HoldsReply(ops, Run(ops).events) && HandedOutReply(ops, PolledEvents(ops))
  {
    if ops != [] {
      var before := ops[..|ops| - 1];
      PollsHandOutTheReply(before);
      ATranscriptIsDeliveredAtMostOnce(before);
      RunTurns(ops);
      HoldsAfterOneMore(ops, Run(before).events, Run(ops).events);
      HandedOutAfterOneMore(ops, Run(before).events, PolledEvents(before));
      PolledAfterOneMore(ops);
    }
  }
}

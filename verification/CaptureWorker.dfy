/**
 The PipeWire recording worker and its idle timer, one command at a time
 (crates/vinpst-audio/src/pipewire_backend.rs). Every call into PipeWire takes its
 outcome as a parameter, so that each of them may fail.
 */
module CaptureWorker {
  import opened Wrappers
  import opened Bytes
  import opened Pcm

  datatype CaptureTarget = DefaultTarget | Object(name: string)

  datatype StreamConfig = StreamConfig(target: CaptureTarget, format: string, pcmSpec: PcmSpec)

  function ForTarget(target: CaptureTarget): StreamConfig {
    StreamConfig(target, "S16LE", DEFAULT_SPEC)
  }

  datatype Stream = Stream(config: StreamConfig, samples: seq<i16>, accepting: bool)

  datatype WorkerState = WorkerState(stream: Option<Stream>, recording: bool, idleGeneration: nat)

  const INITIAL := WorkerState(None, false, 0)

  /** What `set_active(true)` returned, and the buffers that arrived before it did. */
  datatype Activation = Activation(ok: bool, arrived: seq<seq<i16>>)

  /** The outcomes of the PipeWire calls one Begin may make, in the order it makes them. */
  datatype BeginCalls = BeginCalls(create: bool, activate: Activation, recreate: bool, reactivate: Activation)

  datatype BeginReply = Busy | StartFailed | Started(reused: bool)

  /** The audio of a recording, the idle generation that follows it, and what it was recorded from. */
  datatype Capture = Capture(pcm: PcmBuffer, generation: nat, source: CaptureTarget)

  datatype FinishReply = NotRecording | DeactivateFailed | Unaligned | Finished(capture: Capture)

  // ---- Buffers ----

  /** The samples of a PipeWire buffer chunk; a range outside the mapped data has none. */
  function ChunkSamples(data: seq<byte>, offset: nat, size: nat): seq<i16> {
    if offset + size <= |data| then BytesToSamples(data[offset..offset + size]) else []
  }

  /** Samples written anywhere in the mapped data are the chunk at that place; a range that ends outside has none. */
  lemma ChunkIsWhatWasWritten(before: seq<byte>, samples: seq<i16>, after: seq<byte>, size: nat)
    ensures ChunkSamples(before + SamplesToBytes(samples) + after, |before|, 2 * |samples|) == samples
    ensures size > |after| ==> ChunkSamples(before + after, |before|, size) == []
  {
    var data := before + SamplesToBytes(samples) + after;
    BytesToSamplesOfSamplesToBytes(samples);
    assert data[|before|..|before| + 2 * |samples|] == SamplesToBytes(samples);
  }

  /** The process callback: an empty chunk, or one that comes while idle, is dropped. */
  function Hear(stream: Stream, chunk: seq<i16>): Stream {
    if chunk == [] || !stream.accepting then stream else stream.(samples := stream.samples + chunk)
  }

  function HearAll(stream: Stream, chunks: seq<seq<i16>>): Stream {
    if chunks == [] then stream else Hear(HearAll(stream, chunks[..|chunks| - 1]), chunks[|chunks| - 1])
  }

  lemma {:induction false} HearAllKeepsEverything(stream: Stream, chunks: seq<seq<i16>>)
    requires stream.accepting
    ensures HearAll(stream, chunks) == stream.(samples := stream.samples + Flatten(chunks))
  {
    if chunks != [] {
      HearAllKeepsEverything(stream, chunks[..|chunks| - 1]);
    } else {
      assert stream.samples + [] == stream.samples;
    }
  }

  /** And an idle one keeps nothing. */
  lemma {:induction false} AnIdleStreamKeepsNothing(stream: Stream, chunks: seq<seq<i16>>)
    requires !stream.accepting
    ensures HearAll(stream, chunks) == stream
  {
    if chunks != [] {
      AnIdleStreamKeepsNothing(stream, chunks[..|chunks| - 1]);
    }
  }

  // ---- Commands ----

  predicate CanReuse(stream: Option<Stream>, config: StreamConfig) {
    stream.Some? && stream.value.config == config
  }

  function Create(config: StreamConfig): Stream {
    Stream(config, [], false)
  }

  function Activate(stream: Stream, call: Activation): Stream {
    var heard := HearAll(stream.(samples := [], accepting := true), call.arrived);
    if call.ok then heard else heard.(accepting := false)
  }

  function BeginStep(s: WorkerState, config: StreamConfig, calls: BeginCalls): (WorkerState, BeginReply) {
    var generation := s.idleGeneration + 1;
    var reusable := CanReuse(s.stream, config);
    if s.recording then (s, Busy)
    else if !reusable && !calls.create then (s.(idleGeneration := generation), StartFailed)
    else
      var first := Activate(if reusable then s.stream.value else Create(config), calls.activate);
      if calls.activate.ok then (WorkerState(Some(first), true, generation), Started(reusable))
      else if !reusable then (WorkerState(None, false, generation), StartFailed)
      else if !calls.recreate then (WorkerState(Some(first), false, generation), StartFailed)
      else
        var second := Activate(Create(config), calls.reactivate);
        (WorkerState(Some(second), calls.reactivate.ok, generation),
         if calls.reactivate.ok then Started(false) else StartFailed)
  }

  function FinishStep(s: WorkerState, deactivated: bool): (WorkerState, FinishReply) {
    if !s.recording || s.stream.None? then (s, NotRecording)
    else if !deactivated then (WorkerState(None, false, s.idleGeneration), DeactivateFailed)
    else
      var generation := s.idleGeneration + 1;
      var stream := s.stream.value;
      var pcm := WithSpec(stream.config.pcmSpec, stream.samples);
      (WorkerState(Some(stream.(samples := [], accepting := false)), false, generation),
       if pcm.Ok? then Finished(Capture(pcm.value, generation, stream.config.target)) else Unaligned)
  }

  function ExpireStep(s: WorkerState, generation: nat): WorkerState {
    if !s.recording && s.idleGeneration == generation then s.(stream := None) else s
  }

  function ShutdownStep(s: WorkerState): WorkerState {
    WorkerState(None, false, s.idleGeneration + 1)
  }

  /** Recording needs a stream, a stream listens exactly while recording, and every stream is 16 kHz mono. */
  predicate Consistent(s: WorkerState) {
    && (s.recording ==> s.stream.Some?)
    && (s.stream.Some? ==> s.stream.value.accepting == s.recording && s.stream.value.config.pcmSpec == DEFAULT_SPEC)
  }

  lemma {:induction false} HearAllKeepsLayout(stream: Stream, chunks: seq<seq<i16>>)
    ensures HearAll(stream, chunks).accepting == stream.accepting
    ensures HearAll(stream, chunks).config == stream.config
  {
    if chunks != [] {
      HearAllKeepsLayout(stream, chunks[..|chunks| - 1]);
    }
  }

  /** What every worker command keeps, whatever PipeWire answers; a Finish in a consistent worker is never unaligned. */
  lemma CommandsKeepConsistent(
    s: WorkerState, config: StreamConfig, calls: BeginCalls, deactivated: bool, g: nat, chunk: seq<i16>)
    requires Consistent(s) && config.pcmSpec == DEFAULT_SPEC
    ensures Consistent(BeginStep(s, config, calls).0)
    ensures BeginStep(s, config, calls).1.Started? ==> BeginStep(s, config, calls).0.recording
    ensures !BeginStep(s, config, calls).1.Started? ==> BeginStep(s, config, calls).0.recording == s.recording
    ensures Consistent(FinishStep(s, deactivated).0) && !FinishStep(s, deactivated).0.recording
    ensures !FinishStep(s, deactivated).1.Unaligned?
    ensures Consistent(ExpireStep(s, g)) && Consistent(ShutdownStep(s))
    ensures s.stream.Some? ==> Consistent(s.(stream := Some(Hear(s.stream.value, chunk))))
  {
    var first := if CanReuse(s.stream, config) then s.stream.value else Create(config);
    HearAllKeepsLayout(first.(samples := [], accepting := true), calls.activate.arrived);
    HearAllKeepsLayout(Create(config).(samples := [], accepting := true), calls.reactivate.arrived);
  }

  /** A stream of this layout is connected. */
  predicate HasStreamOf(s: WorkerState, config: StreamConfig) {
    s.stream.Some? && s.stream.value.config == config
  }

  /** A Begin that is not busy starts exactly if a stream of the requested layout, old or new, gets activated. */
  predicate CanStart(s: WorkerState, config: StreamConfig, calls: BeginCalls) {
    if HasStreamOf(s, config) then calls.activate.ok || (calls.recreate && calls.reactivate.ok)
    else calls.create && calls.activate.ok
  }

  lemma BeginRecordsTheRequest(s: WorkerState, config: StreamConfig, calls: BeginCalls)
    ensures var (next, reply) := BeginStep(s, config, calls);
            && (reply == Busy <==> s.recording)
            && (reply.Started? <==> !s.recording && CanStart(s, config, calls))
            && (reply.Started? ==> next.recording && HasStreamOf(next, config))
            && (reply.Started? ==> (reply.reused <==> HasStreamOf(s, config) && calls.activate.ok))
            && (reply == Busy ==> next == s)
            && (reply != Busy ==> next.idleGeneration == s.idleGeneration + 1)
  {
    var first := if CanReuse(s.stream, config) then s.stream.value else Create(config);
    HearAllKeepsLayout(first.(samples := [], accepting := true), calls.activate.arrived);
    HearAllKeepsLayout(Create(config).(samples := [], accepting := true), calls.reactivate.arrived);
  }

  /** A Begin that fails leaves the old stream, silent, a new one of the requested layout, silent, or none. */
  lemma AFailedBeginLeaves(s: WorkerState, config: StreamConfig, calls: BeginCalls)
    requires Consistent(s) && BeginStep(s, config, calls).1.StartFailed?
    ensures var next := BeginStep(s, config, calls).0;
            && !next.recording
            && (!HasStreamOf(s, config) && !calls.create ==> next.stream == s.stream)
            && (!HasStreamOf(s, config) && calls.create ==> next.stream.None?)
            && (HasStreamOf(s, config) ==> HasStreamOf(next, config) && !next.stream.value.accepting)
  {
    var first := if CanReuse(s.stream, config) then s.stream.value else Create(config);
    HearAllKeepsLayout(first.(samples := [], accepting := true), calls.activate.arrived);
    HearAllKeepsLayout(Create(config).(samples := [], accepting := true), calls.reactivate.arrived);
  }

  /** A Finish hands out all the samples of the recording stream and what it was connected to, and empties it. */
  lemma FinishHandsOutTheSamples(s: WorkerState, deactivated: bool)
    requires Consistent(s)
    ensures var (next, reply) := FinishStep(s, deactivated);
            && (reply == NotRecording <==> !s.recording) && (!s.recording ==> next == s)
            && (s.recording ==> (reply == DeactivateFailed <==> !deactivated))
            && (s.recording && !deactivated ==> next == WorkerState(None, false, s.idleGeneration))
            && (s.recording && deactivated ==>
                  && reply == Finished(Capture(PcmBuffer(DEFAULT_SPEC, s.stream.value.samples),
                                               s.idleGeneration + 1, s.stream.value.config.target))
                  && next.idleGeneration == s.idleGeneration + 1 && !next.recording
                  && next.stream == Some(Stream(s.stream.value.config, [], false)))
  {
  }

  // ---- The worker as the source writes it ----

  class Worker {
    var stream: Option<Stream>
    var recording: bool
    var idleGeneration: nat

    function State(): WorkerState
      reads this
    {
      WorkerState(stream, recording, idleGeneration)
    }

    constructor ()
      ensures State() == INITIAL
    {
      stream, recording, idleGeneration := None, false, 0;
    }

    method CaptureStreamBuffer(data: seq<byte>, offset: nat, size: nat)
      requires stream.Some?
      modifies this`stream
      ensures stream == Some(Hear(old(stream.value), ChunkSamples(data, offset, size)))
    {
      if offset + size > |data| {
        return;
      }
      var chunk := BytesToSamples(data[offset..offset + size]);
      if chunk == [] {
        return;
      }
      if !stream.value.accepting {
        return;
      }
      stream := Some(stream.value.(samples := stream.value.samples + chunk));
    }

    method ActivateWorkerStream(call: Activation) returns (ok: bool)
      requires stream.Some?
      modifies this`stream
      ensures ok == call.ok && stream == Some(Activate(old(stream.value), call))
    {
      stream := Some(stream.value.(samples := []));
      stream := Some(stream.value.(accepting := true));
      stream := Some(HearAll(stream.value, call.arrived));
      if !call.ok {
        stream := Some(stream.value.(accepting := false));
        return false;
      }
      return true;
    }

    method BeginWorkerRecording(config: StreamConfig, calls: BeginCalls) returns (reply: BeginReply)
      modifies this
      ensures (State(), reply) == BeginStep(old(State()), config, calls)
    {
      if recording {
        return Busy;
      }
      idleGeneration := idleGeneration + 1;
      var reusable := CanReuse(stream, config);
      if !reusable {
        if !calls.create {
          return StartFailed;
        }
        stream := Some(Create(config));
      }
      var activated := ActivateWorkerStream(calls.activate);
      if activated {
        recording := true;
        return Started(reusable);
      } else if reusable {
        if !calls.recreate {
          return StartFailed;
        }
        stream := Some(Create(config));
        activated := ActivateWorkerStream(calls.reactivate);
        if !activated {
          return StartFailed;
        }
        recording := true;
        return Started(false);
      } else {
        stream := None;
        return StartFailed;
      }
    }

    method FinishWorkerRecording(deactivated: bool) returns (reply: FinishReply)
      modifies this
      ensures (State(), reply) == FinishStep(old(State()), deactivated)
    {
      if !recording {
        return NotRecording;
      }
      if stream.None? {
        return NotRecording;
      }
      stream := Some(stream.value.(accepting := false));
      if !deactivated {
        recording := false;
        stream := None;
        return DeactivateFailed;
      }
      recording := false;
      idleGeneration := idleGeneration + 1;
      var samples := stream.value.samples;
      stream := Some(stream.value.(samples := []));
      var pcm := WithSpec(stream.value.config.pcmSpec, samples);
      if pcm.Err? {
        return Unaligned;
      }
      return Finished(Capture(pcm.value, idleGeneration, stream.value.config.target));
    }

    method ExpireIdle(generation: nat)
      modifies this`stream
      ensures State() == ExpireStep(old(State()), generation)
    {
      if !recording && idleGeneration == generation {
        stream := None;
      }
    }

    method ShutdownWorkerState()
      modifies this
      ensures State() == ShutdownStep(old(State()))
    {
      if stream.Some? {
        stream := Some(stream.value.(accepting := false));
      }
      recording := false;
      idleGeneration := idleGeneration + 1;
      stream := None;
    }
  }

  // ---- The idle timer ----

  datatype TimerCommand = Schedule(generation: nat) | StopTimer

  /** What one wait of the timer thread ended with. */
  datatype TimerInput = Received(command: TimerCommand) | DeadlinePassed | Disconnected

  datatype Timer = Timer(pending: Option<nat>, running: bool)

  const WAITING := Timer(None, true)

  /** One turn of the timer's loop, and the generations it sends. */
  function TimerStep(t: Timer, input: TimerInput): (Timer, seq<nat>) {
    if !t.running then (t, [])
    else match input
      case Received(Schedule(g)) => (t.(pending := Some(g)), [])
      case Received(StopTimer) => (t.(running := false), [])
      case Disconnected => (t.(running := false), [])
      case DeadlinePassed => if t.pending.None? then (t, []) else (t.(pending := None), [t.pending.value])
  }

  function TimerAfter(inputs: seq<TimerInput>): Timer {
    if inputs == [] then WAITING
    else TimerStep(TimerAfter(inputs[..|inputs| - 1]), inputs[|inputs| - 1]).0
  }

  predicate IsSchedule(input: TimerInput) {
    input.Received? && input.command.Schedule?
  }

  predicate EndsTimer(input: TimerInput) {
    input == Disconnected || input == Received(StopTimer)
  }

  predicate Endless(inputs: seq<TimerInput>) {
    forall k :: 0 <= k < |inputs| ==> !EndsTimer(inputs[k])
  }

  /** The schedule at `i` is the last one, its deadline has not passed, and the timer has not ended. */
  ghost predicate Waits(inputs: seq<TimerInput>, i: nat) {
    && i < |inputs| && IsSchedule(inputs[i]) && Endless(inputs)
    && forall k :: i < k < |inputs| ==> !IsSchedule(inputs[k]) && inputs[k] != DeadlinePassed
  }

  /** The deadline that passes at `j` is that of the schedule at `i`. */
  ghost predicate Fires(inputs: seq<TimerInput>, i: nat, j: nat) {
    j < |inputs| && inputs[j] == DeadlinePassed && Waits(inputs[..j], i)
  }

  /** In order, the generations of the schedules whose deadline passes. */
  ghost function Sent(inputs: seq<TimerInput>): seq<nat> {
    if inputs == [] then []
    else
      var n := |inputs| - 1;
      if exists i: nat :: Fires(inputs, i, n) then
        var i: nat :| Fires(inputs, i, n);
        Sent(inputs[..n]) + [inputs[i].command.generation]
      else Sent(inputs[..n])
  }

  lemma WaitsOfOneMore(inputs: seq<TimerInput>, input: TimerInput, i: nat)
    ensures Endless(inputs + [input]) <==> Endless(inputs) && !EndsTimer(input)
    ensures Waits(inputs + [input], i) <==>
            if i == |inputs| then IsSchedule(input) && Endless(inputs)
            else Waits(inputs, i) && !IsSchedule(input) && input != DeadlinePassed && !EndsTimer(input)
  {
    var all := inputs + [input];
    assert forall k :: 0 <= k < |inputs| ==> all[k] == inputs[k];
    assert all[|inputs|] == input;
  }

  /** The loop's variable holds exactly the generation of the schedule that waits. */
  lemma {:induction false} TimerHoldsTheWaitingSchedule(inputs: seq<TimerInput>)
    ensures TimerAfter(inputs).running <==> Endless(inputs)
    ensures forall i: nat :: Waits(inputs, i) ==> TimerAfter(inputs).pending == Some(inputs[i].command.generation)
    ensures TimerAfter(inputs).running && TimerAfter(inputs).pending.Some? ==> exists i: nat :: Waits(inputs, i)
  {
    if inputs != [] {
      var n := |inputs| - 1;
      var before, input := inputs[..n], inputs[n];
      assert before + [input] == inputs;
      TimerHoldsTheWaitingSchedule(before);
      WaitsOfOneMore(before, input, n);
      forall i: nat
        ensures Waits(inputs, i) <==>
                if i == n then IsSchedule(input) && Endless(before)
                else Waits(before, i) && !IsSchedule(input) && input != DeadlinePassed && !EndsTimer(input)
      {
        WaitsOfOneMore(before, input, i);
      }
      if IsSchedule(input) && Endless(before) {
        assert Waits(inputs, n);
      } else if i: nat :| Waits(before, i) {
        assert input == DeadlinePassed || EndsTimer(input) || Waits(inputs, i);
      }
    }
  }

  /** So a turn of the loop sends what the waits so far prescribe. */
  lemma TurnSendsWhatIsDue(inputs: seq<TimerInput>, input: TimerInput)
    ensures Sent(inputs + [input]) == Sent(inputs) + TimerStep(TimerAfter(inputs), input).1
  {
    var all := inputs + [input];
    var n := |inputs|;
    TimerHoldsTheWaitingSchedule(inputs);
    assert all[..n] == inputs && all[n] == input;
    assert forall i: nat :: Fires(all, i, n) <==> input == DeadlinePassed && Waits(inputs, i);
    assert forall i: nat :: Waits(inputs, i) ==> all[i] == inputs[i];
    if input == DeadlinePassed && TimerAfter(inputs).running && TimerAfter(inputs).pending.Some? {
      var i: nat :| Waits(inputs, i);
      assert Fires(all, i, n);
    }
  }

  lemma {:induction false} NothingIsSentAfterTheEnd(inputs: seq<TimerInput>, n: nat)
    requires n <= |inputs| && !Endless(inputs[..n])
    ensures Sent(inputs) == Sent(inputs[..n])
    decreases |inputs|
  {
    var m := |inputs| - 1;
    if n <= m {
      assert inputs[..m][..n] == inputs[..n];
      NothingIsSentAfterTheEnd(inputs[..m], n);
      TimerHoldsTheWaitingSchedule(inputs[..m]);
      assert exists k :: 0 <= k < n && EndsTimer(inputs[..n][k]) && EndsTimer(inputs[..m][k]);
      TurnSendsWhatIsDue(inputs[..m], inputs[m]);
      assert inputs[..m] + [inputs[m]] == inputs;
    } else {
      assert inputs[..n] == inputs;
    }
  }

  /**
   For any run of waits: sends the generation of each schedule whose deadline passes before
   another schedule replaces it and before the timer is stopped or disconnected, once, in order.
   */
  method RunIdleDestroyTimer(inputs: seq<TimerInput>) returns (sent: seq<nat>)
    ensures sent == Sent(inputs)
  {
    sent := [];
    var pending: Option<nat> := None;
    for n := 0 to |inputs|
      invariant TimerAfter(inputs[..n]) == Timer(pending, true) && sent == Sent(inputs[..n])
    {
      assert inputs[..n + 1] == inputs[..n] + [inputs[n]];
      TurnSendsWhatIsDue(inputs[..n], inputs[n]);
      if EndsTimer(inputs[n]) {
        assert EndsTimer(inputs[..n + 1][n]);
        NothingIsSentAfterTheEnd(inputs, n + 1);
      }
      match inputs[n] {
        case Disconnected => return;
        case DeadlinePassed =>
          if pending.Some? {
            sent := sent + [pending.value];
            pending := None;
          }
        case Received(StopTimer) => return;
        case Received(Schedule(generation)) => pending := Some(generation);
      }
    }
    assert inputs[..|inputs|] == inputs;
  }
}

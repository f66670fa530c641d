/**
 The recorder facade, its worker thread and its idle timer thread as one transition
 system with the command queues in flight. A facade call is split where it blocks:
 it sends a request, waits for the reply, and joins threads one at a time. Any thread
 that is enabled may move next, and each PipeWire call may succeed or fail.
 */
module CaptureSystem {
  import opened Wrappers
  import opened Bytes
  import opened Pcm
  import opened CaptureWorker

  datatype Command = Begin(config: StreamConfig) | Finish | ExpireIdle(generation: nat) | Shutdown

  datatype Reply = Began(ok: bool) | Ended(capture: Option<Capture>)

  /** `waits` is what each wait of the timer thread ended with. */
  datatype Threads = Threads(
    state: WorkerState, commands: seq<Command>, reply: Option<Reply>, running: bool,
    schedules: seq<TimerCommand>, timer: Timer, waits: seq<TimerInput>)

  const SPAWNED := Threads(INITIAL, [], None, true, [], WAITING, [])

  /** What the facade does once the worker has been joined. */
  datatype After = Return | Restart(config: StreamConfig) | Drop

  datatype Phase =
    | Ready | AwaitBegin | AwaitStop | AwaitCancel
    | JoinTimer(after: After) | JoinWorker(after: After) | Spawning(config: StreamConfig) | Dropped

  /** What happened to the streams, oldest first; `worker` numbers the worker threads. */
  datatype Event =
    | RecordingStarted(worker: nat, heard: seq<seq<i16>>)
    | StartAborted(worker: nat)
    | Heard(chunk: seq<i16>)
    | Issued(worker: nat, generation: nat, samples: seq<i16>)
    | FinishAborted(worker: nat)
    | Expired(worker: nat, generation: nat)
    | Stopped(worker: nat)

  datatype System = System(recording: bool, phase: Phase, threads: Option<Threads>, worker: nat, log: seq<Event>)

  const BOOT := System(false, Ready, None, 0, [])

  datatype Action =
    | CallBegin(target: CaptureTarget, reuse: bool)
    | CallStop
    | CallCancel
    | CallDrop
    | Spawn(ok: bool)
    | WorkerTurn(calls: BeginCalls, deactivated: bool)
    | TakeReply(keep: bool, immediate: bool, sent: bool)
    | TimerReceive
    | TimerFire
    | TimerJoined
    | WorkerJoined
    | BufferArrives(data: seq<byte>, offset: nat, size: nat)  // its callback runs at once
    | LateAppend(chunk: seq<i16>)  // a callback that passed its check of `accepting` before appends now

  // ---- Steps ----

  function SendBegin(s: System, config: StreamConfig): System
    requires s.threads.Some?
  {
    var t := s.threads.value;
    s.(phase := AwaitBegin, threads := Some(t.(commands := t.commands + [Begin(config)])))
  }

  function StopThreads(s: System, after: After): System
    requires s.threads.Some?
  {
    var t := s.threads.value;
    s.(phase := JoinTimer(after), threads := Some(t.(schedules := t.schedules + [StopTimer])))
  }

  function BeginCall(s: System, target: CaptureTarget, reuse: bool): System {
    var config := ForTarget(target);
    if s.phase != Ready || s.recording then s
    else if s.threads.None? then s.(phase := Spawning(config))
    else if !reuse then StopThreads(s, Restart(config))
    else SendBegin(s, config)
  }

  function FinishCall(s: System, phase: Phase): System
    requires s.threads.Some?
  {
    var t := s.threads.value;
    s.(phase := phase, threads := Some(t.(commands := t.commands + [Finish])))
  }

  function SpawnDone(s: System, ok: bool): System {
    if !s.phase.Spawning? || s.threads.Some? then s
    else if !ok then s.(phase := Ready)
    else SendBegin(s.(threads := Some(SPAWNED), worker := s.worker + 1), s.phase.config)
  }

  /** The worker thread handles the command at the head of its queue. */
  function WorkerStep(s: System, calls: BeginCalls, deactivated: bool): System {
    if s.threads.None? || !s.threads.value.running || s.threads.value.commands == [] then s
    else
      var t := s.threads.value;
      var rest := t.(commands := t.commands[1..]);
      match t.commands[0]
      case Begin(config) =>
        var (next, reply) := BeginStep(t.state, config, calls);
        s.(threads := Some(rest.(state := next, reply := Some(Began(reply.Started?)))),
           log := s.log + (
             match reply
             case Busy => []
             case StartFailed => [StartAborted(s.worker)]
             case Started(_) =>
               [RecordingStarted(s.worker, (if calls.activate.ok then calls.activate else calls.reactivate).arrived)]))
      case Finish =>
        var (next, reply) := FinishStep(t.state, deactivated);
        s.(threads := Some(rest.(state := next,
                                 reply := Some(Ended(if reply.Finished? then Some(reply.capture) else None)))),
           log := s.log + (
             match reply
             case NotRecording => []
             case DeactivateFailed => [FinishAborted(s.worker)]
             case Unaligned => [FinishAborted(s.worker)]
             case Finished(capture) => [Issued(s.worker, capture.generation, capture.pcm.samples)]))
      case ExpireIdle(generation) =>
        var next := ExpireStep(t.state, generation);
        s.(threads := Some(rest.(state := next)),
           log := if next.stream != t.state.stream then s.log + [Expired(s.worker, generation)] else s.log)
      case Shutdown =>
        s.(threads := Some(rest.(state := ShutdownStep(ShutdownStep(t.state)), running := false)),
           log := s.log + [Stopped(s.worker)])
  }

  /** After a stop the facade keeps the worker and schedules the idle stream, or shuts both threads down. */
  function ReplyStep(s: System, keep: bool, immediate: bool, sent: bool): System {
    if s.threads.None? || s.threads.value.reply.None? then s
    else
      var t := s.threads.value;
      var taken := t.(reply := None);
      match t.reply.value
      case Began(ok) =>
        if s.phase == AwaitBegin then s.(recording := ok, phase := Ready, threads := Some(taken)) else s
      case Ended(capture) =>
        var idle := s.(recording := false, phase := Ready, threads := Some(taken));
        if s.phase == AwaitCancel then StopThreads(idle, Return)
        else if s.phase != AwaitStop then s
        else if capture.None? then idle
        else if !keep || !sent then StopThreads(idle, Return)
        else if immediate then
          idle.(threads := Some(taken.(commands := taken.commands + [ExpireIdle(capture.value.generation)])))
        else
          idle.(threads := Some(taken.(schedules := taken.schedules + [Schedule(capture.value.generation)])))
  }

  /** One wait of the timer thread ends with `input`; what it sends goes to the worker. */
  function TimerTurn(t: Threads, input: TimerInput): Threads {
    var (timer, sent) := TimerStep(t.timer, input);
    t.(timer := timer, waits := t.waits + [input],
       commands := if sent == [] then t.commands else t.commands + [ExpireIdle(sent[0])])
  }

  function ReceiveStep(s: System): System {
    if s.threads.None? || !s.threads.value.timer.running || s.threads.value.schedules == [] then s
    else
      var t := s.threads.value;
      s.(threads := Some(TimerTurn(t.(schedules := t.schedules[1..]), Received(t.schedules[0]))))
  }

  function FireStep(s: System): System {
    if s.threads.None? || !s.threads.value.timer.running || s.threads.value.timer.pending.None? then s
    else s.(threads := Some(TimerTurn(s.threads.value, DeadlinePassed)))
  }

  function JoinTimerStep(s: System): System {
    if !s.phase.JoinTimer? || s.threads.None? || s.threads.value.timer.running then s
    else
      var t := s.threads.value;
      s.(phase := JoinWorker(s.phase.after), threads := Some(t.(commands := t.commands + [Shutdown])))
  }

  function JoinWorkerStep(s: System): System {
    if !s.phase.JoinWorker? || s.threads.None? || s.threads.value.running then s
    else
      s.(threads := None,
         phase := match s.phase.after
                  case Return => Ready
                  case Restart(config) => Spawning(config)
                  case Drop => Dropped)
  }

  function BufferStep(s: System, chunk: seq<i16>): System {
    if s.threads.None? || !s.threads.value.running || s.threads.value.state.stream.None? || chunk == [] then s
    else
      var t := s.threads.value;
      s.(threads := Some(t.(state := t.state.(stream := Some(Hear(t.state.stream.value, chunk))))),
         log := s.log + [Heard(chunk)])
  }

  function LateAppendStep(s: System, chunk: seq<i16>): System {
    if s.threads.None? || !s.threads.value.running || s.threads.value.state.stream.None? || chunk == [] then s
    else
      var t := s.threads.value;
      var stream := t.state.stream.value;
      s.(threads := Some(t.(state := t.state.(stream := Some(stream.(samples := stream.samples + chunk))))),
         log := s.log + [Heard(chunk)])
  }

  /** An action that is not enabled changes nothing. */
  function Step(s: System, a: Action): System {
    match a
    case CallBegin(target, reuse) => BeginCall(s, target, reuse)
    case CallStop => if s.phase == Ready && s.recording && s.threads.Some? then FinishCall(s, AwaitStop) else s
    case CallCancel =>
      if s.phase != Ready || s.threads.None? then s
      else if s.recording then FinishCall(s, AwaitCancel)
      else StopThreads(s, Return)
    case CallDrop =>
      if s.phase != Ready then s
      else if s.threads.None? then s.(phase := Dropped)
      else StopThreads(s, Drop)
    case Spawn(ok) => SpawnDone(s, ok)
    case WorkerTurn(calls, deactivated) => WorkerStep(s, calls, deactivated)
    case TakeReply(keep, immediate, sent) => ReplyStep(s, keep, immediate, sent)
    case TimerReceive => ReceiveStep(s)
    case TimerFire => FireStep(s)
    case TimerJoined => JoinTimerStep(s)
    case WorkerJoined => JoinWorkerStep(s)
    case BufferArrives(data, offset, size) => BufferStep(s, ChunkSamples(data, offset, size))
    case LateAppend(chunk) => LateAppendStep(s, chunk)
  }

  function Run(actions: seq<Action>): System {
    if actions == [] then BOOT else Step(Run(actions[..|actions| - 1]), actions[|actions| - 1])
  }

  // ---- Reading the log ----

  /** The last event that is not a buffer. */
  function Mark(log: seq<Event>): Option<Event> {
    if log == [] then None
    else if log[|log| - 1].Heard? then Mark(log[..|log| - 1])
    else Some(log[|log| - 1])
  }

  /** The buffers that arrived since then. */
  function SinceMark(log: seq<Event>): seq<seq<i16>> {
    if log == [] || !log[|log| - 1].Heard? then []
    else SinceMark(log[..|log| - 1]) + [log[|log| - 1].chunk]
  }

  lemma MarkOfAppend(log: seq<Event>, e: Event)
    ensures Mark(log + [e]) == if e.Heard? then Mark(log) else Some(e)
    ensures SinceMark(log + [e]) == if e.Heard? then SinceMark(log) + [e.chunk] else []
  {
    assert (log + [e])[..|log|] == log;
  }

  ghost predicate MarkIsIssued(log: seq<Event>, worker: nat, generation: nat) {
    && Mark(log).Some? && Mark(log).value.Issued?
    && Mark(log).value.worker == worker && Mark(log).value.generation == generation
  }

  ghost predicate MarkIsStarted(log: seq<Event>, worker: nat) {
    Mark(log).Some? && Mark(log).value.RecordingStarted? && Mark(log).value.worker == worker
  }

  /** Everything heard since the recording that the log is in the middle of was started. */
  function Take(log: seq<Event>): seq<i16> {
    if Mark(log).Some? && Mark(log).value.RecordingStarted?
    then Flatten(Mark(log).value.heard + SinceMark(log)) else []
  }

  /** What the log may say at index `i`, given what stands before it. */
  ghost predicate Sound(log: seq<Event>, i: nat)
    requires i < |log|
  {
    && (log[i].Expired? ==> MarkIsIssued(log[..i], log[i].worker, log[i].generation))
    && (log[i].Issued? ==>
          && MarkIsStarted(log[..i], log[i].worker)
          && log[i].samples == Take(log[..i])
          && forall j :: 0 <= j < i && log[j].Issued? && log[j].worker == log[i].worker ==>
               log[j].generation < log[i].generation)
  }

  // ---- The invariant ----

  /** The commands that are not expiries. */
  function Requests(commands: seq<Command>): seq<Command> {
    if commands == [] then []
    else (if commands[0].ExpireIdle? then [] else [commands[0]]) + Requests(commands[1..])
  }

  lemma {:induction false} RequestsOfAppend(commands: seq<Command>, c: Command)
    ensures Requests(commands + [c]) == Requests(commands) + (if c.ExpireIdle? then [] else [c])
  {
    if commands != [] {
      assert (commands + [c])[1..] == commands[1..] + [c];
      RequestsOfAppend(commands[1..], c);
    }
  }

  /** An expiry in flight is from the past, or nothing but itself has happened since its Finish. */
  ghost predicate Timely(s: System, t: Threads, generation: nat) {
    && generation <= t.state.idleGeneration
    && (generation == t.state.idleGeneration ==> Untouched(s, generation))
  }

  ghost predicate Untouched(s: System, generation: nat) {
    MarkIsIssued(s.log, s.worker, generation) || Mark(s.log) == Some(Expired(s.worker, generation))
  }

  ghost predicate InFlightTimely(s: System, t: Threads) {
    && (forall c :: c in t.commands && c.ExpireIdle? ==> Timely(s, t, c.generation))
    && (forall c :: c in t.schedules && c.Schedule? ==> Timely(s, t, c.generation))
    && (t.timer.pending.Some? ==> Timely(s, t, t.timer.pending.value))
    && (t.reply.Some? && t.reply.value.Ended? && t.reply.value.capture.Some? ==>
          && t.reply.value.capture.value.generation == t.state.idleGeneration
          && Untouched(s, t.state.idleGeneration))
  }

  /** The generation the timer will expire next if it receives nothing more. */
  function TimerTarget(t: Threads): Option<nat> {
    if t.schedules == [] then t.timer.pending
    else match t.schedules[|t.schedules| - 1]
      case Schedule(generation) => Some(generation)
      case StopTimer => None
  }

  /** An expiry of the worker's current generation is in the command queue or due from the timer. */
  ghost predicate Underway(t: Threads) {
    || ExpireIdle(t.state.idleGeneration) in t.commands
    || (t.timer.running && TimerTarget(t) == Some(t.state.idleGeneration))
  }

  /** The worker's streams against the log. */
  ghost predicate Matches(s: System, t: Threads) {
    && Consistent(t.state)
    && (t.state.recording ==> MarkIsStarted(s.log, s.worker) && t.state.stream.value.samples == Take(s.log))
    && (!t.state.recording && t.state.stream.Some? ==>
          || MarkIsIssued(s.log, s.worker, t.state.idleGeneration)
          || Mark(s.log) == Some(StartAborted(s.worker)))
    && (forall e :: e in s.log && e.Issued? && e.worker == s.worker ==> e.generation <= t.state.idleGeneration)
    && (forall c :: c in t.commands && c.Begin? ==> c.config.pcmSpec == DEFAULT_SPEC)
  }

  /** Where the facade waits, against the worker's queue. */
  ghost predicate InStep(s: System, t: Threads) {
    var requests := Requests(t.commands);
    match s.phase
    case Ready =>
      && t.running && t.timer.running && requests == [] && t.reply.None? && s.recording == t.state.recording
    case AwaitBegin =>
      && t.running && t.timer.running && !s.recording
      && (match t.reply
          case None => |requests| == 1 && requests[0].Begin? && !t.state.recording
          case Some(reply) =>
            && requests == [] && reply == Began(t.state.recording)
            && !MarkIsIssued(s.log, s.worker, t.state.idleGeneration))
    case AwaitStop => WaitsForFinish(s, t)
    case AwaitCancel => WaitsForFinish(s, t)
    case JoinTimer(after) =>
      && t.running && requests == [] && t.reply.None? && (!after.Drop? ==> !s.recording)
    case JoinWorker(after) =>
      && !t.timer.running && t.reply.None? && (!after.Drop? ==> !s.recording)
      && requests == (if t.running then [Shutdown] else [])
    case Spawning(_) => false
    case Dropped => false
  }

  ghost predicate WaitsForFinish(s: System, t: Threads) {
    && t.running && t.timer.running && s.recording
    && (match t.reply
        case None => Requests(t.commands) == [Finish] && t.state.recording
        case Some(reply) =>
          && Requests(t.commands) == [] && reply.Ended? && !t.state.recording
          && (reply.capture.None? ==> t.state.stream.None?))
  }

  ghost predicate NoStopYet(s: System, t: Threads) {
    s.phase.Ready? || s.phase.AwaitBegin? || s.phase.AwaitStop? || s.phase.AwaitCancel? ==> StopTimer !in t.schedules
  }

  /** An idle stream whose Finish is the last event has its expiry underway. */
  ghost predicate IdleIsScheduled(s: System, t: Threads) {
    && (s.phase.Ready? || (s.phase.AwaitBegin? && t.reply.None?))
    && !t.state.recording && t.state.stream.Some?
    && MarkIsIssued(s.log, s.worker, t.state.idleGeneration)
    ==> Underway(t)
  }

  ghost predicate Inv(s: System) {
    && (forall i: nat :: i < |s.log| ==> Sound(s.log, i))
    && (forall e :: e in s.log && e.Issued? ==> e.worker <= s.worker)
    && (match s.phase
        case Ready => true
        case Spawning(config) => s.threads.None? && config.pcmSpec == DEFAULT_SPEC
        case Dropped => s.threads.None?
        case JoinTimer(after) => s.threads.Some? && (after.Restart? ==> after.config.pcmSpec == DEFAULT_SPEC)
        case JoinWorker(after) => s.threads.Some? && (after.Restart? ==> after.config.pcmSpec == DEFAULT_SPEC)
        case _ => s.threads.Some?)
    && (s.threads.None? && !s.phase.Dropped? ==> !s.recording)
    && (s.threads.Some? ==>
          var t := s.threads.value;
          && Matches(s, t) && InFlightTimely(s, t) && InStep(s, t) && NoStopYet(s, t) && IdleIsScheduled(s, t))
  }

  // ---- Every step keeps the invariant ----

  lemma SoundAppend(log: seq<Event>, e: Event)
    requires forall i: nat :: i < |log| ==> Sound(log, i)
    requires Sound(log + [e], |log|)
    ensures forall i: nat :: i < |log + [e]| ==> Sound(log + [e], i)
  {
    forall i: nat | i < |log + [e]|
      ensures Sound(log + [e], i)
    {
      if i < |log| {
        assert Sound(log, i);
        assert (log + [e])[..i] == log[..i];
      }
    }
  }

  lemma SendKeepsInv(s: System, config: StreamConfig)
    requires s.threads.Some? && Inv(s.(phase := Ready)) && !s.recording && config.pcmSpec == DEFAULT_SPEC
    ensures Inv(SendBegin(s, config))
  {
    RequestsOfAppend(s.threads.value.commands, Begin(config));
  }

  lemma FinishCallKeepsInv(s: System, phase: Phase)
    requires s.phase == Ready && s.threads.Some? && Inv(s) && s.recording
    requires phase == AwaitStop || phase == AwaitCancel
    ensures Inv(FinishCall(s, phase))
  {
    RequestsOfAppend(s.threads.value.commands, Finish);
  }

  lemma StopKeepsInv(s: System, after: After)
    requires s.phase == Ready && s.threads.Some? && Inv(s)
    requires after.Drop? || !s.recording
    requires after.Restart? ==> after.config.pcmSpec == DEFAULT_SPEC
    ensures Inv(StopThreads(s, after))
  {
  }

  lemma SpawnKeepsInv(s: System, ok: bool)
    requires Inv(s)
    ensures Inv(SpawnDone(s, ok))
  {
    if s.phase.Spawning? && ok {
      var started := s.(phase := Ready, threads := Some(SPAWNED), worker := s.worker + 1);
      assert Inv(started);
      SendKeepsInv(started.(phase := s.phase), s.phase.config);
    }
  }

  lemma WorkerStepKeepsInv(s: System, calls: BeginCalls, deactivated: bool)
    requires Inv(s)
    ensures Inv(WorkerStep(s, calls, deactivated))
  {
    if s.threads.Some? && s.threads.value.running && s.threads.value.commands != [] {
      match s.threads.value.commands[0]
      case Begin(_) => BeginKeepsInv(s, calls, deactivated);
      case Finish => if deactivated { FinishedKeepsInv(s, calls); } else { AbortedKeepsInv(s, calls); }
      case ExpireIdle(_) => ExpireKeepsInv(s, calls, deactivated);
      case Shutdown => ShutdownKeepsInv(s, calls, deactivated);
    }
  }

  lemma BeginKeepsInv(s: System, calls: BeginCalls, deactivated: bool)
    requires Inv(s) && s.threads.Some? && s.threads.value.running
    requires s.threads.value.commands != [] && s.threads.value.commands[0].Begin?
    ensures Inv(WorkerStep(s, calls, deactivated))
  {
    var t := s.threads.value;
    var config := t.commands[0].config;
    assert Requests(t.commands)[0] == t.commands[0];
    assert s.phase == AwaitBegin && t.reply.None?;
    var (next, reply) := BeginStep(t.state, config, calls);
    CommandsKeepConsistent(t.state, config, calls, deactivated, 0, []);
    var heard := if calls.activate.ok then calls.activate.arrived else calls.reactivate.arrived;
    var e := if reply.Started? then RecordingStarted(s.worker, heard) else StartAborted(s.worker);
    MarkOfAppend(s.log, e);
    SoundAppend(s.log, e);
    if reply.Started? {
      StartedHears(t.state, config, calls);
      assert heard + [] == heard;
    }
    var s' := WorkerStep(s, calls, deactivated);
    assert s'.log == s.log + [e];
    assert next.idleGeneration == t.state.idleGeneration + 1;
  }

  lemma StartedHears(s: WorkerState, config: StreamConfig, calls: BeginCalls)
    requires BeginStep(s, config, calls).1.Started?
    ensures BeginStep(s, config, calls).0.stream.Some?
    ensures BeginStep(s, config, calls).0.stream.value.samples
         == Flatten(if calls.activate.ok then calls.activate.arrived else calls.reactivate.arrived)
  {
    var reused := if CanReuse(s.stream, config) then s.stream.value else Create(config);
    HearAllKeepsEverything(reused.(samples := [], accepting := true), calls.activate.arrived);
    HearAllKeepsEverything(Create(config).(samples := [], accepting := true), calls.reactivate.arrived);
    assert [] + Flatten(calls.activate.arrived) == Flatten(calls.activate.arrived);
    assert [] + Flatten(calls.reactivate.arrived) == Flatten(calls.reactivate.arrived);
  }

  lemma FinishOutcome(s: WorkerState, deactivated: bool)
    requires Consistent(s) && s.recording
    ensures FinishStep(s, deactivated) ==
            if !deactivated then (WorkerState(None, false, s.idleGeneration), DeactivateFailed)
            else (WorkerState(Some(s.stream.value.(samples := [], accepting := false)), false, s.idleGeneration + 1),
                  Finished(Capture(PcmBuffer(DEFAULT_SPEC, s.stream.value.samples), s.idleGeneration + 1,
                             s.stream.value.config.target)))
  {
  }

  lemma IssueIsSound(s: System, t: Threads)
    requires Inv(s) && s.threads == Some(t) && t.state.recording
    ensures Sound(s.log + [Issued(s.worker, t.state.idleGeneration + 1, t.state.stream.value.samples)], |s.log|)
  {
    var log' := s.log + [Issued(s.worker, t.state.idleGeneration + 1, t.state.stream.value.samples)];
    assert log'[..|s.log|] == s.log;
    forall j | 0 <= j < |s.log| && log'[j].Issued? && log'[j].worker == s.worker
      ensures log'[j].generation < t.state.idleGeneration + 1
    {
      assert s.log[j] in s.log;
    }
  }

  /** The requests ahead of a Finish or Shutdown tell which phase the facade is in. */
  lemma FinishIsAwaited(s: System)
    requires Inv(s) && s.threads.Some? && s.threads.value.running
    requires s.threads.value.commands != [] && s.threads.value.commands[0].Finish?
    ensures (s.phase == AwaitStop || s.phase == AwaitCancel) && s.threads.value.reply.None?
    ensures s.threads.value.state.recording && Requests(s.threads.value.commands[1..]) == []
  {
    assert Requests(s.threads.value.commands)[0] == s.threads.value.commands[0];
  }

  lemma FinishedKeepsInv(s: System, calls: BeginCalls)
    requires Inv(s) && s.threads.Some? && s.threads.value.running
    requires s.threads.value.commands != [] && s.threads.value.commands[0].Finish?
    ensures Inv(WorkerStep(s, calls, true))
  {
    var t := s.threads.value;
    FinishIsAwaited(s);
    FinishOutcome(t.state, true);
    var e := Issued(s.worker, t.state.idleGeneration + 1, t.state.stream.value.samples);
    MarkOfAppend(s.log, e);
    IssueIsSound(s, t);
    SoundAppend(s.log, e);
    var s' := WorkerStep(s, calls, true);
    assert s'.log == s.log + [e];
    assert InFlightTimely(s', s'.threads.value);
  }

  lemma AbortedKeepsInv(s: System, calls: BeginCalls)
    requires Inv(s) && s.threads.Some? && s.threads.value.running
    requires s.threads.value.commands != [] && s.threads.value.commands[0].Finish?
    ensures Inv(WorkerStep(s, calls, false))
  {
    FinishIsAwaited(s);
    FinishOutcome(s.threads.value.state, false);
    MarkOfAppend(s.log, FinishAborted(s.worker));
    SoundAppend(s.log, FinishAborted(s.worker));
  }

  /** A stale expiry only leaves the queue. */
  lemma StaleExpiryKeepsInv(s: System, calls: BeginCalls, deactivated: bool)
    requires Inv(s) && s.threads.Some? && s.threads.value.running
    requires s.threads.value.commands != [] && s.threads.value.commands[0].ExpireIdle?
    requires var t := s.threads.value;
             ExpireStep(t.state, t.commands[0].generation) == t.state
    ensures Inv(WorkerStep(s, calls, deactivated))
  {
  }

  /** An expiry that drops the stream finds nothing but itself after the Finish that issued it. */
  lemma TimelyExpiryKeepsInFlight(s: System, t: Threads, g: nat)
    requires InFlightTimely(s, t) && Timely(s, t, g) && g == t.state.idleGeneration
    requires t.commands != [] && t.commands[0] == ExpireIdle(g)
    ensures var t' := t.(commands := t.commands[1..], state := t.state.(stream := None));
            InFlightTimely(s.(log := s.log + [Expired(s.worker, g)], threads := Some(t')), t')
  {
    MarkOfAppend(s.log, Expired(s.worker, g));
  }

  lemma DroppingExpiryKeepsInv(s: System, calls: BeginCalls, deactivated: bool)
    requires Inv(s) && s.threads.Some? && s.threads.value.running
    requires s.threads.value.commands != [] && s.threads.value.commands[0].ExpireIdle?
    requires var t := s.threads.value;
             ExpireStep(t.state, t.commands[0].generation) != t.state
    ensures Inv(WorkerStep(s, calls, deactivated))
  {
    var t := s.threads.value;
    var g := t.commands[0].generation;
    var e := Expired(s.worker, g);
    assert Timely(s, t, g);
    TimelyExpiryKeepsInFlight(s, t, g);
    MarkOfAppend(s.log, e);
    assert (s.log + [e])[..|s.log|] == s.log;
    SoundAppend(s.log, e);
  }

  lemma ExpireKeepsInv(s: System, calls: BeginCalls, deactivated: bool)
    requires Inv(s) && s.threads.Some? && s.threads.value.running
    requires s.threads.value.commands != [] && s.threads.value.commands[0].ExpireIdle?
    ensures Inv(WorkerStep(s, calls, deactivated))
  {
    var t := s.threads.value;
    var g := t.commands[0].generation;
    if ExpireStep(t.state, g) == t.state {
      StaleExpiryKeepsInv(s, calls, deactivated);
    } else {
      DroppingExpiryKeepsInv(s, calls, deactivated);
    }
  }

  lemma ShutdownKeepsInv(s: System, calls: BeginCalls, deactivated: bool)
    requires Inv(s) && s.threads.Some? && s.threads.value.running
    requires s.threads.value.commands != [] && s.threads.value.commands[0].Shutdown?
    ensures Inv(WorkerStep(s, calls, deactivated))
  {
    var t := s.threads.value;
    assert Requests(t.commands)[0] == t.commands[0];
    assert s.phase.JoinWorker?;
    var e := Stopped(s.worker);
    MarkOfAppend(s.log, e);
    SoundAppend(s.log, e);
  }

  /** The facade has taken the answer to its Finish; the expiry is still to be sent. */
  lemma EndedKeepsInv(s: System, keep: bool, immediate: bool, sent: bool)
    requires Inv(s) && s.threads.Some? && s.threads.value.reply.Some? && s.threads.value.reply.value.Ended?
    requires s.phase == AwaitStop || s.phase == AwaitCancel
    ensures Inv(ReplyStep(s, keep, immediate, sent))
  {
    var t := s.threads.value;
    var taken := t.(reply := None);
    var capture := t.reply.value.capture;
    var idle := s.(recording := false, phase := Ready, threads := Some(taken));
    if s.phase == AwaitCancel || (capture.Some? && (!keep || !sent)) {
      assert StopThreads(idle, Return).threads == Some(taken.(schedules := taken.schedules + [StopTimer]));
    } else if capture.Some? {
      RequestsOfAppend(taken.commands, ExpireIdle(capture.value.generation));
    }
  }

  lemma ReplyKeepsInv(s: System, keep: bool, immediate: bool, sent: bool)
    requires Inv(s)
    ensures Inv(ReplyStep(s, keep, immediate, sent))
  {
    if s.threads.Some? && s.threads.value.reply.Some? {
      if s.threads.value.reply.value.Ended? && (s.phase == AwaitStop || s.phase == AwaitCancel) {
        EndedKeepsInv(s, keep, immediate, sent);
      }
    }
  }

  /** The schedule received becomes the pending one: what the timer will expire next is the same. */
  lemma ReceiveKeepsTarget(s: System)
    requires Inv(s) && ReceiveStep(s) != s
    ensures IdleIsScheduled(ReceiveStep(s), ReceiveStep(s).threads.value)
  {
    var t := s.threads.value;
    assert |t.schedules| > 1 ==> t.schedules[1..][|t.schedules| - 2] == t.schedules[|t.schedules| - 1];
    assert |t.schedules| == 1 ==> t.schedules[1..] == [];
  }

  lemma ReceiveKeepsInFlight(s: System)
    requires Inv(s) && ReceiveStep(s) != s
    ensures InFlightTimely(ReceiveStep(s), ReceiveStep(s).threads.value)
  {
    assert s.threads.value.schedules[0] in s.threads.value.schedules;
  }

  lemma ReceiveKeepsInv(s: System)
    requires Inv(s)
    ensures Inv(ReceiveStep(s))
  {
    if ReceiveStep(s) != s {
      ReceiveKeepsTarget(s);
      ReceiveKeepsInFlight(s);
    }
  }

  /** The pending generation moves to the command queue: it stays in flight, and underway. */
  lemma FireKeepsInFlight(s: System)
    requires Inv(s) && FireStep(s) != s
    ensures var s' := FireStep(s);
            var t' := s'.threads.value;
            InFlightTimely(s', t') && IdleIsScheduled(s', t')
  {
  }

  lemma FireKeepsRequests(s: System)
    requires Inv(s) && FireStep(s) != s
    ensures InStep(FireStep(s), FireStep(s).threads.value)
  {
    RequestsOfAppend(s.threads.value.commands, ExpireIdle(s.threads.value.timer.pending.value));
  }

  lemma FireKeepsInv(s: System)
    requires Inv(s)
    ensures Inv(FireStep(s))
  {
    if FireStep(s) != s {
      FireKeepsInFlight(s);
      FireKeepsRequests(s);
    }
  }

  lemma JoinsKeepInv(s: System)
    requires Inv(s)
    ensures Inv(JoinTimerStep(s)) && Inv(JoinWorkerStep(s))
  {
    if s.threads.Some? {
      RequestsOfAppend(s.threads.value.commands, Shutdown);
    }
  }

  lemma TakeOfAppend(log: seq<Event>, chunk: seq<i16>)
    requires Mark(log).Some? && Mark(log).value.RecordingStarted?
    ensures Take(log + [Heard(chunk)]) == Take(log) + chunk
  {
    MarkOfAppend(log, Heard(chunk));
    var before := Mark(log).value.heard + SinceMark(log);
    assert Mark(log).value.heard + (SinceMark(log) + [chunk]) == before + [chunk];
    assert (before + [chunk])[..|before|] == before;
  }

  lemma BufferKeepsInv(s: System, chunk: seq<i16>)
    requires Inv(s)
    ensures Inv(BufferStep(s, chunk))
  {
    if s.threads.Some? && s.threads.value.running && s.threads.value.state.stream.Some? && chunk != [] {
      var t := s.threads.value;
      var e := Heard(chunk);
      MarkOfAppend(s.log, e);
      SoundAppend(s.log, e);
      if t.state.recording {
        TakeOfAppend(s.log, chunk);
      }
    }
  }

  lemma LateAppendKeepsInv(s: System, chunk: seq<i16>)
    requires Inv(s)
    ensures Inv(LateAppendStep(s, chunk))
  {
    if LateAppendStep(s, chunk) != s {
      var e := Heard(chunk);
      MarkOfAppend(s.log, e);
      SoundAppend(s.log, e);
      if s.threads.value.state.recording {
        TakeOfAppend(s.log, chunk);
      }
    }
  }

  lemma StepKeepsInv(s: System, a: Action)
    requires Inv(s)
    ensures Inv(Step(s, a))
  {
    match a
    case CallBegin(target, reuse) =>
      if s.phase == Ready && !s.recording && s.threads.Some? {
        if reuse { SendKeepsInv(s, ForTarget(target)); } else { StopKeepsInv(s, Restart(ForTarget(target))); }
      }
    case CallStop => if s.phase == Ready && s.recording && s.threads.Some? { FinishCallKeepsInv(s, AwaitStop); }
    case CallCancel =>
      if s.phase == Ready && s.threads.Some? {
        if s.recording { FinishCallKeepsInv(s, AwaitCancel); } else { StopKeepsInv(s, Return); }
      }
    case CallDrop => if s.phase == Ready && s.threads.Some? { StopKeepsInv(s, Drop); }
    case Spawn(ok) => SpawnKeepsInv(s, ok);
    case WorkerTurn(calls, deactivated) => WorkerStepKeepsInv(s, calls, deactivated);
    case TakeReply(keep, immediate, sent) => ReplyKeepsInv(s, keep, immediate, sent);
    case TimerReceive => ReceiveKeepsInv(s);
    case TimerFire => FireKeepsInv(s);
    case TimerJoined => JoinsKeepInv(s);
    case WorkerJoined => JoinsKeepInv(s);
    case BufferArrives(data, offset, size) => BufferKeepsInv(s, ChunkSamples(data, offset, size));
    case LateAppend(chunk) => LateAppendKeepsInv(s, chunk);
  }

  lemma {:induction false} RunKeepsInv(actions: seq<Action>)
    ensures Inv(Run(actions))
  {
    if actions != [] {
      RunKeepsInv(actions[..|actions| - 1]);
      StepKeepsInv(Run(actions[..|actions| - 1]), actions[|actions| - 1]);
    }
  }

  // ---- What holds in every run ----

  lemma {:induction false} MarkAt(log: seq<Event>) returns (j: nat)
    requires Mark(log).Some?
    ensures j < |log| && Mark(log) == Some(log[j]) && forall k :: j < k < |log| ==> log[k].Heard?
    ensures SinceMark(log) == ChunksIn(log, j + 1, |log|)
  {
    var n := |log| - 1;
    if log[n].Heard? {
      j := MarkAt(log[..n]);
      assert ChunksIn(log, j + 1, n + 1) == ChunksIn(log[..n], j + 1, n) + [log[n].chunk];
    } else {
      j := n;
    }
  }

  /** The buffers logged at `from..to`. */
  function ChunksIn(log: seq<Event>, from: nat, to: nat): seq<seq<i16>>
    requires from <= to <= |log| && forall k :: from <= k < to ==> log[k].Heard?
  {
    seq(to - from, k requires 0 <= k < to - from => log[from + k].chunk)
  }

  /** `log[j]` is the last thing that happened to a stream before `i`. */
  ghost predicate LastBefore(log: seq<Event>, j: nat, i: nat)
    requires j < i <= |log|
  {
    !log[j].Heard? && forall k :: j < k < i ==> log[k].Heard?
  }

  lemma ExpiredAfterItsFinish(log: seq<Event>, i: nat)
    requires i < |log| && log[i].Expired? && Sound(log, i)
    ensures exists j: nat ::
              && j < i && LastBefore(log, j, i) && log[j].Issued?
              && log[j].worker == log[i].worker && log[j].generation == log[i].generation
  {
    var j := MarkAt(log[..i]);
    assert LastBefore(log, j, i);
  }

  /**
   If an expiry drops a stream, then the Finish that issued its generation is the last thing
   that happened to any stream: no Begin has passed the busy check since, and nothing recorded.
   */
  lemma ExpiryDropsOnlyAnUntouchedStream(actions: seq<Action>, i: nat)
    requires i < |Run(actions).log| && Run(actions).log[i].Expired?
    ensures var log := Run(actions).log;
            exists j: nat ::
              && j < i && LastBefore(log, j, i) && log[j].Issued?
              && log[j].worker == log[i].worker && log[j].generation == log[i].generation
  {
    RunKeepsInv(actions);
    ExpiredAfterItsFinish(Run(actions).log, i);
  }

  /** The generations one worker hands to its timer strictly increase. */
  lemma GenerationsAreDistinct(actions: seq<Action>, i: nat, j: nat)
    requires i < j < |Run(actions).log| && Run(actions).log[i].Issued? && Run(actions).log[j].Issued?
    requires Run(actions).log[i].worker == Run(actions).log[j].worker
    ensures Run(actions).log[i].generation < Run(actions).log[j].generation
  {
    RunKeepsInv(actions);
    assert Sound(Run(actions).log, j);
  }

  ghost predicate CapturedSince(log: seq<Event>, j: nat, i: nat)
    requires j < i < |log| && log[i].Issued?
  {
    && LastBefore(log, j, i) && log[j].RecordingStarted? && log[j].worker == log[i].worker
    && log[i].samples == Flatten(log[j].heard + ChunksIn(log, j + 1, i))
  }

  lemma IssuedAfterItsStart(log: seq<Event>, i: nat)
    requires i < |log| && log[i].Issued? && Sound(log, i)
    ensures exists j: nat :: j < i && CapturedSince(log, j, i)
  {
    var before := log[..i];
    var j := MarkAt(before);
    assert ChunksIn(before, j + 1, i) == ChunksIn(log, j + 1, i);
    assert CapturedSince(log, j, i);
  }

  /**
   A finished capture is, in order, what was appended while the recording was being activated and
   every buffer appended since: none of them is lost, and nothing appended before is left over.
   */
  lemma CaptureIsWhatWasHeard(actions: seq<Action>, i: nat)
    requires i < |Run(actions).log| && Run(actions).log[i].Issued?
    ensures exists j: nat :: j < i && CapturedSince(Run(actions).log, j, i)
  {
    RunKeepsInv(actions);
    IssuedAfterItsStart(Run(actions).log, i);
  }

  /** Between any two steps the streams are consistent, and between calls the facade knows whether it records. */
  lemma FacadeAgreesWithWorker(actions: seq<Action>)
    ensures var s := Run(actions);
            && (s.threads.Some? ==> Consistent(s.threads.value.state))
            && (s.phase == Ready ==>
                  s.recording == (s.threads.Some? && s.threads.value.state.recording))
  {
    RunKeepsInv(actions);
  }

  /**
   Between calls, an idle stream has its destruction underway exactly when its Finish is the
   last event. The one other way to be idle is a Begin that failed since: it moved the
   generation on without scheduling anything, so the stream stays until the next call.
   */
  lemma IdleStreamIsScheduledUnlessAStartFailed(actions: seq<Action>)
    requires var s := Run(actions);
             && s.phase == Ready && s.threads.Some?
             && !s.threads.value.state.recording && s.threads.value.state.stream.Some?
    ensures var s := Run(actions);
            && (Underway(s.threads.value) <==> MarkIsIssued(s.log, s.worker, s.threads.value.state.idleGeneration))
            && (!Underway(s.threads.value) <==> Mark(s.log) == Some(StartAborted(s.worker)))
  {
    RunKeepsInv(actions);
    var s := Run(actions);
    var t := s.threads.value;
    if Underway(t) {
      if ExpireIdle(t.state.idleGeneration) !in t.commands {
        if t.schedules != [] {
          assert t.schedules[|t.schedules| - 1] in t.schedules;
        }
      }
      assert Timely(s, t, t.state.idleGeneration);
    }
  }

  ghost predicate Reachable(s: System) {
    exists actions :: Run(actions) == s
  }

  lemma StepReachable(s: System, a: Action)
    requires Reachable(s)
    ensures Reachable(Step(s, a))
  {
    var actions :| Run(actions) == s;
    assert (actions + [a])[..|actions|] == actions;
    assert Run(actions + [a]) == Step(s, a);
  }

  lemma Follow(s: System, a: Action, s': System)
    requires Reachable(s) && Step(s, a) == s'
    ensures Reachable(s')
  {
    StepReachable(s, a);
  }

  /** The first worker, with both threads alive and a default stream that listens while recording. */
  function Now(phase: Phase, facade: bool, state: WorkerState, commands: seq<Command>, reply: Option<Reply>,
               schedules: seq<TimerCommand>, pending: Option<nat>, waits: seq<TimerInput>, log: seq<Event>): System
  {
    System(facade, phase, Some(Threads(state, commands, reply, true, schedules, Timer(pending, true), waits)), 1, log)
  }

  function With(recording: bool, generation: nat): WorkerState {
    WorkerState(Some(Stream(ForTarget(DefaultTarget), [], recording)), recording, generation)
  }

  lemma ACallToBegin()
    ensures Reachable(Now(AwaitBegin, false, INITIAL, [Begin(ForTarget(DefaultTarget))], None, [], None, [], []))
  {
    var config := ForTarget(DefaultTarget);
    assert [] + [Begin(config)] == [Begin(config)];
    assert Run([]) == BOOT;
    Follow(BOOT, CallBegin(DefaultTarget, true), BOOT.(phase := Spawning(config)));
    Follow(BOOT.(phase := Spawning(config)), Spawn(true),
           Now(AwaitBegin, false, INITIAL, [Begin(config)], None, [], None, [], []));
  }

  lemma AStart()
    ensures Reachable(Now(Ready, true, With(true, 1), [], None, [], None, [], [RecordingStarted(1, [])]))
  {
    var config := ForTarget(DefaultTarget);
    var good := BeginCalls(true, Activation(true, []), true, Activation(true, []));
    var started := [RecordingStarted(1, [])];
    ACallToBegin();
    assert [Begin(config)][1..] == [];
    assert BeginStep(INITIAL, config, good) == (With(true, 1), Started(false));
    Follow(Now(AwaitBegin, false, INITIAL, [Begin(config)], None, [], None, [], []), WorkerTurn(good, true),
           Now(AwaitBegin, false, With(true, 1), [], Some(Began(true)), [], None, [], started));
    Follow(Now(AwaitBegin, false, With(true, 1), [], Some(Began(true)), [], None, [], started),
           TakeReply(true, false, true),
           Now(Ready, true, With(true, 1), [], None, [], None, [], started));
  }

  lemma ThenAStop(started: seq<Event>)
    requires Reachable(Now(Ready, true, With(true, 1), [], None, [], None, [], started))
    ensures Reachable(Now(Ready, false, With(false, 2), [], None, [Schedule(2)], None, [],
                          started + [Issued(1, 2, [])]))
  {
    var good := BeginCalls(true, Activation(true, []), true, Activation(true, []));
    var issued := started + [Issued(1, 2, [])];
    assert [Finish][1..] == [] && [] + [Finish] == [Finish] && [] + [Schedule(2)] == [Schedule(2)];
    Follow(Now(Ready, true, With(true, 1), [], None, [], None, [], started), CallStop,
           Now(AwaitStop, true, With(true, 1), [Finish], None, [], None, [], started));
    FinishOutcome(With(true, 1), true);
    var ended := Ended(Some(Capture(PcmBuffer(DEFAULT_SPEC, []), 2, DefaultTarget)));
    Follow(Now(AwaitStop, true, With(true, 1), [Finish], None, [], None, [], started), WorkerTurn(good, true),
           Now(AwaitStop, true, With(false, 2), [], Some(ended), [], None, [], issued));
    Follow(Now(AwaitStop, true, With(false, 2), [], Some(ended), [], None, [], issued), TakeReply(true, false, true),
           Now(Ready, false, With(false, 2), [], None, [Schedule(2)], None, [], issued));
  }

  /** The timer takes the schedule, and the next start is sent before its deadline. */
  lemma ThenABegin(log: seq<Event>)
    requires Reachable(Now(Ready, false, With(false, 2), [], None, [Schedule(2)], None, [], log))
    ensures Reachable(Now(AwaitBegin, false, With(false, 2), [Begin(ForTarget(DefaultTarget))], None, [], Some(2),
                          [Received(Schedule(2))], log))
  {
    var config := ForTarget(DefaultTarget);
    var waits := [Received(Schedule(2))];
    assert [Schedule(2)][1..] == [] && [] + [Begin(config)] == [Begin(config)] && [] + [Received(Schedule(2))] == waits;
    Follow(Now(Ready, false, With(false, 2), [], None, [Schedule(2)], None, [], log), TimerReceive,
           Now(Ready, false, With(false, 2), [], None, [], Some(2), waits, log));
    Follow(Now(Ready, false, With(false, 2), [], None, [], Some(2), waits, log), CallBegin(DefaultTarget, true),
           Now(AwaitBegin, false, With(false, 2), [Begin(config)], None, [], Some(2), waits, log));
  }

  lemma ThatFails(waits: seq<TimerInput>, log: seq<Event>)
    requires Reachable(Now(AwaitBegin, false, With(false, 2), [Begin(ForTarget(DefaultTarget))], None, [], Some(2),
                           waits, log))
    ensures Reachable(Now(Ready, false, With(false, 3), [], None, [], Some(2), waits, log + [StartAborted(1)]))
  {
    var config := ForTarget(DefaultTarget);
    var bad := BeginCalls(false, Activation(false, []), false, Activation(false, []));
    var log' := log + [StartAborted(1)];
    assert [Begin(config)][1..] == [];
    assert BeginStep(With(false, 2), config, bad) == (With(false, 3), StartFailed);
    Follow(Now(AwaitBegin, false, With(false, 2), [Begin(config)], None, [], Some(2), waits, log),
           WorkerTurn(bad, true),
           Now(AwaitBegin, false, With(false, 3), [], Some(Began(false)), [], Some(2), waits, log'));
    Follow(Now(AwaitBegin, false, With(false, 3), [], Some(Began(false)), [], Some(2), waits, log'),
           TakeReply(true, false, true),
           Now(Ready, false, With(false, 3), [], None, [], Some(2), waits, log'));
  }

  lemma ThenALateExpiry(waits: seq<TimerInput>, log: seq<Event>)
    requires Reachable(Now(Ready, false, With(false, 3), [], None, [], Some(2), waits, log))
    ensures Reachable(Now(Ready, false, With(false, 3), [], None, [], None, waits + [DeadlinePassed], log))
  {
    var bad := BeginCalls(false, Activation(false, []), false, Activation(false, []));
    var waits' := waits + [DeadlinePassed];
    assert [ExpireIdle(2)][1..] == [] && [] + [ExpireIdle(2)] == [ExpireIdle(2)];
    Follow(Now(Ready, false, With(false, 3), [], None, [], Some(2), waits, log), TimerFire,
           Now(Ready, false, With(false, 3), [ExpireIdle(2)], None, [], None, waits', log));
    Follow(Now(Ready, false, With(false, 3), [ExpireIdle(2)], None, [], None, waits', log), WorkerTurn(bad, true),
           Now(Ready, false, With(false, 3), [], None, [], None, waits', log));
  }

  /** The leak is real: after a failed Begin a stream can sit idle with nothing in flight to drop it. */
  lemma AFailedStartLeavesAnIdleStream()
    ensures exists actions, waits ::
              Run(actions) == Now(Ready, false, With(false, 3), [], None, [], None, waits, Run(actions).log)
  {
    AStart();
    ThenAStop([RecordingStarted(1, [])]);
    ThenABegin([RecordingStarted(1, [])] + [Issued(1, 2, [])]);
    ThatFails([Received(Schedule(2))], [RecordingStarted(1, [])] + [Issued(1, 2, [])]);
    var log := [RecordingStarted(1, [])] + [Issued(1, 2, [])] + [StartAborted(1)];
    var waits := [Received(Schedule(2))];
    ThenALateExpiry(waits, log);
    var actions :| Run(actions) == Now(Ready, false, With(false, 3), [], None, [], None, waits + [DeadlinePassed], log);
    assert Run(actions).log == log;
  }

  // ---- The timer in the system ----

  ghost predicate TimerFollowsItsWaits(s: System) {
    s.threads.Some? ==> s.threads.value.timer == TimerAfter(s.threads.value.waits)
  }

  ghost predicate SameTimer(s: System, s': System) {
    s'.threads.Some? ==>
      || (s'.threads.value.timer == WAITING && s'.threads.value.waits == [])
      || (s.threads.Some? && s'.threads.value.timer == s.threads.value.timer
          && s'.threads.value.waits == s.threads.value.waits)
  }

  lemma OnlyTimerStepsTouchTheTimer(s: System, a: Action)
    requires !a.TimerReceive? && !a.TimerFire?
    ensures SameTimer(s, Step(s, a))
  {
  }

  lemma TurnFollows(t: Threads, input: TimerInput)
    requires t.timer == TimerAfter(t.waits)
    ensures TimerTurn(t, input).timer == TimerAfter(TimerTurn(t, input).waits)
  {
    assert (t.waits + [input])[..|t.waits|] == t.waits;
  }

  lemma {:induction false} RunKeepsTimer(actions: seq<Action>)
    ensures TimerFollowsItsWaits(Run(actions))
  {
    if actions != [] {
      var s, a := Run(actions[..|actions| - 1]), actions[|actions| - 1];
      RunKeepsTimer(actions[..|actions| - 1]);
      if a.TimerReceive? {
        if ReceiveStep(s) != s {
          var t := s.threads.value;
          TurnFollows(t.(schedules := t.schedules[1..]), Received(t.schedules[0]));
        }
      } else if a.TimerFire? {
        if FireStep(s) != s { TurnFollows(s.threads.value, DeadlinePassed); }
      } else {
        OnlyTimerStepsTouchTheTimer(s, a);
      }
    }
  }

  /**
   In every run, an expiry that the timer thread sends is that of the last schedule it received,
   and none that was replaced or whose deadline had passed before is ever sent.
   */
  lemma EveryTimedExpiryIsDue(actions: seq<Action>)
    requires Step(Run(actions), TimerFire) != Run(actions)
    ensures var t := Run(actions).threads.value;
            var t' := FireStep(Run(actions)).threads.value;
            && t'.waits == t.waits + [DeadlinePassed]
            && exists i: nat ::
                 && Fires(t'.waits, i, |t.waits|)
                 && t'.commands == t.commands + [ExpireIdle(t'.waits[i].command.generation)]
  {
    RunKeepsTimer(actions);
    var t := Run(actions).threads.value;
    TimerHoldsTheWaitingSchedule(t.waits);
    var i: nat :| Waits(t.waits, i);
    var waits := t.waits + [DeadlinePassed];
    assert waits[..|t.waits|] == t.waits && waits[i] == t.waits[i];
    assert Fires(waits, i, |t.waits|);
  }

  // ---- What a recording is of ----

  /** An accepted call to begin: what it asked for, and how many workers there had been. */
  datatype Request = Request(target: CaptureTarget, reuse: bool, worker: nat)

  predicate AcceptsBegin(s: System) {
    s.phase == Ready && !s.recording
  }

  /** The last call to begin that was accepted. */
  function LastRequest(actions: seq<Action>): Option<Request> {
    if actions == [] then None
    else
      var before, a := Run(actions[..|actions| - 1]), actions[|actions| - 1];
      if a.CallBegin? && AcceptsBegin(before) then Some(Request(a.target, a.reuse, before.worker))
      else LastRequest(actions[..|actions| - 1])
  }

  /** The layout is that of the request, and the worker is a new one unless the old may be reused. */
  ghost predicate Asked(request: Option<Request>, config: StreamConfig, worker: nat) {
    && request.Some? && config == ForTarget(request.value.target)
    && (request.value.reuse || worker > request.value.worker)
  }

  ghost predicate FollowsRequest(s: System, request: Option<Request>) {
    && (request.Some? ==> request.value.worker <= s.worker)
    && (s.phase.Spawning? ==> Asked(request, s.phase.config, s.worker + 1))
    && (s.phase.JoinTimer? && s.phase.after.Restart? ==> Asked(request, s.phase.after.config, s.worker + 1))
    && (s.phase.JoinWorker? && s.phase.after.Restart? ==> Asked(request, s.phase.after.config, s.worker + 1))
    && (s.threads.Some? ==> ThreadsFollow(s.threads.value, request, s.worker))
  }

  ghost predicate ThreadsFollow(t: Threads, request: Option<Request>, worker: nat) {
    && (forall c :: c in t.commands && c.Begin? ==> Asked(request, c.config, worker))
    && (t.state.recording ==> t.state.stream.Some? && Asked(request, t.state.stream.value.config, worker))
    && (t.reply.Some? && t.reply.value.Ended? && t.reply.value.capture.Some? ==>
          Asked(request, ForTarget(t.reply.value.capture.value.source), worker))
  }

  lemma {:induction false} NoBeginIsQueued(commands: seq<Command>)
    requires Requests(commands) == []
    ensures forall c :: c in commands ==> !c.Begin?
  {
    if commands != [] {
      NoBeginIsQueued(commands[1..]);
      assert commands == [commands[0]] + commands[1..];
    }
  }

  lemma BeginCallFollows(s: System, target: CaptureTarget, reuse: bool, request: Option<Request>)
    requires Inv(s) && AcceptsBegin(s)
    ensures FollowsRequest(BeginCall(s, target, reuse), Some(Request(target, reuse, s.worker)))
  {
    if s.threads.Some? {
      NoBeginIsQueued(s.threads.value.commands);
    }
  }

  lemma WorkerStepFollows(s: System, calls: BeginCalls, deactivated: bool, request: Option<Request>)
    requires Inv(s) && FollowsRequest(s, request)
    ensures FollowsRequest(WorkerStep(s, calls, deactivated), request)
  {
    if s.threads.Some? && s.threads.value.running && s.threads.value.commands != [] {
      var t := s.threads.value;
      match t.commands[0]
      case Begin(config) => BeginRecordsTheRequest(t.state, config, calls);
      case Finish => FinishHandsOutTheSamples(t.state, deactivated);
      case ExpireIdle(_) =>
      case Shutdown =>
    }
  }

  /** A step that queues or takes no Begin, and leaves the worker, its stream and the target of the call alone. */
  lemma OtherCallFollows(s: System, a: Action, request: Option<Request>)
    requires Inv(s) && FollowsRequest(s, request) && (a.CallStop? || a.CallCancel? || a.CallDrop?)
    ensures FollowsRequest(Step(s, a), request)
  {
  }

  lemma TimerStepFollows(s: System, a: Action, request: Option<Request>)
    requires FollowsRequest(s, request) && (a.TimerReceive? || a.TimerFire? || a.TimerJoined?)
    ensures FollowsRequest(Step(s, a), request)
  {
  }

  lemma BufferFollows(s: System, a: Action, request: Option<Request>)
    requires FollowsRequest(s, request) && (a.BufferArrives? || a.LateAppend?)
    ensures FollowsRequest(Step(s, a), request)
  {
  }

  lemma SpawnFollows(s: System, ok: bool, request: Option<Request>)
    requires FollowsRequest(s, request)
    ensures FollowsRequest(SpawnDone(s, ok), request)
  {
  }

  lemma ReplyFollows(s: System, keep: bool, immediate: bool, sent: bool, request: Option<Request>)
    requires FollowsRequest(s, request)
    ensures FollowsRequest(ReplyStep(s, keep, immediate, sent), request)
  {
  }

  lemma StepFollows(s: System, a: Action, request: Option<Request>)
    requires Inv(s) && FollowsRequest(s, request)
    ensures FollowsRequest(Step(s, a), if a.CallBegin? && AcceptsBegin(s)
                                       then Some(Request(a.target, a.reuse, s.worker)) else request)
  {
    match a
    case CallBegin(target, reuse) => if AcceptsBegin(s) { BeginCallFollows(s, target, reuse, request); }
    case CallStop => OtherCallFollows(s, a, request);
    case CallCancel => OtherCallFollows(s, a, request);
    case CallDrop => OtherCallFollows(s, a, request);
    case Spawn(ok) => SpawnFollows(s, ok, request);
    case WorkerTurn(calls, deactivated) => WorkerStepFollows(s, calls, deactivated, request);
    case TakeReply(keep, immediate, sent) => ReplyFollows(s, keep, immediate, sent, request);
    case TimerReceive => TimerStepFollows(s, a, request);
    case TimerFire => TimerStepFollows(s, a, request);
    case TimerJoined => TimerStepFollows(s, a, request);
    case WorkerJoined =>
    case BufferArrives(_, _, _) => BufferFollows(s, a, request);
    case LateAppend(_) => BufferFollows(s, a, request);
  }

  lemma {:induction false} RunFollows(actions: seq<Action>)
    ensures FollowsRequest(Run(actions), LastRequest(actions))
  {
    if actions != [] {
      var before := actions[..|actions| - 1];
      RunFollows(before);
      RunKeepsInv(before);
      StepFollows(Run(before), actions[|actions| - 1], LastRequest(before));
    }
  }

  /**
   In every run, what is being recorded, and the capture a stop hands out, is from the target of
   the last call to begin that was accepted, on a new worker if that call forbade reuse.
   */
  lemma EveryCaptureIsFromItsTarget(actions: seq<Action>)
    requires Run(actions).threads.Some?
    ensures var s := Run(actions);
            var t := s.threads.value;
            && (t.state.recording ==>
                  t.state.stream.Some? && Asked(LastRequest(actions), t.state.stream.value.config, s.worker))
            && (t.reply.Some? && t.reply.value.Ended? && t.reply.value.capture.Some? ==>
                  && LastRequest(actions).Some?
                  && t.reply.value.capture.value.source == LastRequest(actions).value.target
                  && (LastRequest(actions).value.reuse || s.worker > LastRequest(actions).value.worker))
  {
    RunFollows(actions);
  }

  // ---- What a call leaves behind ----

  datatype Call = NoCall | Begins | Stops | Cancels | Drops

  /** The last call the facade accepted, if `last` was the last before this action. */
  function CallAfter(s: System, a: Action, last: Call): Call {
    if s.phase != Ready then last
    else if a.CallBegin? && !s.recording then Begins
    else if a.CallStop? && s.recording then Stops
    else if a.CallCancel? then Cancels
    else if a.CallDrop? then Drops
    else last
  }

  function LastCall(actions: seq<Action>): Call {
    if actions == [] then NoCall
    else CallAfter(Run(actions[..|actions| - 1]), actions[|actions| - 1], LastCall(actions[..|actions| - 1]))
  }

  /** How far the last call may have come. */
  ghost predicate IsOfCall(s: System, call: Call) {
    match s.phase
    case Ready =>
      && call != Drops && (call == Cancels || call == NoCall ==> s.threads.None?) && (s.recording ==> call == Begins)
    case AwaitBegin => call == Begins
    case Spawning(_) => call == Begins
    case AwaitStop => call == Stops
    case AwaitCancel => call == Cancels
    case JoinTimer(after) => after == AfterOf(after, call)
    case JoinWorker(after) => after == AfterOf(after, call)
    case Dropped => call == Drops && s.threads.None?
  }

  function AfterOf(after: After, call: Call): After {
    if call == Drops then Drop else if call == Begins && after.Restart? then after else Return
  }

  lemma FacadeStepIsOfCall(s: System, a: Action, call: Call)
    requires Inv(s) && IsOfCall(s, call) && (a.CallBegin? || a.CallStop? || a.CallCancel? || a.CallDrop? || a.Spawn?)
    ensures IsOfCall(Step(s, a), CallAfter(s, a, call))
  {
  }

  lemma OtherStepIsOfCall(s: System, a: Action, call: Call)
    requires Inv(s) && IsOfCall(s, call)
    requires !a.CallBegin? && !a.CallStop? && !a.CallCancel? && !a.CallDrop? && !a.Spawn?
    ensures IsOfCall(Step(s, a), call)
  {
  }

  lemma {:induction false} RunIsOfCall(actions: seq<Action>)
    ensures IsOfCall(Run(actions), LastCall(actions))
  {
    if actions != [] {
      var before, a := actions[..|actions| - 1], actions[|actions| - 1];
      RunIsOfCall(before);
      RunKeepsInv(before);
      if a.CallBegin? || a.CallStop? || a.CallCancel? || a.CallDrop? || a.Spawn? {
        FacadeStepIsOfCall(Run(before), a, LastCall(before));
      } else {
        OtherStepIsOfCall(Run(before), a, LastCall(before));
      }
    }
  }

  /** When a cancel or a drop has come to its end, both threads are gone, and nothing is being recorded. */
  lemma ACancelLeavesNothingRunning(actions: seq<Action>)
    requires var s := Run(actions);
             (s.phase == Ready && LastCall(actions) == Cancels) || s.phase == Dropped
    ensures Run(actions).threads.None? && (Run(actions).phase == Ready ==> !Run(actions).recording)
  {
    RunIsOfCall(actions);
    RunKeepsInv(actions);
  }

  /**
   A stop that got its capture goes on in one of three ways: it keeps the stream and sends its
   expiry to the worker at once, or to the timer; or it shuts both threads down.
   */
  lemma AStopKeepsTheStreamIfAsked(s: System, keep: bool, immediate: bool, sent: bool)
    requires Inv(s) && s.phase == AwaitStop && s.threads.value.reply.Some?
    requires s.threads.value.reply.value.capture.Some?
    ensures var g := s.threads.value.reply.value.capture.value.generation;
            var s', t := ReplyStep(s, keep, immediate, sent), s.threads.value;
            && s'.threads.Some? && !s'.recording && s'.threads.value.reply.None?
            && s'.threads.value.state == t.state
            && (keep && sent ==> s'.phase == Ready)
            && (keep && sent && immediate ==> s'.threads.value.commands == t.commands + [ExpireIdle(g)])
            && (keep && sent && !immediate ==> s'.threads.value.schedules == t.schedules + [Schedule(g)])
            && (!(keep && sent) ==> s'.phase == JoinTimer(Return))
  {
  }
}

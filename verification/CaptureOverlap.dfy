/**
 The whole recorder with an audio callback in flight
 (crates/vinpst-audio/src/pipewire_backend.rs). A callback is two steps: its check of
 `accepting` and its append to `samples`. Between them every other thread may move, and the
 worker may finish the recording, start another, fail to, or drop the stream. One thread runs
 the callbacks of a stream, so one is in flight at most.
 */
module CaptureOverlap {
  import opened Wrappers
  import opened Bytes
  import opened Pcm
  import opened CaptureWorker
  import CS = CaptureSystem

  type Buffer = b: seq<i16> | b != [] witness [0]

  /**
   What one activation of a stream has to do with callbacks in flight: whether the one that is in
   flight when the samples are cleared appends before `set_active` returns, and the buffer, if any,
   that has passed the check by then and is not appended yet.
   */
  datatype Overlap = Overlap(lands: bool, open: Option<Buffer>)

  /**
   What the samples of a finished recording are made of: the buffers that passed the check since
   it started, the one in flight when its samples were cleared, the one in flight at the end.
   */
  datatype Account = Account(accepted: seq<seq<i16>>, straggler: Option<Buffer>, missing: Option<Buffer>)

  /** `inFlight` is of the worker's stream; `takes` has an account for each place of the log with a capture. */
  datatype Whole = Whole(
    system: CS.System, inFlight: Option<Buffer>, accepted: seq<seq<i16>>, straggler: Option<Buffer>,
    takes: map<nat, Account>)

  const START := Whole(CS.BOOT, None, [], None, map[])

  datatype Action =
    | Check(data: seq<byte>, offset: nat, size: nat)
    | Append
    | Turn(calls: BeginCalls, first: Overlap, second: Overlap, deactivated: bool)
    | Other(action: CS.Action)

  // ---- One activation ----

  /** The callback in flight holds up the ones after it. */
  predicate HeldUp(straggler: Option<Buffer>, o: Overlap) {
    straggler.Some? && !o.lands
  }

  function Optional(buffer: Option<seq<i16>>): seq<seq<i16>> {
    if buffer.Some? then [buffer.value] else []
  }

  /** The activation with the buffers that are appended in it. */
  function Appended(straggler: Option<Buffer>, call: Activation, o: Overlap): Activation {
    call.(arrived := if HeldUp(straggler, o) then [] else Optional(straggler) + call.arrived)
  }

  function Accepted(straggler: Option<Buffer>, call: Activation, o: Overlap): seq<seq<i16>> {
    if HeldUp(straggler, o) then [] else call.arrived + Optional(o.open)
  }

  function Left(straggler: Option<Buffer>, o: Overlap): Option<Buffer> {
    if HeldUp(straggler, o) then straggler else o.open
  }

  lemma ActivationAccounts(straggler: Option<Buffer>, call: Activation, o: Overlap)
    ensures Appended(straggler, call, o).arrived + Optional(Left(straggler, o)) ==
            Optional(straggler) + Accepted(straggler, call, o)
  {
  }

  // ---- Steps ----

  function StreamOf(s: CS.System): Option<Stream> {
    if s.threads.Some? then s.threads.value.state.stream else None
  }

  predicate WorkerIsUp(s: CS.System) {
    s.threads.Some? && s.threads.value.running
  }

  predicate IsListening(s: CS.System) {
    WorkerIsUp(s) && StreamOf(s).Some? && StreamOf(s).value.accepting
  }

  function CheckStep(w: Whole, chunk: seq<i16>): Whole {
    if w.inFlight.Some? || chunk == [] || !IsListening(w.system) then w
    else w.(inFlight := Some(chunk), accepted := w.accepted + [chunk])
  }

  function AppendStep(w: Whole): Whole {
    if w.inFlight.None? then w
    else w.(system := CS.Step(w.system, CS.LateAppend(w.inFlight.value)), inFlight := None)
  }

  /** The worker handles a Begin while it is not recording. */
  function BeginTurn(w: Whole, config: StreamConfig, a: Action): Whole
    requires a.Turn?
  {
    var stream := StreamOf(w.system);
    var reusable := CanReuse(stream, config);
    // A callback of a stream that is replaced appends to samples nobody reads.
    var straggler := if reusable then w.inFlight else None;
    var calls := a.calls.(activate := Appended(straggler, a.calls.activate, a.first),
                          reactivate := Appended(None, a.calls.reactivate, a.second));
    var next := w.(system := CS.WorkerStep(w.system, calls, a.deactivated));
    if !reusable && !calls.create then next
    else if calls.activate.ok then
      next.(inFlight := Left(straggler, a.first), straggler := straggler,
            accepted := Accepted(straggler, a.calls.activate, a.first))
    else if !reusable then next.(inFlight := None)
    else if !calls.recreate then next.(inFlight := Left(straggler, a.first))
    else
      next.(inFlight := Left(None, a.second), straggler := None,
            accepted := Accepted(None, a.calls.reactivate, a.second))
  }

  /** Every other command leaves the system as `next`; a stream that is dropped takes its callback along. */
  function AfterCommand(w: Whole, next: CS.System): Whole {
    var n := |w.system.log|;
    w.(system := next,
       inFlight := if StreamOf(next).Some? then w.inFlight else None,
       takes := if n < |next.log| && next.log[n].Issued?
                then w.takes[n := Account(w.accepted, w.straggler, w.inFlight)] else w.takes)
  }

  function CommandTurn(w: Whole, a: Action): Whole
    requires a.Turn?
  {
    AfterCommand(w, CS.WorkerStep(w.system, a.calls, a.deactivated))
  }

  function TurnStep(w: Whole, a: Action): Whole
    requires a.Turn?
  {
    if !WorkerIsUp(w.system) || w.system.threads.value.commands == [] then w
    else
      var t := w.system.threads.value;
      if t.commands[0].Begin? && !t.state.recording then BeginTurn(w, t.commands[0].config, a) else CommandTurn(w, a)
  }

  /** The steps of the threads other than the worker and the callback. */
  predicate IsOfOthers(a: CS.Action) {
    !a.WorkerTurn? && !a.BufferArrives? && !a.LateAppend?
  }

  function Step(w: Whole, a: Action): Whole {
    match a
    case Check(data, offset, size) => CheckStep(w, ChunkSamples(data, offset, size))
    case Append => AppendStep(w)
    case Turn(_, _, _, _) => TurnStep(w, a)
    case Other(action) => if IsOfOthers(action) then w.(system := CS.Step(w.system, action)) else w
  }

  function Run(actions: seq<Action>): Whole {
    if actions == [] then START else Step(Run(actions[..|actions| - 1]), actions[|actions| - 1])
  }

  // ---- The system runs as before ----

  /** The step of the system alone, if it takes one. */
  lemma SystemSteps(w: Whole, a: Action) returns (taken: seq<CS.Action>)
    ensures |taken| <= 1
    ensures Step(w, a).system == if taken == [] then w.system else CS.Step(w.system, taken[0])
  {
    taken := [];
    match a
    case Check(_, _, _) =>
    case Append => if w.inFlight.Some? { taken := [CS.LateAppend(w.inFlight.value)]; }
    case Other(action) => if IsOfOthers(action) { taken := [action]; }
    case Turn(calls, first, _, deactivated) =>
      if WorkerIsUp(w.system) && w.system.threads.value.commands != [] {
        var t := w.system.threads.value;
        if t.commands[0].Begin? && !t.state.recording {
          var straggler := if CanReuse(t.state.stream, t.commands[0].config) then w.inFlight else None;
          taken := [CS.WorkerTurn(calls.(activate := Appended(straggler, calls.activate, first),
                                         reactivate := Appended(None, calls.reactivate, a.second)), deactivated)];
        } else {
          taken := [CS.WorkerTurn(calls, deactivated)];
        }
      }
  }

  /** So whatever holds in every run of the system holds with callbacks in flight. */
  lemma {:induction false} TheSystemRunsAsBefore(actions: seq<Action>)
    ensures exists alone :: CS.Run(alone) == Run(actions).system
  {
    if actions == [] {
      assert CS.Run([]) == CS.BOOT;
    } else {
      var w, a := Run(actions[..|actions| - 1]), actions[|actions| - 1];
      TheSystemRunsAsBefore(actions[..|actions| - 1]);
      var alone :| CS.Run(alone) == w.system;
      var taken := SystemSteps(w, a);
      if taken != [] {
        assert (alone + taken)[..|alone|] == alone;
        assert CS.Run(alone + taken) == Step(w, a).system;
      }
    }
  }

  // ---- The account ----

  /** The buffers appended since the recording that the log is in the middle of was started. */
  function SinceStart(log: seq<CS.Event>): seq<seq<i16>> {
    if CS.Mark(log).Some? && CS.Mark(log).value.RecordingStarted?
    then CS.Mark(log).value.heard + CS.SinceMark(log) else []
  }

  predicate Balanced(appended: seq<seq<i16>>, account: Account) {
    appended + Optional(account.missing) == Optional(account.straggler) + account.accepted
  }

  ghost predicate IsRecording(s: CS.System) {
    s.threads.Some? && s.threads.value.state.recording
  }

  /** The recording under way is accounted for. */
  ghost predicate InBalance(w: Whole) {
    && (w.inFlight.Some? ==> WorkerIsUp(w.system) && StreamOf(w.system).Some?)
    && (IsRecording(w.system) ==>
          Balanced(SinceStart(w.system.log), Account(w.accepted, w.straggler, w.inFlight)))
  }

  /** The captures so far are accounted for. */
  ghost predicate AllTaken(log: seq<CS.Event>, takes: map<nat, Account>) {
    forall i: nat :: i < |log| && log[i].Issued? ==> i in takes && Balanced(SinceStart(log[..i]), takes[i])
  }

  ghost predicate Inv(w: Whole) {
    CS.Inv(w.system) && InBalance(w) && AllTaken(w.system.log, w.takes)
  }

  lemma TakenBefore(log: seq<CS.Event>, e: CS.Event, takes: map<nat, Account>, takes': map<nat, Account>)
    requires AllTaken(log, takes)
    requires takes' == takes || (|log| in takes' && takes' == takes[|log| := takes'[|log|]])
    requires e.Issued? ==> |log| in takes' && Balanced(SinceStart(log), takes'[|log|])
    ensures AllTaken(log + [e], takes')
  {
    assert (log + [e])[..|log|] == log;
    forall i: nat | i < |log| && (log + [e])[i].Issued?
      ensures i in takes' && Balanced(SinceStart((log + [e])[..i]), takes'[i])
    {
      assert (log + [e])[..i] == log[..i];
    }
  }

  lemma CheckKeepsInv(w: Whole, chunk: seq<i16>)
    requires Inv(w)
    ensures Inv(CheckStep(w, chunk))
  {
    if CheckStep(w, chunk) != w && IsRecording(w.system) {
      var appended := SinceStart(w.system.log);
      assert appended + [] == appended;
      assert Optional(w.straggler) + (w.accepted + [chunk]) == Optional(w.straggler) + w.accepted + [chunk];
    }
  }

  lemma SinceStartOfHeard(log: seq<CS.Event>, chunk: seq<i16>)
    requires CS.Mark(log).Some? && CS.Mark(log).value.RecordingStarted?
    ensures SinceStart(log + [CS.Heard(chunk)]) == SinceStart(log) + [chunk]
  {
    CS.MarkOfAppend(log, CS.Heard(chunk));
    var heard, since := CS.Mark(log).value.heard, CS.SinceMark(log);
    assert heard + (since + [chunk]) == heard + since + [chunk];
  }

  lemma AppendKeepsInv(w: Whole)
    requires Inv(w)
    ensures Inv(AppendStep(w))
  {
    if w.inFlight.Some? {
      var chunk := w.inFlight.value;
      CS.LateAppendKeepsInv(w.system, chunk);
      TakenBefore(w.system.log, CS.Heard(chunk), w.takes, w.takes);
      if IsRecording(w.system) {
        SinceStartOfHeard(w.system.log, chunk);
        var appended := SinceStart(w.system.log);
        assert appended + [chunk] + [] == appended + [chunk];
      }
    }
  }

  /** What a Begin leaves, with the buffers appended in it as the first of the recording. */
  lemma BeginTurnLogs(s: CS.System, calls: BeginCalls, deactivated: bool) returns (e: CS.Event)
    requires WorkerIsUp(s) && s.threads.value.commands != [] && s.threads.value.commands[0].Begin?
    requires !s.threads.value.state.recording
    ensures var s' := CS.WorkerStep(s, calls, deactivated);
            var reusable := CanReuse(StreamOf(s), s.threads.value.commands[0].config);
            && s'.log == s.log + [e] && WorkerIsUp(s')
            && !e.Issued? && CS.Mark(s'.log) == Some(e) && CS.SinceMark(s'.log) == []
            && (if !reusable && !calls.create then !IsRecording(s') && StreamOf(s') == StreamOf(s)
                else if calls.activate.ok then
                  && e == CS.RecordingStarted(s.worker, calls.activate.arrived)
                  && IsRecording(s') && StreamOf(s').Some?
                else if !reusable then !IsRecording(s') && StreamOf(s').None?
                else if !calls.recreate then !IsRecording(s') && StreamOf(s').Some?
                else
                  && IsRecording(s') == calls.reactivate.ok && StreamOf(s').Some?
                  && (calls.reactivate.ok ==> e == CS.RecordingStarted(s.worker, calls.reactivate.arrived)))
  {
    var t := s.threads.value;
    var reply := BeginStep(t.state, t.commands[0].config, calls).1;
    var heard := if calls.activate.ok then calls.activate.arrived else calls.reactivate.arrived;
    e := if reply.Started? then CS.RecordingStarted(s.worker, heard) else CS.StartAborted(s.worker);
    CS.MarkOfAppend(s.log, e);
    HearAllKeepsLayout(Create(t.commands[0].config), []);
  }

  lemma BeginTurnKeepsInv(w: Whole, a: Action)
    requires Inv(w) && a.Turn? && WorkerIsUp(w.system)
    requires w.system.threads.value.commands != [] && w.system.threads.value.commands[0].Begin?
    requires !w.system.threads.value.state.recording
    ensures Inv(BeginTurn(w, w.system.threads.value.commands[0].config, a))
  {
    var s := w.system;
    var reusable := CanReuse(StreamOf(s), s.threads.value.commands[0].config);
    var straggler := if reusable then w.inFlight else None;
    var calls := a.calls.(activate := Appended(straggler, a.calls.activate, a.first),
                          reactivate := Appended(None, a.calls.reactivate, a.second));
    CS.WorkerStepKeepsInv(s, calls, a.deactivated);
    var e := BeginTurnLogs(s, calls, a.deactivated);
    TakenBefore(s.log, e, w.takes, w.takes);
    ActivationAccounts(straggler, a.calls.activate, a.first);
    ActivationAccounts(None, a.calls.reactivate, a.second);
    assert calls.activate.arrived + [] == calls.activate.arrived;
    assert calls.reactivate.arrived + [] == calls.reactivate.arrived;
  }

  /** What a command other than a starting Begin does to the streams and the log. */
  ghost predicate Logs(s: CS.System, s': CS.System) {
    && (s'.log == s.log || (|s'.log| == |s.log| + 1 && s'.log == s.log + [s'.log[|s.log|]]))
    && (IsRecording(s') ==> IsRecording(s) && s'.log == s.log && StreamOf(s').Some?)
    && (StreamOf(s').Some? ==> WorkerIsUp(s') && StreamOf(s).Some?)
    && (|s'.log| > |s.log| && s'.log[|s.log|].Issued? ==> IsRecording(s))
  }

  lemma CommandTurnLogs(s: CS.System, calls: BeginCalls, deactivated: bool)
    requires CS.Inv(s) && WorkerIsUp(s) && s.threads.value.commands != []
    requires s.threads.value.commands[0].Begin? ==> s.threads.value.state.recording
    ensures Logs(s, CS.WorkerStep(s, calls, deactivated))
  {
  }

  lemma AfterCommandKeepsInv(w: Whole, next: CS.System)
    requires Inv(w) && CS.Inv(next) && Logs(w.system, next)
    ensures Inv(AfterCommand(w, next))
  {
    var n := |w.system.log|;
    if next.log != w.system.log {
      TakenBefore(w.system.log, next.log[n], w.takes, AfterCommand(w, next).takes);
    }
  }

  lemma ACommand(s: CS.System, a: Action) returns (next: CS.System)
    requires CS.Inv(s) && a.Turn? && WorkerIsUp(s) && s.threads.value.commands != []
    requires s.threads.value.commands[0].Begin? ==> s.threads.value.state.recording
    ensures next == CS.WorkerStep(s, a.calls, a.deactivated) && CS.Inv(next) && Logs(s, next)
  {
    next := CS.WorkerStep(s, a.calls, a.deactivated);
    CS.WorkerStepKeepsInv(s, a.calls, a.deactivated);
    CommandTurnLogs(s, a.calls, a.deactivated);
  }

  lemma CommandTurnKeepsInv(w: Whole, a: Action)
    requires Inv(w) && a.Turn? && WorkerIsUp(w.system) && w.system.threads.value.commands != []
    requires w.system.threads.value.commands[0].Begin? ==> w.system.threads.value.state.recording
    ensures Inv(CommandTurn(w, a))
  {
    var next := ACommand(w.system, a);
    AfterCommandKeepsInv(w, next);
  }

  lemma OthersKeepInv(w: Whole, action: CS.Action)
    requires Inv(w) && IsOfOthers(action)
    ensures Inv(w.(system := CS.Step(w.system, action)))
  {
    CS.StepKeepsInv(w.system, action);
    OthersLeaveTheStream(w.system, action);
  }

  lemma OthersLeaveTheStream(s: CS.System, action: CS.Action)
    requires CS.Inv(s) && IsOfOthers(action)
    ensures var s' := CS.Step(s, action);
            && s'.log == s.log
            && (WorkerIsUp(s) && StreamOf(s).Some? ==> WorkerIsUp(s') && StreamOf(s') == StreamOf(s))
            && (IsRecording(s') ==> IsRecording(s))
  {
  }

  lemma StepKeepsInv(w: Whole, a: Action)
    requires Inv(w)
    ensures Inv(Step(w, a))
  {
    match a
    case Check(data, offset, size) => CheckKeepsInv(w, ChunkSamples(data, offset, size));
    case Append => AppendKeepsInv(w);
    case Other(action) => if IsOfOthers(action) { OthersKeepInv(w, action); }
    case Turn(_, _, _, _) =>
      if WorkerIsUp(w.system) && w.system.threads.value.commands != [] {
        var t := w.system.threads.value;
        if t.commands[0].Begin? && !t.state.recording { BeginTurnKeepsInv(w, a); } else { CommandTurnKeepsInv(w, a); }
      }
  }

  lemma {:induction false} RunKeepsInv(actions: seq<Action>)
    ensures Inv(Run(actions))
  {
    if actions != [] {
      RunKeepsInv(actions[..|actions| - 1]);
      StepKeepsInv(Run(actions[..|actions| - 1]), actions[|actions| - 1]);
    }
  }

  function Samples(buffer: Option<Buffer>): seq<i16> {
    if buffer.Some? then buffer.value else []
  }

  lemma FlattenOptional(buffer: Option<Buffer>)
    ensures Flatten(Optional(buffer)) == Samples(buffer)
  {
    if buffer.Some? {
      assert Flatten([]) + buffer.value == buffer.value;
    }
  }

  /**
   In every interleaving of all threads a capture and the buffer missing at its end are the
   straggler at its start and every buffer accepted since, in order. It is exact if neither was in
   flight, and wrong if one of them was.
   */
  lemma EveryCaptureIsAccountedFor(actions: seq<Action>, i: nat)
    requires i < |Run(actions).system.log| && Run(actions).system.log[i].Issued?
    ensures i in Run(actions).takes
    ensures var samples, account := Run(actions).system.log[i].samples, Run(actions).takes[i];
            && samples + Samples(account.missing) == Samples(account.straggler) + Flatten(account.accepted)
            && (account.missing.None? && account.straggler.None? ==> samples == Flatten(account.accepted))
            && (account.missing.None? != account.straggler.None? ==> samples != Flatten(account.accepted))
  {
    RunKeepsInv(actions);
    var w := Run(actions);
    var before := w.system.log[..i];
    var account := w.takes[i];
    assert CS.Sound(w.system.log, i);
    assert w.system.log[i].samples == Flatten(SinceStart(before));
    FlattenAppend(SinceStart(before), Optional(account.missing));
    FlattenAppend(Optional(account.straggler), account.accepted);
    FlattenOptional(account.missing);
    FlattenOptional(account.straggler);
    var samples := w.system.log[i].samples;
    assert |samples| + |Samples(account.missing)| == |Samples(account.straggler)| + |Flatten(account.accepted)|;
    if account.missing.None? && account.straggler.None? {
      assert samples + [] == samples;
      assert [] + Flatten(account.accepted) == Flatten(account.accepted);
    }
  }

  // ---- When no callback is in flight ----

  predicate StartsOrFinishes(s: CS.System) {
    && WorkerIsUp(s) && s.threads.value.commands != []
    && (s.threads.value.commands[0].Begin? || s.threads.value.commands[0].Finish?)
  }

  /** Whenever the worker starts or finishes a recording, no callback is running. */
  ghost predicate Quiesces(actions: seq<Action>) {
    forall n :: 0 <= n < |actions| && actions[n].Turn? && StartsOrFinishes(Run(actions[..n]).system) ==>
      Run(actions[..n]).inFlight.None?
  }

  ghost predicate Exact(account: Account) {
    account.missing.None? && account.straggler.None?
  }

  ghost predicate AllExact(w: Whole) {
    w.straggler.None? && forall i :: i in w.takes ==> Exact(w.takes[i])
  }

  lemma QuietTurn(w: Whole, a: Action)
    requires CS.Inv(w.system) && a.Turn? && AllExact(w)
    requires StartsOrFinishes(w.system) ==> w.inFlight.None?
    ensures AllExact(TurnStep(w, a))
  {
  }

  lemma {:induction false} QuiescentRun(actions: seq<Action>)
    requires Quiesces(actions)
    ensures AllExact(Run(actions))
  {
    if actions != [] {
      var before := actions[..|actions| - 1];
      assert forall n :: 0 <= n < |before| ==> before[n] == actions[n] && before[..n] == actions[..n];
      QuiescentRun(before);
      RunKeepsInv(before);
      if actions[|before|].Turn? {
        QuietTurn(Run(before), actions[|before|]);
      }
    }
  }

  /** Then every capture is exactly what was accepted since its recording started. */
  lemma QuiescentCapturesAreExact(actions: seq<Action>, i: nat)
    requires Quiesces(actions) && i < |Run(actions).system.log| && Run(actions).system.log[i].Issued?
    ensures i in Run(actions).takes && Run(actions).system.log[i].samples == Flatten(Run(actions).takes[i].accepted)
  {
    QuiescentRun(actions);
    EveryCaptureIsAccountedFor(actions, i);
  }
}

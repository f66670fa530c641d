/**
 Emission of live partial texts: start and stop handlers under one operation lock, and
 one emitter task per generation, interleaved at lock granularity
 (crates/vinpst-daemon/src/dbus_service.rs).
 */
module LivePartials {
  import opened Wrappers

  // ---- The state behind the mutex ----

  datatype Emission = Emission(generation: nat, lastEmitted: Option<string>) {
    /** A start that has emitted `last` opens the next generation. */
    function Begun(last: Option<string>): Emission {
      Emission(generation + 1, last)
    }

    /** A stop closes the generation and forgets what it emitted. */
    function Cancelled(): Emission {
      Emission(generation + 1, None)
    }

    predicate IsCurrent(g: nat) {
      generation == g
    }
  }

  class LivePartialEmissionState {
    var generation: nat
    var lastEmitted: Option<string>

    function View(): Emission
      reads this
    {
      Emission(generation, lastEmitted)
    }

    constructor ()
      ensures View() == Emission(0, None)
    {
      generation, lastEmitted := 0, None;
    }

    method Begin(last: Option<string>) returns (g: nat)
      modifies this
      ensures View() == old(View()).Begun(last) && View().IsCurrent(g)
    {
      generation := generation + 1;
      lastEmitted := last;
      return generation;
    }

    method Cancel() returns (taken: Option<string>)
      modifies this
      ensures View() == old(View()).Cancelled() && taken == old(lastEmitted)
    {
      generation := generation + 1;
      taken := lastEmitted;
      lastEmitted := None;
    }
  }

  // ---- The system ----

  /** Where an emitter task stands: between ticks, or at one of the three steps of its inner loop. */
  datatype Pc =
    | Ticking
    | Polling                                     // current at the tick; about to poll the runtime
    | Checking(partials: seq<string>)             // about to compare the head of `partials`
    | Emitting(text: string, rest: seq<string>)   // the comparison passed; the signal is not sent yet
    | Recording(text: string, rest: seq<string>)  // the signal is sent; about to write `last_emitted`
    | Finished

  /** A start or stop call between its steps; the operation lock allows one at a time. */
  datatype Operation =
    | NoOperation
    | Starting(partial: Option<string>, sent: bool)
    | Stopping(generation: nat, last: Option<string>)

  datatype Signal =
    | StartPartial(text: string)
    | Begun(generation: nat, start: Option<string>)
    | Cancelled(generation: nat)
    | Emitted(generation: nat, text: string)
    | Wrote(generation: nat, text: string)
    | StopPartial(generation: nat, text: string)

  datatype System = System(
    state: Emission, tasks: map<nat, Pc>, operation: Operation, log: seq<Signal>)

  const BOOT := System(Emission(0, None), map[], NoOperation, [])

  datatype Action =
    | StartAccepted(partial: Option<string>)
    | StartEmits(ok: bool)
    | StartBegins
    | StopCancels
    | StopEnds(partial: Option<string>)
    | OperationFails
    | Tick(task: nat)
    | Poll(task: nat, partials: Option<seq<string>>)
    | Check(task: nat)
    | Emit(task: nat, ok: bool)
    | WriteBack(task: nat)

  function At(s: System, task: nat, pc: Pc): System {
    s.(tasks := s.tasks[task := pc])
  }

  /** An action that is not enabled changes nothing. */
  function Step(s: System, a: Action): System {
    match a
    case StartAccepted(partial) =>
      if s.operation != NoOperation then s else s.(operation := Starting(partial, false))
    case StartEmits(ok) =>
      if !s.operation.Starting? || s.operation.sent || s.operation.partial.None? then s
      else if !ok then s.(operation := NoOperation)
      else s.(operation := s.operation.(sent := true), log := s.log + [StartPartial(s.operation.partial.value)])
    case StartBegins =>
      if !s.operation.Starting? || (s.operation.partial.Some? && !s.operation.sent) then s
      else
        var next := s.state.Begun(s.operation.partial);
        var g := next.generation;
        System(next, s.tasks[g := Ticking], NoOperation, s.log + [Begun(g, s.operation.partial)])
    case StopCancels =>
      if s.operation != NoOperation then s
      else s.(state := s.state.Cancelled(),
              operation := Stopping(s.state.generation, s.state.lastEmitted),
              log := s.log + [Cancelled(s.state.generation)])
    case StopEnds(partial) =>
      if !s.operation.Stopping? then s
      else if partial.None? || s.operation.last == partial then s.(operation := NoOperation)
      else s.(operation := NoOperation, log := s.log + [StopPartial(s.operation.generation, partial.value)])
    case OperationFails => s.(operation := NoOperation)
    case Tick(g) =>
      if g !in s.tasks || s.tasks[g] != Ticking then s
      else At(s, g, if s.state.IsCurrent(g) then Polling else Finished)
    case Poll(g, partials) =>
      if g !in s.tasks || s.tasks[g] != Polling then s
      else At(s, g, if partials.None? then Finished else Checking(partials.value))
    case Check(g) =>
      if g !in s.tasks || !s.tasks[g].Checking? then s
      else
        var partials := s.tasks[g].partials;
        if partials == [] then At(s, g, Ticking)
        else if s.state.IsCurrent(g) && s.state.lastEmitted != Some(partials[0]) then
          At(s, g, Emitting(partials[0], partials[1..]))
        else At(s, g, Checking(partials[1..]))
    case Emit(g, ok) =>
      if g !in s.tasks || !s.tasks[g].Emitting? then s
      else if !ok then At(s, g, Finished)
      else
        At(s, g, Recording(s.tasks[g].text, s.tasks[g].rest)).(log := s.log + [Emitted(g, s.tasks[g].text)])
    case WriteBack(g) =>
      if g !in s.tasks || !s.tasks[g].Recording? then s
      else
        var next := At(s, g, Checking(s.tasks[g].rest));
        if !s.state.IsCurrent(g) then next
        else next.(state := s.state.(lastEmitted := Some(s.tasks[g].text)), log := s.log + [Wrote(g, s.tasks[g].text)])
  }

  function Run(actions: seq<Action>): System {
    if actions == [] then BOOT else Step(Run(actions[..|actions| - 1]), actions[|actions| - 1])
  }

  // ---- Reading the log ----

  /** A later start or any cancel took over from generation `g`. */
  predicate EndsGeneration(e: Signal, g: nat) {
    (e.Cancelled? && e.generation == g) || (e.Begun? && e.generation > g)
  }

  /** How many texts the emitter of `g` sent after its generation had ended. */
  function LateEmissions(log: seq<Signal>, g: nat): nat {
    if log == [] then 0
    else
      var n := |log| - 1;
      LateEmissions(log[..n], g) + (if log[n].Emitted? && log[n].generation == g && Ended(log[..n], g) then 1 else 0)
  }

  predicate Ended(log: seq<Signal>, g: nat) {
    exists i :: 0 <= i < |log| && EndsGeneration(log[i], g)
  }

  /** What a listener last heard for `g`: the text of its emitter, or the one its start sent. */
  function LastHeard(log: seq<Signal>, g: nat): Option<string> {
    if log == [] then None
    else
      var e := log[|log| - 1];
      if e.Emitted? && e.generation == g then Some(e.text)
      else if e.Begun? && e.generation == g then e.start
      else LastHeard(log[..|log| - 1], g)
  }

  /** What the service remembers having emitted for `g`: the start's text, or the last one written back. */
  function LastWritten(log: seq<Signal>, g: nat): Option<string> {
    if log == [] then None
    else
      var e := log[|log| - 1];
      if e.Wrote? && e.generation == g then Some(e.text)
      else if e.Begun? && e.generation == g then e.start
      else LastWritten(log[..|log| - 1], g)
  }

  /** The emitter of `g` sent a text and has not written it back. */
  predicate Unwritten(log: seq<Signal>, g: nat) {
    if log == [] then false
    else
      var e := log[|log| - 1];
      if e.Emitted? && e.generation == g then true
      else if (e.Wrote? || e.Begun?) && e.generation == g then false
      else Unwritten(log[..|log| - 1], g)
  }

  ghost predicate Sound(log: seq<Signal>, i: nat)
    requires i < |log|
  {
    && (log[i].Emitted? ==> LastHeard(log[..i], log[i].generation) != Some(log[i].text))
    && (log[i].Wrote? ==> !Ended(log[..i], log[i].generation))
  }

  /** The service remembers what was last heard, except exactly while a text is still to be written back. */
  predicate HeardIsWritten(log: seq<Signal>, g: nat) {
    && (Unwritten(log, g) <==> LastHeard(log, g) != LastWritten(log, g))
    && (Unwritten(log, g) ==> LastHeard(log, g).Some?)
  }

  lemma Append(log: seq<Signal>, e: Signal, g: nat)
    ensures Ended(log + [e], g) <==> Ended(log, g) || EndsGeneration(e, g)
    ensures LateEmissions(log + [e], g) ==
            LateEmissions(log, g) + (if e.Emitted? && e.generation == g && Ended(log, g) then 1 else 0)
    ensures LastHeard(log + [e], g) ==
            if e.Emitted? && e.generation == g then Some(e.text)
            else if e.Begun? && e.generation == g then e.start else LastHeard(log, g)
    ensures LastWritten(log + [e], g) ==
            if e.Wrote? && e.generation == g then Some(e.text)
            else if e.Begun? && e.generation == g then e.start else LastWritten(log, g)
    ensures Unwritten(log + [e], g) ==
            if e.Emitted? && e.generation == g then true
            else if (e.Wrote? || e.Begun?) && e.generation == g then false else Unwritten(log, g)
  {
    var log' := log + [e];
    assert log'[..|log|] == log;
    if Ended(log, g) {
      var i :| 0 <= i < |log| && EndsGeneration(log[i], g);
      assert EndsGeneration(log'[i], g);
    }
    if EndsGeneration(e, g) { assert EndsGeneration(log'[|log|], g); }
  }

  lemma SoundAppend(log: seq<Signal>, e: Signal)
    requires forall i: nat :: i < |log| ==> Sound(log, i)
    requires e.Emitted? ==> LastHeard(log, e.generation) != Some(e.text)
    requires e.Wrote? ==> !Ended(log, e.generation)
    ensures forall i: nat :: i < |log + [e]| ==> Sound(log + [e], i)
  {
    forall i: nat | i < |log + [e]|
      ensures Sound(log + [e], i)
    {
      assert (log + [e])[..i] == log[..i];
      if i < |log| { assert Sound(log, i); } else { assert log[..i] == log; }
    }
  }

  // ---- The invariant ----

  ghost predicate TaskInv(s: System, g: nat)
    requires g in s.tasks
  {
    var pc := s.tasks[g];
    && 0 < g <= s.state.generation
    && (g < s.state.generation ==> Ended(s.log, g))
    && LateEmissions(s.log, g) <= 1
    && (pc.Emitting? ==> LateEmissions(s.log, g) == 0 && LastHeard(s.log, g) != Some(pc.text))
    && (pc.Recording? ==> LastHeard(s.log, g) == Some(pc.text))
    && (g == s.state.generation ==> !Ended(s.log, g) && LateEmissions(s.log, g) == 0)
    && (g == s.state.generation && !pc.Recording? ==> !Unwritten(s.log, g))
    && (pc.Emitting? ==> !Unwritten(s.log, g))
    && HeardIsWritten(s.log, g)
  }

  /** Nothing in the log belongs to a generation that has not begun. */
  ghost predicate NothingAbove(log: seq<Signal>, generation: nat) {
    forall e :: e in log && (e.Begun? || e.Emitted? || e.Wrote? || e.Cancelled?) ==> e.generation <= generation
  }

  lemma {:induction false} NeverBegun(log: seq<Signal>, g: nat)
    requires forall e :: e in log && (e.Begun? || e.Emitted? || e.Wrote?) ==> e.generation != g
    ensures LateEmissions(log, g) == 0 && LastHeard(log, g) == None
    ensures LastWritten(log, g) == None && !Unwritten(log, g)
  {
    if log != [] {
      assert log[|log| - 1] in log;
      NeverBegun(log[..|log| - 1], g);
    }
  }

  lemma FreshGeneration(log: seq<Signal>, g: nat)
    requires forall e :: e in log && (e.Begun? || e.Emitted? || e.Wrote? || e.Cancelled?) ==> e.generation < g
    ensures !Ended(log, g) && LateEmissions(log, g) == 0 && LastHeard(log, g) == None
    ensures LastWritten(log, g) == None && !Unwritten(log, g)
  {
    NeverBegun(log, g);
  }

  ghost predicate Inv(s: System) {
    && (forall g :: g in s.tasks ==> TaskInv(s, g))
    && (forall i: nat :: i < |s.log| ==> Sound(s.log, i))
    && NothingAbove(s.log, s.state.generation)
    && (forall e :: e in s.log && e.Cancelled? ==> e.generation < s.state.generation)
    && (forall e :: e in s.log && (e.Begun? || e.Emitted? || e.Wrote?) ==> e.generation in s.tasks)
    && s.state.lastEmitted == LastWritten(s.log, s.state.generation)
    && (s.operation.Stopping? ==>
          s.operation.generation < s.state.generation && s.operation.last == LastWritten(s.log, s.operation.generation))
  }

  lemma BeginKeepsTask(s: System, g: nat)
    requires Inv(s) && g in Step(s, StartBegins).tasks && Step(s, StartBegins) != s
    ensures TaskInv(Step(s, StartBegins), g)
  {
    FreshGeneration(s.log, s.state.generation + 1);
    assert g in s.tasks ==> TaskInv(s, g);
    Append(s.log, Begun(s.state.generation + 1, s.operation.partial), g);
  }

  lemma BeginKeepsLog(s: System)
    requires Inv(s) && Step(s, StartBegins) != s
    ensures var s' := Step(s, StartBegins);
            && NothingAbove(s'.log, s'.state.generation)
            && (forall e :: e in s'.log && e.Cancelled? ==> e.generation < s'.state.generation)
            && (forall e :: e in s'.log && (e.Begun? || e.Emitted? || e.Wrote?) ==> e.generation in s'.tasks)
  {
  }

  lemma BeginKeepsSound(s: System)
    requires Inv(s) && Step(s, StartBegins) != s
    ensures var log' := Step(s, StartBegins).log;
            forall i: nat :: i < |log'| ==> Sound(log', i)
  {
    SoundAppend(s.log, Begun(s.state.generation + 1, s.operation.partial));
  }

  lemma BeginKeepsWritten(s: System)
    requires Inv(s) && Step(s, StartBegins) != s
    ensures var s' := Step(s, StartBegins);
            s'.state.lastEmitted == LastWritten(s'.log, s'.state.generation)
  {
    Append(s.log, Begun(s.state.generation + 1, s.operation.partial), s.state.generation + 1);
  }

  lemma StartKeepsInv(s: System)
    requires Inv(s)
    ensures Inv(Step(s, StartBegins))
  {
    if Step(s, StartBegins) != s {
      BeginKeepsLog(s);
      BeginKeepsSound(s);
      BeginKeepsWritten(s);
      forall g | g in Step(s, StartBegins).tasks
        ensures TaskInv(Step(s, StartBegins), g)
      {
        BeginKeepsTask(s, g);
      }
    }
  }

  lemma CancelKeepsTask(s: System, g: nat)
    requires Inv(s) && g in s.tasks && s.operation == NoOperation
    ensures TaskInv(Step(s, StopCancels), g)
  {
    assert TaskInv(s, g);
    Append(s.log, Cancelled(s.state.generation), g);
  }

  lemma StopCancelsKeepsInv(s: System)
    requires Inv(s)
    ensures Inv(Step(s, StopCancels))
  {
    var s' := Step(s, StopCancels);
    if s.operation == NoOperation {
      var e := Cancelled(s.state.generation);
      SoundAppend(s.log, e);
      FreshGeneration(s.log, s.state.generation + 1);
      Append(s.log, e, s.state.generation + 1);
      Append(s.log, e, s.state.generation);
      forall g | g in s'.tasks
        ensures TaskInv(s', g)
      {
        CancelKeepsTask(s, g);
      }
    }
  }

  lemma StopEndsKeepsInv(s: System, partial: Option<string>)
    requires Inv(s)
    ensures Inv(Step(s, StopEnds(partial)))
  {
    var s' := Step(s, StopEnds(partial));
    if s'.log != s.log {
      var e := StopPartial(s.operation.generation, partial.value);
      SoundAppend(s.log, e);
      Append(s.log, e, s.state.generation);
      forall g | g in s'.tasks
        ensures TaskInv(s', g)
      {
        Append(s.log, e, g);
      }
    }
  }

  lemma StartEmitsKeepsInv(s: System, ok: bool)
    requires Inv(s)
    ensures Inv(Step(s, StartEmits(ok)))
  {
    var s' := Step(s, StartEmits(ok));
    if s'.log != s.log {
      var e := StartPartial(s.operation.partial.value);
      SoundAppend(s.log, e);
      Append(s.log, e, s.state.generation);
      forall g | g in s'.tasks
        ensures TaskInv(s', g)
      {
        Append(s.log, e, g);
      }
    }
  }

  lemma QuietTaskStepKeepsInv(s: System, g: nat, pc: Pc)
    requires Inv(s) && g in s.tasks && !s.tasks[g].Recording? && !pc.Recording?
    requires pc.Emitting? ==> s.state.generation == g && s.state.lastEmitted != Some(pc.text)
    ensures Inv(At(s, g, pc))
  {
    forall h | h in At(s, g, pc).tasks
      ensures TaskInv(At(s, g, pc), h)
    {
      assert TaskInv(s, h);
    }
  }

  lemma EmitKeepsInv(s: System, g: nat, ok: bool)
    requires Inv(s)
    ensures Inv(Step(s, Emit(g, ok)))
  {
    if g in s.tasks && s.tasks[g].Emitting? {
      assert TaskInv(s, g);
      var s' := Step(s, Emit(g, ok));
      if ok {
        var e := Emitted(g, s.tasks[g].text);
        SoundAppend(s.log, e);
        Append(s.log, e, s.state.generation);
        forall h | h in s'.tasks
          ensures TaskInv(s', h)
        {
          assert TaskInv(s, h);
          Append(s.log, e, h);
        }
        if s.operation.Stopping? { Append(s.log, e, s.operation.generation); }
      } else {
        QuietTaskStepKeepsInv(s, g, Finished);
      }
    }
  }

  lemma WriteBackKeepsInv(s: System, g: nat)
    requires Inv(s)
    ensures Inv(Step(s, WriteBack(g)))
  {
    if g in s.tasks && s.tasks[g].Recording? {
      assert TaskInv(s, g);
      var s' := Step(s, WriteBack(g));
      if s.state.generation == g {
        var e := Wrote(g, s.tasks[g].text);
        SoundAppend(s.log, e);
        forall h | h in s'.tasks
          ensures TaskInv(s', h)
        {
          assert TaskInv(s, h);
          Append(s.log, e, h);
        }
        Append(s.log, e, g);
        if s.operation.Stopping? { Append(s.log, e, s.operation.generation); }
      } else {
        forall h | h in s'.tasks
          ensures TaskInv(s', h)
        {
          assert TaskInv(s, h);
        }
      }
    }
  }

  lemma StepKeepsInv(s: System, a: Action)
    requires Inv(s)
    ensures Inv(Step(s, a))
  {
    match a
    case StartAccepted(_) => SameTasks(s, Step(s, a));
    case StartEmits(ok) =>
      StartEmitsKeepsInv(s, ok);
      SameTasks(s, s.(operation := NoOperation));
    case StartBegins => StartKeepsInv(s);
    case StopCancels => StopCancelsKeepsInv(s);
    case StopEnds(partial) =>
      StopEndsKeepsInv(s, partial);
      SameTasks(s, s.(operation := NoOperation));
    case OperationFails => SameTasks(s, Step(s, a));
    case Tick(g) =>
      if g in s.tasks && s.tasks[g] == Ticking {
        QuietTaskStepKeepsInv(s, g, if s.state.generation == g then Polling else Finished);
      }
    case Poll(g, partials) =>
      if g in s.tasks && s.tasks[g] == Polling {
        QuietTaskStepKeepsInv(s, g, if partials.None? then Finished else Checking(partials.value));
      }
    case Check(g) =>
      if g in s.tasks && s.tasks[g].Checking? {
        QuietTaskStepKeepsInv(s, g, Step(s, a).tasks[g]);
      }
    case Emit(g, ok) => EmitKeepsInv(s, g, ok);
    case WriteBack(g) => WriteBackKeepsInv(s, g);
  }

  lemma SameTasks(s: System, s': System)
    requires Inv(s) && s' == s.(operation := s'.operation)
    ensures forall g :: g in s'.tasks ==> TaskInv(s', g)
  {
    forall g | g in s'.tasks
      ensures TaskInv(s', g)
    {
      assert TaskInv(s, g);
    }
  }

  lemma {:induction false} RunKeepsInv(actions: seq<Action>)
    ensures Inv(Run(actions))
  {
    if actions != [] {
      RunKeepsInv(actions[..|actions| - 1]);
      StepKeepsInv(Run(actions[..|actions| - 1]), actions[|actions| - 1]);
    }
  }

  // ---- What holds in every run ----

  /** Once a start or a cancel has ended a generation, its emitter sends at most one more text. */
  lemma AtMostOneLatePartial(actions: seq<Action>, g: nat)
    ensures LateEmissions(Run(actions).log, g) <= 1
  {
    RunKeepsInv(actions);
    var s := Run(actions);
    if g in s.tasks {
      assert TaskInv(s, g);
    } else {
      NeverBegun(s.log, g);
    }
  }

  /**
   Only the current generation ever writes `last_emitted`; an emitter never repeats what was
   last heard for its generation, and its first text differs from the one sent at the start.
   */
  lemma EmitterNeverRepeatsOrWritesLate(actions: seq<Action>, i: nat)
    requires i < |Run(actions).log|
    ensures var log := Run(actions).log;
            && (log[i].Emitted? ==> LastHeard(log[..i], log[i].generation) != Some(log[i].text))
            && (log[i].Wrote? ==> !Ended(log[..i], log[i].generation))
  {
    RunKeepsInv(actions);
    assert Sound(Run(actions).log, i);
  }

  /**
   A stop that ends with the text last heard for the generation it cancelled sends it again if
   and only if the emitter was caught between sending it and writing it back.
   */
  lemma StopRepeatsIffUnwritten(actions: seq<Action>, text: string)
    requires Run(actions).operation.Stopping?
    requires LastHeard(Run(actions).log, Run(actions).operation.generation) == Some(text)
    ensures var s := Run(actions);
            var g := s.operation.generation;
            Step(s, StopEnds(Some(text))).log == s.log + [StopPartial(g, text)] <==> Unwritten(s.log, g)
  {
    RunKeepsInv(actions);
    var s := Run(actions);
    var g := s.operation.generation;
    if g in s.tasks {
      assert TaskInv(s, g);
    } else {
      NeverBegun(s.log, g);
    }
    assert |s.log + [StopPartial(g, text)]| != |s.log|;
  }

  ghost predicate Reachable(s: System) {
    exists actions :: Run(actions) == s
  }

  lemma Follow(s: System, a: Action, s': System)
    requires Reachable(s) && Step(s, a) == s'
    ensures Reachable(s')
  {
    var actions :| Run(actions) == s;
    assert (actions + [a])[..|actions|] == actions;
    assert Run(actions + [a]) == s';
  }

  /** The emitter of the first start, ticking. */
  lemma AnEmitterStarts()
    ensures Reachable(System(Emission(1, None), map[1 := Ticking], NoOperation, [Begun(1, None)]))
  {
    var noTasks: map<nat, Pc> := map[];
    assert Run([]) == BOOT;
    Follow(BOOT, StartAccepted(None), System(Emission(0, None), noTasks, Starting(None, false), []));
    assert noTasks[1 := Ticking] == map[1 := Ticking] && [] + [Begun(1, None)] == [Begun(1, None)];
    Follow(System(Emission(0, None), noTasks, Starting(None, false), []), StartBegins,
           System(Emission(1, None), map[1 := Ticking], NoOperation, [Begun(1, None)]));
  }

  /** An emitter can stand between its check and its signal. */
  lemma AnEmitterPastItsCheck(text: string)
    ensures Reachable(System(Emission(1, None), map[1 := Emitting(text, [])], NoOperation, [Begun(1, None)]))
  {
    var begun := [Begun(1, None)];
    AnEmitterStarts();
    Follow(System(Emission(1, None), map[1 := Ticking], NoOperation, begun), Tick(1),
           System(Emission(1, None), map[1 := Polling], NoOperation, begun));
    Follow(System(Emission(1, None), map[1 := Polling], NoOperation, begun), Poll(1, Some([text])),
           System(Emission(1, None), map[1 := Checking([text])], NoOperation, begun));
    assert [text][1..] == [];
    Follow(System(Emission(1, None), map[1 := Checking([text])], NoOperation, begun), Check(1),
           System(Emission(1, None), map[1 := Emitting(text, [])], NoOperation, begun));
  }

  /**
   Both bounds are met: an emitter that has passed its check before the cancel sends its text
   after it, and a stop that ends with the same text sends it once more.
   */
  lemma AStopCanRepeatALatePartial(text: string)
    ensures exists actions :: Run(actions).log == [Begun(1, None), Cancelled(1), Emitted(1, text), StopPartial(1, text)]
  {
    var begun := [Begun(1, None)];
    var cancelled := [Begun(1, None), Cancelled(1)];
    var late := [Begun(1, None), Cancelled(1), Emitted(1, text)];
    AnEmitterPastItsCheck(text);
    Follow(System(Emission(1, None), map[1 := Emitting(text, [])], NoOperation, begun), StopCancels,
           System(Emission(2, None), map[1 := Emitting(text, [])], Stopping(1, None), cancelled));
    Follow(System(Emission(2, None), map[1 := Emitting(text, [])], Stopping(1, None), cancelled), Emit(1, true),
           System(Emission(2, None), map[1 := Recording(text, [])], Stopping(1, None), late));
    Follow(System(Emission(2, None), map[1 := Recording(text, [])], Stopping(1, None), late), StopEnds(Some(text)),
           System(Emission(2, None), map[1 := Recording(text, [])], NoOperation, late + [StopPartial(1, text)]));
    assert late + [StopPartial(1, text)] == [Begun(1, None), Cancelled(1), Emitted(1, text), StopPartial(1, text)];
  }

  // ---- Nothing is left out ----

  /** Every text the emitter of `g` has polled, in order. */
  function PolledTexts(actions: seq<Action>, g: nat): seq<string> {
    if actions == [] then []
    else
      var before, a := actions[..|actions| - 1], actions[|actions| - 1];
      PolledTexts(before, g) + (
        if a.Poll? && a.task == g && a.partials.Some? && g in Run(before).tasks && Run(before).tasks[g] == Polling
        then a.partials.value else [])
  }

  /** Every text it has sent, in order. */
  function SentTexts(log: seq<Signal>, g: nat): seq<string> {
    if log == [] then []
    else
      var e := log[|log| - 1];
      SentTexts(log[..|log| - 1], g) + (if e.Emitted? && e.generation == g then [e.text] else [])
  }

  /** The text the start of `g` sent, if it sent one. */
  function StartText(log: seq<Signal>, g: nat): Option<string> {
    if log == [] then None
    else
      var e := log[|log| - 1];
      if e.Begun? && e.generation == g then e.start else StartText(log[..|log| - 1], g)
  }

  function LastOf(first: Option<string>, texts: seq<string>): Option<string> {
    if texts == [] then first else Some(texts[|texts| - 1])
  }

  /** The texts that differ from the one right before them, `first` being before all. */
  function Changes(first: Option<string>, texts: seq<string>): seq<string> {
    if texts == [] then []
    else
      var before, text := texts[..|texts| - 1], texts[|texts| - 1];
      Changes(first, before) + (if LastOf(first, before) == Some(text) then [] else [text])
  }

  /** What the emitter has polled and not yet decided on. */
  function Remaining(pc: Pc): seq<string> {
    match pc
    case Checking(partials) => partials
    case Emitting(text, rest) => [text] + rest
    case Recording(_, rest) => rest
    case _ => []
  }

  /** What the start sent, what the emitter has sent and polled, and the polled texts that account for what it sent. */
  datatype Texts = Texts(start: Option<string>, sent: seq<string>, polled: seq<string>, decided: seq<string>) {
    predicate SentIsChanges() {
      sent == Changes(start, decided)
    }

    /** The text decided on last. */
    function Last(): Option<string> {
      LastOf(start, decided)
    }

    /** One more text is decided on, and sent if it is a change. */
    function Decide(text: string): Texts {
      Texts(start, if Last() == Some(text) then sent else sent + [text], polled, decided + [text])
    }
  }

  lemma DecideKeepsChanges(t: Texts, text: string)
    requires t.SentIsChanges()
    ensures t.Decide(text).SentIsChanges() && t.Decide(text).Last() == Some(text)
  {
    ChangesAppend(t.start, t.decided, text);
  }

  /** An emitter that decides on all it polls: its generation is current, or it has passed its last check. */
  predicate IsDeciding(pc: Pc, isCurrent: bool) {
    (isCurrent && pc != Finished) || pc.Emitting? || pc.Recording?
  }

  /** An emitter at `pc` with these texts; `last` is what the service remembers. */
  predicate Sends(pc: Pc, isCurrent: bool, last: Option<string>, t: Texts) {
    && t.decided <= t.polled
    && t.SentIsChanges()
    && (IsDeciding(pc, isCurrent) ==> t.decided + Remaining(pc) == t.polled)
    && (pc.Emitting? ==> t.Last() != Some(pc.text))
    && (pc.Recording? ==> t.Last() == Some(pc.text))
    && (isCurrent && !pc.Recording? && pc != Finished ==> last == t.Last())
  }

  function TextsOf(s: System, g: nat, polled: seq<string>, decided: seq<string>): Texts {
    Texts(StartText(s.log, g), SentTexts(s.log, g), polled, decided)
  }

  predicate TaskSends(s: System, g: nat, polled: seq<string>, decided: seq<string>)
    requires g in s.tasks
  {
    Sends(s.tasks[g], s.state.IsCurrent(g), s.state.lastEmitted, TextsOf(s, g, polled, decided))
  }

  lemma TextsAppend(log: seq<Signal>, e: Signal, g: nat)
    ensures SentTexts(log + [e], g) == SentTexts(log, g) + (if e.Emitted? && e.generation == g then [e.text] else [])
    ensures StartText(log + [e], g) == if e.Begun? && e.generation == g then e.start else StartText(log, g)
  {
    assert (log + [e])[..|log|] == log;
  }

  lemma ChangesAppend(first: Option<string>, texts: seq<string>, text: string)
    ensures Changes(first, texts + [text]) ==
            Changes(first, texts) + (if LastOf(first, texts) == Some(text) then [] else [text])
    ensures LastOf(first, texts + [text]) == Some(text)
  {
    assert (texts + [text])[..|texts|] == texts;
  }

  /** A step of its own that sends nothing and decides nothing; `more` is what it polls. */
  lemma QuietSends(pc: Pc, pc': Pc, isCurrent: bool, last: Option<string>, t: Texts, more: seq<string>)
    requires Sends(pc, isCurrent, last, t)
    requires (pc.Ticking? && (pc'.Polling? || pc' == Finished) && more == [])
             || (pc.Polling? && (pc' == Checking(more) || (pc' == Finished && more == [])))
             || (pc == Checking([]) && pc'.Ticking? && more == [])
    ensures Sends(pc', isCurrent, last, t.(polled := t.polled + more))
  {
    assert IsDeciding(pc, isCurrent) ==> t.decided == t.polled;
  }

  /** A check decides on the head of what remains: it is about to be sent, or skipped. */
  lemma PassedCheckSends(partials: seq<string>, last: Option<string>, t: Texts)
    requires partials != [] && last != Some(partials[0]) && Sends(Checking(partials), true, last, t)
    ensures Sends(Emitting(partials[0], partials[1..]), true, last, t)
  {
    assert [partials[0]] + partials[1..] == partials;
  }

  lemma SkippedCheckSends(partials: seq<string>, isCurrent: bool, last: Option<string>, t: Texts)
    requires partials != [] && (isCurrent ==> last == Some(partials[0]))
    requires Sends(Checking(partials), isCurrent, last, t)
    ensures Sends(Checking(partials[1..]), isCurrent, last, if isCurrent then t.Decide(partials[0]) else t)
  {
    if isCurrent {
      DecideKeepsChanges(t, partials[0]);
      assert t.decided + partials == t.decided + [partials[0]] + partials[1..];
    }
  }

  lemma EmitSends(text: string, rest: seq<string>, isCurrent: bool, last: Option<string>, t: Texts)
    requires Sends(Emitting(text, rest), isCurrent, last, t)
    ensures Sends(Recording(text, rest), isCurrent, last, t.Decide(text)) && t.Decide(text).sent == t.sent + [text]
  {
    DecideKeepsChanges(t, text);
    assert t.polled == t.decided + [text] + rest;
  }

  lemma FinishedSends(pc: Pc, isCurrent: bool, last: Option<string>, t: Texts)
    requires Sends(pc, isCurrent, last, t)
    ensures Sends(Finished, isCurrent, last, t)
  {
  }

  lemma WriteBackSends(text: string, rest: seq<string>, isCurrent: bool, last: Option<string>, t: Texts)
    requires Sends(Recording(text, rest), isCurrent, last, t)
    ensures Sends(Checking(rest), isCurrent, if isCurrent then Some(text) else last, t)
  {
  }

  /** What a step makes the emitter of `g` poll. */
  function JustPolled(s: System, a: Action, g: nat): seq<string> {
    if a.Poll? && a.task == g && a.partials.Some? && g in s.tasks && s.tasks[g] == Polling then a.partials.value else []
  }

  predicate IsTaskStep(a: Action) {
    a.Tick? || a.Poll? || a.Check? || a.Emit? || a.WriteBack?
  }

  lemma QuietStepSends(s: System, a: Action, polled: seq<string>, decided: seq<string>)
    requires (a.Tick? || a.Poll?) && a.task in s.tasks && TaskSends(s, a.task, polled, decided)
    ensures TaskSends(Step(s, a), a.task, polled + JustPolled(s, a, a.task), decided)
  {
    var g := a.task;
    if Step(s, a) != s {
      QuietSends(s.tasks[g], Step(s, a).tasks[g], s.state.IsCurrent(g), s.state.lastEmitted,
                 TextsOf(s, g, polled, decided), JustPolled(s, a, g));
    } else {
      assert polled + [] == polled;
    }
  }

  lemma CheckStepSends(s: System, g: nat, polled: seq<string>, decided: seq<string>) returns (decided': seq<string>)
    requires g in s.tasks && TaskSends(s, g, polled, decided)
    ensures TaskSends(Step(s, Check(g)), g, polled, decided')
  {
    var pc, current, last, t := s.tasks[g], s.state.IsCurrent(g), s.state.lastEmitted, TextsOf(s, g, polled, decided);
    decided' := decided;
    if pc == Checking([]) {
      QuietSends(pc, Ticking, current, last, t, []);
      assert polled + [] == polled;
    } else if pc.Checking? && current && last != Some(pc.partials[0]) {
      PassedCheckSends(pc.partials, last, t);
    } else if pc.Checking? {
      SkippedCheckSends(pc.partials, current, last, t);
      decided' := if current then decided + [pc.partials[0]] else decided;
    }
  }

  lemma EmitStep(s: System, g: nat, text: string, rest: seq<string>)
    requires g in s.tasks && s.tasks[g] == Emitting(text, rest)
    ensures var s' := Step(s, Emit(g, true));
            && g in s'.tasks && s'.tasks[g] == Recording(text, rest)
            && s'.state == s.state && s'.log == s.log + [Emitted(g, text)]
  {
  }

  lemma EmitStepSends(s: System, g: nat, polled: seq<string>, decided: seq<string>)
    requires g in s.tasks && s.tasks[g].Emitting? && TaskSends(s, g, polled, decided)
    ensures TaskSends(Step(s, Emit(g, true)), g, polled, decided + [s.tasks[g].text])
  {
    var text, rest, t := s.tasks[g].text, s.tasks[g].rest, TextsOf(s, g, polled, decided);
    EmitStep(s, g, text, rest);
    TextsAppend(s.log, Emitted(g, text), g);
    EmitSends(text, rest, s.state.IsCurrent(g), s.state.lastEmitted, t);
    assert TextsOf(Step(s, Emit(g, true)), g, polled, decided + [text]) == t.Decide(text);
  }

  lemma FailedEmitSends(s: System, g: nat, polled: seq<string>, decided: seq<string>)
    requires g in s.tasks && TaskSends(s, g, polled, decided)
    ensures TaskSends(Step(s, Emit(g, false)), g, polled, decided)
  {
    FinishedSends(s.tasks[g], s.state.IsCurrent(g), s.state.lastEmitted, TextsOf(s, g, polled, decided));
  }

  lemma WriteBackStepSends(s: System, g: nat, polled: seq<string>, decided: seq<string>)
    requires g in s.tasks && TaskSends(s, g, polled, decided)
    ensures TaskSends(Step(s, WriteBack(g)), g, polled, decided)
  {
    var pc := s.tasks[g];
    if pc.Recording? {
      WriteBackSends(pc.text, pc.rest, s.state.IsCurrent(g), s.state.lastEmitted, TextsOf(s, g, polled, decided));
      TextsAppend(s.log, Wrote(g, pc.text), g);
    }
  }

  lemma OwnStepSends(s: System, a: Action, polled: seq<string>, decided: seq<string>) returns (decided': seq<string>)
    requires IsTaskStep(a) && a.task in s.tasks && TaskSends(s, a.task, polled, decided)
    ensures a.task in Step(s, a).tasks
    ensures TaskSends(Step(s, a), a.task, polled + JustPolled(s, a, a.task), decided')
  {
    assert polled + [] == polled;
    decided' := decided;
    match a
    case Tick(_) => QuietStepSends(s, a, polled, decided);
    case Poll(_, _) => QuietStepSends(s, a, polled, decided);
    case Check(g) => decided' := CheckStepSends(s, g, polled, decided);
    case Emit(g, ok) =>
      if !ok {
        FailedEmitSends(s, g, polled, decided);
      } else if s.tasks[g].Emitting? {
        EmitStepSends(s, g, polled, decided);
        decided' := decided + [s.tasks[g].text];
      }
    case WriteBack(g) => WriteBackStepSends(s, g, polled, decided);
  }

  /** The step of another emitter, or of a start or stop call. */
  lemma OtherStepLeavesTheTask(s: System, a: Action, g: nat)
    requires Inv(s) && g in s.tasks && (IsTaskStep(a) ==> a.task != g)
    ensures var s' := Step(s, a);
            && g in s'.tasks && s'.tasks[g] == s.tasks[g]
            && (s'.state.IsCurrent(g) ==> s'.state == s.state)
  {
    assert TaskInv(s, g);
  }

  lemma OtherStepSignals(s: System, a: Action, g: nat) returns (more: seq<Signal>)
    requires Inv(s) && g in s.tasks && (IsTaskStep(a) ==> a.task != g)
    ensures |more| <= 1 && Step(s, a).log == s.log + more
    ensures forall e :: e in more && (e.Emitted? || e.Begun?) ==> e.generation != g
  {
    assert TaskInv(s, g);
    more := Step(s, a).log[|s.log|..];
  }

  lemma UntouchedSends(pc: Pc, isCurrent: bool, last: Option<string>, isCurrent': bool, last': Option<string>, t: Texts)
    requires Sends(pc, isCurrent, last, t) && (isCurrent' ==> isCurrent && last' == last)
    ensures Sends(pc, isCurrent', last', t)
  {
  }

  lemma OtherStepSends(s: System, a: Action, g: nat, polled: seq<string>, decided: seq<string>)
    requires Inv(s) && g in s.tasks && TaskSends(s, g, polled, decided)
    requires IsTaskStep(a) ==> a.task != g
    ensures g in Step(s, a).tasks && TaskSends(Step(s, a), g, polled, decided)
  {
    var s' := Step(s, a);
    OtherStepLeavesTheTask(s, a, g);
    var more := OtherStepSignals(s, a, g);
    SameTexts(s.log, more, g);
    UntouchedSends(s.tasks[g], s.state.IsCurrent(g), s.state.lastEmitted, s'.state.IsCurrent(g), s'.state.lastEmitted,
                   TextsOf(s, g, polled, decided));
  }

  lemma SameTexts(log: seq<Signal>, more: seq<Signal>, g: nat)
    requires |more| <= 1 && forall e :: e in more && (e.Emitted? || e.Begun?) ==> e.generation != g
    ensures SentTexts(log + more, g) == SentTexts(log, g) && StartText(log + more, g) == StartText(log, g)
  {
    if more == [] {
      assert log + more == log;
    } else {
      assert more == [more[0]];
      TextsAppend(log, more[0], g);
    }
  }

  lemma {:induction false} NothingSentBefore(log: seq<Signal>, g: nat)
    requires forall e :: e in log && (e.Begun? || e.Emitted?) ==> e.generation != g
    ensures SentTexts(log, g) == [] && StartText(log, g) == None
  {
    if log != [] {
      assert log[|log| - 1] in log;
      NothingSentBefore(log[..|log| - 1], g);
    }
  }

  lemma NewTaskSends(s: System)
    requires Inv(s) && Step(s, StartBegins) != s
    ensures TaskSends(Step(s, StartBegins), s.state.generation + 1, [], [])
  {
    var g := s.state.generation + 1;
    NothingSentBefore(s.log, g);
    TextsAppend(s.log, Begun(g, s.operation.partial), g);
  }

  ghost predicate SoFarSends(s: System, g: nat, polled: seq<string>) {
    if g in s.tasks then exists decided :: TaskSends(s, g, polled, decided) else polled == []
  }

  lemma OnlyAStartAddsATask(s: System, a: Action, g: nat)
    requires g !in s.tasks && g in Step(s, a).tasks
    ensures a == StartBegins && Step(s, a) != s && g == s.state.generation + 1
  {
  }

  lemma NewStepSends(s: System, a: Action, g: nat)
    requires Inv(s) && g !in s.tasks
    ensures SoFarSends(Step(s, a), g, [])
  {
    if g in Step(s, a).tasks {
      OnlyAStartAddsATask(s, a, g);
      NewTaskSends(s);
    }
  }

  lemma StepSends(s: System, a: Action, g: nat, polled: seq<string>)
    requires Inv(s) && SoFarSends(s, g, polled)
    ensures SoFarSends(Step(s, a), g, polled + JustPolled(s, a, g))
  {
    if g in s.tasks {
      var decided :| TaskSends(s, g, polled, decided);
      if IsTaskStep(a) && a.task == g {
        var decided' := OwnStepSends(s, a, polled, decided);
        assert TaskSends(Step(s, a), g, polled + JustPolled(s, a, g), decided');
      } else {
        OtherStepSends(s, a, g, polled, decided);
        assert polled + [] == polled;
      }
    } else {
      NewStepSends(s, a, g);
    }
  }

  lemma {:induction false} RunSends(actions: seq<Action>, g: nat)
    ensures SoFarSends(Run(actions), g, PolledTexts(actions, g))
  {
    if actions != [] {
      var before, a := actions[..|actions| - 1], actions[|actions| - 1];
      RunSends(before, g);
      RunKeepsInv(before);
      StepSends(Run(before), a, g, PolledTexts(before, g));
    }
  }

  /**
   While its generation is current and nothing has failed it, an emitter has sent exactly the
   texts it has polled and decided on, in order, without those that repeat the one right before,
   the text of the start being before all. Between two ticks that is everything it has polled.
   */
  lemma ACurrentEmitterSendsEveryChange(actions: seq<Action>, g: nat)
    requires var s := Run(actions);
             g in s.tasks && s.state.IsCurrent(g) && s.tasks[g] != Finished
    ensures var s := Run(actions);
            exists decided: seq<string> ::
              && PolledTexts(actions, g) == decided + Remaining(s.tasks[g])
              && SentTexts(s.log, g) == Changes(StartText(s.log, g), decided)
    ensures var s := Run(actions);
            s.tasks[g].Ticking? || s.tasks[g].Polling? ==>
              SentTexts(s.log, g) == Changes(StartText(s.log, g), PolledTexts(actions, g))
  {
    RunSends(actions, g);
    var s := Run(actions);
    var decided :| TaskSends(s, g, PolledTexts(actions, g), decided);
    assert decided + [] == decided;
  }

  /** Whatever happens to it, what an emitter has sent are the changes among the first texts it polled. */
  lemma AnEmitterSendsNothingElse(actions: seq<Action>, g: nat)
    requires g in Run(actions).tasks
    ensures exists decided: seq<string> ::
              && decided <= PolledTexts(actions, g)
              && SentTexts(Run(actions).log, g) == Changes(StartText(Run(actions).log, g), decided)
  {
    RunSends(actions, g);
    var decided :| TaskSends(Run(actions), g, PolledTexts(actions, g), decided);
  }

  predicate FailsEmitter(a: Action, g: nat) {
    a == Emit(g, false) || a == Poll(g, None)
  }

  ghost predicate GaveUp(actions: seq<Action>, g: nat) {
    exists n :: 0 <= n < |actions| && FailsEmitter(actions[n], g)
  }

  lemma StepEndsForAReason(s: System, a: Action, g: nat)
    requires Inv(s) && g in Step(s, a).tasks && Step(s, a).tasks[g] == Finished && Step(s, a).state.IsCurrent(g)
    ensures FailsEmitter(a, g) || (g in s.tasks && s.tasks[g] == Finished && s.state.IsCurrent(g))
  {
    if g !in s.tasks {
      OnlyAStartAddsATask(s, a, g);
    } else if !IsTaskStep(a) || a.task != g {
      OtherStepLeavesTheTask(s, a, g);
    }
  }

  /** An emitter ends only after its generation has, or when a poll or a signal failed. */
  lemma {:induction false} AnEmitterEndsForAReason(actions: seq<Action>, g: nat)
    requires var s := Run(actions);
             g in s.tasks && s.tasks[g] == Finished && s.state.IsCurrent(g)
    ensures GaveUp(actions, g)
  {
    var n := |actions| - 1;
    RunKeepsInv(actions[..n]);
    StepEndsForAReason(Run(actions[..n]), actions[n], g);
    if !FailsEmitter(actions[n], g) {
      AnEmitterEndsForAReason(actions[..n], g);
      var m :| 0 <= m < n && FailsEmitter(actions[..n][m], g);
      assert FailsEmitter(actions[m], g);
    }
  }

  // ---- Every turn of an emitter brings it on ----

  /** The step an emitter takes next; how its calls come out is open. */
  predicate IsNext(a: Action, pc: Pc) {
    match pc
    case Ticking => a.Tick?
    case Polling => a.Poll?
    case Checking(_) => a.Check?
    case Emitting(_, _) => a.Emit?
    case Recording(_, _) => a.WriteBack?
    case Finished => false
  }

  /** How many turns it takes at most until it waits for its next tick. */
  function Turns(pc: Pc): nat {
    match pc
    case Checking(partials) => 1 + 3 * |partials|
    case Emitting(_, rest) => 3 + 3 * |rest|
    case Recording(_, rest) => 2 + 3 * |rest|
    case _ => 0
  }

  /**
   So what was polled is decided on after finitely many turns: each brings the emitter closer to
   its next tick. It polls only if it was current at its tick, and a failure ends it at once.
   */
  lemma ATurnBringsTheEmitterOn(s: System, a: Action)
    requires IsTaskStep(a) && a.task in s.tasks && IsNext(a, s.tasks[a.task])
    ensures var pc, pc' := s.tasks[a.task], Step(s, a).tasks[a.task];
            && pc' != pc
            && (Turns(pc) > 0 ==> Turns(pc') < Turns(pc))
            && (pc.Ticking? ==> pc' == if s.state.IsCurrent(a.task) then Polling else Finished)
            && (pc.Polling? ==> pc'.Checking? || pc' == Finished)
            && (!pc.Ticking? ==> (pc' == Finished <==> FailsEmitter(a, a.task)))
  {
  }

  // ---- Starts and stops ----

  /** A stop sends its text unless that is what the service last wrote for the generation it cancelled. */
  lemma AStopSendsUnlessWritten(actions: seq<Action>, partial: Option<string>)
    requires Run(actions).operation.Stopping?
    ensures var s := Run(actions);
            var g := s.operation.generation;
            && Step(s, StopEnds(partial)).operation == NoOperation
            && Step(s, StopEnds(partial)).log ==
               if partial.Some? && partial != LastWritten(s.log, g) then s.log + [StopPartial(g, partial.value)]
               else s.log
  {
    RunKeepsInv(actions);
  }

  /** The last text a start has sent. */
  function LastStart(log: seq<Signal>): Option<string> {
    if log == [] then None
    else if log[|log| - 1].StartPartial? then Some(log[|log| - 1].text)
    else LastStart(log[..|log| - 1])
  }

  /** A generation that begins with a text begins after a start has sent that text. */
  ghost predicate StartsAreSent(s: System) {
    && (s.operation.Starting? && s.operation.sent ==>
          s.operation.partial.Some? && LastStart(s.log) == s.operation.partial)
    && (forall i: nat :: i < |s.log| && s.log[i].Begun? && s.log[i].start.Some? ==>
          LastStart(s.log[..i]) == s.log[i].start)
  }

  /** What a step signals, and what a start that goes on has sent. */
  lemma StepSignalsStarts(s: System, a: Action) returns (more: seq<Signal>)
    ensures |more| <= 1 && Step(s, a).log == s.log + more
    ensures more != [] && more[0].Begun? && more[0].start.Some? ==>
              s.operation.Starting? && s.operation.sent && s.operation.partial == more[0].start
    ensures var o' := Step(s, a).operation;
            o'.Starting? && o'.sent ==>
              if o' == s.operation then more == [] || !more[0].StartPartial?
              else o'.partial.Some? && more == [StartPartial(o'.partial.value)]
  {
    more := Step(s, a).log[|s.log|..];
  }

  lemma SignalsKeepStarts(log: seq<Signal>, more: seq<Signal>)
    requires |more| <= 1
    requires forall i: nat :: i < |log| && log[i].Begun? && log[i].start.Some? ==> LastStart(log[..i]) == log[i].start
    requires more != [] && more[0].Begun? && more[0].start.Some? ==> LastStart(log) == more[0].start
    ensures var log' := log + more;
            forall i: nat :: i < |log'| && log'[i].Begun? && log'[i].start.Some? ==>
              LastStart(log'[..i]) == log'[i].start
    ensures LastStart(log + more) ==
            if more != [] && more[0].StartPartial? then Some(more[0].text) else LastStart(log)
  {
    var log' := log + more;
    forall i: nat | i <= |log|
      ensures log'[..i] == log[..i]
    {
    }
    assert log[..|log|] == log;
    if more == [] { assert log' == log; } else { assert log'[..|log'| - 1] == log; }
  }

  lemma StepSendsStarts(s: System, a: Action)
    requires StartsAreSent(s)
    ensures StartsAreSent(Step(s, a))
  {
    var more := StepSignalsStarts(s, a);
    SignalsKeepStarts(s.log, more);
  }

  lemma {:induction false} EveryStartTextIsSent(actions: seq<Action>)
    ensures StartsAreSent(Run(actions))
  {
    if actions != [] {
      EveryStartTextIsSent(actions[..|actions| - 1]);
      StepSendsStarts(Run(actions[..|actions| - 1]), actions[|actions| - 1]);
    }
  }

  /** What the last start that got the operation lock asked to send. */
  function AcceptedStart(actions: seq<Action>): Option<Option<string>> {
    if actions == [] then None
    else
      var before, a := actions[..|actions| - 1], actions[|actions| - 1];
      if a.StartAccepted? && Run(before).operation == NoOperation then Some(a.partial) else AcceptedStart(before)
  }

  lemma {:induction false} StartsAreAccepted(actions: seq<Action>)
    ensures var o := Run(actions).operation;
            o.Starting? ==> AcceptedStart(actions) == Some(o.partial)
  {
    if actions != [] {
      StartsAreAccepted(actions[..|actions| - 1]);
    }
  }

  /** Starts and stops take turns: a generation begins with the text of the one start that holds the lock. */
  lemma EveryGenerationIsOfItsStart(actions: seq<Action>)
    requires Step(Run(actions), StartBegins) != Run(actions)
    ensures var s, s' := Run(actions), Step(Run(actions), StartBegins);
            && AcceptedStart(actions).Some?
            && s'.log == s.log + [Begun(s.state.generation + 1, AcceptedStart(actions).value)]
            && s'.operation == NoOperation
  {
    StartsAreAccepted(actions);
  }
}

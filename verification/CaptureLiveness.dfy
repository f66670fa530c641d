/**
 No call of the recorder facade blocks forever (crates/vinpst-audio/src/pipewire_backend.rs).
 A schedule of the system is infinite; it is fair if every thread takes its turn again and
 again. How each foreign call comes out is part of the turn and arbitrary.
 */
module CaptureLiveness {
  import opened Wrappers
  import opened CaptureWorker
  import opened CaptureSystem

  type Schedule = nat -> Action

  /** The system after the first `n` turns. */
  function At(f: Schedule, n: nat): System {
    if n == 0 then BOOT else Step(At(f, n - 1), f(n - 1))
  }

  predicate InCall(s: System) {
    s.phase != Ready && s.phase != Dropped
  }

  /** The turns a blocked facade may be waiting for. */
  datatype Turn = SpawnTurn | WorkerTurns | ReplyTurn | TimerTurns | TimerJoin | WorkerJoin | OtherTurn

  function TurnOf(a: Action): Turn {
    match a
    case Spawn(_) => SpawnTurn
    case WorkerTurn(_, _) => WorkerTurns
    case TakeReply(_, _, _) => ReplyTurn
    case TimerReceive => TimerTurns
    case TimerJoined => TimerJoin
    case WorkerJoined => WorkerJoin
    case _ => OtherTurn
  }

  /** Each of them comes again and again. */
  ghost predicate Fair(f: Schedule) {
    forall n: nat, turn: Turn :: turn != OtherTurn ==> ComesAfter(f, n, turn)
  }

  ghost predicate ComesAfter(f: Schedule, n: nat, turn: Turn) {
    exists m: nat :: n <= m && TurnOf(f(m)) == turn
  }

  function RoundRobin(n: nat): Action {
    match n % 6
    case 0 => Spawn(true)
    case 1 => WorkerTurn(BeginCalls(false, Activation(false, []), false, Activation(false, [])), false)
    case 2 => TakeReply(true, false, true)
    case 3 => TimerReceive
    case 4 => TimerJoined
    case _ => WorkerJoined
  }

  function Place(turn: Turn): (place: nat)
    ensures place < 6
  {
    match turn
    case SpawnTurn => 0
    case WorkerTurns => 1
    case ReplyTurn => 2
    case TimerTurns => 3
    case TimerJoin => 4
    case _ => 5
  }

  /** Fair schedules exist. */
  lemma RoundRobinIsFair()
    ensures Fair(RoundRobin)
  {
    forall n: nat, turn: Turn | turn != OtherTurn
      ensures ComesAfter(RoundRobin, n, turn)
    {
      var m: nat := 6 * n + Place(turn);
      assert m % 6 == Place(turn);
      assert TurnOf(RoundRobin(m)) == turn;
    }
  }

  // ---- How far a call is from its end ----

  /** The phases in the order a call goes through them, last first. */
  function Rank(phase: Phase): nat {
    match phase
    case Ready => 0
    case Dropped => 0
    case AwaitBegin => 1
    case Spawning(_) => 2
    case JoinWorker(_) => 3
    case JoinTimer(_) => 4
    case AwaitStop => 5
    case AwaitCancel => 5
  }

  /** The expiries ahead of the first request. */
  function ExpiriesAhead(commands: seq<Command>): nat {
    if commands == [] || !commands[0].ExpireIdle? then 0 else 1 + ExpiriesAhead(commands[1..])
  }

  /** The schedules ahead of the first stop. */
  function SchedulesAhead(schedules: seq<TimerCommand>): nat {
    if schedules == [] || schedules[0].StopTimer? then 0 else 1 + SchedulesAhead(schedules[1..])
  }

  /** The turns of the thread that the facade waits for, before it can go on. */
  function Distance(s: System): nat {
    if s.threads.None? then 0
    else
      var t := s.threads.value;
      match s.phase
      case AwaitBegin => if t.reply.Some? then 0 else 1 + ExpiriesAhead(t.commands)
      case AwaitStop => if t.reply.Some? then 0 else 1 + ExpiriesAhead(t.commands)
      case AwaitCancel => if t.reply.Some? then 0 else 1 + ExpiriesAhead(t.commands)
      case JoinTimer(_) => if t.timer.running then 1 + SchedulesAhead(t.schedules) else 0
      case JoinWorker(_) => if t.running then 1 + ExpiriesAhead(t.commands) else 0
      case _ => 0
  }

  /** Whose turn brings the call closer to its end. */
  function Awaited(s: System): Turn {
    match s.phase
    case Spawning(_) => SpawnTurn
    case JoinTimer(_) => if Distance(s) == 0 then TimerJoin else TimerTurns
    case JoinWorker(_) => if Distance(s) == 0 then WorkerJoin else WorkerTurns
    case Ready => OtherTurn
    case Dropped => OtherTurn
    case _ => if Distance(s) == 0 then ReplyTurn else WorkerTurns
  }

  predicate Closer(s': System, s: System) {
    Rank(s'.phase) < Rank(s.phase) || (s'.phase == s.phase && Distance(s') < Distance(s))
  }

  predicate NoFarther(s': System, s: System) {
    Closer(s', s) || (s'.phase == s.phase && Distance(s') == Distance(s))
  }

  // ---- One turn ----

  /** A timer that is being joined has been told to stop. */
  ghost predicate StopIsComing(s: System) {
    s.phase.JoinTimer? && s.threads.Some? && s.threads.value.timer.running ==> StopTimer in s.threads.value.schedules
  }

  ghost predicate Sane(s: System) {
    Inv(s) && StopIsComing(s)
  }

  lemma StepKeepsStop(s: System, a: Action)
    requires Sane(s)
    ensures StopIsComing(Step(s, a))
  {
  }

  lemma {:induction false} AheadOfAppend(commands: seq<Command>, c: Command)
    requires Requests(commands) != []
    ensures ExpiriesAhead(commands + [c]) == ExpiriesAhead(commands)
  {
    assert (commands + [c])[1..] == commands[1..] + [c];
    if commands[0].ExpireIdle? {
      AheadOfAppend(commands[1..], c);
    }
  }

  lemma ReceiveIsNoFarther(s: System)
    requires Sane(s) && InCall(s)
    ensures NoFarther(ReceiveStep(s), s)
    ensures Awaited(s) == TimerTurns ==> Closer(ReceiveStep(s), s)
  {
  }

  lemma FireIsNoFarther(s: System)
    requires Sane(s) && InCall(s)
    ensures NoFarther(FireStep(s), s)
  {
    if FireStep(s) != s && Requests(s.threads.value.commands) != [] {
      AheadOfAppend(s.threads.value.commands, ExpireIdle(s.threads.value.timer.pending.value));
    }
  }

  /** The worker handles an expiry: one less ahead of the request. */
  lemma ExpiryIsNoFarther(s: System, calls: BeginCalls, deactivated: bool)
    requires Sane(s) && InCall(s) && s.threads.Some? && s.threads.value.running
    requires s.threads.value.commands != [] && s.threads.value.commands[0].ExpireIdle?
    ensures NoFarther(WorkerStep(s, calls, deactivated), s)
    ensures Awaited(s) == WorkerTurns ==> Closer(WorkerStep(s, calls, deactivated), s)
  {
    assert Requests(s.threads.value.commands) == Requests(s.threads.value.commands[1..]);
  }

  /** The worker handles the request itself. */
  lemma RequestIsCloser(s: System, calls: BeginCalls, deactivated: bool)
    requires Sane(s) && InCall(s) && s.threads.Some? && s.threads.value.running
    requires s.threads.value.commands != [] && !s.threads.value.commands[0].ExpireIdle?
    ensures Closer(WorkerStep(s, calls, deactivated), s)
  {
    assert Requests(s.threads.value.commands)[0] == s.threads.value.commands[0];
  }

  lemma WorkerStepIsNoFarther(s: System, calls: BeginCalls, deactivated: bool)
    requires Sane(s) && InCall(s)
    ensures NoFarther(WorkerStep(s, calls, deactivated), s)
    ensures Awaited(s) == WorkerTurns ==> Closer(WorkerStep(s, calls, deactivated), s)
  {
    if s.threads.Some? && s.threads.value.running && s.threads.value.commands != [] {
      if s.threads.value.commands[0].ExpireIdle? {
        ExpiryIsNoFarther(s, calls, deactivated);
      } else {
        RequestIsCloser(s, calls, deactivated);
      }
    }
  }

  lemma StepIsNoFarther(s: System, a: Action)
    requires Sane(s) && InCall(s)
    ensures NoFarther(Step(s, a), s)
    ensures TurnOf(a) == Awaited(s) ==> Closer(Step(s, a), s)
  {
    match a
    case WorkerTurn(calls, deactivated) => WorkerStepIsNoFarther(s, calls, deactivated);
    case TimerReceive => ReceiveIsNoFarther(s);
    case TimerFire => FireIsNoFarther(s);
    case _ =>
  }

  /** As long as the call is no closer, it goes on waiting for the same turn. */
  lemma SameTurnAwaited(s: System, a: Action)
    requires Sane(s) && InCall(s) && !Closer(Step(s, a), s)
    ensures Awaited(Step(s, a)) == Awaited(s)
  {
    StepIsNoFarther(s, a);
  }

  // ---- Whole schedules ----

  lemma {:induction false} AlwaysSane(f: Schedule, n: nat)
    ensures Sane(At(f, n))
  {
    if n > 0 {
      AlwaysSane(f, n - 1);
      StepKeepsInv(At(f, n - 1), f(n - 1));
      StepKeepsStop(At(f, n - 1), f(n - 1));
    }
  }

  /** Turn `n` of the schedule, seen from the call under way. */
  datatype Moment = Moment(inCall: bool, rank: nat, distance: nat, awaited: Turn, taken: Turn)

  function MomentAt(f: Schedule, n: nat): Moment {
    var s := At(f, n);
    Moment(InCall(s), Rank(s.phase), Distance(s), Awaited(s), TurnOf(f(n)))
  }

  predicate IsCloser(next: Moment, now: Moment) {
    next.rank < now.rank || (next.rank == now.rank && next.distance < now.distance)
  }

  /** Never farther, closer by the awaited turn, and waiting for the same turn until then. */
  predicate Advances(next: Moment, now: Moment) {
    if IsCloser(next, now) then true
    else
      && next.rank == now.rank && next.distance == now.distance
      && next.awaited == now.awaited && now.taken != now.awaited
  }

  lemma TurnAdvances(f: Schedule, n: nat)
    requires InCall(At(f, n))
    ensures Advances(MomentAt(f, n + 1), MomentAt(f, n))
  {
    AlwaysSane(f, n);
    StepIsNoFarther(At(f, n), f(n));
    if !Closer(At(f, n + 1), At(f, n)) {
      SameTurnAwaited(At(f, n), f(n));
    }
  }

  /** Any course of moments that advance while in a call, and in which every awaited turn comes, leaves the call. */
  lemma {:induction false} AdvancingEnds(course: nat -> Moment, n: nat, m: nat) returns (e: nat)
    requires forall k: nat :: course(k).inCall ==> Advances(course(k + 1), course(k))
    requires forall k: nat :: course(k).inCall ==> AwaitedComes(course, k)
    requires course(n).inCall && n <= m && course(m).taken == course(n).awaited
    ensures n < e && !course(e).inCall
    decreases course(n).rank, course(n).distance, m - n
  {
    assert Advances(course(n + 1), course(n));
    if !course(n + 1).inCall {
      e := n + 1;
    } else if IsCloser(course(n + 1), course(n)) {
      assert AwaitedComes(course, n + 1);
      var next: nat :| n + 1 <= next && course(next).taken == course(n + 1).awaited;
      e := AdvancingEnds(course, n + 1, next);
    } else {
      e := AdvancingEnds(course, n + 1, m);
    }
  }

  ghost predicate AwaitedComes(course: nat -> Moment, n: nat) {
    exists m: nat :: n <= m && course(m).taken == course(n).awaited
  }

  lemma FairCourse(f: Schedule, course: nat -> Moment, n: nat)
    requires Fair(f) && InCall(At(f, n)) && forall k: nat :: course(k) == MomentAt(f, k)
    ensures AwaitedComes(course, n)
  {
    AlwaysSane(f, n);
    assert ComesAfter(f, n, Awaited(At(f, n)));
    var m: nat :| n <= m && TurnOf(f(m)) == Awaited(At(f, n));
    assert course(m).taken == course(n).awaited;
  }

  /**
   Under every fair schedule every call of the facade returns, or ends in its drop: whatever the
   PipeWire calls answer, however many expiries and buffers come in between, and wherever the
   timer stands.
   */
  lemma EveryCallReturns(f: Schedule, n: nat)
    requires Fair(f)
    ensures exists e: nat :: n <= e && !InCall(At(f, e))
  {
    if InCall(At(f, n)) {
      var course := (k: nat) => MomentAt(f, k);
      forall k: nat | course(k).inCall
        ensures Advances(course(k + 1), course(k)) && AwaitedComes(course, k)
      {
        TurnAdvances(f, k);
        FairCourse(f, course, k);
      }
      assert AwaitedComes(course, n);
      var m: nat :| n <= m && course(m).taken == course(n).awaited;
      var e := AdvancingEnds(course, n, m);
      assert !InCall(At(f, e));
    }
  }
}

/**
 What a call of `write_config_file` returns, and why (crates/vinpst-config/src/persistence.rs):
 over every run of the step machine, whatever the other writers do and whatever is backed up where.
 */
module ConfigOutcomes {
  import opened Wrappers
  import opened ConfigPersistence

  // ---- Faults ----

  predicate MovesJob(a: Action, i: nat) {
    a.Move? && a.i == i
  }

  /** The call finds the temporary name it tries taken. */
  predicate Collides(s: System, i: nat) {
    i < |s.pcs| && s.pcs[i].Opening? && s.pcs[i].temp in s.files
  }

  /** How many of its temporary names the call has found taken. */
  function Collisions(init: Files, jobs: seq<Job>, actions: seq<Action>, i: nat): nat {
    if actions == [] then 0
    else
      var before, a := actions[..|actions| - 1], actions[|actions| - 1];
      Collisions(init, jobs, before, i) + (if MovesJob(a, i) && Collides(Run(init, jobs, before), i) then 1 else 0)
  }

  /**
   What goes wrong when job `i` moves: its config is invalid, all its names were taken, there is
   no config to copy, or the file-system call it makes fails.
   */
  function FaultOf(job: Job, s: System, i: nat, ok: bool, collisions: nat): Option<WriteError>
    requires i < |s.pcs|
  {
    var failed := !ok;
    match s.pcs[i]
    case Called => if !job.valid then Some(Validation) else None
    case MakingDirectory => if failed then Some(CreateDirectory) else None
    case Serializing => if failed then Some(Serialize) else None
    case Naming(_) => if collisions >= 32 then Some(CreateTemporary) else None
    case Opening(_, temp) => if failed && temp !in s.files then Some(CreateTemporary) else None
    case Writing(_, _) => if failed then Some(WriteTemporary) else None
    case Syncing(_) => if failed then Some(WriteTemporary) else None
    case Copying(_) => if failed || Config !in s.files then Some(BackupError) else None
    case Filling(_, _) => if failed then Some(BackupError) else None
    case Permitting(_) => if failed then Some(BackupError) else None
    case Renaming(_) => if failed then Some(RenameError) else None
    case _ => None
  }

  /** After the actions `before`, `a` moves job `i`, and that goes wrong. */
  predicate IsFault(init: Files, jobs: seq<Job>, before: seq<Action>, a: Action, i: nat, e: WriteError)
    requires i < |jobs|
  {
    var s := Run(init, jobs, before);
    && MovesJob(a, i) && i < |s.pcs|
    && FaultOf(jobs[i], s, i, a.ok, Collisions(init, jobs, before, i)) == Some(e)
  }

  /** Some move of the run was such a fault. */
  predicate IsCaused(init: Files, jobs: seq<Job>, actions: seq<Action>, i: nat, e: WriteError)
    requires i < |jobs|
  {
    && actions != []
    && var before := actions[..|actions| - 1];
       IsCaused(init, jobs, before, i, e) || IsFault(init, jobs, before, actions[|actions| - 1], i, e)
  }

  // ---- A call fails exactly for a fault ----

  predicate FailsWith(pc: Pc, e: WriteError) {
    pc == Done(Err(e)) || (pc.Removing? && pc.error == e)
  }

  /** What a call knows at each step. */
  predicate KeepsCount(job: Job, pc: Pc, collisions: nat) {
    && (pc.Called? || pc.MakingDirectory? || pc.Serializing? ==> collisions == 0)
    && (pc.Naming? ==> pc.attempt == collisions <= MAX_ATTEMPTS)
    && (pc.Opening? ==> pc.attempt == collisions < MAX_ATTEMPTS)
    && (pc.Writing? ==> pc.written <= |job.document|)
    && (pc.Copying? || pc.Filling? || pc.Permitting? ==> job.backup.Some?)
  }

  /** Where a move takes the call, apart from what it does to the files. */
  function NextPc(job: Job, s: System, i: nat, ok: bool, amount: nat): Pc
    requires i < |s.pcs|
  {
    MoveStep(job, s, i, ok, amount).pcs[i]
  }

  lemma EarlyMoveKeepsCount(job: Job, s: System, i: nat, ok: bool, amount: nat, collisions: nat)
    requires i < |s.pcs| && KeepsCount(job, s.pcs[i], collisions) && (IsPreparing(s.pcs[i]) || s.pcs[i].Opening?)
    ensures KeepsCount(job, NextPc(job, s, i, ok, amount), collisions + if Collides(s, i) then 1 else 0)
  {
  }

  lemma LateMoveKeepsCount(job: Job, s: System, i: nat, ok: bool, amount: nat, collisions: nat)
    requires i < |s.pcs| && KeepsCount(job, s.pcs[i], collisions) && !IsPreparing(s.pcs[i]) && !s.pcs[i].Opening?
    ensures KeepsCount(job, NextPc(job, s, i, ok, amount), collisions)
  {
  }

  lemma MoveKeepsCount(job: Job, s: System, i: nat, ok: bool, amount: nat, collisions: nat)
    requires i < |s.pcs| && KeepsCount(job, s.pcs[i], collisions)
    ensures KeepsCount(job, NextPc(job, s, i, ok, amount), collisions + if Collides(s, i) then 1 else 0)
  {
    if IsPreparing(s.pcs[i]) || s.pcs[i].Opening? {
      EarlyMoveKeepsCount(job, s, i, ok, amount, collisions);
    } else {
      LateMoveKeepsCount(job, s, i, ok, amount, collisions);
    }
  }

  predicate FailsJustThen(job: Job, s: System, i: nat, ok: bool, amount: nat, collisions: nat, e: WriteError)
    requires i < |s.pcs|
  {
    FailsWith(NextPc(job, s, i, ok, amount), e) <==>
    FailsWith(s.pcs[i], e) || FaultOf(job, s, i, ok, collisions) == Some(e)
  }

  lemma EarlyMoveFailsForAFault(job: Job, s: System, i: nat, ok: bool, amount: nat, collisions: nat, e: WriteError)
    requires i < |s.pcs| && KeepsCount(job, s.pcs[i], collisions) && (IsPreparing(s.pcs[i]) || s.pcs[i].Opening?)
    ensures FailsJustThen(job, s, i, ok, amount, collisions, e)
  {
  }

  lemma LateMoveFailsForAFault(job: Job, s: System, i: nat, ok: bool, amount: nat, collisions: nat, e: WriteError)
    requires i < |s.pcs| && KeepsCount(job, s.pcs[i], collisions) && UnderWay(job, s.files, s.pcs[i])
    requires !IsPreparing(s.pcs[i]) && !s.pcs[i].Opening?
    ensures FailsJustThen(job, s, i, ok, amount, collisions, e)
  {
  }

  lemma MoveFailsForAFault(job: Job, s: System, i: nat, ok: bool, amount: nat, collisions: nat, e: WriteError)
    requires i < |s.pcs| && KeepsCount(job, s.pcs[i], collisions) && UnderWay(job, s.files, s.pcs[i])
    ensures FailsJustThen(job, s, i, ok, amount, collisions, e)
  {
    if IsPreparing(s.pcs[i]) || s.pcs[i].Opening? {
      EarlyMoveFailsForAFault(job, s, i, ok, amount, collisions, e);
    } else {
      LateMoveFailsForAFault(job, s, i, ok, amount, collisions, e);
    }
  }

  /** A move of another job. */
  lemma OtherMovesLeaveTheCall(job: Job, s: System, j: nat, ok: bool, amount: nat, i: nat)
    requires i < |s.pcs| && j < |s.pcs| && j != i
    ensures var s' := MoveStep(job, s, j, ok, amount);
            |s'.pcs| == |s.pcs| && s'.pcs[i] == s.pcs[i]
  {
  }

  lemma OtherStepsLeaveTheCall(jobs: seq<Job>, s: System, a: Action, i: nat)
    requires i < |s.pcs| && !MovesJob(a, i)
    ensures var s' := Step(jobs, s, a);
            |s'.pcs| == |s.pcs| && (s'.pcs[i] == s.pcs[i] || (s'.pcs[i] == Dead && !s.pcs[i].Done?))
  {
    if a.Move? && a.i < |s.pcs| && a.i < |jobs| {
      OtherMovesLeaveTheCall(jobs[a.i], s, a.i, a.ok, a.amount, i);
    }
  }

  ghost predicate Accounted(init: Files, jobs: seq<Job>, actions: seq<Action>, i: nat)
    requires i < |jobs|
  {
    var s := Run(init, jobs, actions);
    && |s.pcs| == |jobs|
    && (!s.pcs[i].Dead? ==>
          && KeepsCount(jobs[i], s.pcs[i], Collisions(init, jobs, actions, i))
          && forall e :: FailsWith(s.pcs[i], e) <==> IsCaused(init, jobs, actions, i, e))
  }

  lemma {:induction false} EveryFailureIsAccounted(init: Files, jobs: seq<Job>, actions: seq<Action>, i: nat)
    requires i < |jobs|
    ensures Accounted(init, jobs, actions, i)
  {
    RunKeepsCore(init, jobs, actions);
    if actions != [] {
      var n := |actions| - 1;
      var before := actions[..n];
      EveryFailureIsAccounted(init, jobs, before, i);
      RunKeepsCore(init, jobs, before);
      StepIsAccounted(init, jobs, actions, i);
    }
  }

  lemma StepIsAccounted(init: Files, jobs: seq<Job>, actions: seq<Action>, i: nat)
    requires actions != [] && i < |jobs| && Accounted(init, jobs, actions[..|actions| - 1], i)
    requires CoreInv(jobs, Run(init, jobs, actions[..|actions| - 1])) && CoreInv(jobs, Run(init, jobs, actions))
    ensures Accounted(init, jobs, actions, i)
  {
    var n := |actions| - 1;
    var before, a := actions[..n], actions[n];
    var s := Run(init, jobs, before);
    var collisions := Collisions(init, jobs, before, i);
    if MovesJob(a, i) {
      if !s.pcs[i].Dead? {
        MoveKeepsCount(jobs[i], s, i, a.ok, a.amount, collisions);
      }
    } else {
      OtherStepsLeaveTheCall(jobs, s, a, i);
    }
    forall e | !Run(init, jobs, actions).pcs[i].Dead?
      ensures FailsWith(Run(init, jobs, actions).pcs[i], e) <==> IsCaused(init, jobs, actions, i, e)
    {
      if MovesJob(a, i) {
        MoveFailsForAFault(jobs[i], s, i, a.ok, a.amount, collisions, e);
      }
    }
  }

  /**
   In every run a call that returns, returns an error exactly if something went wrong for it, and
   that error: it is invalid, one of its own file-system calls failed, it backs up with no config
   present, or 32 of its temporary names were taken.
   */
  lemma ACallFailsIffItHasAFault(init: Files, jobs: seq<Job>, actions: seq<Action>, i: nat, e: WriteError)
    requires i < |jobs|
    ensures var pcs := Run(init, jobs, actions).pcs;
            && |pcs| == |jobs|
            && (pcs[i].Done? ==> (pcs[i] == Done(Err(e)) <==> IsCaused(init, jobs, actions, i, e)))
  {
    EveryFailureIsAccounted(init, jobs, actions, i);
    var pc := Run(init, jobs, actions).pcs[i];
    assert pc.Done? ==> (FailsWith(pc, e) <==> pc == Done(Err(e)));
  }

  /** A call that returns with no fault returns Ok, and one that returns Ok had none. */
  lemma ACallSucceedsIffItHasNoFault(init: Files, jobs: seq<Job>, actions: seq<Action>, i: nat)
    requires i < |jobs| && i < |Run(init, jobs, actions).pcs| && Run(init, jobs, actions).pcs[i].Done?
    ensures Run(init, jobs, actions).pcs[i].result.Ok? <==> forall e :: !IsCaused(init, jobs, actions, i, e)
  {
    var result := Run(init, jobs, actions).pcs[i].result;
    if result.Err? {
      ACallFailsIffItHasAFault(init, jobs, actions, i, result.error);
    } else {
      forall e
        ensures !IsCaused(init, jobs, actions, i, e)
      {
        ACallFailsIffItHasAFault(init, jobs, actions, i, e);
      }
    }
  }

  /** Its file-system calls succeed, there is a config whenever it starts to copy, and some name is free. */
  ghost predicate IsHealthy(init: Files, jobs: seq<Job>, actions: seq<Action>, i: nat) {
    actions == [] ||
    var before, a := actions[..|actions| - 1], actions[|actions| - 1];
    var s := Run(init, jobs, before);
    && IsHealthy(init, jobs, before, i)
    && Collisions(init, jobs, actions, i) < 32
    && (MovesJob(a, i) ==> a.ok && (i < |s.pcs| && s.pcs[i].Copying? ==> Config in s.files))
  }

  lemma {:induction false} AHealthyCallHasNoFault(
    init: Files, jobs: seq<Job>, actions: seq<Action>, i: nat, e: WriteError)
    requires i < |jobs| && jobs[i].valid && IsHealthy(init, jobs, actions, i)
    ensures !IsCaused(init, jobs, actions, i, e) && Collisions(init, jobs, actions, i) < 32
  {
    if actions != [] {
      AHealthyCallHasNoFault(init, jobs, actions[..|actions| - 1], i, e);
    }
  }

  /** On a healthy disk every valid call that returns at all returns Ok, with or without a backup. */
  lemma AHealthyCallReturnsOk(init: Files, jobs: seq<Job>, actions: seq<Action>, i: nat)
    requires i < |jobs| && jobs[i].valid && IsHealthy(init, jobs, actions, i)
    ensures var s := Run(init, jobs, actions);
            |s.pcs| == |jobs| && (s.pcs[i].Done? ==> s.pcs[i].result.Ok?)
  {
    EveryFailureIsAccounted(init, jobs, actions, i);
    var pc := Run(init, jobs, actions).pcs[i];
    if pc.Done? && pc.result.Err? {
      ACallFailsIffItHasAFault(init, jobs, actions, i, pc.result.error);
      AHealthyCallHasNoFault(init, jobs, actions, i, pc.result.error);
    }
  }

  // ---- Every call returns ----

  /** A bound on the moves a call still needs. */
  function MovesLeft(job: Job, pc: Pc): nat {
    var n := |job.document|;
    match pc
    case Called => n + 2 * MAX_ATTEMPTS + 12
    case MakingDirectory => n + 2 * MAX_ATTEMPTS + 11
    case Serializing => n + 2 * MAX_ATTEMPTS + 10
    case Naming(attempt) => n + 2 * (if attempt < MAX_ATTEMPTS then MAX_ATTEMPTS - attempt else 0) + 9
    case Opening(attempt, _) => n + 2 * (if attempt < MAX_ATTEMPTS then MAX_ATTEMPTS - attempt else 0) + 8
    case Writing(_, written) => (if written < n then n - written else 0) + 7
    case Syncing(_) => 6
    case Copying(_) => 5
    case Filling(_, _) => 4
    case Permitting(_) => 3
    case Renaming(_) => 2
    case Returning => 1
    case Removing(_, _) => 1
    case Done(_) => 0
    case Dead => 0
  }

  lemma EarlyMovesBringTheCallOn(job: Job, s: System, i: nat, ok: bool, amount: nat, collisions: nat)
    requires i < |s.pcs| && KeepsCount(job, s.pcs[i], collisions) && (IsPreparing(s.pcs[i]) || s.pcs[i].Opening?)
    ensures MovesLeft(job, NextPc(job, s, i, ok, amount)) < MovesLeft(job, s.pcs[i])
  {
  }

  lemma LateMovesBringTheCallOn(job: Job, s: System, i: nat, ok: bool, amount: nat, collisions: nat)
    requires i < |s.pcs| && KeepsCount(job, s.pcs[i], collisions) && !s.pcs[i].Done? && !s.pcs[i].Dead?
    requires !IsPreparing(s.pcs[i]) && !s.pcs[i].Opening?
    requires s.pcs[i].Writing? && ok ==> amount > 0
    ensures MovesLeft(job, NextPc(job, s, i, ok, amount)) < MovesLeft(job, s.pcs[i])
  {
  }

  /** However its file-system calls come out, each move brings a call closer to its return, if a write writes. */
  lemma AMoveBringsTheCallOn(job: Job, s: System, i: nat, ok: bool, amount: nat, collisions: nat)
    requires i < |s.pcs| && KeepsCount(job, s.pcs[i], collisions) && !s.pcs[i].Done? && !s.pcs[i].Dead?
    requires s.pcs[i].Writing? && ok ==> amount > 0
    ensures MovesLeft(job, NextPc(job, s, i, ok, amount)) < MovesLeft(job, s.pcs[i])
    ensures !NextPc(job, s, i, ok, amount).Dead?
  {
    if IsPreparing(s.pcs[i]) || s.pcs[i].Opening? {
      EarlyMovesBringTheCallOn(job, s, i, ok, amount, collisions);
    } else {
      LateMovesBringTheCallOn(job, s, i, ok, amount, collisions);
    }
    AMoveDoesNotKill(job, s, i, ok, amount);
  }

  lemma AMoveDoesNotKill(job: Job, s: System, i: nat, ok: bool, amount: nat)
    requires i < |s.pcs| && !s.pcs[i].Dead?
    ensures !NextPc(job, s, i, ok, amount).Dead?
  {
  }

  /** From every reachable state a live call can be brought to its end by its own moves, all of which succeed. */
  lemma {:induction false} ALiveCallCanReturn(init: Files, jobs: seq<Job>, actions: seq<Action>, i: nat)
    returns (more: seq<Action>)
    requires i < |jobs| && i < |Run(init, jobs, actions).pcs| && !Run(init, jobs, actions).pcs[i].Dead?
    ensures forall n :: 0 <= n < |more| ==> more[n] == Move(i, true, 1)
    ensures var s := Run(init, jobs, actions + more);
            i < |s.pcs| && s.pcs[i].Done?
    decreases MovesLeft(jobs[i], Run(init, jobs, actions).pcs[i])
  {
    EveryFailureIsAccounted(init, jobs, actions, i);
    var s := Run(init, jobs, actions);
    if s.pcs[i].Done? {
      more := [];
      assert actions + [] == actions;
    } else {
      var next := actions + [Move(i, true, 1)];
      assert next[..|actions|] == actions;
      AMoveBringsTheCallOn(jobs[i], s, i, true, 1, Collisions(init, jobs, actions, i));
      more := ALiveCallCanReturn(init, jobs, next, i);
      assert next + more == actions + ([Move(i, true, 1)] + more);
      more := [Move(i, true, 1)] + more;
    }
  }

  // ---- The names a call tries ----

  /** The temporary names the call has tried. */
  function TriedNames(init: Files, jobs: seq<Job>, actions: seq<Action>, i: nat): seq<Path> {
    if actions == [] then []
    else
      var before := actions[..|actions| - 1];
      var s, s' := Run(init, jobs, before), Run(init, jobs, actions);
      TriedNames(init, jobs, before, i) + (
        if i < |s.pcs| && i < |s'.pcs| && s.pcs[i].Naming? && s'.pcs[i].Opening? then [s'.pcs[i].temp] else [])
  }

  predicate IsLive(pc: Pc) {
    !pc.Called? && !pc.Done? && !pc.Dead?
  }

  ghost predicate NamesAreSpent(job: Job, s: System, i: nat, tried: seq<Path>) {
    && i < |s.pcs|
    && (s.pcs[i].Called? ==> tried == [])
    && (IsLive(s.pcs[i]) ==> forall n :: 0 <= n < |tried| ==>
          tried[n].Temp? && tried[n].pid == job.pid && tried[n].sequence < Counter(s, job.pid))
    && (forall m, n :: 0 <= m < n < |tried| ==> tried[m] != tried[n])
  }

  lemma CountersOnlyGrow(jobs: seq<Job>, s: System, a: Action, i: nat)
    requires i < |jobs| && |s.pcs| == |jobs| && IsLive(s.pcs[i])
    ensures Counter(Step(jobs, s, a), jobs[i].pid) >= Counter(s, jobs[i].pid)
  {
    assert IsRunning(jobs, s, jobs[i].pid);
  }

  lemma NamingTakesTheCounter(job: Job, s: System, i: nat, ok: bool, amount: nat)
    requires i < |s.pcs| && s.pcs[i].Naming?
    ensures var s' := MoveStep(job, s, i, ok, amount);
            s'.pcs[i].Opening? ==>
              && s'.pcs[i].temp == Temp(job.pid, Counter(s, job.pid))
              && Counter(s', job.pid) == Counter(s, job.pid) + 1
  {
  }

  /** A call begins with no names, and is live until it returns or dies. */
  lemma AMoveGoesForward(job: Job, s: System, i: nat, ok: bool, amount: nat)
    requires i < |s.pcs|
    ensures var pc' := NextPc(job, s, i, ok, amount);
            && !pc'.Called? && (IsLive(pc') ==> IsLive(s.pcs[i]) || s.pcs[i].Called?)
            && (s.pcs[i].Called? ==> !pc'.Opening?)
  {
  }

  lemma OnlyACallBegins(jobs: seq<Job>, s: System, a: Action, i: nat)
    requires i < |jobs| && |s.pcs| == |jobs|
    ensures var s' := Step(jobs, s, a);
            && |s'.pcs| == |jobs|
            && (s'.pcs[i].Called? ==> s.pcs[i].Called?)
            && (IsLive(s'.pcs[i]) ==> IsLive(s.pcs[i]) || s.pcs[i].Called?)
            && (s.pcs[i].Called? ==> !s'.pcs[i].Opening?)
            && (s.pcs[i].Naming? && s'.pcs[i].Opening? ==>
                  && s'.pcs[i].temp == Temp(jobs[i].pid, Counter(s, jobs[i].pid))
                  && Counter(s', jobs[i].pid) == Counter(s, jobs[i].pid) + 1)
  {
    if MovesJob(a, i) {
      AMoveGoesForward(jobs[i], s, i, a.ok, a.amount);
      if s.pcs[i].Naming? {
        NamingTakesTheCounter(jobs[i], s, i, a.ok, a.amount);
      }
    } else {
      OtherStepsLeaveTheCall(jobs, s, a, i);
    }
  }

  /** No call tries a name twice: 32 names taken are 32 different names. */
  lemma {:induction false} NoNameIsTriedTwice(init: Files, jobs: seq<Job>, actions: seq<Action>, i: nat)
    requires i < |jobs|
    ensures |Run(init, jobs, actions).pcs| == |jobs|
    ensures NamesAreSpent(jobs[i], Run(init, jobs, actions), i, TriedNames(init, jobs, actions, i))
  {
    if actions != [] {
      var before, a := actions[..|actions| - 1], actions[|actions| - 1];
      var s := Run(init, jobs, before);
      NoNameIsTriedTwice(init, jobs, before, i);
      OnlyACallBegins(jobs, s, a, i);
      if IsLive(s.pcs[i]) {
        CountersOnlyGrow(jobs, s, a, i);
      }
    }
  }
}

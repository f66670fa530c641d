/**
 `write_config_file` as a step machine: any number of writers of one config path, each in
 any process, over a modelled file system (crates/vinpst-config/src/persistence.rs).
 Every file-system call may fail, a writer may die between any two steps, and the machine
 may lose power, which garbles whatever was not synchronized and may undo renames.
 */
module ConfigPersistence {
  import opened Wrappers
  import opened Bytes

  // ---- File names ----

  datatype Path = Config | Temp(pid: nat, sequence: nat) | Other(name: string)

  function Digit(d: nat): char
    requires d < 10
  {
    '0' + d as char
  }

  function Decimal(n: nat): string {
    if n < 10 then [Digit(n)] else Decimal(n / 10) + [Digit(n % 10)]
  }

  /** `config_backup_path`. */
  function ConfigBackupPath(configPath: string): string {
    configPath + ".bak"
  }

  function TemporaryName(configPath: string, pid: nat, sequence: nat): string {
    configPath + ".tmp-" + Decimal(pid) + "-" + Decimal(sequence)
  }

  lemma {:induction false} DecimalHasDigits(n: nat)
    ensures Decimal(n) != [] && forall i :: 0 <= i < |Decimal(n)| ==> '0' <= Decimal(n)[i] <= '9'
  {
    if n >= 10 { DecimalHasDigits(n / 10); }
  }

  lemma {:induction false} DecimalIsInjective(a: nat, b: nat)
    requires Decimal(a) == Decimal(b)
    ensures a == b
  {
    DecimalHasDigits(a / 10);
    DecimalHasDigits(b / 10);
    var x, y := Decimal(a), Decimal(b);
    assert x[|x| - 1] == Digit(a % 10) && y[|y| - 1] == Digit(b % 10);
    if a >= 10 && b >= 10 {
      assert x[..|x| - 1] == Decimal(a / 10) && y[..|y| - 1] == Decimal(b / 10);
      DecimalIsInjective(a / 10, b / 10);
    }
  }

  lemma DashAt(a: string, rest: string)
    ensures (a + "-" + rest)[|a|] == '-' && (a + "-" + rest)[..|a|] == a && (a + "-" + rest)[|a| + 1..] == rest
  {
  }

  lemma NoDashBefore(pid: nat, rest: string)
    ensures forall i :: 0 <= i < |Decimal(pid)| ==> (Decimal(pid) + "-" + rest)[i] != '-'
  {
    DecimalHasDigits(pid);
    assert forall i :: 0 <= i < |Decimal(pid)| ==> (Decimal(pid) + "-" + rest)[i] == Decimal(pid)[i];
  }

  /** The dash ends the pid: no two (pid, sequence) pairs share a suffix. */
  lemma SuffixIsInjective(pid: nat, sequence: nat, pid': nat, sequence': nat)
    requires Decimal(pid) + "-" + Decimal(sequence) == Decimal(pid') + "-" + Decimal(sequence')
    ensures pid == pid' && sequence == sequence'
  {
    NoDashBefore(pid, Decimal(sequence));
    NoDashBefore(pid', Decimal(sequence'));
    DashAt(Decimal(pid), Decimal(sequence));
    DashAt(Decimal(pid'), Decimal(sequence'));
    DecimalIsInjective(pid, pid');
    DecimalIsInjective(sequence, sequence');
  }

  /** A temporary name determines its process and sequence number, and is neither the config nor its backup. */
  lemma TemporaryNamesAreDistinct(configPath: string, pid: nat, sequence: nat, pid': nat, sequence': nat)
    ensures TemporaryName(configPath, pid, sequence) == TemporaryName(configPath, pid', sequence') ==>
              pid == pid' && sequence == sequence'
    ensures TemporaryName(configPath, pid, sequence) != configPath
    ensures TemporaryName(configPath, pid, sequence) != ConfigBackupPath(configPath)
    ensures ConfigBackupPath(configPath) != configPath
  {
    var n := |configPath|;
    var name, name' := TemporaryName(configPath, pid, sequence), TemporaryName(configPath, pid', sequence');
    assert name[n..] == ".tmp-" + Decimal(pid) + "-" + Decimal(sequence);
    assert name[n + 5..] == Decimal(pid) + "-" + Decimal(sequence);
    assert name'[n + 5..] == Decimal(pid') + "-" + Decimal(sequence');
    assert name[n + 1] == 't' && ConfigBackupPath(configPath)[n + 1] == 'b';
    if name == name' {
      SuffixIsInjective(pid, sequence, pid', sequence');
    }
  }

  // ---- The machine ----

  datatype File = File(content: seq<byte>, synced: bool)

  type Files = map<Path, File>

  /** One call: the calling process, whether the config validates, and the document it serializes to. */
  datatype Job = Job(pid: nat, valid: bool, document: seq<byte>, backup: Option<Path>)

  datatype WriteError =
    Validation | CreateDirectory | Serialize | CreateTemporary | WriteTemporary | BackupError | RenameError

  datatype Pc =
    | Called
    | MakingDirectory
    | Serializing
    | Naming(attempt: nat)
    | Opening(attempt: nat, temp: Path)
    | Writing(temp: Path, written: nat)
    | Syncing(temp: Path)
    | Copying(temp: Path)
    | Filling(temp: Path, snapshot: seq<byte>)
    | Permitting(temp: Path)
    | Renaming(temp: Path)
    | Returning
    | Removing(temp: Path, error: WriteError)
    | Done(result: Result<(), WriteError>)
    | Dead

  /** `published` lists the jobs whose rename succeeded, `shown` all values the config path has had. */
  datatype System = System(
    files: Files, counters: map<nat, nat>, pcs: seq<Pc>, published: seq<nat>, shown: seq<Option<File>>)

  datatype Action =
    | Move(i: nat, ok: bool, amount: nat)
    | Crash(i: nat)
    | OtherWrites(pid: nat, counter: nat)
    | PowerLoss(garbled: map<Path, seq<byte>>, vanished: set<Path>, visible: nat)

  const MAX_ATTEMPTS := 32

  function Lookup(files: Files, p: Path): Option<File> {
    if p in files then Some(files[p]) else None
  }

  function Boot(init: Files, jobs: seq<Job>): System {
    System(init, map[], seq(|jobs|, _ => Called), [], [Lookup(init, Config)])
  }

  function To(s: System, i: nat, pc: Pc): System
    requires i < |s.pcs|
  {
    s.(pcs := s.pcs[i := pc])
  }

  function Counter(s: System, pid: nat): nat {
    if pid in s.counters then s.counters[pid] else 0
  }

  function Without(files: Files, p: Path): Files {
    map q | q in files && q != p :: files[q]
  }

  /** The next step of job `i`; `ok` is the outcome of its file-system call, `amount` how much got written. */
  function MoveStep(job: Job, s: System, i: nat, ok: bool, amount: nat): System
    requires i < |s.pcs|
  {
    match s.pcs[i]
    case Called => To(s, i, if job.valid then MakingDirectory else Done(Err(Validation)))
    case MakingDirectory => To(s, i, if ok then Serializing else Done(Err(CreateDirectory)))
    case Serializing => To(s, i, if ok then Naming(0) else Done(Err(Serialize)))
    case Naming(attempt) =>
      if attempt >= MAX_ATTEMPTS then To(s, i, Done(Err(CreateTemporary)))
      else
        var n := Counter(s, job.pid);
        To(s, i, Opening(attempt, Temp(job.pid, n))).(counters := s.counters[job.pid := n + 1])
    case Opening(attempt, temp) =>
      if temp in s.files then To(s, i, Naming(attempt + 1))
      else if !ok then To(s, i, Done(Err(CreateTemporary)))
      else To(s, i, Writing(temp, 0)).(files := s.files[temp := File([], false)])
    case Writing(temp, written) =>
      var n := Min(written + amount, |job.document|);
      if n < written then s
      else
        To(s, i, if !ok then Removing(temp, WriteTemporary)
                 else if n == |job.document| then Syncing(temp) else Writing(temp, n))
        .(files := s.files[temp := File(job.document[..n], false)])
    case Syncing(temp) =>
      if !ok then To(s, i, Removing(temp, WriteTemporary))
      else
        To(s, i, if job.backup.Some? then Copying(temp) else Renaming(temp))
        .(files := s.files[temp := File(job.document, true)])
    case Copying(temp) =>
      if !ok || Config !in s.files || job.backup.None? then To(s, i, Removing(temp, BackupError))
      else
        var target := job.backup.value;
        To(s, i, Filling(temp, if target == Config then [] else s.files[Config].content))
        .(files := s.files[target := File([], false)],
          shown := if target == Config then s.shown + [Some(File([], false))] else s.shown)
    case Filling(temp, snapshot) =>
      if job.backup.None? then s
      else
        var target := job.backup.value;
        var file := File(if ok then snapshot else snapshot[..Min(amount, |snapshot|)], false);
        To(s, i, if ok then Permitting(temp) else Removing(temp, BackupError))
        .(files := s.files[target := file], shown := if target == Config then s.shown + [Some(file)] else s.shown)
    case Permitting(temp) => To(s, i, if ok then Renaming(temp) else Removing(temp, BackupError))
    case Renaming(temp) =>
      if !ok || temp !in s.files then To(s, i, Removing(temp, RenameError))
      else
        To(s, i, Returning)
        .(files := Without(s.files[Config := s.files[temp]], temp),
          published := s.published + [i], shown := s.shown + [Some(s.files[temp])])
    case Returning => To(s, i, Done(Ok(())))
    case Removing(temp, error) =>
      To(s, i, Done(Err(error))).(files := if ok then Without(s.files, temp) else s.files)
    case Done(_) => s
    case Dead => s
  }

  function Die(pc: Pc): Pc {
    if pc.Done? then pc else Dead
  }

  /** What power loss leaves at a path: synchronized files survive, the others are garbled or gone. */
  function AfterPowerLoss(s: System, garbled: map<Path, seq<byte>>, vanished: set<Path>, visible: nat): System
    requires visible < |s.shown|
  {
    var kept := map p | p in s.files && p != Config && p !in vanished ::
                  if s.files[p].synced || p !in garbled then s.files[p] else File(garbled[p], false);
    var config := s.shown[visible];
    var config' := if config.Some? && !config.value.synced && Config in garbled
                   then Some(File(garbled[Config], false)) else config;
    s.(files := if config'.Some? then kept[Config := config'.value] else kept,
       pcs := seq(|s.pcs|, i requires 0 <= i < |s.pcs| => Die(s.pcs[i])),
       shown := s.shown + [config'])
  }

  /** Some call of this process is under way. */
  predicate IsRunning(jobs: seq<Job>, s: System, pid: nat) {
    exists i :: 0 <= i < |jobs| && i < |s.pcs| && jobs[i].pid == pid
                && !s.pcs[i].Called? && !s.pcs[i].Done? && !s.pcs[i].Dead?
  }

  /**
   An action that is not enabled changes nothing. Other writes of a process, to other paths,
   move its counter up; a new process may get the number of one with no call under way.
   */
  function Step(jobs: seq<Job>, s: System, a: Action): System {
    match a
    case Move(i, ok, amount) => if i < |s.pcs| && i < |jobs| then MoveStep(jobs[i], s, i, ok, amount) else s
    case Crash(i) => if i < |s.pcs| then To(s, i, Die(s.pcs[i])) else s
    case OtherWrites(pid, counter) =>
      if Counter(s, pid) <= counter || !IsRunning(jobs, s, pid) then s.(counters := s.counters[pid := counter]) else s
    case PowerLoss(garbled, vanished, visible) =>
      if visible < |s.shown| then AfterPowerLoss(s, garbled, vanished, visible) else s
  }

  function Run(init: Files, jobs: seq<Job>, actions: seq<Action>): System {
    if actions == [] then Boot(init, jobs)
    else Step(jobs, Run(init, jobs, actions[..|actions| - 1]), actions[|actions| - 1])
  }

  // ---- What a reader of the config path may find ----

  /** The original (or its absence), or the complete, synchronized document of a published job. */
  ghost predicate Acceptable(init: Files, jobs: seq<Job>, published: seq<nat>, found: Option<File>) {
    || found == Lookup(init, Config)
    || exists i :: i in published && i < |jobs| && jobs[i].valid && found == Some(File(jobs[i].document, true))
  }

  ghost predicate Safe(init: Files, jobs: seq<Job>, s: System) {
    Acceptable(init, jobs, s.published, Lookup(s.files, Config))
  }

  /**
   Job `i`'s backup path is the config path itself, or a temporary name that job `j` may take.
   A caller can check it: nothing but the jobs and the files at the start is looked at.
   */
  predicate Overwrites(init: Files, jobs: seq<Job>, i: nat, j: nat)
    requires i < |jobs| && j < |jobs|
  {
    && jobs[i].valid && jobs[j].valid && jobs[i].backup.Some?
    && var target := jobs[i].backup.value;
       || (target == Config && i == j)
       || (target.Temp? && target.pid == jobs[j].pid && target !in init)
  }

  /** There is a config to copy before job `j` renames: the original, or one that another job creates. */
  predicate HasConfigWithout(init: Files, jobs: seq<Job>, j: nat) {
    Config in init || exists k :: 0 <= k < |jobs| && k != j && jobs[k].valid && jobs[k].backup.None?
  }

  predicate BackupsAreHarmless(init: Files, jobs: seq<Job>) {
    forall i: nat, j: nat ::
      i < |jobs| && j < |jobs| && Overwrites(init, jobs, i, j) ==> !HasConfigWithout(init, jobs, j)
  }

  /** The original document is on disk before the first call. */
  predicate Durable(init: Files) {
    Config in init ==> init[Config].synced
  }

  // ---- What holds whatever is backed up where ----

  function Held(pc: Pc): Option<Path> {
    match pc
    case Writing(temp, _) => Some(temp)
    case Syncing(temp) => Some(temp)
    case Copying(temp) => Some(temp)
    case Filling(temp, _) => Some(temp)
    case Permitting(temp) => Some(temp)
    case Renaming(temp) => Some(temp)
    case Removing(temp, _) => Some(temp)
    case _ => None
  }

  predicate HasRenamed(pc: Pc) {
    pc.Returning? || pc == Done(Ok(()))
  }

  /** Who has renamed is published, once; who is published has renamed, and may have died since. */
  ghost predicate PublishedHaveRenamed(jobs: seq<Job>, s: System) {
    && |s.pcs| == |jobs|
    && (forall i :: i in s.published ==> i < |jobs| && jobs[i].valid && (HasRenamed(s.pcs[i]) || s.pcs[i].Dead?))
    && (forall i: nat :: i < |jobs| && HasRenamed(s.pcs[i]) ==> i in s.published)
    && (forall m, n :: 0 <= m < n < |s.published| ==> s.published[m] != s.published[n])
  }

  /** A job under way is valid, and the temporary file it holds exists. */
  predicate UnderWay(job: Job, files: Files, pc: Pc) {
    && (Held(pc).Some? ==> job.valid && Held(pc).value.Temp? && Held(pc).value in files)
    && (pc.Opening? ==> pc.temp.Temp?)
    && (pc.MakingDirectory? || pc.Serializing? || pc.Naming? || pc.Opening? ==> job.valid)
  }

  /** No two jobs hold one file. */
  ghost predicate HeldApart(s: System) {
    forall i, j :: 0 <= i < j < |s.pcs| && Held(s.pcs[i]).Some? ==> Held(s.pcs[i]) != Held(s.pcs[j])
  }

  ghost predicate CoreInv(jobs: seq<Job>, s: System) {
    && PublishedHaveRenamed(jobs, s) && HeldApart(s)
    && (forall i :: 0 <= i < |jobs| ==> UnderWay(jobs[i], s.files, s.pcs[i]))
  }

  predicate OneMoves(s: System, s': System, i: nat) {
    i < |s.pcs| == |s'.pcs| && s'.pcs == s.pcs[i := s'.pcs[i]]
  }

  /** Job `i` moves; a file goes only if it is its own, and it takes only one that was not there. */
  lemma CoreMove(jobs: seq<Job>, s: System, s': System, i: nat)
    requires CoreInv(jobs, s) && i < |jobs| && OneMoves(s, s', i) && PublishedHaveRenamed(jobs, s')
    requires forall p: Path :: p.Temp? && p in s.files && Some(p) != Held(s.pcs[i]) ==> p in s'.files
    requires UnderWay(jobs[i], s'.files, s'.pcs[i])
    requires Held(s'.pcs[i]) == Held(s.pcs[i]) || Held(s'.pcs[i]).None? || Held(s'.pcs[i]).value !in s.files
    ensures CoreInv(jobs, s')
  {
    forall j | 0 <= j < |jobs| && j != i
      ensures UnderWay(jobs[j], s'.files, s'.pcs[j])
      ensures Held(s.pcs[j]).Some? ==> Held(s'.pcs[i]) != Held(s.pcs[j])
    {
      assert UnderWay(jobs[j], s.files, s.pcs[j]);
    }
  }

  predicate IsPreparing(pc: Pc) {
    pc.Called? || pc.MakingDirectory? || pc.Serializing? || pc.Naming?
  }

  predicate IsStaging(pc: Pc) {
    pc.Opening? || pc.Writing? || pc.Syncing?
  }

  lemma PrepareKeepsCore(jobs: seq<Job>, s: System, i: nat, ok: bool, amount: nat)
    requires CoreInv(jobs, s) && i < |jobs| && IsPreparing(s.pcs[i])
    ensures CoreInv(jobs, MoveStep(jobs[i], s, i, ok, amount))
  {
    assert UnderWay(jobs[i], s.files, s.pcs[i]);
    CoreMove(jobs, s, MoveStep(jobs[i], s, i, ok, amount), i);
  }

  lemma OpenKeepsCore(jobs: seq<Job>, s: System, i: nat, ok: bool, amount: nat)
    requires CoreInv(jobs, s) && i < |jobs| && s.pcs[i].Opening?
    ensures CoreInv(jobs, MoveStep(jobs[i], s, i, ok, amount))
  {
    assert UnderWay(jobs[i], s.files, s.pcs[i]);
    CoreMove(jobs, s, MoveStep(jobs[i], s, i, ok, amount), i);
  }

  lemma WriteKeepsCore(jobs: seq<Job>, s: System, i: nat, ok: bool, amount: nat)
    requires CoreInv(jobs, s) && i < |jobs| && (s.pcs[i].Writing? || s.pcs[i].Syncing?)
    ensures CoreInv(jobs, MoveStep(jobs[i], s, i, ok, amount))
  {
    assert UnderWay(jobs[i], s.files, s.pcs[i]);
    CoreMove(jobs, s, MoveStep(jobs[i], s, i, ok, amount), i);
  }

  lemma BackupKeepsCore(jobs: seq<Job>, s: System, i: nat, ok: bool, amount: nat)
    requires CoreInv(jobs, s) && i < |jobs| && (s.pcs[i].Copying? || s.pcs[i].Filling? || s.pcs[i].Permitting?)
    ensures CoreInv(jobs, MoveStep(jobs[i], s, i, ok, amount))
  {
    assert UnderWay(jobs[i], s.files, s.pcs[i]);
    CoreMove(jobs, s, MoveStep(jobs[i], s, i, ok, amount), i);
  }

  lemma RenameKeepsCore(jobs: seq<Job>, s: System, i: nat, ok: bool, amount: nat)
    requires CoreInv(jobs, s) && i < |jobs| && s.pcs[i].Renaming?
    ensures CoreInv(jobs, MoveStep(jobs[i], s, i, ok, amount))
  {
    assert UnderWay(jobs[i], s.files, s.pcs[i]);
    assert i !in s.published && i in s.published + [i];
    CoreMove(jobs, s, MoveStep(jobs[i], s, i, ok, amount), i);
  }

  lemma ReturnKeepsCore(jobs: seq<Job>, s: System, i: nat, ok: bool, amount: nat)
    requires CoreInv(jobs, s) && i < |jobs| && (s.pcs[i].Returning? || s.pcs[i].Removing?)
    ensures CoreInv(jobs, MoveStep(jobs[i], s, i, ok, amount))
  {
    assert UnderWay(jobs[i], s.files, s.pcs[i]);
    CoreMove(jobs, s, MoveStep(jobs[i], s, i, ok, amount), i);
  }

  lemma MoveKeepsCore(jobs: seq<Job>, s: System, i: nat, ok: bool, amount: nat)
    requires CoreInv(jobs, s) && i < |jobs|
    ensures CoreInv(jobs, MoveStep(jobs[i], s, i, ok, amount))
  {
    var pc := s.pcs[i];
    if IsPreparing(pc) {
      PrepareKeepsCore(jobs, s, i, ok, amount);
    } else if pc.Opening? {
      OpenKeepsCore(jobs, s, i, ok, amount);
    } else if pc.Writing? || pc.Syncing? {
      WriteKeepsCore(jobs, s, i, ok, amount);
    } else if pc.Copying? || pc.Filling? || pc.Permitting? {
      BackupKeepsCore(jobs, s, i, ok, amount);
    } else if pc.Renaming? {
      RenameKeepsCore(jobs, s, i, ok, amount);
    } else if pc.Returning? || pc.Removing? {
      ReturnKeepsCore(jobs, s, i, ok, amount);
    }
  }

  lemma CrashKeepsCore(jobs: seq<Job>, s: System, i: nat)
    requires CoreInv(jobs, s) && i < |jobs|
    ensures CoreInv(jobs, To(s, i, Die(s.pcs[i])))
  {
    CoreMove(jobs, s, To(s, i, Die(s.pcs[i])), i);
  }

  lemma PowerLossKeepsCore(
    jobs: seq<Job>, s: System, garbled: map<Path, seq<byte>>, vanished: set<Path>, visible: nat)
    requires CoreInv(jobs, s) && visible < |s.shown|
    ensures CoreInv(jobs, AfterPowerLoss(s, garbled, vanished, visible))
  {
  }

  lemma StepKeepsCore(jobs: seq<Job>, s: System, a: Action)
    requires CoreInv(jobs, s)
    ensures CoreInv(jobs, Step(jobs, s, a))
  {
    match a
    case Move(i, ok, amount) => if i < |jobs| { MoveKeepsCore(jobs, s, i, ok, amount); }
    case Crash(i) => if i < |jobs| { CrashKeepsCore(jobs, s, i); }
    case OtherWrites(_, _) =>
    case PowerLoss(garbled, vanished, visible) =>
      if visible < |s.shown| { PowerLossKeepsCore(jobs, s, garbled, vanished, visible); }
  }

  lemma {:induction false} RunKeepsCore(init: Files, jobs: seq<Job>, actions: seq<Action>)
    ensures CoreInv(jobs, Run(init, jobs, actions))
  {
    if actions != [] {
      var before := actions[..|actions| - 1];
      RunKeepsCore(init, jobs, before);
      StepKeepsCore(jobs, Run(init, jobs, before), actions[|actions| - 1]);
    }
  }

  /** Whatever is backed up where: a call that returned an error never published, one that returned Ok did, once. */
  lemma OnlyOkPublishes(init: Files, jobs: seq<Job>, actions: seq<Action>)
    ensures var s := Run(init, jobs, actions);
            && |s.pcs| == |jobs|
            && (forall i :: 0 <= i < |jobs| && s.pcs[i] == Done(Ok(())) ==> i in s.published)
            && (forall i :: 0 <= i < |jobs| && s.pcs[i].Done? && s.pcs[i].result.Err? ==> i !in s.published)
            && (forall m, n :: 0 <= m < n < |s.published| ==> s.published[m] != s.published[n])
  {
    RunKeepsCore(init, jobs, actions);
  }

  /** Whatever is backed up where: no two live writers share a temporary file. */
  lemma TemporaryFilesAreNotShared(init: Files, jobs: seq<Job>, actions: seq<Action>, i: nat, j: nat)
    requires i < j < |jobs|
    ensures var pcs := Run(init, jobs, actions).pcs;
            |pcs| == |jobs| && (Held(pcs[i]).Some? ==> Held(pcs[i]) != Held(pcs[j]))
  {
    RunKeepsCore(init, jobs, actions);
  }

  /** Nobody dies, the power stays on, and every removal of a temporary file succeeds. */
  ghost predicate Calm(init: Files, jobs: seq<Job>, actions: seq<Action>) {
    actions == [] ||
    var before := actions[..|actions| - 1];
    var a := actions[|actions| - 1];
    && Calm(init, jobs, before)
    && !a.Crash? && !a.PowerLoss?
    && (a.Move? && !a.ok ==>
          var pcs := Run(init, jobs, before).pcs;
          a.i < |pcs| ==> !pcs[a.i].Removing?)
  }

  /** Files at temporary names that were not there before, but for what jobs put there as their backup. */
  ghost predicate TemporariesAreHeld(init: Files, jobs: seq<Job>, s: System) {
    forall p: Path :: p.Temp? && p in s.files && p !in init && !IsBackup(jobs, p) ==> IsHeld(s, p)
  }

  predicate IsBackup(jobs: seq<Job>, p: Path) {
    exists i :: 0 <= i < |jobs| && jobs[i].backup == Some(p)
  }

  ghost predicate IsHeld(s: System, p: Path) {
    exists i :: 0 <= i < |s.pcs| && Held(s.pcs[i]) == Some(p)
  }

  /** From `s` to `s'` the file at `p` is taken by job `i`, or was there and not let go of. */
  predicate IsTakenOrKept(s: System, s': System, i: nat, p: Path)
    requires i < |s.pcs| && i < |s'.pcs|
  {
    Held(s'.pcs[i]) == Some(p) || (p in s.files && Held(s.pcs[i]) != Some(p))
  }

  lemma StagingAddsOnlyItsOwn(job: Job, s: System, i: nat, ok: bool, amount: nat, p: Path)
    requires i < |s.pcs| && UnderWay(job, s.files, s.pcs[i]) && (IsPreparing(s.pcs[i]) || IsStaging(s.pcs[i]))
    requires p.Temp? && p in MoveStep(job, s, i, ok, amount).files
    ensures IsTakenOrKept(s, MoveStep(job, s, i, ok, amount), i, p)
  {
  }

  /** The only file a move adds is the job's own or its backup, and it lets go of its own only by removing it. */
  lemma MoveAddsOnlyItsOwn(job: Job, s: System, i: nat, ok: bool, amount: nat, p: Path)
    requires i < |s.pcs| && UnderWay(job, s.files, s.pcs[i]) && (s.pcs[i].Removing? ==> ok)
    requires p.Temp? && Some(p) != job.backup && p in MoveStep(job, s, i, ok, amount).files
    ensures IsTakenOrKept(s, MoveStep(job, s, i, ok, amount), i, p)
  {
    if IsPreparing(s.pcs[i]) || IsStaging(s.pcs[i]) {
      StagingAddsOnlyItsOwn(job, s, i, ok, amount, p);
    }
  }

  lemma MoveKeepsTemporariesHeld(init: Files, jobs: seq<Job>, s: System, i: nat, ok: bool, amount: nat)
    requires CoreInv(jobs, s) && i < |jobs| && TemporariesAreHeld(init, jobs, s)
    requires s.pcs[i].Removing? ==> ok
    ensures TemporariesAreHeld(init, jobs, MoveStep(jobs[i], s, i, ok, amount))
  {
    var s' := MoveStep(jobs[i], s, i, ok, amount);
    forall p: Path | p.Temp? && p in s'.files && p !in init && !IsBackup(jobs, p)
      ensures IsHeld(s', p)
    {
      MoveAddsOnlyItsOwn(jobs[i], s, i, ok, amount, p);
      if Held(s'.pcs[i]) != Some(p) {
        var j :| 0 <= j < |s.pcs| && Held(s.pcs[j]) == Some(p);
        assert Held(s'.pcs[j]) == Some(p);
      }
    }
  }

  /**
   In a calm run, whatever is backed up where, every temporary file was there before, is some
   call's backup, or belongs to a call that has not returned.
   */
  lemma {:induction false} NoTemporaryFileSurvives(init: Files, jobs: seq<Job>, actions: seq<Action>)
    requires Calm(init, jobs, actions)
    ensures TemporariesAreHeld(init, jobs, Run(init, jobs, actions))
  {
    if actions != [] {
      var before := actions[..|actions| - 1];
      var a := actions[|actions| - 1];
      NoTemporaryFileSurvives(init, jobs, before);
      RunKeepsCore(init, jobs, before);
      var s := Run(init, jobs, before);
      if a.Move? && a.i < |jobs| {
        MoveKeepsTemporariesHeld(init, jobs, s, a.i, a.ok, a.amount);
      } else {
        assert Run(init, jobs, actions).files == s.files && Run(init, jobs, actions).pcs == s.pcs;
        assert forall p: Path :: IsHeld(s, p) ==> IsHeld(Run(init, jobs, actions), p);
      }
    }
  }

  // ---- The invariant when backups are harmless ----

  predicate NoPowerLoss(actions: seq<Action>) {
    forall n :: 0 <= n < |actions| ==> !actions[n].PowerLoss?
  }

  /** A temporary name of the job's own process that no file had at the start. */
  predicate IsOwn(init: Files, job: Job, p: Path) {
    p.Temp? && p.pid == job.pid && p !in init
  }

  ghost predicate Staged(init: Files, job: Job, files: Files, pc: Pc) {
    && UnderWay(job, files, pc)
    && (Held(pc).Some? ==> IsOwn(init, job, Held(pc).value))
    && (match pc
        case Opening(_, temp) => temp.pid == job.pid
        case Writing(temp, written) =>
          written <= |job.document| && files[temp].content == job.document[..written]
        case Syncing(temp) => files[temp].content == job.document
        case Copying(temp) => files[temp] == File(job.document, true)
        case Filling(temp, _) => files[temp] == File(job.document, true)
        case Permitting(temp) => files[temp] == File(job.document, true)
        case Renaming(temp) => files[temp] == File(job.document, true)
        case _ => true)
  }

  ghost predicate AllStaged(init: Files, jobs: seq<Job>, s: System) {
    && |s.pcs| == |jobs|
    && (forall i :: 0 <= i < |jobs| ==> Staged(init, jobs[i], s.files, s.pcs[i]))
  }

  /** After power loss nobody moves any more. */
  ghost predicate Halted(s: System) {
    forall i :: 0 <= i < |s.pcs| ==> s.pcs[i].Done? || s.pcs[i].Dead?
  }

  ghost predicate OriginalsStay(init: Files, s: System) {
    Halted(s) || forall p: Path :: p.Temp? && p in init ==> p in s.files
  }

  ghost predicate EverSeen(s: System) {
    exists v :: v in s.shown && v.Some?
  }

  /** Job `k` needed no config to publish, and did. */
  predicate Founded(jobs: seq<Job>, s: System, k: nat) {
    k < |jobs| && jobs[k].valid && jobs[k].backup.None? && k in s.published
  }

  predicate HasCopied(job: Job, pc: Pc) {
    pc.Filling? || pc.Permitting? || (pc.Renaming? && job.backup.Some?)
  }

  /** A config was there from the start or founded by a job; who has copied one has seen one. */
  ghost predicate ConfigHasAnOrigin(init: Files, jobs: seq<Job>, s: System) {
    && (EverSeen(s) ==> Config in init || exists k: nat :: Founded(jobs, s, k))
    && (forall i :: 0 <= i < |jobs| && i < |s.pcs| && HasCopied(jobs[i], s.pcs[i]) ==> EverSeen(s))
  }

  ghost predicate Inv(init: Files, jobs: seq<Job>, s: System) {
    && CoreInv(jobs, s) && AllStaged(init, jobs, s)
    && (forall v :: v in s.shown ==> Acceptable(init, jobs, s.published, v))
    && s.shown != [] && s.shown[|s.shown| - 1] == Lookup(s.files, Config)
    && OriginalsStay(init, s) && ConfigHasAnOrigin(init, jobs, s)
  }

  /** Job `i` moves and leaves the files that other jobs hold as they were. */
  lemma OthersAreUndisturbed(init: Files, jobs: seq<Job>, s: System, s': System, i: nat)
    requires AllStaged(init, jobs, s) && i < |jobs| && OneMoves(s, s', i)
    requires forall j :: 0 <= j < |jobs| && j != i && Held(s.pcs[j]).Some? ==>
               Lookup(s'.files, Held(s.pcs[j]).value) == Lookup(s.files, Held(s.pcs[j]).value)
    requires Staged(init, jobs[i], s'.files, s'.pcs[i])
    ensures AllStaged(init, jobs, s')
  {
    forall j | 0 <= j < |jobs| && j != i
      ensures Staged(init, jobs[j], s'.files, s'.pcs[j])
    {
      assert Staged(init, jobs[j], s.files, s.pcs[j]);
    }
  }

  lemma OriginKept(init: Files, jobs: seq<Job>, s: System, s': System, i: nat)
    requires ConfigHasAnOrigin(init, jobs, s) && OneMoves(s, s', i)
    requires s'.shown == s.shown && s'.published == s.published
    requires i < |jobs| && HasCopied(jobs[i], s'.pcs[i]) ==> EverSeen(s)
    ensures ConfigHasAnOrigin(init, jobs, s')
  {
    if k: nat :| Founded(jobs, s, k) {
      assert Founded(jobs, s', k);
    }
  }

  /** A move of job `i` that leaves the config path alone: what is left to show once its own file is right. */
  lemma UnpublishedMove(init: Files, jobs: seq<Job>, s: System, s': System, i: nat)
    requires Inv(init, jobs, s) && i < |jobs| && AllStaged(init, jobs, s') && OneMoves(s, s', i)
    requires s'.published == s.published && s'.shown == s.shown
    requires Lookup(s'.files, Config) == Lookup(s.files, Config)
    requires CoreInv(jobs, s') && OriginalsStay(init, s')
    requires HasCopied(jobs[i], s'.pcs[i]) ==> EverSeen(s)
    ensures Inv(init, jobs, s')
  {
    OriginKept(init, jobs, s, s', i);
  }

  /** A file that no other job holds may change; `i`'s own may, and it may come or go. */
  lemma OthersHoldOtherFiles(init: Files, jobs: seq<Job>, s: System, files: Files, i: nat, touched: Path)
    requires i < |jobs| == |s.pcs|
    requires forall j :: 0 <= j < |jobs| && j != i ==> Held(s.pcs[j]) != Some(touched)
    requires forall p: Path :: p != touched ==> Lookup(files, p) == Lookup(s.files, p)
    ensures forall j :: 0 <= j < |jobs| && j != i && Held(s.pcs[j]).Some? ==>
              Lookup(files, Held(s.pcs[j]).value) == Lookup(s.files, Held(s.pcs[j]).value)
  {
  }

  // ---- Every step keeps it, one group of program counters at a time ----

  lemma PrepareKeepsInv(init: Files, jobs: seq<Job>, s: System, i: nat, ok: bool, amount: nat)
    requires Inv(init, jobs, s) && i < |jobs| && IsPreparing(s.pcs[i])
    ensures Inv(init, jobs, MoveStep(jobs[i], s, i, ok, amount))
  {
    var s' := MoveStep(jobs[i], s, i, ok, amount);
    MoveKeepsCore(jobs, s, i, ok, amount);
    assert Staged(init, jobs[i], s.files, s.pcs[i]);
    OthersAreUndisturbed(init, jobs, s, s', i);
    UnpublishedMove(init, jobs, s, s', i);
  }

  lemma StageKeepsInv(init: Files, jobs: seq<Job>, s: System, i: nat, ok: bool, amount: nat)
    requires Inv(init, jobs, s) && i < |jobs| && IsStaging(s.pcs[i])
    ensures Inv(init, jobs, MoveStep(jobs[i], s, i, ok, amount))
  {
    var s' := MoveStep(jobs[i], s, i, ok, amount);
    var pc := s.pcs[i];
    var temp := if pc.Opening? then pc.temp else Held(pc).value;
    MoveKeepsCore(jobs, s, i, ok, amount);
    assert Staged(init, jobs[i], s.files, pc);
    if pc.Opening? {
      OpeningMove(init, jobs[i], s, i, ok, amount);
    } else {
      WritingMove(init, jobs[i], s, i, ok, amount);
    }
    if s' != s {
      assert pc.Opening? && s'.files != s.files ==> temp !in s.files;
      if s'.files == s.files {
        OthersAreUndisturbed(init, jobs, s, s', i);
      } else {
        OthersHoldOtherFiles(init, jobs, s, s'.files, i, temp);
        OthersAreUndisturbed(init, jobs, s, s', i);
      }
      UnpublishedMove(init, jobs, s, s', i);
    }
  }

  /** A step from `s` to `s'` that touches the job's own temporary file and nothing else. */
  ghost predicate StagesOnly(init: Files, job: Job, s: System, s': System, i: nat, temp: Path) {
    && OneMoves(s, s', i) && s'.published == s.published && s'.shown == s.shown
    && Staged(init, job, s'.files, s'.pcs[i])
    && (forall p: Path :: p != temp ==> Lookup(s'.files, p) == Lookup(s.files, p))
    && (temp in s.files ==> temp in s'.files)
    && !s'.pcs[i].Filling? && !s'.pcs[i].Permitting? && (s'.pcs[i].Renaming? ==> job.backup.None?)
  }

  lemma OpeningMove(init: Files, job: Job, s: System, i: nat, ok: bool, amount: nat)
    requires i < |s.pcs| && s.pcs[i].Opening? && Staged(init, job, s.files, s.pcs[i]) && OriginalsStay(init, s)
    ensures StagesOnly(init, job, s, MoveStep(job, s, i, ok, amount), i, s.pcs[i].temp)
  {
  }

  lemma WritingMove(init: Files, job: Job, s: System, i: nat, ok: bool, amount: nat)
    requires i < |s.pcs| && (s.pcs[i].Writing? || s.pcs[i].Syncing?) && Staged(init, job, s.files, s.pcs[i])
    ensures StagesOnly(init, job, s, MoveStep(job, s, i, ok, amount), i, s.pcs[i].temp)
  {
  }

  /** Once there was a config, there was one that a job still under way has nothing to do with. */
  lemma LiveJobsHaveAConfig(init: Files, jobs: seq<Job>, s: System, j: nat)
    requires ConfigHasAnOrigin(init, jobs, s) && EverSeen(s) && j !in s.published
    ensures HasConfigWithout(init, jobs, j)
  {
    if Config !in init {
      var k: nat :| Founded(jobs, s, k);
    }
  }

  /** In a harmless run a copy goes to a path that is neither the config nor held by anybody. */
  lemma BackupIsFree(init: Files, jobs: seq<Job>, s: System, i: nat)
    requires Inv(init, jobs, s) && BackupsAreHarmless(init, jobs) && i < |jobs| && jobs[i].backup.Some?
    requires (s.pcs[i].Copying? && Config in s.files) || s.pcs[i].Filling?
    ensures jobs[i].backup != Some(Config)
    ensures forall j :: 0 <= j < |jobs| ==> Held(s.pcs[j]) != jobs[i].backup
  {
    assert Staged(init, jobs[i], s.files, s.pcs[i]);
    assert EverSeen(s) by {
      assert s.shown[|s.shown| - 1] in s.shown;
    }
    forall j: nat | j < |jobs| && j !in s.published
      ensures !Overwrites(init, jobs, i, j)
    {
      LiveJobsHaveAConfig(init, jobs, s, j);
    }
    forall j: nat | j < |jobs|
      ensures Held(s.pcs[j]) != jobs[i].backup
    {
      assert Staged(init, jobs[j], s.files, s.pcs[j]);
    }
  }

  lemma BackupKeepsInv(init: Files, jobs: seq<Job>, s: System, i: nat, ok: bool, amount: nat)
    requires Inv(init, jobs, s) && BackupsAreHarmless(init, jobs) && i < |jobs|
    requires s.pcs[i].Copying? || s.pcs[i].Filling?
    ensures Inv(init, jobs, MoveStep(jobs[i], s, i, ok, amount))
  {
    var s' := MoveStep(jobs[i], s, i, ok, amount);
    MoveKeepsCore(jobs, s, i, ok, amount);
    assert Staged(init, jobs[i], s.files, s.pcs[i]);
    if s' != s {
      if s'.pcs[i].Removing? && s.pcs[i].Copying? {
        OthersAreUndisturbed(init, jobs, s, s', i);
      } else {
        BackupIsFree(init, jobs, s, i);
        OthersHoldOtherFiles(init, jobs, s, s'.files, i, jobs[i].backup.value);
        OthersAreUndisturbed(init, jobs, s, s', i);
      }
      if s.pcs[i].Copying? && Config in s.files {
        assert s.shown[|s.shown| - 1].Some?;
      }
      UnpublishedMove(init, jobs, s, s', i);
    }
  }

  lemma LastKeepsInv(init: Files, jobs: seq<Job>, s: System, i: nat, ok: bool, amount: nat)
    requires Inv(init, jobs, s) && i < |jobs|
    requires s.pcs[i].Permitting? || (s.pcs[i].Renaming? && !ok) || s.pcs[i].Removing?
    ensures Inv(init, jobs, MoveStep(jobs[i], s, i, ok, amount))
  {
    var s' := MoveStep(jobs[i], s, i, ok, amount);
    MoveKeepsCore(jobs, s, i, ok, amount);
    assert Staged(init, jobs[i], s.files, s.pcs[i]);
    OthersHoldOtherFiles(init, jobs, s, s'.files, i, Held(s.pcs[i]).value);
    OthersAreUndisturbed(init, jobs, s, s', i);
    UnpublishedMove(init, jobs, s, s', i);
  }

  lemma AcceptableGrows(init: Files, jobs: seq<Job>, s: System, published: seq<nat>)
    requires Inv(init, jobs, s) && forall i :: i in s.published ==> i in published
    ensures forall v :: v in s.shown ==> Acceptable(init, jobs, published, v)
  {
  }

  lemma RenameShowsAcceptable(init: Files, jobs: seq<Job>, s: System, i: nat)
    requires Inv(init, jobs, s) && i < |jobs| && s.pcs[i].Renaming?
    ensures var s' := MoveStep(jobs[i], s, i, true, 0);
            && (forall v :: v in s'.shown ==> Acceptable(init, jobs, s'.published, v))
            && s'.shown != [] && s'.shown[|s'.shown| - 1] == Lookup(s'.files, Config)
  {
    var s' := MoveStep(jobs[i], s, i, true, 0);
    assert Staged(init, jobs[i], s.files, s.pcs[i]);
    AcceptableGrows(init, jobs, s, s'.published);
    assert i in s'.published;
    assert Acceptable(init, jobs, s'.published, Some(File(jobs[i].document, true)));
  }

  lemma RenameKeepsInv(init: Files, jobs: seq<Job>, s: System, i: nat)
    requires Inv(init, jobs, s) && i < |jobs| && s.pcs[i].Renaming?
    ensures Inv(init, jobs, MoveStep(jobs[i], s, i, true, 0))
  {
    var s' := MoveStep(jobs[i], s, i, true, 0);
    MoveKeepsCore(jobs, s, i, true, 0);
    assert Staged(init, jobs[i], s.files, s.pcs[i]);
    forall j | 0 <= j < |jobs| && j != i && Held(s.pcs[j]).Some?
      ensures Lookup(s'.files, Held(s.pcs[j]).value) == Lookup(s.files, Held(s.pcs[j]).value)
    {
      assert Staged(init, jobs[j], s.files, s.pcs[j]);
    }
    OthersAreUndisturbed(init, jobs, s, s', i);
    RenameShowsAcceptable(init, jobs, s, i);
    RenameKeepsOrigin(init, jobs, s, i);
  }

  lemma RenameKeepsOrigin(init: Files, jobs: seq<Job>, s: System, i: nat)
    requires ConfigHasAnOrigin(init, jobs, s) && i < |jobs| && i < |s.pcs|
    requires s.pcs[i].Renaming? && Staged(init, jobs[i], s.files, s.pcs[i])
    ensures ConfigHasAnOrigin(init, jobs, MoveStep(jobs[i], s, i, true, 0))
  {
    var s' := MoveStep(jobs[i], s, i, true, 0);
    assert s'.shown[|s.shown|].Some? && s'.shown[|s.shown|] in s'.shown;
    if jobs[i].backup.None? {
      assert Founded(jobs, s', i);
    } else if k: nat :| Founded(jobs, s, k) {
      assert Founded(jobs, s', k);
    }
  }

  lemma MoveKeepsInv(init: Files, jobs: seq<Job>, s: System, i: nat, ok: bool, amount: nat)
    requires Inv(init, jobs, s) && i < |jobs| && BackupsAreHarmless(init, jobs)
    ensures Inv(init, jobs, MoveStep(jobs[i], s, i, ok, amount))
  {
    var pc := s.pcs[i];
    if IsPreparing(pc) {
      PrepareKeepsInv(init, jobs, s, i, ok, amount);
    } else if IsStaging(pc) {
      StageKeepsInv(init, jobs, s, i, ok, amount);
    } else if pc.Copying? || pc.Filling? {
      BackupKeepsInv(init, jobs, s, i, ok, amount);
    } else if pc.Renaming? && ok {
      RenameKeepsInv(init, jobs, s, i);
      assert MoveStep(jobs[i], s, i, ok, amount) == MoveStep(jobs[i], s, i, true, 0);
    } else if pc.Returning? {
      ReturnKeepsInv(init, jobs, s, i);
      assert MoveStep(jobs[i], s, i, ok, amount) == To(s, i, Done(Ok(())));
    } else if !pc.Done? && !pc.Dead? {
      LastKeepsInv(init, jobs, s, i, ok, amount);
    }
  }

  lemma ReturnKeepsInv(init: Files, jobs: seq<Job>, s: System, i: nat)
    requires Inv(init, jobs, s) && i < |jobs| && s.pcs[i].Returning?
    ensures Inv(init, jobs, To(s, i, Done(Ok(()))))
  {
    var s' := To(s, i, Done(Ok(())));
    MoveKeepsCore(jobs, s, i, true, 0);
    OthersAreUndisturbed(init, jobs, s, s', i);
    UnpublishedMove(init, jobs, s, s', i);
  }

  lemma CrashKeepsInv(init: Files, jobs: seq<Job>, s: System, i: nat)
    requires Inv(init, jobs, s) && i < |jobs|
    ensures Inv(init, jobs, To(s, i, Die(s.pcs[i])))
  {
    var s' := To(s, i, Die(s.pcs[i]));
    CrashKeepsCore(jobs, s, i);
    if s' != s {
      OthersAreUndisturbed(init, jobs, s, s', i);
      UnpublishedMove(init, jobs, s, s', i);
    }
  }

  lemma PowerLossKeepsInv(
    init: Files, jobs: seq<Job>, s: System, garbled: map<Path, seq<byte>>, vanished: set<Path>, visible: nat)
    requires Inv(init, jobs, s) && visible < |s.shown|
    requires Durable(init)
    ensures Inv(init, jobs, AfterPowerLoss(s, garbled, vanished, visible))
  {
    var s' := AfterPowerLoss(s, garbled, vanished, visible);
    PowerLossKeepsCore(jobs, s, garbled, vanished, visible);
    PowerLossKeepsOrigin(init, jobs, s, garbled, vanished, visible);
    PowerLossShowsAcceptable(init, jobs, s, garbled, vanished, visible);
    HaltedIsStaged(init, jobs, s');
    HaltedKeepsInv(init, jobs, s, s', visible);
  }

  lemma HaltedKeepsInv(init: Files, jobs: seq<Job>, s: System, s': System, visible: nat)
    requires Inv(init, jobs, s) && visible < |s.shown|
    requires CoreInv(jobs, s') && AllStaged(init, jobs, s') && Halted(s') && ConfigHasAnOrigin(init, jobs, s')
    requires s'.shown == s.shown + [s.shown[visible]] && s'.published == s.published
    requires s.shown[visible] == Lookup(s'.files, Config)
    ensures Inv(init, jobs, s')
  {
    assert s.shown[visible] in s.shown;
  }

  lemma HaltedIsStaged(init: Files, jobs: seq<Job>, s: System)
    requires Halted(s) && |s.pcs| == |jobs|
    ensures AllStaged(init, jobs, s)
  {
  }

  /** Everything shown is synchronized or the original, so that power loss cannot garble it. */
  lemma ShownIsSynced(init: Files, jobs: seq<Job>, s: System, visible: nat)
    requires forall v :: v in s.shown ==> Acceptable(init, jobs, s.published, v)
    requires visible < |s.shown| && Durable(init)
    ensures s.shown[visible].Some? ==> s.shown[visible].value.synced
  {
    assert s.shown[visible] in s.shown;
  }

  lemma PowerLossShowsAcceptable(
    init: Files, jobs: seq<Job>, s: System, garbled: map<Path, seq<byte>>, vanished: set<Path>, visible: nat)
    requires forall v :: v in s.shown ==> Acceptable(init, jobs, s.published, v)
    requires visible < |s.shown| && Durable(init)
    ensures var s' := AfterPowerLoss(s, garbled, vanished, visible);
            && s'.shown == s.shown + [s.shown[visible]] && s'.published == s.published
            && s.shown[visible] == Lookup(s'.files, Config)
            && Halted(s')
  {
    ShownIsSynced(init, jobs, s, visible);
  }

  lemma PowerLossKeepsOrigin(
    init: Files, jobs: seq<Job>, s: System, garbled: map<Path, seq<byte>>, vanished: set<Path>, visible: nat)
    requires ConfigHasAnOrigin(init, jobs, s) && visible < |s.shown|
    ensures ConfigHasAnOrigin(init, jobs, AfterPowerLoss(s, garbled, vanished, visible))
  {
    var s' := AfterPowerLoss(s, garbled, vanished, visible);
    assert s.shown[visible] in s.shown;
    assert EverSeen(s') ==> EverSeen(s);
    if k: nat :| Founded(jobs, s, k) {
      assert Founded(jobs, s', k);
    }
  }

  lemma StepKeepsInv(init: Files, jobs: seq<Job>, s: System, a: Action)
    requires Inv(init, jobs, s) && BackupsAreHarmless(init, jobs) && (a.PowerLoss? ==> Durable(init))
    ensures Inv(init, jobs, Step(jobs, s, a))
  {
    match a
    case Move(i, ok, amount) => if i < |jobs| { MoveKeepsInv(init, jobs, s, i, ok, amount); }
    case Crash(i) => if i < |jobs| { CrashKeepsInv(init, jobs, s, i); }
    case OtherWrites(pid, counter) =>
      if k: nat :| Founded(jobs, s, k) {
        assert Founded(jobs, Step(jobs, s, a), k);
      }
    case PowerLoss(garbled, vanished, visible) =>
      if visible < |s.shown| { PowerLossKeepsInv(init, jobs, s, garbled, vanished, visible); }
  }

  lemma {:induction false} RunKeepsInv(init: Files, jobs: seq<Job>, actions: seq<Action>)
    requires BackupsAreHarmless(init, jobs) && (Durable(init) || NoPowerLoss(actions))
    ensures Inv(init, jobs, Run(init, jobs, actions))
  {
    if actions != [] {
      var before := actions[..|actions| - 1];
      RunKeepsInv(init, jobs, before);
      StepKeepsInv(init, jobs, Run(init, jobs, before), actions[|actions| - 1]);
    }
  }

  // ---- What holds in every run ----

  /**
   At every moment the config path holds the original or one valid job's complete document, and
   a call that has returned Ok has put its document there.
   */
  lemma ConfigIsAlwaysWhole(init: Files, jobs: seq<Job>, actions: seq<Action>)
    requires BackupsAreHarmless(init, jobs) && (Durable(init) || NoPowerLoss(actions))
    ensures var s := Run(init, jobs, actions);
            && Safe(init, jobs, s)
            && |s.pcs| == |jobs|
            && (forall i :: 0 <= i < |jobs| && s.pcs[i] == Done(Ok(())) ==>
                  Some(File(jobs[i].document, true)) in s.shown)
  {
    RunKeepsInv(init, jobs, actions);
    RunShowsPublished(init, jobs, actions);
    OnlyOkPublishes(init, jobs, actions);
  }

  /** Every published document has been at the config path. */
  ghost predicate PublishedWereShown(jobs: seq<Job>, s: System) {
    forall i :: i in s.published && i < |jobs| ==> Some(File(jobs[i].document, true)) in s.shown
  }

  lemma {:induction false} RunShowsPublished(init: Files, jobs: seq<Job>, actions: seq<Action>)
    requires BackupsAreHarmless(init, jobs) && (Durable(init) || NoPowerLoss(actions))
    ensures PublishedWereShown(jobs, Run(init, jobs, actions))
  {
    if actions != [] {
      var before := actions[..|actions| - 1];
      RunShowsPublished(init, jobs, before);
      RunKeepsInv(init, jobs, before);
      StepShowsPublished(init, jobs, Run(init, jobs, before), actions[|actions| - 1]);
    }
  }

  /** Only a rename publishes, and nothing shown is forgotten. */
  lemma MovePublishesOnlyByRename(job: Job, s: System, i: nat, ok: bool, amount: nat)
    requires i < |s.pcs|
    ensures var s' := MoveStep(job, s, i, ok, amount);
            && s.shown <= s'.shown
            && (s'.published == s.published
                || (s.pcs[i].Renaming? && s.pcs[i].temp in s.files && s'.published == s.published + [i]
                    && s'.shown == s.shown + [Some(s.files[s.pcs[i].temp])]))
  {
  }

  lemma StepShowsPublished(init: Files, jobs: seq<Job>, s: System, a: Action)
    requires Inv(init, jobs, s) && PublishedWereShown(jobs, s)
    ensures PublishedWereShown(jobs, Step(jobs, s, a))
  {
    var s' := Step(jobs, s, a);
    if a.Move? && a.i < |jobs| {
      assert Staged(init, jobs[a.i], s.files, s.pcs[a.i]);
      MovePublishesOnlyByRename(jobs[a.i], s, a.i, a.ok, a.amount);
    }
    assert s.shown <= s'.shown;
    forall v | v in s.shown
      ensures v in s'.shown
    {
      var k :| 0 <= k < |s.shown| && s.shown[k] == v;
      assert s'.shown[k] == v;
    }
  }

  predicate AreJobs(jobs: seq<Job>, published: seq<nat>) {
    forall n :: 0 <= n < |published| ==> published[n] < |jobs|
  }

  function Documents(jobs: seq<Job>, published: seq<nat>): (shown: seq<Option<File>>)
    requires AreJobs(jobs, published)
    ensures |shown| == |published|
  {
    seq(|published|, n requires 0 <= n < |published| => Some(File(jobs[published[n]].document, true)))
  }

  /** What a reader has found over time: the original, then the documents in the order of their renames. */
  predicate IsOrder(init: Files, jobs: seq<Job>, shown: seq<Option<File>>, published: seq<nat>) {
    && AreJobs(jobs, published)
    && shown == [Lookup(init, Config)] + Documents(jobs, published)
  }

  predicate ShowsInOrder(init: Files, jobs: seq<Job>, s: System) {
    IsOrder(init, jobs, s.shown, s.published)
  }

  lemma RenameShowsInOrder(init: Files, jobs: seq<Job>, s: System, i: nat, amount: nat)
    requires Inv(init, jobs, s) && ShowsInOrder(init, jobs, s) && i < |jobs| && s.pcs[i].Renaming?
    ensures ShowsInOrder(init, jobs, MoveStep(jobs[i], s, i, true, amount))
  {
    var published := s.published + [i];
    assert Staged(init, jobs[i], s.files, s.pcs[i]);
    assert AreJobs(jobs, published);
    assert Documents(jobs, published) == Documents(jobs, s.published) + [Some(File(jobs[i].document, true))];
  }

  /** Every move but a rename leaves the config path alone. */
  lemma OtherMovesShowNothing(init: Files, jobs: seq<Job>, s: System, i: nat, ok: bool, amount: nat)
    requires Inv(init, jobs, s) && BackupsAreHarmless(init, jobs) && i < |jobs| && !(s.pcs[i].Renaming? && ok)
    ensures var s' := MoveStep(jobs[i], s, i, ok, amount);
            s'.shown == s.shown && s'.published == s.published
  {
    assert Staged(init, jobs[i], s.files, s.pcs[i]);
    if jobs[i].backup.Some? && ((s.pcs[i].Copying? && Config in s.files) || s.pcs[i].Filling?) {
      BackupIsFree(init, jobs, s, i);
    }
  }

  lemma MoveShowsInOrder(init: Files, jobs: seq<Job>, s: System, i: nat, ok: bool, amount: nat)
    requires Inv(init, jobs, s) && BackupsAreHarmless(init, jobs) && ShowsInOrder(init, jobs, s) && i < |jobs|
    ensures ShowsInOrder(init, jobs, MoveStep(jobs[i], s, i, ok, amount))
  {
    if s.pcs[i].Renaming? && ok {
      RenameShowsInOrder(init, jobs, s, i, amount);
    } else {
      OtherMovesShowNothing(init, jobs, s, i, ok, amount);
    }
  }

  lemma StepShowsInOrder(init: Files, jobs: seq<Job>, s: System, a: Action)
    requires Inv(init, jobs, s) && BackupsAreHarmless(init, jobs) && ShowsInOrder(init, jobs, s) && !a.PowerLoss?
    ensures ShowsInOrder(init, jobs, Step(jobs, s, a))
  {
    if a.Move? && a.i < |jobs| {
      MoveShowsInOrder(init, jobs, s, a.i, a.ok, a.amount);
    }
  }

  lemma {:induction false} RunShowsInOrder(init: Files, jobs: seq<Job>, actions: seq<Action>)
    requires BackupsAreHarmless(init, jobs) && NoPowerLoss(actions)
    ensures ShowsInOrder(init, jobs, Run(init, jobs, actions))
  {
    if actions != [] {
      var before := actions[..|actions| - 1];
      RunShowsInOrder(init, jobs, before);
      RunKeepsInv(init, jobs, before);
      StepShowsInOrder(init, jobs, Run(init, jobs, before), actions[|actions| - 1]);
    } else {
      assert [Lookup(init, Config)] + [] == [Lookup(init, Config)];
    }
  }

  /** The original, or the document of the last job published. */
  function LastPublished(init: Files, jobs: seq<Job>, published: seq<nat>): Option<File>
    requires AreJobs(jobs, published)
  {
    if published == [] then Lookup(init, Config)
    else Some(File(jobs[published[|published| - 1]].document, true))
  }

  lemma LastShownIsLastPublished(init: Files, jobs: seq<Job>, s: System)
    requires ShowsInOrder(init, jobs, s)
    ensures s.shown[|s.shown| - 1] == LastPublished(init, jobs, s.published)
  {
  }

  /**
   While the power stays on the last rename wins: the config is the original until the first
   one, and then the document of the last; each call renames at most once.
   */
  lemma TheLastPublisherWins(init: Files, jobs: seq<Job>, actions: seq<Action>)
    requires BackupsAreHarmless(init, jobs) && NoPowerLoss(actions)
    ensures var s := Run(init, jobs, actions);
            && ShowsInOrder(init, jobs, s)
            && (forall m, n :: 0 <= m < n < |s.published| ==> s.published[m] != s.published[n])
            && Lookup(s.files, Config) == LastPublished(init, jobs, s.published)
  {
    RunKeepsInv(init, jobs, actions);
    RunShowsInOrder(init, jobs, actions);
    LastShownIsLastPublished(init, jobs, Run(init, jobs, actions));
  }

  /** With `config_backup_path` no backup is ever the config or a temporary name: all such calls are harmless. */
  lemma AdjacentBackupsAreHarmless(init: Files, jobs: seq<Job>)
    requires forall i :: 0 <= i < |jobs| && jobs[i].backup.Some? ==> jobs[i].backup.value.Other?
    ensures BackupsAreHarmless(init, jobs)
  {
  }

  // ---- One writer: what its backup holds ----

  predicate BeforeBackup(e: WriteError) {
    e != BackupError && e != RenameError
  }

  ghost predicate SoloInv(init: Files, backup: Path, document: seq<byte>, s: System) {
    && |s.pcs| == 1
    && var untouched := Lookup(s.files, backup) == Lookup(init, backup);
       var original := Lookup(s.files, Config) == Lookup(init, Config);
       var saved := Config in init && backup in s.files && s.files[backup].content == init[Config].content;
       match s.pcs[0]
       case Filling(_, snapshot) => original && Config in init && snapshot == init[Config].content
       case Permitting(_) => original && saved
       case Renaming(_) => original && saved
       case Returning => saved && Lookup(s.files, Config) == Some(File(document, true))
       case Removing(_, e) => original && (BeforeBackup(e) ==> untouched)
       case Done(Ok(_)) => saved && Lookup(s.files, Config) == Some(File(document, true))
       case Done(Err(e)) => original && (BeforeBackup(e) ==> untouched)
       case Dead => true
       case _ => original && untouched
  }

  /** The backup path is neither the config nor a temporary name the job may take. */
  predicate IsApart(init: Files, job: Job) {
    job.backup.Some? && job.backup != Some(Config) && !IsOwn(init, job, job.backup.value)
  }

  lemma SoloStagingKeepsInv(init: Files, job: Job, s: System, ok: bool, amount: nat)
    requires IsApart(init, job) && SoloInv(init, job.backup.value, job.document, s)
    requires Staged(init, job, s.files, s.pcs[0]) && OriginalsStay(init, s)
    requires IsPreparing(s.pcs[0]) || IsStaging(s.pcs[0])
    ensures SoloInv(init, job.backup.value, job.document, MoveStep(job, s, 0, ok, amount))
  {
  }

  lemma SoloBackupKeepsInv(init: Files, job: Job, s: System, ok: bool, amount: nat)
    requires IsApart(init, job) && SoloInv(init, job.backup.value, job.document, s)
    requires Staged(init, job, s.files, s.pcs[0]) && OriginalsStay(init, s)
    requires s.pcs[0].Copying? || s.pcs[0].Filling?
    ensures SoloInv(init, job.backup.value, job.document, MoveStep(job, s, 0, ok, amount))
  {
  }

  lemma SoloLastKeepsInv(init: Files, job: Job, s: System, ok: bool, amount: nat)
    requires IsApart(init, job) && SoloInv(init, job.backup.value, job.document, s)
    requires Staged(init, job, s.files, s.pcs[0]) && OriginalsStay(init, s)
    requires !IsPreparing(s.pcs[0]) && !IsStaging(s.pcs[0]) && !s.pcs[0].Copying? && !s.pcs[0].Filling?
    ensures SoloInv(init, job.backup.value, job.document, MoveStep(job, s, 0, ok, amount))
  {
  }

  lemma SoloMoveKeepsInv(init: Files, job: Job, s: System, ok: bool, amount: nat)
    requires IsApart(init, job) && SoloInv(init, job.backup.value, job.document, s)
    requires Staged(init, job, s.files, s.pcs[0]) && OriginalsStay(init, s)
    ensures SoloInv(init, job.backup.value, job.document, MoveStep(job, s, 0, ok, amount))
  {
    if IsPreparing(s.pcs[0]) || IsStaging(s.pcs[0]) {
      SoloStagingKeepsInv(init, job, s, ok, amount);
    } else if s.pcs[0].Copying? || s.pcs[0].Filling? {
      SoloBackupKeepsInv(init, job, s, ok, amount);
    } else {
      SoloLastKeepsInv(init, job, s, ok, amount);
    }
  }

  lemma {:induction false} SoloRunKeepsInv(init: Files, job: Job, actions: seq<Action>)
    requires IsApart(init, job) && NoPowerLoss(actions)
    ensures SoloInv(init, job.backup.value, job.document, Run(init, [job], actions))
  {
    if actions != [] {
      var before := actions[..|actions| - 1];
      SoloRunKeepsInv(init, job, before);
      RunKeepsInv(init, [job], before);
      var s := Run(init, [job], before);
      assert Staged(init, [job][0], s.files, s.pcs[0]);
      var a := actions[|actions| - 1];
      if a.Move? && a.i == 0 {
        SoloMoveKeepsInv(init, job, s, a.ok, a.amount);
      }
    }
  }

  /**
   A single writer that asked for a backup: on Ok the config is its document and the backup the
   one that was replaced; on every error the config is as it was, and on an error before the
   copy so is the old backup.
   */
  lemma BackupHoldsTheReplacedDocument(init: Files, job: Job, actions: seq<Action>)
    requires IsApart(init, job) && NoPowerLoss(actions)
    ensures var s := Run(init, [job], actions);
            var backup := job.backup.value;
            && |s.pcs| == 1
            && (s.pcs[0] == Done(Ok(())) ==>
                  && Lookup(s.files, Config) == Some(File(job.document, true))
                  && Config in init && backup in s.files && s.files[backup].content == init[Config].content)
            && (s.pcs[0].Done? && s.pcs[0].result.Err? ==>
                  && Lookup(s.files, Config) == Lookup(init, Config)
                  && (BeforeBackup(s.pcs[0].result.error) ==> Lookup(s.files, backup) == Lookup(init, backup)))
  {
    SoloRunKeepsInv(init, job, actions);
  }

  // ---- When the config path is safe ----

  /** A number from `least` on above every sequence number in use. */
  lemma {:induction false} FreshSequence(names: set<Path>, least: nat) returns (n: nat)
    ensures least <= n && forall p :: p in names && p.Temp? ==> p.sequence < n
  {
    if names == {} {
      n := least;
    } else {
      var p :| p in names;
      n := FreshSequence(names - {p}, least);
      if p.Temp? && n <= p.sequence {
        n := p.sequence + 1;
      }
    }
  }

  ghost predicate Reachable(init: Files, jobs: seq<Job>, s: System) {
    exists actions :: Run(init, jobs, actions) == s
  }

  lemma Follow(init: Files, jobs: seq<Job>, s: System, a: Action) returns (s': System)
    requires Reachable(init, jobs, s)
    ensures s' == Step(jobs, s, a) && Reachable(init, jobs, s')
  {
    var actions :| Run(init, jobs, actions) == s;
    s' := Step(jobs, s, a);
    assert (actions + [a])[..|actions|] == actions;
    assert Run(init, jobs, actions + [a]) == s';
  }

  function Target(job: Job, n: nat): Path {
    Temp(job.pid, n)
  }

  /** Job `i`, not yet under way, can take any name of its process. */
  lemma NameJob(init: Files, jobs: seq<Job>, s: System, i: nat, n: nat) returns (s': System)
    requires Reachable(init, jobs, s) && i < |jobs| == |s.pcs| && jobs[i].valid && s.pcs[i] == Called
    requires Counter(s, jobs[i].pid) <= n
    ensures Reachable(init, jobs, s')
    ensures s' == s.(pcs := s.pcs[i := Opening(0, Target(jobs[i], n))], counters := s'.counters)
  {
    s' := Follow(init, jobs, s, OtherWrites(jobs[i].pid, n));
    s' := Follow(init, jobs, s', Move(i, true, 0));
    s' := Follow(init, jobs, s', Move(i, true, 0));
    s' := Follow(init, jobs, s', Move(i, true, 0));
    assert s'.pcs == s.pcs[i := Naming(0)] && Counter(s', jobs[i].pid) == n;
    s' := Follow(init, jobs, s', Move(i, true, 0));
    assert s'.pcs == s.pcs[i := Opening(0, Target(jobs[i], n))];
  }

  /** If the name is free it creates its temporary file. */
  lemma OpenJob(init: Files, jobs: seq<Job>, s: System, i: nat, n: nat) returns (s': System)
    requires Reachable(init, jobs, s) && i < |jobs| == |s.pcs| && jobs[i].valid && s.pcs[i] == Called
    requires Target(jobs[i], n) !in s.files && Counter(s, jobs[i].pid) <= n
    ensures Reachable(init, jobs, s')
    ensures var temp := Target(jobs[i], n);
            s' == s.(pcs := s.pcs[i := Writing(temp, 0)], files := s.files[temp := File([], false)],
                     counters := s'.counters)
  {
    s' := NameJob(init, jobs, s, i, n);
    s' := Follow(init, jobs, s', Move(i, true, 0));
    assert s'.pcs == s.pcs[i := Writing(Target(jobs[i], n), 0)];
  }

  function Ready(job: Job, temp: Path): Pc {
    if job.backup.Some? then Copying(temp) else Renaming(temp)
  }

  /** It writes the whole document at once. */
  lemma WriteJob(init: Files, jobs: seq<Job>, s: System, i: nat, temp: Path) returns (s': System)
    requires Reachable(init, jobs, s) && i < |jobs| == |s.pcs| && s.pcs[i] == Writing(temp, 0)
    ensures Reachable(init, jobs, s')
    ensures s' == s.(pcs := s.pcs[i := Syncing(temp)], files := s.files[temp := File(jobs[i].document, false)])
  {
    s' := Follow(init, jobs, s, Move(i, true, |jobs[i].document|));
    assert jobs[i].document[..|jobs[i].document|] == jobs[i].document;
  }

  lemma SyncJob(init: Files, jobs: seq<Job>, s: System, i: nat, temp: Path) returns (s': System)
    requires Reachable(init, jobs, s) && i < |jobs| == |s.pcs| && s.pcs[i] == Syncing(temp)
    ensures Reachable(init, jobs, s')
    ensures s' == s.(pcs := s.pcs[i := Ready(jobs[i], temp)], files := s.files[temp := File(jobs[i].document, true)])
  {
    s' := Follow(init, jobs, s, Move(i, true, 0));
  }

  /** It writes and synchronizes the file, and is about to make its backup or to rename. */
  lemma StageJob(init: Files, jobs: seq<Job>, s: System, i: nat, n: nat) returns (s': System)
    requires Reachable(init, jobs, s) && i < |jobs| == |s.pcs| && jobs[i].valid && s.pcs[i] == Called
    requires Target(jobs[i], n) !in s.files && Counter(s, jobs[i].pid) <= n
    ensures Reachable(init, jobs, s')
    ensures var temp := Target(jobs[i], n);
            s' == s.(pcs := s.pcs[i := Ready(jobs[i], temp)], files := s.files[temp := File(jobs[i].document, true)],
                     counters := s'.counters)
  {
    var temp := Target(jobs[i], n);
    s' := OpenJob(init, jobs, s, i, n);
    s' := WriteJob(init, jobs, s', i, temp);
    s' := SyncJob(init, jobs, s', i, temp);
    assert s'.pcs == s.pcs[i := Ready(jobs[i], temp)];
    assert s'.files == s.files[temp := File(jobs[i].document, true)];
  }

  lemma StartCopy(init: Files, jobs: seq<Job>, s: System, i: nat) returns (s': System)
    requires Reachable(init, jobs, s) && i < |jobs| == |s.pcs| && s.pcs[i].Copying? && Config in s.files
    requires jobs[i].backup.Some? && jobs[i].backup != Some(Config)
    ensures Reachable(init, jobs, s')
    ensures s' == s.(pcs := s.pcs[i := Filling(s.pcs[i].temp, s.files[Config].content)],
                     files := s.files[jobs[i].backup.value := File([], false)])
  {
    s' := Follow(init, jobs, s, Move(i, true, 0));
  }

  lemma FinishCopy(init: Files, jobs: seq<Job>, s: System, i: nat) returns (s': System)
    requires Reachable(init, jobs, s) && i < |jobs| == |s.pcs| && s.pcs[i].Filling?
    requires jobs[i].backup.Some? && jobs[i].backup != Some(Config)
    ensures Reachable(init, jobs, s')
    ensures s' == s.(pcs := s.pcs[i := Permitting(s.pcs[i].temp)],
                     files := s.files[jobs[i].backup.value := File(s.pcs[i].snapshot, false)])
  {
    s' := Follow(init, jobs, s, Move(i, true, 0));
  }

  /** It copies the config to its backup path. */
  lemma CopyJob(init: Files, jobs: seq<Job>, s: System, i: nat) returns (s': System)
    requires Reachable(init, jobs, s) && i < |jobs| == |s.pcs| && s.pcs[i].Copying? && Config in s.files
    requires jobs[i].backup.Some? && jobs[i].backup != Some(Config)
    ensures Reachable(init, jobs, s') && s'.pcs == s.pcs[i := Permitting(s.pcs[i].temp)]
    ensures s'.files == s.files[jobs[i].backup.value := File(s.files[Config].content, false)]
  {
    s' := StartCopy(init, jobs, s, i);
    s' := FinishCopy(init, jobs, s', i);
    assert s'.pcs == s.pcs[i := Permitting(s.pcs[i].temp)];
    assert s'.files == s.files[jobs[i].backup.value := File(s.files[Config].content, false)];
  }

  /** It sets the permissions of the copy. */
  lemma PermitJob(init: Files, jobs: seq<Job>, s: System, i: nat) returns (s': System)
    requires Reachable(init, jobs, s) && i < |jobs| == |s.pcs| && s.pcs[i].Permitting?
    ensures Reachable(init, jobs, s') && s' == s.(pcs := s.pcs[i := Renaming(s.pcs[i].temp)])
  {
    s' := Follow(init, jobs, s, Move(i, true, 0));
  }

  /** It makes its backup, and touches neither the config nor the file at `kept`. */
  lemma BackUpJob(init: Files, jobs: seq<Job>, s: System, i: nat, kept: Path) returns (s': System)
    requires Reachable(init, jobs, s) && i < |jobs| == |s.pcs| && s.pcs[i].Copying? && Config in s.files
    requires jobs[i].backup.Some? && jobs[i].backup != Some(Config) && jobs[i].backup != Some(kept)
    ensures Reachable(init, jobs, s') && s'.pcs == s.pcs[i := Renaming(s.pcs[i].temp)]
    ensures Lookup(s'.files, kept) == Lookup(s.files, kept) && Config in s'.files
  {
    s' := CopyJob(init, jobs, s, i);
    s' := PermitJob(init, jobs, s', i);
    assert s'.pcs == s.pcs[i := Renaming(s.pcs[i].temp)];
  }

  /** Another job than `j` sees to it that there is a config, and leaves the file at `kept` alone. */
  lemma FoundConfig(init: Files, jobs: seq<Job>, s: System, j: nat, kept: Path) returns (s': System, k: nat)
    requires Reachable(init, jobs, s) && |s.pcs| == |jobs| && HasConfigWithout(init, jobs, j)
    requires Config in init ==> Config in s.files
    requires forall i :: 0 <= i < |jobs| && i != j ==> s.pcs[i] == Called
    requires kept in s.files && kept.Temp?
    ensures Reachable(init, jobs, s') && |s'.pcs| == |jobs| && Config in s'.files
    ensures Lookup(s'.files, kept) == Lookup(s.files, kept)
    ensures forall i :: 0 <= i < |jobs| && i != k ==> s'.pcs[i] == s.pcs[i]
    ensures k == j || (k < |jobs| && jobs[k].backup.None?)
    ensures k == j ==> s'.pcs == s.pcs
  {
    s', k := s, j;
    if Config !in init {
      var m: nat :| m < |jobs| && m != j && jobs[m].valid && jobs[m].backup.None?;
      k := m;
      var n := FreshSequence(s.files.Keys, Counter(s, jobs[k].pid));
      s' := StageJob(init, jobs, s, k, n);
      s' := PublishJob(init, jobs, s', k, kept);
    }
  }

  lemma PublishJob(init: Files, jobs: seq<Job>, s: System, k: nat, kept: Path) returns (s': System)
    requires Reachable(init, jobs, s) && k < |jobs| == |s.pcs| && s.pcs[k].Renaming? && s.pcs[k].temp in s.files
    requires s.pcs[k].temp.Temp? && kept.Temp? && kept != s.pcs[k].temp
    ensures Reachable(init, jobs, s') && s'.pcs == s.pcs[k := Returning] && Config in s'.files
    ensures Lookup(s'.files, kept) == Lookup(s.files, kept)
  {
    s' := Follow(init, jobs, s, Move(k, true, 0));
  }

  ghost predicate CanBeUnsafe(init: Files, jobs: seq<Job>) {
    exists actions :: !Safe(init, jobs, Run(init, jobs, actions))
  }

  lemma UnsyncedIsUnsafe(init: Files, jobs: seq<Job>, s: System)
    requires Reachable(init, jobs, s) && Durable(init) && Config in s.files && !s.files[Config].synced
    ensures CanBeUnsafe(init, jobs)
  {
    var actions :| Run(init, jobs, actions) == s;
    assert !Safe(init, jobs, Run(init, jobs, actions));
  }

  lemma RenamingUnsyncedIsUnsafe(init: Files, jobs: seq<Job>, s: System, j: nat)
    requires Reachable(init, jobs, s) && Durable(init) && j < |jobs| == |s.pcs|
    requires s.pcs[j].Renaming? && s.pcs[j].temp.Temp?
    requires s.pcs[j].temp in s.files && !s.files[s.pcs[j].temp].synced
    ensures CanBeUnsafe(init, jobs)
  {
    var s' := Follow(init, jobs, s, Move(j, true, 0));
    UnsyncedIsUnsafe(init, jobs, s');
  }

  /** A job that backs up onto the config. */
  lemma CopyingOntoConfigIsUnsafe(init: Files, jobs: seq<Job>, s: System, j: nat)
    requires Reachable(init, jobs, s) && Durable(init) && j < |jobs| == |s.pcs| && Config in s.files
    requires s.pcs[j].Copying? && jobs[j].backup == Some(Config)
    ensures CanBeUnsafe(init, jobs)
  {
    var s' := Follow(init, jobs, s, Move(j, true, 0));
    UnsyncedIsUnsafe(init, jobs, s');
  }

  /** A job that backs up onto its own temporary file. */
  lemma CopyingOntoOwnIsUnsafe(init: Files, jobs: seq<Job>, s: System, j: nat)
    requires Reachable(init, jobs, s) && Durable(init) && j < |jobs| == |s.pcs| && Config in s.files
    requires s.pcs[j].Copying? && s.pcs[j].temp.Temp? && jobs[j].backup == Some(s.pcs[j].temp)
    ensures CanBeUnsafe(init, jobs)
  {
    var s' := CopyJob(init, jobs, s, j);
    s' := PermitJob(init, jobs, s', j);
    RenamingUnsyncedIsUnsafe(init, jobs, s', j);
  }

  /** A job about to rename, while another backs up onto its temporary file. */
  lemma OverwritingAnotherIsUnsafe(init: Files, jobs: seq<Job>, s: System, i: nat, j: nat)
    requires Reachable(init, jobs, s) && Durable(init) && i < |jobs| == |s.pcs| && j < |jobs| && i != j
    requires Config in s.files && jobs[i].valid && s.pcs[i] == Called
    requires s.pcs[j].Renaming? && s.pcs[j].temp in s.files && jobs[i].backup == Some(s.pcs[j].temp)
    requires s.pcs[j].temp.Temp?
    ensures CanBeUnsafe(init, jobs)
  {
    var n := FreshSequence(s.files.Keys, Counter(s, jobs[i].pid));
    var s' := StageJob(init, jobs, s, i, n);
    s' := CopyJob(init, jobs, s', i);
    RenamingUnsyncedIsUnsafe(init, jobs, s', j);
  }

  lemma OverwritingIsUnsafe(init: Files, jobs: seq<Job>, i: nat, j: nat)
    requires Durable(init) && i < |jobs| && j < |jobs|
    requires Overwrites(init, jobs, i, j) && HasConfigWithout(init, jobs, j)
    ensures CanBeUnsafe(init, jobs)
  {
    assert Run(init, jobs, []) == Boot(init, jobs);
    var target := jobs[i].backup.value;
    var n := FreshSequence(init.Keys, 0);
    if target.Temp? {
      n := target.sequence;
    }
    var temp := Target(jobs[j], n);
    assert temp !in init;
    var s := StageJob(init, jobs, Boot(init, jobs), j, n);
    var k;
    s, k := FoundConfig(init, jobs, s, j, temp);
    if jobs[j].backup == Some(Config) {
      CopyingOntoConfigIsUnsafe(init, jobs, s, j);
    } else if jobs[j].backup == Some(temp) {
      CopyingOntoOwnIsUnsafe(init, jobs, s, j);
    } else {
      if jobs[j].backup.Some? {
        s := BackUpJob(init, jobs, s, j, temp);
      }
      OverwritingAnotherIsUnsafe(init, jobs, s, i, j);
    }
  }

  lemma GarbledOriginalIsUnsafe(init: Files, jobs: seq<Job>)
    requires !Durable(init)
    ensures CanBeUnsafe(init, jobs)
  {
    var other := init[Config].content + [0];
    var loss := PowerLoss(map[Config := other], {}, 0);
    assert Run(init, jobs, []) == Boot(init, jobs);
    var s := Follow(init, jobs, Boot(init, jobs), loss);
    assert Lookup(s.files, Config) == Some(File(other, false)) && |other| != |init[Config].content|;
    var actions :| Run(init, jobs, actions) == s;
    assert !Safe(init, jobs, Run(init, jobs, actions));
  }

  /**
   The config path is safe in every run if and only if the original is on disk and no valid
   job's backup path is the config itself, which copying truncates, or a temporary name that a
   valid job may take, whose staged document the copy replaces; a copy needs a config to copy.
   */
  lemma SafeIffBackupsAreHarmless(init: Files, jobs: seq<Job>)
    ensures (forall actions :: Safe(init, jobs, Run(init, jobs, actions))) <==>
            Durable(init) && BackupsAreHarmless(init, jobs)
  {
    if Durable(init) && BackupsAreHarmless(init, jobs) {
      forall actions
        ensures Safe(init, jobs, Run(init, jobs, actions))
      {
        RunKeepsInv(init, jobs, actions);
      }
    } else if Durable(init) {
      var i: nat, j: nat :|
        i < |jobs| && j < |jobs| && Overwrites(init, jobs, i, j) && HasConfigWithout(init, jobs, j);
      OverwritingIsUnsafe(init, jobs, i, j);
      var actions :| !Safe(init, jobs, Run(init, jobs, actions));
      assert !Safe(init, jobs, Run(init, jobs, actions));
    } else {
      GarbledOriginalIsUnsafe(init, jobs);
      var actions :| !Safe(init, jobs, Run(init, jobs, actions));
      assert !Safe(init, jobs, Run(init, jobs, actions));
    }
  }

  // ---- What an Ok does not promise ----

  /** A lone valid call without a backup can return Ok. */
  lemma OkJob(init: Files, job: Job) returns (s: System)
    requires job.valid && job.backup.None?
    ensures Reachable(init, [job], s) && s.pcs == [Done(Ok(()))]
    ensures s.shown != [] && s.shown[0] == Lookup(init, Config)
  {
    var n := FreshSequence(init.Keys, 0);
    assert Run(init, [job], []) == Boot(init, [job]);
    s := StageJob(init, [job], Boot(init, [job]), 0, n);
    s := RenameAndReturn(init, [job], s, 0);
  }

  lemma RenameAndReturn(init: Files, jobs: seq<Job>, s: System, i: nat) returns (s': System)
    requires Reachable(init, jobs, s) && i < |jobs| == |s.pcs| && s.pcs[i].Renaming? && s.pcs[i].temp in s.files
    ensures Reachable(init, jobs, s') && s'.pcs == s.pcs[i := Done(Ok(()))]
    ensures s'.shown == s.shown + [Some(s.files[s.pcs[i].temp])]
  {
    s' := Follow(init, jobs, s, Move(i, true, 0));
    assert s'.pcs == s.pcs[i := Returning];
    s' := Follow(init, jobs, s', Move(i, true, 0));
  }

  lemma PowerLossShowsTheFirst(s: System)
    requires s.shown != [] && Halted(s)
    ensures var s' := AfterPowerLoss(s, map[], {}, 0);
            s'.pcs == s.pcs && Lookup(s'.files, Config) == s.shown[0]
  {
  }

  /** The rename is not made durable: losing power after an Ok can bring the original back. */
  lemma PowerLossCanUndoAnOk(init: Files, job: Job)
    requires job.valid && job.backup.None?
    ensures exists actions ::
              && Run(init, [job], actions).pcs == [Done(Ok(()))]
              && Lookup(Run(init, [job], actions).files, Config) == Lookup(init, Config)
  {
    var s := OkJob(init, job);
    PowerLossShowsTheFirst(s);
    s := Follow(init, [job], s, PowerLoss(map[], {}, 0));
    var actions :| Run(init, [job], actions) == s;
  }
}

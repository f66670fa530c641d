/**
 A remote text that waits for its deadline does not wait forever
 (crates/vinpst-daemon/src/remote/server.rs). A schedule of the server is infinite; it is fair
 if every sleeping deadline wakes at some time.
 */
module RemoteLiveness {
  import opened Wrappers
  import opened RemoteText
  import opened RemoteServer

  type Schedule = nat -> Action

  function Prefix(f: Schedule, n: nat): seq<Action> {
    if n == 0 then [] else Prefix(f, n - 1) + [f(n - 1)]
  }

  /** The server after the first `n` actions. */
  function At(key: seq<bv8>, f: Schedule, n: nat): Server {
    Serve(key, Prefix(f, n))
  }

  lemma AtNext(key: seq<bv8>, f: Schedule, n: nat)
    ensures At(key, f, n + 1) == Step(key, At(key, f, n), f(n))
  {
    assert (Prefix(f, n) + [f(n)])[..|Prefix(f, n)|] == Prefix(f, n);
  }

  ghost predicate WakesAfter(f: Schedule, n: nat, g: nat) {
    exists m: nat :: n <= m && f(m) == Wake(g)
  }

  ghost predicate FairWakes(key: seq<bv8>, f: Schedule) {
    forall n: nat, g: nat :: g in At(key, f, n).sleeping ==> WakesAfter(f, n, g)
  }

  /** A later update, a flush or a disconnect: what decides on an update. */
  predicate Decides(e: Event) {
    IsUpdate(e) || IsFlush(e) || e == DisconnectInput || e == DisconnectOutput
  }

  /** The call at `k` is the first to decide on the update at `i`. */
  ghost predicate IsDecidedBy(h: seq<Event>, i: nat, k: nat) {
    i < k < |h| && Decides(h[k]) && Pending(h[..k], i)
  }

  predicate IsUndecided(h: seq<Event>, i: nat) {
    forall j :: i < j < |h| ==> !Decides(h[j])
  }

  lemma UndecidedIsPending(h: seq<Event>, i: nat)
    requires i < |h| && IsUpdate(h[i]) && IsUndecided(h, i)
    ensures Pending(h, i) && Undisturbed(h, i)
  {
  }

  lemma {:induction false} FirstDecision(h: seq<Event>, i: nat)
    requires i < |h| && IsUpdate(h[i]) && !IsUndecided(h, i)
    ensures exists k: nat :: IsDecidedBy(h, i, k)
  {
    var n := |h| - 1;
    if IsUndecided(h[..n], i) {
      UndecidedIsPending(h[..n], i);
      assert IsDecidedBy(h, i, n);
    } else {
      FirstDecision(h[..n], i);
      var k: nat :| IsDecidedBy(h[..n], i, k);
      assert h[..n][..k] == h[..k];
      assert IsDecidedBy(h, i, k);
    }
  }

  lemma DispatchExtends(key: seq<bv8>, s: Server, e: Event, g: nat)
    requires Inv(key, s)
    ensures s.history <= Dispatch(key, s, e).history
    ensures var s' := Dispatch(key, s, e);
            g in s.scheduled ==> g in s'.scheduled && s'.scheduled[g] == s.scheduled[g]
  {
  }

  /** What was said and scheduled stays. */
  lemma StepExtends(key: seq<bv8>, s: Server, a: Action, g: nat)
    requires Inv(key, s)
    ensures s.history <= Step(key, s, a).history
    ensures g in s.scheduled ==> g in Step(key, s, a).scheduled && Step(key, s, a).scheduled[g] == s.scheduled[g]
  {
    if !a.Wake? && !a.CloseInput? && !a.CloseOutput? {
      var e := match a
        case OpenInput(apiKey) => ConnectInput(apiKey)
        case InputSends(_, kind, text) => InputEvent(kind, text)
        case OutputSends(_, kind, session) => OutputEvent(kind, session)
        case _ => ConnectOutput;
      DispatchExtends(key, s, e, g);
    }
  }

  /** `g` is the deadline that the update with text at `i` scheduled. */
  ghost predicate IsDeadlineOf(s: Server, g: nat, i: nat) {
    && i < |s.history| && IsUpdate(s.history[i]) && UpdateText(s.history[i]) != ""
    && g in s.scheduled && s.scheduled[g] == i
  }

  lemma NextKeepsDeadline(key: seq<bv8>, f: Schedule, n: nat, g: nat, i: nat)
    requires IsDeadlineOf(At(key, f, n), g, i)
    ensures IsDeadlineOf(At(key, f, n + 1), g, i)
    ensures At(key, f, n).history <= At(key, f, n + 1).history
  {
    ServeKeepsInv(key, Prefix(f, n));
    AtNext(key, f, n);
    StepExtends(key, At(key, f, n), f(n), g);
  }

  lemma LiveWakeFires(key: seq<bv8>, s: Server, g: nat)
    requires g in s.sleeping && s.generation == g
    ensures Step(key, s, Wake(g)).history == s.history + [FireDebounce]
  {
  }

  lemma FiringDecides(h: seq<Event>, i: nat)
    requires i < |h|
    ensures !IsUndecided(h + [FireDebounce], i)
  {
    assert Decides((h + [FireDebounce])[|h|]);
  }

  /** As long as the update is undecided its deadline acts when it wakes, and decides it. */
  lemma WakeDecides(key: seq<bv8>, f: Schedule, n: nat, g: nat, i: nat)
    requires IsDeadlineOf(At(key, f, n), g, i) && f(n) == Wake(g) && IsUndecided(At(key, f, n).history, i)
    ensures !IsUndecided(At(key, f, n + 1).history, i)
  {
    var s := At(key, f, n);
    ServeKeepsInv(key, Prefix(f, n));
    AtNext(key, f, n);
    UndecidedIsPending(s.history, i);
    APendingUpdateIsDueIffUndisturbed(key, Prefix(f, n), i);
    assert s.generation == g;
    LiveWakeFires(key, s, g);
    FiringDecides(s.history, i);
  }

  /** By turn `e` the history of turn `n` has grown to decide on the update. */
  ghost predicate DecidedAt(key: seq<bv8>, f: Schedule, n: nat, i: nat, e: nat) {
    && n <= e && At(key, f, n).history <= At(key, f, e).history
    && i < |At(key, f, e).history| && !IsUndecided(At(key, f, e).history, i)
  }

  /** The deadline wakes at `m`; by then, or by its waking, the update is decided. */
  lemma {:induction false} DecidedBy(key: seq<bv8>, f: Schedule, n: nat, m: nat, i: nat, g: nat) returns (e: nat)
    requires n <= m && f(m) == Wake(g) && IsDeadlineOf(At(key, f, n), g, i)
    ensures DecidedAt(key, f, n, i, e)
    decreases m - n
  {
    NextKeepsDeadline(key, f, n, g, i);
    if !IsUndecided(At(key, f, n).history, i) {
      e := n;
    } else if n < m {
      e := DecidedBy(key, f, n + 1, m, i, g);
      assert At(key, f, n).history <= At(key, f, n + 1).history <= At(key, f, e).history;
    } else {
      WakeDecides(key, f, n, g, i);
      e := n + 1;
    }
  }

  /**
   Under every schedule with fair wakes, every update with text is decided: a flush while the
   output is up delivers it (its own deadline at the latest), unless a later update replaces it,
   a client disconnects, or a flush comes while the output is down.
   */
  lemma EveryUpdateIsDecided(key: seq<bv8>, f: Schedule, n: nat, i: nat)
    requires FairWakes(key, f)
    requires var h := At(key, f, n).history;
             i < |h| && IsUpdate(h[i]) && UpdateText(h[i]) != ""
    ensures exists m: nat, k: nat ::
              && n <= m && At(key, f, n).history <= At(key, f, m).history
              && IsDecidedBy(At(key, f, m).history, i, k)
              && (IsFlush(At(key, f, m).history[k]) && OutputUp(At(key, f, m).history[..k]) ==>
                    Delivers(At(key, f, m).history, k, i))
  {
    var s := At(key, f, n);
    var m := n;
    if IsUndecided(s.history, i) {
      UndecidedIsPending(s.history, i);
      APendingUpdateIsDueIffUndisturbed(key, Prefix(f, n), i);
      assert WakesAfter(f, n, s.generation);
      var w: nat :| n <= w && f(w) == Wake(s.generation);
      m := DecidedBy(key, f, n, w, i, s.generation);
    }
    var h := At(key, f, m).history;
    FirstDecision(h, i);
    var k: nat :| IsDecidedBy(h, i, k);
    assert h[..k][i] == h[i];
    assert IsFlush(h[k]) && OutputUp(h[..k]) ==> Delivers(h, k, i);
  }

  // ---- Such schedules exist ----

  /** A client connects and sends a text, and its deadline wakes again and again. */
  function OneUpdate(key: seq<bv8>, n: nat): Action {
    if n == 0 then OpenInput(key)
    else if n == 1 then InputSends(1, "text_update", Some("text"))
    else Wake(1)
  }

  lemma AfterOne(key: seq<bv8>, f: Schedule)
    requires f(0) == OpenInput(key)
    ensures var s := At(key, f, 1);
            && s.openInputs == {1} && s.sleeping == {} && s.generation == 0
            && s.protocol == State(true, false, "", 0) && s.history == [ConnectInput(key)]
  {
    assert At(key, f, 0) == BOOT;
    AtNext(key, f, 0);
    InputIsAcceptedIff(key, FRESH, key);
  }

  lemma AfterTwo(key: seq<bv8>, f: Schedule)
    requires f(0) == OpenInput(key) && f(1) == InputSends(1, "text_update", Some("text"))
    ensures At(key, f, 2).sleeping == {1}
    ensures At(key, f, 2).history == [ConnectInput(key), InputEvent("text_update", Some("text"))]
  {
    AfterOne(key, f);
    AtNext(key, f, 1);
  }

  lemma WakeSchedulesNothing(key: seq<bv8>, s: Server, g: nat)
    ensures Step(key, s, Wake(g)).sleeping <= s.sleeping
  {
  }

  lemma {:induction false} OneDeadlineSleeps(key: seq<bv8>, f: Schedule, n: nat)
    requires forall k: nat :: f(k) == OneUpdate(key, k)
    ensures At(key, f, n).sleeping <= {1}
  {
    if n == 0 {
      assert At(key, f, 0) == BOOT;
    } else if n == 1 {
      AfterOne(key, f);
    } else if n == 2 {
      AfterTwo(key, f);
    } else {
      OneDeadlineSleeps(key, f, n - 1);
      AtNext(key, f, n - 1);
      WakeSchedulesNothing(key, At(key, f, n - 1), 1);
    }
  }

  lemma AFairScheduleExists(key: seq<bv8>)
    ensures exists f: Schedule ::
              && FairWakes(key, f)
              && At(key, f, 2).history == [ConnectInput(key), InputEvent("text_update", Some("text"))]
  {
    var f := (n: nat) => OneUpdate(key, n);
    forall n: nat, g: nat | g in At(key, f, n).sleeping
      ensures WakesAfter(f, n, g)
    {
      OneDeadlineSleeps(key, f, n);
      assert f(n + 2) == Wake(g);
    }
    AfterTwo(key, f);
    assert FairWakes(key, f);
  }
}

/**
 The audio callback of a capture stream against the worker that starts and finishes its
 recordings (crates/vinpst-audio/src/pipewire_backend.rs). The stream asks for callbacks on
 the real-time thread, so a callback may be caught between its check of `accepting` and its
 append to `samples` while the worker goes on. A buffer is its arrival number.
 */
module CaptureCallback {
  import opened Wrappers

  /** Where the worker stands: idle, between its two statements of starting or of finishing, or recording. */
  datatype Phase = Idle | Cleared | Recording | Refusing

  datatype Stream = Stream(
    phase: Phase, accepting: bool, samples: seq<nat>, inFlight: Option<nat>, arrived: nat,
    accepted: seq<nat>, straggler: Option<nat>, captures: seq<Capture>)

  /**
   A capture as the worker took it; the buffers that passed the check since it started; the
   buffer in flight when it started, and the one in flight when it was taken.
   */
  datatype Capture = Capture(
    taken: seq<nat>, accepted: seq<nat>, straggler: Option<nat>, missing: Option<nat>)

  const NEW := Stream(Idle, false, [], None, 0, [], None, [])

  datatype Action =
    | Check              // a buffer arrives and its callback reads `accepting`
    | Append             // that callback appends to `samples`
    | Clear | Accept     // the worker starts: clears the samples, then accepts
    | Refuse | Take      // the worker finishes: stops accepting, then takes the samples
    | Abort              // activation failed: stops accepting and is idle again

  /** An action that is not enabled changes nothing. */
  function Step(s: Stream, a: Action): Stream {
    match a
    case Check =>
      if s.inFlight.Some? then s
      else if !s.accepting then s.(arrived := s.arrived + 1)
      else s.(inFlight := Some(s.arrived), arrived := s.arrived + 1, accepted := s.accepted + [s.arrived])
    case Append =>
      if s.inFlight.None? then s else s.(samples := s.samples + [s.inFlight.value], inFlight := None)
    case Clear =>
      if !s.phase.Idle? then s
      else s.(phase := Cleared, samples := [], accepted := [], straggler := s.inFlight)
    case Accept => if !s.phase.Cleared? then s else s.(phase := Recording, accepting := true)
    case Refuse => if !s.phase.Recording? then s else s.(phase := Refusing, accepting := false)
    case Take =>
      if !s.phase.Refusing? then s
      else s.(phase := Idle, samples := [],
              captures := s.captures + [Capture(s.samples, s.accepted, s.straggler, s.inFlight)])
    case Abort => if !s.phase.Recording? then s else s.(phase := Idle, accepting := false)
  }

  function Run(actions: seq<Action>): Stream {
    if actions == [] then NEW else Step(Run(actions[..|actions| - 1]), actions[|actions| - 1])
  }

  function Optional(buffer: Option<nat>): seq<nat> {
    if buffer.Some? then [buffer.value] else []
  }

  /** What was taken and what is missing at the end is the straggler, then everything accepted. */
  ghost predicate Accounts(c: Capture) {
    && c.taken + Optional(c.missing) == Optional(c.straggler) + c.accepted
    && (forall i :: 0 <= i < |c.accepted| ==> Optional(c.straggler) == [] || c.straggler.value < c.accepted[i])
    && (forall i, j :: 0 <= i < j < |c.accepted| ==> c.accepted[i] < c.accepted[j])
  }

  ghost predicate Inv(s: Stream) {
    && s.accepting == s.phase.Recording?
    && (!s.phase.Idle? ==> Accounts(Capture(s.samples, s.accepted, s.straggler, s.inFlight)))
    && (forall i :: 0 <= i < |s.accepted| ==> s.accepted[i] < s.arrived)
    && (s.straggler.Some? ==> s.straggler.value < s.arrived)
    && (s.inFlight.Some? ==> s.inFlight.value < s.arrived)
    && (s.phase.Cleared? ==> s.accepted == [])
    && (forall k :: 0 <= k < |s.captures| ==> Accounts(s.captures[k]))
  }

  lemma StepKeepsInv(s: Stream, a: Action)
    requires Inv(s)
    ensures Inv(Step(s, a))
  {
    var s' := Step(s, a);
    if s.inFlight.Some? && a.Append? {
      assert s'.samples + [] == s.samples + [s.inFlight.value];
    }
    if s.inFlight.None? && a.Check? && s.accepting {
      assert s.samples + [] == s.samples;
      assert Optional(s.straggler) + s.accepted + [s.arrived] == Optional(s.straggler) + s'.accepted;
    }
    if a.Clear? {
      assert [] + Optional(s.inFlight) == Optional(s.inFlight) + [];
    }
  }

  lemma {:induction false} RunKeepsInv(actions: seq<Action>)
    ensures Inv(Run(actions))
  {
    if actions != [] {
      RunKeepsInv(actions[..|actions| - 1]);
      StepKeepsInv(Run(actions[..|actions| - 1]), actions[|actions| - 1]);
    }
  }

  /**
   In every interleaving a capture is the accepted buffers in order, but for two at most: the
   last one is missing if its callback was in flight when the samples were taken, and one of an
   earlier recording comes first if its callback was in flight when the samples were cleared.
   It is exact if and only if neither happened, or one callback outlasted the whole recording.
   */
  lemma ACaptureIsOffByTheBuffersInFlight(actions: seq<Action>, k: nat)
    requires k < |Run(actions).captures|
    ensures var c := Run(actions).captures[k];
            && c.taken + Optional(c.missing) == Optional(c.straggler) + c.accepted
            && (c.taken == c.accepted <==> c.missing == c.straggler)
  {
    RunKeepsInv(actions);
    ExactIffNothingInFlight(Run(actions).captures[k]);
  }

  lemma ExactIffNothingInFlight(c: Capture)
    requires Accounts(c)
    ensures c.taken == c.accepted <==> c.missing == c.straggler
  {
    var left, right := c.taken + Optional(c.missing), Optional(c.straggler) + c.accepted;
    assert |left| == |right|;
    if c.straggler.Some? && c.missing.Some? {
      assert left[|c.taken|] == c.missing.value && right[0] == c.straggler.value;
      if c.taken != [] {
        assert left[0] == c.taken[0] && right[|c.accepted|] == c.accepted[|c.accepted| - 1];
      }
    } else if c.straggler.None? && c.missing.None? {
      assert left == c.taken && right == c.accepted;
    }
  }

  /** Each time the worker takes the samples or gives up, no callback is running any more. */
  ghost predicate Quiesces(actions: seq<Action>) {
    forall n :: 0 <= n < |actions| && (actions[n] == Take || actions[n] == Abort) ==> Run(actions[..n]).inFlight.None?
  }

  lemma {:induction false} QuiescentRun(actions: seq<Action>)
    requires Quiesces(actions)
    ensures Run(actions).phase.Idle? || Run(actions).phase.Cleared? ==> Run(actions).inFlight.None?
    ensures Run(actions).straggler.None?
    ensures forall k :: 0 <= k < |Run(actions).captures| ==>
              Run(actions).captures[k].missing.None? && Run(actions).captures[k].straggler.None?
  {
    if actions != [] {
      var before := actions[..|actions| - 1];
      assert forall n :: 0 <= n < |before| ==> before[n] == actions[n] && before[..n] == actions[..n];
      QuiescentRun(before);
      RunKeepsInv(before);
    }
  }

  /** So if deactivation waits for a running callback, every capture is exactly what was accepted. */
  lemma QuiescentCapturesAreExact(actions: seq<Action>, k: nat)
    requires Quiesces(actions) && k < |Run(actions).captures|
    ensures Run(actions).captures[k].taken == Run(actions).captures[k].accepted
  {
    QuiescentRun(actions);
    ACaptureIsOffByTheBuffersInFlight(actions, k);
  }

  ghost predicate Reachable(s: Stream) {
    exists actions :: Run(actions) == s
  }

  lemma Follow(s: Stream, a: Action) returns (s': Stream)
    requires Reachable(s)
    ensures s' == Step(s, a) && Reachable(s')
  {
    var actions :| Run(actions) == s;
    s' := Step(s, a);
    assert (actions + [a])[..|actions|] == actions;
    assert Run(actions + [a]) == s';
  }

  /** A recording whose only buffer is still in flight when the samples are taken. */
  lemma ATakeWithABufferInFlight() returns (s: Stream)
    ensures Reachable(s) && s.phase.Idle? && !s.accepting && s.inFlight == Some(0) && |s.captures| == 1
  {
    assert Run([]) == NEW;
    s := Follow(NEW, Clear);
    s := Follow(s, Accept);
    s := Follow(s, Check);
    s := Follow(s, Refuse);
    s := Follow(s, Take);
  }

  ghost predicate CarriesOver(c: Capture) {
    c.accepted == [] && c.taken == [0]
  }

  /** Without that wait a buffer of one recording can turn up in the next. */
  lemma ABufferCanBeCarriedOver()
    ensures exists actions, k :: 0 <= k < |Run(actions).captures| && CarriesOver(Run(actions).captures[k])
  {
    var s := ATakeWithABufferInFlight();
    s := Follow(s, Clear);
    s := Follow(s, Append);
    assert s.samples == [0] && s.accepted == [];
    s := Follow(s, Accept);
    s := Follow(s, Refuse);
    s := Follow(s, Take);
    assert |s.captures| == 2 && CarriesOver(s.captures[1]);
    var actions :| Run(actions) == s;
    assert CarriesOver(Run(actions).captures[1]);
  }
}

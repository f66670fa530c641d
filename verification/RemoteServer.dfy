/**
 The sockets and deadline tasks around the remote-text protocol
 (crates/vinpst-daemon/src/remote/server.rs), interleaved at lock granularity. A deadline
 task sleeps, and acts only if no later schedule or cancel has moved the generation on.
 */
module RemoteServer {
  import opened Wrappers
  import opened RemoteText

  /**
   `history` is the protocol call of every locked section, in order; `scheduled` maps a
   generation to the index of the update it was scheduled by.
   */
  datatype Server = Server(
    protocol: State, input: Option<nat>, output: Option<nat>, nextClient: nat,
    openInputs: set<nat>, openOutputs: set<nat>,
    generation: nat, sleeping: set<nat>, scheduled: map<nat, nat>, history: seq<Event>)

  const BOOT := Server(FRESH, None, None, 1, {}, {}, 0, {}, map[], [])

  /** A socket opens, sends a parsed message or closes; a deadline task wakes up. */
  datatype Action =
    | OpenInput(apiKey: seq<bv8>)
    | OpenOutput
    | InputSends(client: nat, kind: string, text: Option<string>)
    | OutputSends(client: nat, kind: string, session: Option<string>)
    | CloseInput(client: nat)
    | CloseOutput(client: nat)
    | Wake(generation: nat)

  /** One protocol call under the lock, and what its debounce effect does. */
  function Dispatch(key: seq<bv8>, s: Server, e: Event): Server {
    var (protocol, effects) := Apply(key, s.protocol, e);
    var called := s.(protocol := protocol, history := s.history + [e]);
    match effects.debounce
    case Unchanged => called
    case Cancel => called.(generation := s.generation + 1)
    case Schedule =>
      called.(generation := s.generation + 1, sleeping := s.sleeping + {s.generation + 1},
              scheduled := s.scheduled[s.generation + 1 := |s.history|])
  }

  predicate IsRefused(effects: Effects) {
    exists m :: m in effects.output && m.AlreadyConnected?
  }

  /** An action that is not enabled changes nothing. */
  function Step(key: seq<bv8>, s: Server, a: Action): Server {
    match a
    case OpenInput(apiKey) =>
      var id := s.nextClient;
      var called := Dispatch(key, s, ConnectInput(apiKey)).(nextClient := id + 1);
      if !Accepts(Apply(key, s.protocol, ConnectInput(apiKey)).1) then called
      else called.(input := Some(id), openInputs := s.openInputs + {id})
    case OpenOutput =>
      var id := s.nextClient;
      var called := Dispatch(key, s, ConnectOutput).(nextClient := id + 1);
      if IsRefused(Apply(key, s.protocol, ConnectOutput).1) then called
      else called.(output := Some(id), openOutputs := s.openOutputs + {id})
    case InputSends(client, kind, text) =>
      if client !in s.openInputs then s else Dispatch(key, s, InputEvent(kind, text))
    case OutputSends(client, kind, session) =>
      if client !in s.openOutputs then s else Dispatch(key, s, OutputEvent(kind, session))
    case CloseInput(client) =>
      if client !in s.openInputs then s
      else if s.input != Some(client) then s.(openInputs := s.openInputs - {client})
      else Dispatch(key, s.(input := None, openInputs := s.openInputs - {client}), DisconnectInput)
    case CloseOutput(client) =>
      if client !in s.openOutputs then s
      else if s.output != Some(client) then s.(openOutputs := s.openOutputs - {client})
      else Dispatch(key, s.(output := None, openOutputs := s.openOutputs - {client}), DisconnectOutput)
    case Wake(g) =>
      if g !in s.sleeping then s
      else if s.generation != g then s.(sleeping := s.sleeping - {g})
      else Dispatch(key, s.(sleeping := s.sleeping - {g}, generation := g + 1), FireDebounce)
  }

  function Serve(key: seq<bv8>, actions: seq<Action>): Server {
    if actions == [] then BOOT else Step(key, Serve(key, actions[..|actions| - 1]), actions[|actions| - 1])
  }

  // ---- Deadlines against the history ----

  /** The call at `j` leaves a sleeping deadline alone. */
  ghost predicate Quiet(key: seq<bv8>, h: seq<Event>, j: nat)
    requires j < |h|
  {
    !h[j].FireDebounce? && Emitted(key, h, j).debounce == Unchanged
  }

  /** The update at `i` scheduled a deadline that nothing has replaced, cancelled or used up. */
  ghost predicate Armed(key: seq<bv8>, h: seq<Event>, i: nat) {
    i < |h| && IsUpdate(h[i]) && forall j: nat :: i < j < |h| ==> Quiet(key, h, j)
  }

  lemma ArmedOfAppend(key: seq<bv8>, h: seq<Event>, e: Event, i: nat)
    ensures Armed(key, h + [e], i) <==>
            (if i == |h| then IsUpdate(e) else Armed(key, h, i) && Quiet(key, h + [e], |h|))
  {
    var h' := h + [e];
    assert h'[..|h|] == h;
    forall j: nat | j < |h|
      ensures Quiet(key, h', j) <==> Quiet(key, h, j)
    {
      assert h'[..j] == h[..j];
    }
  }

  /** The protocol runs on the history, and the one deadline that will act is the armed update's. */
  ghost predicate DeadlinesAreRight(key: seq<bv8>, s: Server) {
    && s.protocol == Run(key, s.history)
    && (forall g :: g in s.sleeping ==> g <= s.generation && g in s.scheduled)
    && (forall i: nat :: Armed(key, s.history, i) ==> IsDue(s, i))
    && (s.generation in s.sleeping ==> Armed(key, s.history, s.scheduled[s.generation]))
  }

  predicate SocketsAreClients(s: Server) {
    && s.openInputs == (if s.input.Some? then {s.input.value} else {})
    && s.openOutputs == (if s.output.Some? then {s.output.value} else {})
    && s.protocol.inputConnected == s.input.Some? && s.protocol.outputConnected == s.output.Some?
  }

  /** Each deadline was scheduled by an update of its own, and no output event came while the output was down. */
  ghost predicate HistoryIsSound(s: Server) {
    && (forall g :: g in s.scheduled ==> g <= s.generation && s.scheduled[g] < |s.history|)
    && (forall g, g' :: g in s.scheduled && g' in s.scheduled && g != g' ==> s.scheduled[g] != s.scheduled[g'])
    && (forall j: nat :: j < |s.history| && s.history[j].OutputEvent? ==> OutputUp(s.history[..j]))
  }

  ghost predicate Inv(key: seq<bv8>, s: Server) {
    DeadlinesAreRight(key, s) && SocketsAreClients(s) && HistoryIsSound(s)
  }

  /** The deadline of the update at `i` is sleeping, and will act when it wakes. */
  ghost predicate IsDue(s: Server, i: nat) {
    s.generation in s.sleeping && s.generation in s.scheduled && s.scheduled[s.generation] == i
  }

  lemma OnlyUpdatesSchedule(key: seq<bv8>, s: State, e: Event)
    ensures IsUpdate(e) <==> Apply(key, s, e).1.debounce == Schedule
  {
  }

  lemma DispatchKeepsDeadlines(key: seq<bv8>, s: Server, e: Event)
    requires DeadlinesAreRight(key, s) && !e.FireDebounce?
    ensures DeadlinesAreRight(key, Dispatch(key, s, e))
  {
    var s' := Dispatch(key, s, e);
    var n := |s.history|;
    assert (s.history + [e])[..n] == s.history;
    assert Emitted(key, s'.history, n) == Apply(key, s.protocol, e).1;
    OnlyUpdatesSchedule(key, s.protocol, e);
    forall i: nat
      ensures Armed(key, s'.history, i) <==>
              (if i == n then IsUpdate(e) else Armed(key, s.history, i) && Quiet(key, s'.history, n))
    {
      ArmedOfAppend(key, s.history, e, i);
    }
  }

  /** A call is added to a sound history; an output event only while the output is up. */
  lemma DispatchKeepsHistory(key: seq<bv8>, s: Server, e: Event)
    requires HistoryIsSound(s) && (e.OutputEvent? ==> OutputUp(s.history))
    ensures HistoryIsSound(Dispatch(key, s, e))
  {
    var h, h' := s.history, s.history + [e];
    forall j: nat | j < |h'| && h'[j].OutputEvent?
      ensures OutputUp(h'[..j])
    {
      assert h'[..j] == h[..j];
      if j == |h| { assert h[..j] == h; }
    }
  }

  /** Only sockets and the client counter differ. */
  lemma SameDeadlines(key: seq<bv8>, s: Server, s': Server)
    requires DeadlinesAreRight(key, s)
    requires s' == s.(input := s'.input, output := s'.output, nextClient := s'.nextClient,
                      openInputs := s'.openInputs, openOutputs := s'.openOutputs)
    ensures DeadlinesAreRight(key, s')
  {
    forall i: nat | Armed(key, s'.history, i)
      ensures IsDue(s', i)
    {
      assert IsDue(s, i);
    }
  }

  /** An input socket is accepted exactly when the key is right and no client is connected. */
  lemma InputIsAcceptedIff(key: seq<bv8>, s: State, apiKey: seq<bv8>)
    ensures Accepts(Apply(key, s, ConnectInput(apiKey)).1) <==> key == apiKey && !s.inputConnected
    ensures Apply(key, s, ConnectInput(apiKey)).0.inputConnected <==>
            s.inputConnected || Accepts(Apply(key, s, ConnectInput(apiKey)).1)
  {
    ConstantTimeEqIsEquality(key, apiKey);
    var input := Apply(key, s, ConnectInput(apiKey)).1.input;
    if key == apiKey && !s.inputConnected { assert input[1].Init?; }
  }

  lemma OutputIsRefusedIff(key: seq<bv8>, s: State)
    ensures IsRefused(Apply(key, s, ConnectOutput).1) <==> s.outputConnected
  {
    var output := Apply(key, s, ConnectOutput).1.output;
    if s.outputConnected { assert output[0].AlreadyConnected?; }
  }

  lemma OpenInputKeepsInv(key: seq<bv8>, s: Server, apiKey: seq<bv8>)
    requires Inv(key, s)
    ensures Inv(key, Step(key, s, OpenInput(apiKey)))
  {
    InputIsAcceptedIff(key, s.protocol, apiKey);
    DispatchKeepsDeadlines(key, s, ConnectInput(apiKey));
    DispatchKeepsHistory(key, s, ConnectInput(apiKey));
    SameDeadlines(key, Dispatch(key, s, ConnectInput(apiKey)), Step(key, s, OpenInput(apiKey)));
  }

  lemma OpenOutputKeepsInv(key: seq<bv8>, s: Server)
    requires Inv(key, s)
    ensures Inv(key, Step(key, s, OpenOutput))
  {
    OutputIsRefusedIff(key, s.protocol);
    DispatchKeepsDeadlines(key, s, ConnectOutput);
    DispatchKeepsHistory(key, s, ConnectOutput);
    SameDeadlines(key, Dispatch(key, s, ConnectOutput), Step(key, s, OpenOutput));
  }

  /** Only connects and disconnects touch the connection flags. */
  lemma MessagesKeepConnections(key: seq<bv8>, s: State, e: Event)
    requires e.InputEvent? || e.OutputEvent? || e.FireDebounce?
    ensures Apply(key, s, e).0.inputConnected == s.inputConnected
    ensures Apply(key, s, e).0.outputConnected == s.outputConnected
  {
  }

  lemma MessageKeepsInv(key: seq<bv8>, s: Server, e: Event)
    requires Inv(key, s) && (e.InputEvent? || (e.OutputEvent? && s.openOutputs != {}))
    ensures Inv(key, Dispatch(key, s, e))
  {
    OutputFlagIsOutputUp(key, s.history);
    DispatchKeepsDeadlines(key, s, e);
    DispatchKeepsHistory(key, s, e);
    MessagesKeepConnections(key, s.protocol, e);
  }

  lemma CloseInputKeepsInv(key: seq<bv8>, s: Server, client: nat)
    requires Inv(key, s)
    ensures Inv(key, Step(key, s, CloseInput(client)))
  {
    if client in s.openInputs {
      var left := s.(input := None, openInputs := s.openInputs - {client});
      SameDeadlines(key, s, left);
      DispatchKeepsDeadlines(key, left, DisconnectInput);
      DispatchKeepsHistory(key, left, DisconnectInput);
    }
  }

  lemma CloseOutputKeepsInv(key: seq<bv8>, s: Server, client: nat)
    requires Inv(key, s)
    ensures Inv(key, Step(key, s, CloseOutput(client)))
  {
    if client in s.openOutputs {
      var left := s.(output := None, openOutputs := s.openOutputs - {client});
      SameDeadlines(key, s, left);
      DispatchKeepsDeadlines(key, left, DisconnectOutput);
      DispatchKeepsHistory(key, left, DisconnectOutput);
    }
  }

  lemma WakeKeepsDeadlines(key: seq<bv8>, s: Server, g: nat)
    requires DeadlinesAreRight(key, s) && g in s.sleeping && s.generation == g
    ensures DeadlinesAreRight(key, Step(key, s, Wake(g)))
  {
    var s' := Step(key, s, Wake(g));
    assert (s.history + [FireDebounce])[..|s.history|] == s.history;
    forall i: nat
      ensures !Armed(key, s'.history, i)
    {
      ArmedOfAppend(key, s.history, FireDebounce, i);
    }
  }

  lemma StaleWakeKeepsInv(key: seq<bv8>, s: Server, g: nat)
    requires Inv(key, s) && s.generation != g
    ensures Inv(key, s.(sleeping := s.sleeping - {g}))
  {
    forall i: nat | Armed(key, s.history, i)
      ensures IsDue(s.(sleeping := s.sleeping - {g}), i)
    {
      assert IsDue(s, i);
    }
  }

  lemma LiveWakeKeepsInv(key: seq<bv8>, s: Server, g: nat)
    requires Inv(key, s) && g in s.sleeping && s.generation == g
    ensures Inv(key, Step(key, s, Wake(g)))
  {
    var woken := s.(sleeping := s.sleeping - {g}, generation := g + 1);
    assert HistoryIsSound(woken);
    WakeKeepsDeadlines(key, s, g);
    MessagesKeepConnections(key, s.protocol, FireDebounce);
    DispatchKeepsHistory(key, woken, FireDebounce);
  }

  lemma WakeKeepsInv(key: seq<bv8>, s: Server, g: nat)
    requires Inv(key, s)
    ensures Inv(key, Step(key, s, Wake(g)))
  {
    if g in s.sleeping {
      if s.generation == g {
        LiveWakeKeepsInv(key, s, g);
      } else {
        StaleWakeKeepsInv(key, s, g);
      }
    }
  }

  lemma StepKeepsInv(key: seq<bv8>, s: Server, a: Action)
    requires Inv(key, s)
    ensures Inv(key, Step(key, s, a))
  {
    match a
    case OpenInput(apiKey) => OpenInputKeepsInv(key, s, apiKey);
    case OpenOutput => OpenOutputKeepsInv(key, s);
    case InputSends(_, kind, text) => MessageKeepsInv(key, s, InputEvent(kind, text));
    case OutputSends(client, kind, session) =>
      if client in s.openOutputs { MessageKeepsInv(key, s, OutputEvent(kind, session)); }
    case CloseInput(client) => CloseInputKeepsInv(key, s, client);
    case CloseOutput(client) => CloseOutputKeepsInv(key, s, client);
    case Wake(g) => WakeKeepsInv(key, s, g);
  }

  lemma {:induction false} ServeKeepsInv(key: seq<bv8>, actions: seq<Action>)
    ensures Inv(key, Serve(key, actions))
  {
    if actions != [] {
      ServeKeepsInv(key, actions[..|actions| - 1]);
      StepKeepsInv(key, Serve(key, actions[..|actions| - 1]), actions[|actions| - 1]);
    }
  }

  // ---- What holds in every run ----

  /**
   The server runs the protocol on one history, and the sockets it still reads are exactly the
   connected clients: a refused or stale socket can neither send nor disconnect anybody.
   */
  lemma OnlyTheClientsAreHeard(key: seq<bv8>, actions: seq<Action>)
    ensures var s := Serve(key, actions);
            && s.protocol == Run(key, s.history)
            && (s.protocol.outputConnected <==> OutputUp(s.history))
            && s.openInputs == (if s.protocol.inputConnected && s.input.Some? then {s.input.value} else {})
            && s.openOutputs == (if s.protocol.outputConnected && s.output.Some? then {s.output.value} else {})
  {
    ServeKeepsInv(key, actions);
    OutputFlagIsOutputUp(key, Serve(key, actions).history);
  }

  /** While a non-empty update is pending, only these calls touch its deadline. */
  lemma QuietWhilePending(key: seq<bv8>, h: seq<Event>, j: nat, i: nat)
    requires j < |h| && Pending(h[..j], i) && UpdateText(h[i]) != ""
    ensures Quiet(key, h, j) <==>
            !IsUpdate(h[j]) && !IsFlush(h[j]) && h[j] != DisconnectInput && h[j] != DisconnectOutput
  {
    CurrentTextRefinesHistory(key, h[..j]);
    assert h[..j][i] == h[i];
    assert Run(key, h[..j]).currentText == UpdateText(h[i]);
  }

  lemma {:induction false} ArmedIsPending(key: seq<bv8>, h: seq<Event>, i: nat, n: nat)
    requires Armed(key, h, i) && UpdateText(h[i]) != "" && i < n <= |h|
    ensures Pending(h[..n], i)
  {
    if n == i + 1 {
      assert h[..n][i] == h[i];
    } else {
      ArmedIsPending(key, h, i, n - 1);
      assert h[..n][..n - 1] == h[..n - 1];
      QuietWhilePending(key, h, n - 1, i);
      assert Quiet(key, h, n - 1);
      PendingOfAppend(h[..n], n - 1, i);
    }
  }

  lemma PendingBefore(h: seq<Event>, i: nat, j: nat)
    requires Pending(h, i) && i < j <= |h|
    ensures Pending(h[..j], i)
  {
    forall k: nat | i < k < j
      ensures !IsUpdate(h[..j][k]) && !Settles(h[..j], k)
    {
      assert h[..j][..k] == h[..k];
      assert !Settles(h, k);
    }
  }

  /**
   A deadline that passes its check is that of the last update: if the update has text and the
   output is up, waking delivers exactly that update.
   */
  lemma ADeadlineDeliversItsOwnUpdate(key: seq<bv8>, actions: seq<Action>)
    requires Serve(key, actions).generation in Serve(key, actions).sleeping
    ensures var s := Serve(key, actions);
            && s.generation in s.scheduled
            && var i := s.scheduled[s.generation];
               && i < |s.history| && IsUpdate(s.history[i])
               && (UpdateText(s.history[i]) != "" && OutputUp(s.history) ==>
                     Delivers(s.history + [FireDebounce], |s.history|, i))
  {
    ServeKeepsInv(key, actions);
    var s := Serve(key, actions);
    var i := s.scheduled[s.generation];
    assert Armed(key, s.history, i);
    assert (s.history + [FireDebounce])[..|s.history|] == s.history;
    if UpdateText(s.history[i]) != "" {
      ArmedIsPending(key, s.history, i, |s.history|);
      assert s.history[..|s.history|] == s.history;
    }
  }

  /** The update that scheduled `g` is no longer armed: its deadline was replaced, cancelled or used up. */
  ghost predicate IsSuperseded(key: seq<bv8>, s: Server, g: nat) {
    g in s.scheduled && !Armed(key, s.history, s.scheduled[g])
  }

  /** A sleeping deadline makes its one protocol call when it wakes unless it was superseded; then it does nothing. */
  lemma ADeadlineActsIffNotSuperseded(key: seq<bv8>, actions: seq<Action>, g: nat)
    requires g in Serve(key, actions).sleeping
    ensures var s := Serve(key, actions);
            var s' := Step(key, s, Wake(g));
            && g !in s'.sleeping
            && s'.history == (if IsSuperseded(key, s, g) then s.history else s.history + [FireDebounce])
            && (IsSuperseded(key, s, g) ==> s' == s.(sleeping := s'.sleeping))
  {
    ServeKeepsInv(key, actions);
    var s := Serve(key, actions);
    assert Armed(key, s.history, s.scheduled[g]) ==> IsDue(s, s.scheduled[g]);
  }

  /** The server never applies an output event, and so never answers a commit, while the output is down. */
  lemma OutputEventsComeWhileUp(key: seq<bv8>, actions: seq<Action>, j: nat)
    requires j < |Serve(key, actions).history|
    ensures var h := Serve(key, actions).history;
            && (h[j].OutputEvent? ==> OutputUp(h[..j]))
            && (AnswersCommitted(Emitted(key, h, j)) ==> OutputUp(h[..j]))
  {
    ServeKeepsInv(key, actions);
    CommittedRefinesHistory(key, Serve(key, actions).history, j);
  }

  /** No call since the update at `i` flushed, and the input client has stayed. */
  predicate Undisturbed(h: seq<Event>, i: nat) {
    forall j :: i < j < |h| ==> !IsFlush(h[j]) && h[j] != DisconnectInput
  }

  /**
   A pending update with text has its deadline sleeping if and only if no flush came too early,
   while the output was down, and the input client has not disconnected: otherwise it waits for
   a flush or a further update.
   */
  lemma APendingUpdateIsDueIffUndisturbed(key: seq<bv8>, actions: seq<Action>, i: nat)
    requires Pending(Serve(key, actions).history, i) && UpdateText(Serve(key, actions).history[i]) != ""
    ensures var s := Serve(key, actions);
            IsDue(s, i) <==> Undisturbed(s.history, i)
  {
    ServeKeepsInv(key, actions);
    var s := Serve(key, actions);
    forall j: nat | i < j < |s.history|
      ensures Quiet(key, s.history, j) <==> !IsFlush(s.history[j]) && s.history[j] != DisconnectInput
    {
      PendingBefore(s.history, i, j);
      QuietWhilePending(key, s.history, j, i);
      assert !Settles(s.history, j);
    }
    assert Armed(key, s.history, i) <==> Undisturbed(s.history, i);
    if IsDue(s, i) {
      assert Armed(key, s.history, s.scheduled[s.generation]);
    }
  }

  // ---- A pending update that nothing will deliver by itself ----

  /**
   In every run each action makes the one protocol call that is its own: every connect, every
   message of a client, and its close. What a refused or closed socket does makes none.
   */
  lemma EveryClientIsHeard(key: seq<bv8>, actions: seq<Action>, a: Action)
    ensures var s, s' := Serve(key, actions), Step(key, Serve(key, actions), a);
            match a
            case OpenInput(apiKey) => s'.history == s.history + [ConnectInput(apiKey)]
            case OpenOutput => s'.history == s.history + [ConnectOutput]
            case InputSends(client, kind, text) =>
              s'.history == s.history + (if s.input == Some(client) then [InputEvent(kind, text)] else [])
            case OutputSends(client, kind, session) =>
              s'.history == s.history + (if s.output == Some(client) then [OutputEvent(kind, session)] else [])
            case CloseInput(client) =>
              && s'.history == s.history + (if s.input == Some(client) then [DisconnectInput] else [])
              && s'.input != Some(client)
            case CloseOutput(client) =>
              && s'.history == s.history + (if s.output == Some(client) then [DisconnectOutput] else [])
              && s'.output != Some(client)
            case Wake(g) =>
              s'.history == s.history + (if g in s.sleeping && s.generation == g then [FireDebounce] else [])
  {
    ServeKeepsInv(key, actions);
    var s := Serve(key, actions);
    assert s.history + [] == s.history;
  }

  /** The numbers of the clients are old, and the next one is new. */
  predicate NumbersAreOld(s: Server) {
    && (s.input.Some? ==> s.input.value < s.nextClient)
    && (s.output.Some? ==> s.output.value < s.nextClient)
    && (s.input.Some? && s.output.Some? ==> s.input.value != s.output.value)
  }

  lemma StepKeepsNumbers(key: seq<bv8>, s: Server, a: Action)
    requires NumbersAreOld(s)
    ensures NumbersAreOld(Step(key, s, a))
    ensures Step(key, s, a).nextClient == s.nextClient + if a.OpenInput? || a.OpenOutput? then 1 else 0
  {
  }

  /** Every socket that opens gets a number of its own. */
  lemma {:induction false} ClientNumbersAreNew(key: seq<bv8>, actions: seq<Action>)
    ensures NumbersAreOld(Serve(key, actions))
    ensures actions != [] ==>
              var s, s' := Serve(key, actions[..|actions| - 1]), Serve(key, actions);
              var a := actions[|actions| - 1];
              s'.nextClient == s.nextClient + if a.OpenInput? || a.OpenOutput? then 1 else 0
  {
    if actions != [] {
      ClientNumbersAreNew(key, actions[..|actions| - 1]);
      StepKeepsNumbers(key, Serve(key, actions[..|actions| - 1]), actions[|actions| - 1]);
    }
  }

  /** A connect makes its socket the client exactly if the key is right and there is no client yet. */
  lemma AConnectIsAcceptedIffFree(key: seq<bv8>, actions: seq<Action>, apiKey: seq<bv8>)
    ensures var s, s' := Serve(key, actions), Step(key, Serve(key, actions), OpenInput(apiKey));
            s'.input == if apiKey == key && s.input.None? then Some(s.nextClient) else s.input
    ensures var s, s' := Serve(key, actions), Step(key, Serve(key, actions), OpenOutput);
            s'.output == if s.output.None? then Some(s.nextClient) else s.output
  {
    ServeKeepsInv(key, actions);
    var s := Serve(key, actions);
    InputIsAcceptedIff(key, s.protocol, apiKey);
    OutputIsRefusedIff(key, s.protocol);
  }

  ghost predicate Reachable(key: seq<bv8>, s: Server) {
    exists actions :: Serve(key, actions) == s
  }

  lemma Follow(key: seq<bv8>, s: Server, a: Action) returns (s': Server)
    requires Reachable(key, s)
    ensures s' == Step(key, s, a) && Reachable(key, s')
  {
    var actions :| Serve(key, actions) == s;
    s' := Step(key, s, a);
    assert (actions + [a])[..|actions|] == actions;
    assert Serve(key, actions + [a]) == s';
  }

  /** An update is pending, the output is up and no deadline is sleeping. */
  ghost predicate IsStranded(s: Server, i: nat) {
    Pending(s.history, i) && UpdateText(s.history[i]) != "" && OutputUp(s.history) && s.sleeping == {}
  }

  function StrandedHistory(key: seq<bv8>, text: string): seq<Event> {
    [ConnectInput(key), InputEvent("text_update", Some(text)), FireDebounce, ConnectOutput]
  }

  lemma StrandedHistoryIsPending(key: seq<bv8>, text: string)
    ensures Pending(StrandedHistory(key, text), 1) && OutputUp(StrandedHistory(key, text))
  {
    var h := StrandedHistory(key, text);
    assert h[3] == ConnectOutput;
    assert !OutputUp(h[..2]);
  }

  lemma AClientSendsAnUpdate(key: seq<bv8>, text: string) returns (s: Server)
    ensures Reachable(key, s) && s.protocol == State(true, false, text, 0) && s.sleeping == {1} && s.generation == 1
    ensures s.history == StrandedHistory(key, text)[..2]
  {
    assert Serve(key, []) == BOOT;
    InputIsAcceptedIff(key, FRESH, key);
    s := Follow(key, BOOT, OpenInput(key));
    assert s.openInputs == {1} && s.protocol == State(true, false, "", 0) && s.history == [ConnectInput(key)];
    s := Follow(key, s, InputSends(1, "text_update", Some(text)));
  }

  /** It happens: the deadline passes before the output connects. */
  lemma AnUpdateCanBeStranded(key: seq<bv8>, text: string)
    requires text != ""
    ensures exists actions :: IsStranded(Serve(key, actions), 1)
  {
    var s := AClientSendsAnUpdate(key, text);
    s := Follow(key, s, Wake(1));
    assert s.sleeping == {} && s.protocol == State(true, false, text, 0);
    s := Follow(key, s, OpenOutput);
    assert s.history == StrandedHistory(key, text) && s.sleeping == {};
    StrandedHistoryIsPending(key, text);
    var actions :| Serve(key, actions) == s;
    assert IsStranded(Serve(key, actions), 1);
  }
}

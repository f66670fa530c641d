/**
 The remote-text protocol: one input client, one output client, one pending text
 (crates/vinpst-daemon/src/remote.rs). JSON objects are datatypes; an id such as
 `event_7` is its number, since every field fixes the prefix.
 */
module RemoteText {
  import opened Wrappers

  // ---- API key ----

  function Fold(difference: bv8, left: bv8, right: bv8): bv8 {
    difference | (left ^ right)
  }

  function Difference(expected: seq<bv8>, candidate: seq<bv8>): bv8
    requires |expected| == |candidate|
  {
    if expected == [] then 0
    else
      var n := |expected| - 1;
      Fold(Difference(expected[..n], candidate[..n]), expected[n], candidate[n])
  }

  function ConstantTimeEq(expected: seq<bv8>, candidate: seq<bv8>): bool {
    if |expected| != |candidate| then false else Difference(expected, candidate) == 0
  }

  lemma FoldIsZero(difference: bv8, left: bv8, right: bv8)
    ensures Fold(difference, left, right) == 0 <==> difference == 0 && left == right
  {
  }

  /** The fold without an early exit accepts exactly the key. */
  lemma {:induction false} ConstantTimeEqIsEquality(expected: seq<bv8>, candidate: seq<bv8>)
    ensures ConstantTimeEq(expected, candidate) <==> expected == candidate
  {
    if |expected| == |candidate| && expected != [] {
      var n := |expected| - 1;
      var a, b := expected[..n], candidate[..n];
      ConstantTimeEqIsEquality(a, b);
      FoldIsZero(Difference(a, b), expected[n], candidate[n]);
      assert expected == a + [expected[n]] && candidate == b + [candidate[n]];
    }
  }

  // ---- Messages ----

  datatype Debounce = Unchanged | Schedule | Cancel

  datatype InputMessage = AuthOk | Refused(reason: string) | Init(outputUp: bool) | OutputConnected | OutputDisconnected

  datatype OutputMessage =
    | AlreadyConnected(event: nat)
    | SessionUpdated(event: nat, session: string)
    | Committed(event: nat, item: nat)
    | Delta(event: nat, item: nat, text: string)
    | Completed(event: nat, item: nat, text: string)

  datatype Effects = Effects(input: seq<InputMessage>, output: seq<OutputMessage>, debounce: Debounce)

  const NOTHING := Effects([], [], Unchanged)

  datatype State = State(inputConnected: bool, outputConnected: bool, currentText: string, nextId: nat)

  const FRESH := State(false, false, "", 0)

  /** A call of one protocol method. A JSON event is its `type` and the one field the protocol reads. */
  datatype Event =
    | ConnectInput(apiKey: seq<bv8>)
    | ConnectOutput
    | DisconnectInput
    | DisconnectOutput
    | InputEvent(kind: string, text: Option<string>)
    | OutputEvent(kind: string, session: Option<string>)
    | FireDebounce

  function OrElse(value: Option<string>, default: string): string {
    if value.Some? then value.value else default
  }

  // ---- Transitions ----

  function FinalResult(s: State): (State, Effects) {
    if !s.outputConnected || s.currentText == "" then (s, NOTHING)
    else
      var n := s.nextId;
      (s.(currentText := "", nextId := n + 4),
       NOTHING.(output := [Committed(n + 2, n + 1), Delta(n + 3, n + 1, s.currentText),
                           Completed(n + 4, n + 1, s.currentText)]))
  }

  function Apply(key: seq<bv8>, s: State, e: Event): (State, Effects) {
    match e
    case ConnectInput(apiKey) =>
      if !ConstantTimeEq(key, apiKey) then (s, NOTHING.(input := [Refused("Unauthorized.")]))
      else if s.inputConnected then (s, NOTHING.(input := [AuthOk, Refused("Input client already connected.")]))
      else (s.(inputConnected := true), NOTHING.(input := [AuthOk, Init(s.outputConnected)]))
    case ConnectOutput =>
      if s.outputConnected then (s.(nextId := s.nextId + 1), NOTHING.(output := [AlreadyConnected(s.nextId + 1)]))
      else (s.(outputConnected := true), NOTHING.(input := if s.inputConnected then [OutputConnected] else []))
    case DisconnectInput => (s.(inputConnected := false), NOTHING.(debounce := Cancel))
    case DisconnectOutput =>
      (s.(outputConnected := false, currentText := ""),
       Effects(if s.inputConnected then [OutputDisconnected] else [], [], Cancel))
    case InputEvent(kind, text) =>
      if kind == "text_update" then (s.(currentText := OrElse(text, "")), NOTHING.(debounce := Schedule))
      else if kind == "finalize" then (FinalResult(s).0, FinalResult(s).1.(debounce := Cancel))
      else (s, NOTHING)
    case OutputEvent(kind, session) =>
      if kind == "session.update" then
        (s.(nextId := s.nextId + 1), NOTHING.(output := [SessionUpdated(s.nextId + 1, OrElse(session, "{}"))]))
      else if kind == "input_audio_buffer.commit" then
        if s.currentText == "" then
          (s.(nextId := s.nextId + 2), NOTHING.(output := [Committed(s.nextId + 1, s.nextId + 2)]))
        else (FinalResult(s).0, FinalResult(s).1.(debounce := Cancel))
      else (s, NOTHING)
    case FireDebounce => FinalResult(s)
  }

  /** Only `ConnectInput` looks at the key. */
  const NO_KEY: seq<bv8> := []

  class RemoteTextProtocol {
    var inputConnected: bool
    var outputConnected: bool
    var currentText: string
    var nextEventId: nat

    function View(): State
      reads this
    {
      State(inputConnected, outputConnected, currentText, nextEventId)
    }

    constructor ()
      ensures View() == FRESH
    {
      inputConnected, outputConnected, currentText, nextEventId := false, false, "", 0;
    }

    method NewId() returns (id: nat)
      modifies this`nextEventId
      ensures id == nextEventId == old(nextEventId) + 1
    {
      nextEventId := nextEventId + 1;
      return nextEventId;
    }

    method Connect(key: seq<bv8>, apiKey: seq<bv8>) returns (effects: Effects)
      modifies this`inputConnected
      ensures (View(), effects) == Apply(key, old(View()), ConnectInput(apiKey))
    {
      if !ConstantTimeEq(key, apiKey) {
        return NOTHING.(input := [Refused("Unauthorized.")]);
      }
      var messages := [AuthOk];
      if inputConnected {
        messages := messages + [Refused("Input client already connected.")];
        assert messages == [AuthOk, Refused("Input client already connected.")];
        return NOTHING.(input := messages);
      }
      inputConnected := true;
      messages := messages + [Init(outputConnected)];
      assert messages == [AuthOk, Init(outputConnected)];
      return NOTHING.(input := messages);
    }

    method ConnectRealtime() returns (effects: Effects)
      modifies this
      ensures (View(), effects) == Apply(NO_KEY, old(View()), ConnectOutput)
    {
      if outputConnected {
        var id := NewId();
        return NOTHING.(output := [AlreadyConnected(id)]);
      }
      outputConnected := true;
      return NOTHING.(input := if inputConnected then [OutputConnected] else []);
    }

    method ReleaseInput() returns (effects: Effects)
      modifies this`inputConnected
      ensures (View(), effects) == Apply(NO_KEY, old(View()), DisconnectInput)
    {
      inputConnected := false;
      return NOTHING.(debounce := Cancel);
    }

    method ReleaseOutput() returns (effects: Effects)
      modifies this
      ensures (View(), effects) == Apply(NO_KEY, old(View()), DisconnectOutput)
    {
      outputConnected := false;
      currentText := "";
      return Effects(if inputConnected then [OutputDisconnected] else [], [], Cancel);
    }

    method HandleInputEvent(kind: string, text: Option<string>) returns (effects: Effects)
      modifies this
      ensures (View(), effects) == Apply(NO_KEY, old(View()), InputEvent(kind, text))
    {
      if kind == "text_update" {
        currentText := OrElse(text, "");
        return NOTHING.(debounce := Schedule);
      } else if kind == "finalize" {
        effects := FinalResultEffects();
        effects := effects.(debounce := Cancel);
      } else {
        return NOTHING;
      }
    }

    method HandleOutputEvent(kind: string, session: Option<string>) returns (effects: Effects)
      modifies this
      ensures (View(), effects) == Apply(NO_KEY, old(View()), OutputEvent(kind, session))
    {
      if kind == "session.update" {
        var id := NewId();
        return NOTHING.(output := [SessionUpdated(id, OrElse(session, "{}"))]);
      } else if kind == "input_audio_buffer.commit" && currentText == "" {
        var event := NewId();
        var item := NewId();
        return NOTHING.(output := [Committed(event, item)]);
      } else if kind == "input_audio_buffer.commit" {
        effects := FinalResultEffects();
        effects := effects.(debounce := Cancel);
      } else {
        return NOTHING;
      }
    }

    method Fire() returns (effects: Effects)
      modifies this
      ensures (View(), effects) == Apply(NO_KEY, old(View()), FireDebounce)
    {
      effects := FinalResultEffects();
    }

    method FinalResultEffects() returns (effects: Effects)
      modifies this
      ensures (View(), effects) == FinalResult(old(View()))
    {
      if !outputConnected || currentText == "" {
        return NOTHING;
      }
      var text := currentText;
      currentText := "";
      var item := NewId();
      var committed := NewId();
      var delta := NewId();
      var completed := NewId();
      return NOTHING.(
          output := [Committed(committed, item), Delta(delta, item, text), Completed(completed, item, text)]);
    }
  }

  // ---- Histories ----

  function Run(key: seq<bv8>, h: seq<Event>): State {
    if h == [] then FRESH else Apply(key, Run(key, h[..|h| - 1]), h[|h| - 1]).0
  }

  /** What the call at `n` emitted. */
  function Emitted(key: seq<bv8>, h: seq<Event>, n: nat): Effects
    requires n < |h|
  {
    Apply(key, Run(key, h[..n]), h[n]).1
  }

  lemma RunUpTo(key: seq<bv8>, h: seq<Event>, n: nat)
    requires n < |h|
    ensures Run(key, h[..n + 1]) == Apply(key, Run(key, h[..n]), h[n]).0
  {
    assert h[..n + 1][..n] == h[..n];
  }

  // ---- What the history prescribes, without looking at any state ----

  /** The output connected and has not disconnected since. */
  ghost predicate OutputUp(h: seq<Event>) {
    exists i :: 0 <= i < |h| && h[i] == ConnectOutput && forall j :: i < j < |h| ==> h[j] != DisconnectOutput
  }

  predicate IsUpdate(e: Event) {
    e.InputEvent? && e.kind == "text_update"
  }

  function UpdateText(e: Event): string
    requires IsUpdate(e)
  {
    OrElse(e.text, "")
  }

  /** A finalize, a commit or the debounce deadline. */
  predicate IsFlush(e: Event) {
    || e.FireDebounce?
    || (e.InputEvent? && e.kind == "finalize")
    || (e.OutputEvent? && e.kind == "input_audio_buffer.commit")
  }

  /** A disconnect of the output, or a flush while it is up: no earlier update outlives it. */
  ghost predicate Settles(h: seq<Event>, j: nat)
    requires j < |h|
  {
    h[j] == DisconnectOutput || (IsFlush(h[j]) && OutputUp(h[..j]))
  }

  /** The update at `i` is the last one and nothing has settled it. */
  ghost predicate Pending(h: seq<Event>, i: nat) {
    && i < |h| && IsUpdate(h[i])
    && forall j: nat :: i < j < |h| ==> !IsUpdate(h[j]) && !Settles(h, j)
  }

  /** The call at `n` delivers the update at `i`. */
  ghost predicate Delivers(h: seq<Event>, n: nat, i: nat)
    requires n < |h|
  {
    IsFlush(h[n]) && OutputUp(h[..n]) && Pending(h[..n], i) && UpdateText(h[i]) != ""
  }

  lemma {:induction false} OutputFlagIsOutputUp(key: seq<bv8>, h: seq<Event>)
    ensures Run(key, h).outputConnected <==> OutputUp(h)
  {
    if h != [] {
      var n := |h| - 1;
      var init := h[..n];
      OutputFlagIsOutputUp(key, init);
      if OutputUp(init) && h[n] != DisconnectOutput {
        var i :| 0 <= i < n && init[i] == ConnectOutput && forall j :: i < j < n ==> init[j] != DisconnectOutput;
        assert h[i] == ConnectOutput && forall j :: i < j < |h| ==> h[j] != DisconnectOutput;
      }
      if h[n] == ConnectOutput { assert OutputUp(h); }
      if OutputUp(h) && h[n] != ConnectOutput {
        var i :| 0 <= i < |h| && h[i] == ConnectOutput && forall j :: i < j < |h| ==> h[j] != DisconnectOutput;
        assert init[i] == ConnectOutput && forall j :: i < j < n ==> init[j] != DisconnectOutput;
      }
    }
  }

  lemma PendingOfAppend(h: seq<Event>, n: nat, i: nat)
    requires n + 1 == |h|
    ensures Pending(h, i) <==>
            if i == n then IsUpdate(h[n]) else Pending(h[..n], i) && !IsUpdate(h[n]) && !Settles(h, n)
  {
    var init := h[..n];
    forall j: nat | j < n
      ensures Settles(h, j) <==> Settles(init, j)
    {
      assert init[..j] == h[..j];
    }
  }

  /** The pending text is the last update nothing has settled, and empty when there is none. */
  /** What a call makes of the pending text. */
  lemma TextAfter(key: seq<bv8>, s: State, e: Event)
    ensures Apply(key, s, e).0.currentText ==
            if IsUpdate(e) then UpdateText(e)
            else if e == DisconnectOutput || (IsFlush(e) && s.outputConnected) then ""
            else s.currentText
  {
  }

  /** The pending text is the last update nothing has settled, and empty when there is none. */
  lemma {:induction false} CurrentTextRefinesHistory(key: seq<bv8>, h: seq<Event>)
    ensures forall i: nat :: Pending(h, i) ==> Run(key, h).currentText == UpdateText(h[i])
    ensures (forall i: nat :: !Pending(h, i)) ==> Run(key, h).currentText == ""
  {
    if h != [] {
      var n := |h| - 1;
      CurrentTextRefinesHistory(key, h[..n]);
      OutputFlagIsOutputUp(key, h[..n]);
      TextAfter(key, Run(key, h[..n]), h[n]);
      PendingOfAppend(h, n, n);
      forall i: nat | Pending(h, i) || Pending(h[..n], i)
        ensures i == n || (Pending(h, i) <==> Pending(h[..n], i) && !IsUpdate(h[n]) && !Settles(h, n))
      {
        PendingOfAppend(h, n, i);
      }
    }
  }

  predicate IsTranscript(m: OutputMessage) {
    m.Delta? || m.Completed?
  }

  /** What one delivery sends: the commit, the delta and the transcript of `text`, all about one item. */
  ghost predicate IsDelivery(output: seq<OutputMessage>, text: string) {
    && |output| == 3
    && output[0].Committed? && output[1].Delta? && output[2].Completed?
    && output[0].item == output[1].item == output[2].item
    && output[1].text == output[2].text == text
  }

  /**
   A call emits a transcript exactly when the history says it delivers an update: committed,
   delta and completed under one item id, with the text of that update.
   */
  lemma TranscriptsRefineHistory(key: seq<bv8>, h: seq<Event>, n: nat)
    requires n < |h|
    ensures forall i: nat :: Delivers(h, n, i) ==> IsDelivery(Emitted(key, h, n).output, UpdateText(h[i]))
    ensures (forall i: nat :: !Delivers(h, n, i)) ==>
              forall m :: m in Emitted(key, h, n).output ==> !IsTranscript(m)
    ensures !OutputUp(h[..n]) ==> forall m :: m in Emitted(key, h, n).output ==> !IsTranscript(m)
  {
    var s := Run(key, h[..n]);
    CurrentTextRefinesHistory(key, h[..n]);
    OutputFlagIsOutputUp(key, h[..n]);
    forall i: nat | Delivers(h, n, i)
      ensures IsDelivery(Emitted(key, h, n).output, UpdateText(h[i]))
    {
      assert s.currentText == UpdateText(h[..n][i]);
    }
    if s.currentText != "" && s.outputConnected && IsFlush(h[n]) {
      var i: nat :| Pending(h[..n], i);
      assert Delivers(h, n, i);
    }
  }

  predicate IsCommit(e: Event) {
    e.OutputEvent? && e.kind == "input_audio_buffer.commit"
  }

  ghost predicate AnswersCommitted(effects: Effects) {
    exists m :: m in effects.output && m.Committed?
  }

  ghost predicate NothingToDeliver(h: seq<Event>) {
    forall i: nat :: Pending(h, i) ==> UpdateText(h[i]) == ""
  }

  /**
   A call answers `committed` exactly when it delivers an update, or is a commit with nothing to
   deliver. The second case does not ask whether the output is connected.
   */
  lemma CommittedRefinesHistory(key: seq<bv8>, h: seq<Event>, n: nat)
    requires n < |h|
    ensures AnswersCommitted(Emitted(key, h, n)) <==>
            (IsCommit(h[n]) && NothingToDeliver(h[..n])) || exists i: nat :: Delivers(h, n, i)
  {
    var s := Run(key, h[..n]);
    var output := Emitted(key, h, n).output;
    CurrentTextRefinesHistory(key, h[..n]);
    OutputFlagIsOutputUp(key, h[..n]);
    if s.currentText != "" {
      var i: nat :| Pending(h[..n], i);
      assert UpdateText(h[..n][i]) != "";
      if s.outputConnected && IsFlush(h[n]) {
        assert Delivers(h, n, i) && output[0].Committed?;
      }
    } else {
      forall i: nat | Pending(h[..n], i)
        ensures UpdateText(h[i]) == ""
      {
        assert Run(key, h[..n]).currentText == UpdateText(h[..n][i]);
      }
      if IsCommit(h[n]) { assert output[0].Committed?; }
    }
  }

  /** On its own the protocol answers a commit even though no output client has ever connected. */
  lemma CommitIsAnsweredWithoutAnOutput(key: seq<bv8>)
    ensures var h := [OutputEvent("input_audio_buffer.commit", None)];
            !OutputUp(h[..0]) && AnswersCommitted(Emitted(key, h, 0))
  {
    var h := [OutputEvent("input_audio_buffer.commit", None)];
    CommittedRefinesHistory(key, h, 0);
  }

  /** A later delivery is of a later update: no update is delivered twice. */
  lemma NoUpdateIsDeliveredTwice(h: seq<Event>, m: nat, i: nat, n: nat, j: nat)
    requires m < n < |h| && Delivers(h, m, i) && Delivers(h, n, j)
    ensures i < m < j
  {
    assert h[..n][..m] == h[..m];
    assert Settles(h[..n], m);
  }

  // ---- Ids ----

  lemma {:induction false} IdsGrow(key: seq<bv8>, h: seq<Event>, m: nat, n: nat)
    requires m <= n <= |h|
    ensures Run(key, h[..m]).nextId <= Run(key, h[..n]).nextId
  {
    if m < n {
      IdsGrow(key, h, m, n - 1);
      RunUpTo(key, h, n - 1);
      IdsRise(key, Run(key, h[..n - 1]), h[n - 1], 0);
    }
  }

  predicate HasItem(m: OutputMessage) {
    m.Committed? || m.Delta? || m.Completed?
  }

  /** Every number a call mints lies above all earlier ones. */
  lemma IdsOfStep(key: seq<bv8>, h: seq<Event>, n: nat, k: nat)
    requires n < |h| && k < |Emitted(key, h, n).output|
    ensures var low, high := Run(key, h[..n]).nextId, Run(key, h[..n + 1]).nextId;
            var m := Emitted(key, h, n).output[k];
            low < m.event <= high && (HasItem(m) ==> low < m.item <= high)
  {
    RunUpTo(key, h, n);
    IdsRise(key, Run(key, h[..n]), h[n], k);
  }

  lemma IdsRise(key: seq<bv8>, s: State, e: Event, k: nat)
    ensures s.nextId <= Apply(key, s, e).0.nextId
    ensures k < |Apply(key, s, e).1.output| ==>
              var m := Apply(key, s, e).1.output[k];
              && s.nextId < m.event <= Apply(key, s, e).0.nextId
              && (HasItem(m) ==> s.nextId < m.item <= Apply(key, s, e).0.nextId)
  {
  }

  /** No two messages of one call share an event id, nor an event id with an item id. */
  lemma IdsWithinStep(key: seq<bv8>, s: State, e: Event, k: nat, k': nat)
    requires k < |Apply(key, s, e).1.output| && k' < |Apply(key, s, e).1.output|
    ensures var a, b := Apply(key, s, e).1.output[k], Apply(key, s, e).1.output[k'];
            (a.event == b.event ==> k == k') && (HasItem(b) ==> a.event != b.item)
  {
  }

  /**
   Over a whole run no two messages share an event id, no event id is an item id, and an item
   id is shared only by the messages of one delivery.
   */
  lemma IdsAreUnique(key: seq<bv8>, h: seq<Event>, n: nat, k: nat, n': nat, k': nat)
    requires n < |h| && k < |Emitted(key, h, n).output| && n' < |h| && k' < |Emitted(key, h, n').output|
    ensures var a, b := Emitted(key, h, n).output[k], Emitted(key, h, n').output[k'];
            && (a.event == b.event ==> n == n' && k == k')
            && (HasItem(b) ==> a.event != b.item)
            && (HasItem(a) && HasItem(b) && a.item == b.item ==> n == n')
  {
    IdsOfStep(key, h, n, k);
    IdsOfStep(key, h, n', k');
    if n == n' { IdsWithinStep(key, Run(key, h[..n]), h[n], k, k'); }
    if n < n' { IdsGrow(key, h, n + 1, n'); }
    if n' < n { IdsGrow(key, h, n' + 1, n); }
  }

  // ---- What the input client can tell ----

  predicate Accepts(effects: Effects) {
    exists m :: m in effects.input && m.Init?
  }

  /** The messages sent to the accepted input client since it was accepted; a refused client gets its own. */
  function Inbox(key: seq<bv8>, h: seq<Event>): seq<InputMessage> {
    if h == [] then []
    else
      var n := |h| - 1;
      var effects := Emitted(key, h, n);
      if !h[n].ConnectInput? then Inbox(key, h[..n]) + effects.input
      else if Accepts(effects) then effects.input
      else Inbox(key, h[..n])
  }

  /** The output status a client concludes from its messages. */
  function Replay(messages: seq<InputMessage>): bool {
    if messages == [] then false
    else
      match messages[|messages| - 1]
      case Init(up) => up
      case OutputConnected => true
      case OutputDisconnected => false
      case _ => Replay(messages[..|messages| - 1])
  }

  lemma ReplayAppend(messages: seq<InputMessage>, m: InputMessage)
    ensures m == OutputConnected ==> Replay(messages + [m])
    ensures m == OutputDisconnected ==> !Replay(messages + [m])
    ensures m.Init? ==> (Replay(messages + [m]) <==> m.outputUp)
  {
  }

  /** A call other than a connect tells an accepted client of every change of the output status. */
  lemma StatusMessages(key: seq<bv8>, s: State, e: Event, before: seq<InputMessage>)
    requires !e.ConnectInput? && s.inputConnected && Replay(before) == s.outputConnected
    ensures Replay(before + Apply(key, s, e).1.input) == Apply(key, s, e).0.outputConnected
  {
    ReplayAppend(before, OutputConnected);
    ReplayAppend(before, OutputDisconnected);
    assert before + [] == before;
  }

  /** Replaying its inbox always gives the accepted client the server's true output status. */
  lemma {:induction false} ReplayIsTheOutputStatus(key: seq<bv8>, h: seq<Event>)
    ensures Run(key, h).inputConnected ==> (Replay(Inbox(key, h)) <==> OutputUp(h))
  {
    OutputFlagIsOutputUp(key, h);
    if h != [] {
      var n := |h| - 1;
      ReplayIsTheOutputStatus(key, h[..n]);
      OutputFlagIsOutputUp(key, h[..n]);
      var s := Run(key, h[..n]);
      if !h[n].ConnectInput? && s.inputConnected {
        StatusMessages(key, s, h[n], Inbox(key, h[..n]));
      } else if h[n].ConnectInput? && !s.inputConnected && ConstantTimeEq(key, h[n].apiKey) {
        assert Emitted(key, h, n).input[1] == Init(s.outputConnected);
      }
    }
  }

  /** A refused connect changes neither connection flag nor the pending text. */
  lemma RefusedConnectsChangeNothing(key: seq<bv8>, s: State, e: Event)
    requires || (e.ConnectInput? && (s.inputConnected || e.apiKey != key))
             || (e.ConnectOutput? && s.outputConnected)
    ensures Apply(key, s, e).0 == s.(nextId := Apply(key, s, e).0.nextId)
    ensures !Accepts(Apply(key, s, e).1)
  {
    if e.ConnectInput? {
      ConstantTimeEqIsEquality(key, e.apiKey);
    }
  }

  // ---- What each call sends, from the history alone ----

  /** A client with the right key connected to the input and has not disconnected since. */
  ghost predicate InputUp(key: seq<bv8>, h: seq<Event>) {
    exists i :: 0 <= i < |h| && ConnectsInput(key, h, i)
  }

  ghost predicate ConnectsInput(key: seq<bv8>, h: seq<Event>, i: nat)
    requires i < |h|
  {
    h[i] == ConnectInput(key) && forall j :: i < j < |h| ==> h[j] != DisconnectInput
  }

  lemma {:induction false} InputFlagIsInputUp(key: seq<bv8>, h: seq<Event>)
    ensures Run(key, h).inputConnected <==> InputUp(key, h)
  {
    if h != [] {
      var n := |h| - 1;
      var before := h[..n];
      InputFlagIsInputUp(key, before);
      forall i | 0 <= i < n
        ensures ConnectsInput(key, h, i) <==> ConnectsInput(key, before, i) && h[n] != DisconnectInput
      {
        assert forall j :: i <= j < n ==> before[j] == h[j];
      }
      if h[n].ConnectInput? {
        ConstantTimeEqIsEquality(key, h[n].apiKey);
      }
      if h[n] == ConnectInput(key) {
        assert ConnectsInput(key, h, n);
      }
    }
  }

  /** What the input side is sent: the answer to a connect, and news of an output that comes or goes. */
  lemma TheInputHears(key: seq<bv8>, h: seq<Event>, n: nat)
    requires n < |h|
    ensures var up, outputUp, input := InputUp(key, h[..n]), OutputUp(h[..n]), Emitted(key, h, n).input;
            match h[n]
            case ConnectInput(apiKey) =>
              if apiKey != key then input == [Refused("Unauthorized.")]
              else if up then input == [AuthOk, Refused("Input client already connected.")]
              else input == [AuthOk, Init(outputUp)]
            case ConnectOutput => input == if up && !outputUp then [OutputConnected] else []
            case DisconnectOutput => input == if up then [OutputDisconnected] else []
            case _ => input == []
  {
    InputFlagIsInputUp(key, h[..n]);
    OutputFlagIsOutputUp(key, h[..n]);
    if h[n].ConnectInput? {
      ConstantTimeEqIsEquality(key, h[n].apiKey);
    }
  }

  /** What the output side is sent: its session back, a refusal, a delivery, an empty commit, or nothing. */
  lemma TheOutputHears(key: seq<bv8>, h: seq<Event>, n: nat)
    requires n < |h|
    ensures var output := Emitted(key, h, n).output;
            if h[n].ConnectOutput? then
              if OutputUp(h[..n]) then |output| == 1 && output[0].AlreadyConnected? else output == []
            else if h[n].OutputEvent? && h[n].kind == "session.update" then
              |output| == 1 && output[0].SessionUpdated? && output[0].session == OrElse(h[n].session, "{}")
            else if IsCommit(h[n]) && NothingToDeliver(h[..n]) then |output| == 1 && output[0].Committed?
            else if IsFlush(h[n]) && OutputUp(h[..n]) && !NothingToDeliver(h[..n]) then
              exists i: nat :: Pending(h[..n], i) && IsDelivery(output, UpdateText(h[i]))
            else output == []
  {
    PendingTextDecides(key, h, n);
    OutputFlagIsOutputUp(key, h[..n]);
    if IsFlush(h[n]) && OutputUp(h[..n]) && !NothingToDeliver(h[..n]) {
      var i: nat :| Pending(h[..n], i) && UpdateText(h[..n][i]) != "";
      assert Delivers(h, n, i);
      TranscriptsRefineHistory(key, h, n);
    }
  }

  lemma PendingTextDecides(key: seq<bv8>, h: seq<Event>, n: nat)
    requires n <= |h|
    ensures NothingToDeliver(h[..n]) <==> Run(key, h[..n]).currentText == ""
  {
    CurrentTextRefinesHistory(key, h[..n]);
  }

  /** When the deadline is set and when it is called off. */
  lemma TheDeadlineFollows(key: seq<bv8>, h: seq<Event>, n: nat)
    requires n < |h|
    ensures Emitted(key, h, n).debounce ==
            if IsUpdate(h[n]) then Schedule
            else if h[n] == DisconnectInput || h[n] == DisconnectOutput then Cancel
            else if h[n].InputEvent? && h[n].kind == "finalize" then Cancel
            else if IsCommit(h[n]) && !NothingToDeliver(h[..n]) then Cancel
            else Unchanged
  {
    PendingTextDecides(key, h, n);
  }
}

/**
 The streaming protocol of command providers (crates/vinpst-asr/src/command.rs): reading
 stdout event lines, dropping repeated partials, and the payload chosen from the events
 (crates/vinpst-asr/src/payload.rs). JSON is a datatype: an object is its `type`, `text`
 and `message` where they are strings.
 */
module CommandStreaming {
  import opened Wrappers
  import opened Text
  import opened Recognition

  datatype Line =
    | Blank
    | NotJson
    | Json(kind: Option<string>, text: Option<string>, message: Option<string>)

  /** The trimmed text, unless that is empty. */
  function NonEmptyText(text: Option<string>): (r: Option<string>)
    ensures r.Some? ==> r.value != "" && IsTrimmed(r.value)
  {
    if text.Some? && Trim(text.value) != "" then
      TrimTrims(text.value);
      Some(Trim(text.value))
    else None
  }

  const BAD_JSON := Backend("invalid streaming provider JSON")

  function ParseLine(line: Line): (r: Result<seq<RecognitionEvent>, AsrError>)
    ensures r.Ok? ==> |r.value| <= 1 && PartialsHaveText(r.value)
    ensures r.Err? <==> line.NotJson?
    ensures r.Err? ==> r.error == BAD_JSON
  {
    match line
    case Blank => Ok([])
    case NotJson => Err(BAD_JSON)
    case Json(kind, text, message) =>
      var shown := NonEmptyText(text);
      if kind == Some("partial") then Ok(if shown.Some? then [PartialText(shown.value)] else [])
      else if kind == Some("final") || kind == Some("final_timestamps") then
        Ok(if shown.Some? then [FinalText(shown.value)] else [])
      else if kind == Some("error") then
        var reason := NonEmptyText(message);
        Ok([Error(if reason.Some? then reason.value else "failed.")])
      else if kind == Some("closed") then Ok([Completed])
      else Ok([])
  }

  predicate PartialsHaveText(events: seq<RecognitionEvent>) {
    forall i :: 0 <= i < |events| && events[i].PartialText? ==> events[i].text != ""
  }

  /** Every event the lines parse to, or the error of the first line that does not parse. */
  function RawEvents(lines: seq<Line>): (r: Result<seq<RecognitionEvent>, AsrError>)
    ensures r.Ok? <==> forall i :: 0 <= i < |lines| ==> !lines[i].NotJson?
    ensures r.Err? ==> r.error == BAD_JSON
    ensures r.Ok? ==> PartialsHaveText(r.value)
  {
    if lines == [] then Ok([])
    else
      var before := RawEvents(lines[..|lines| - 1]);
      var last := ParseLine(lines[|lines| - 1]);
      if before.Err? then before else if last.Err? then last else Ok(before.value + last.value)
  }

  // ---- What is dropped ----

  /** A partial that repeats the partial before it, with neither a partial nor a final in between. */
  ghost predicate Repeats(events: seq<RecognitionEvent>, i: nat)
    requires i < |events|
  {
    events[i].PartialText? && exists j :: 0 <= j < i && events[j] == events[i] && QuietBetween(events, j, i)
  }

  ghost predicate QuietBetween(events: seq<RecognitionEvent>, j: nat, i: nat)
    requires j < i <= |events|
  {
    forall k :: j < k < i ==> !events[k].PartialText? && !events[k].FinalText?
  }

  ghost function Kept(events: seq<RecognitionEvent>): seq<RecognitionEvent> {
    if events == [] then []
    else
      var n := |events| - 1;
      if Repeats(events, n) then Kept(events[..n]) else Kept(events[..n]) + [events[n]]
  }

  /** The text a further partial would repeat: that of the last partial unless a final came since. */
  function LastPartial(events: seq<RecognitionEvent>): string {
    if events == [] then ""
    else match events[|events| - 1]
      case PartialText(text) => text
      case FinalText(_) => ""
      case _ => LastPartial(events[..|events| - 1])
  }

  lemma {:induction false} LastPartialIsReal(events: seq<RecognitionEvent>, text: string)
    requires PartialsHaveText(events) && text != ""
    ensures LastPartial(events) == text <==>
            exists j :: 0 <= j < |events| && events[j] == PartialText(text) && QuietBetween(events, j, |events|)
  {
    if events != [] {
      var n := |events| - 1;
      var before := events[..n];
      LastPartialIsReal(before, text);
      if events[n].PartialText? || events[n].FinalText? {
        forall j | 0 <= j < n && events[j] == PartialText(text)
          ensures !QuietBetween(events, j, |events|)
        {
        }
        if events[n] == PartialText(text) {
          assert QuietBetween(events, n, |events|);
        }
      } else {
        forall j | 0 <= j < n
          ensures QuietBetween(events, j, |events|) <==> QuietBetween(before, j, n)
        {
          assert forall k :: j < k < n ==> events[k] == before[k];
        }
      }
    }
  }

  lemma RepeatsIffLastPartial(events: seq<RecognitionEvent>, i: nat)
    requires PartialsHaveText(events) && i < |events|
    ensures Repeats(events, i) <==> events[i].PartialText? && events[i].text == LastPartial(events[..i])
  {
    if events[i].PartialText? {
      LastPartialIsReal(events[..i], events[i].text);
      forall j | 0 <= j < i
        ensures QuietBetween(events, j, i) <==> QuietBetween(events[..i], j, i)
      {
        assert forall k :: j < k < i ==> events[k] == events[..i][k];
      }
    }
  }

  /** One more event, seen from the left. */
  lemma OneMore(events: seq<RecognitionEvent>, event: RecognitionEvent)
    requires PartialsHaveText(events) && (event.PartialText? ==> event.text != "")
    ensures PartialsHaveText(events + [event])
    ensures Kept(events + [event]) ==
            (if event.PartialText? && event.text == LastPartial(events) then Kept(events) else Kept(events) + [event])
    ensures LastPartial(events + [event]) ==
            (if event.PartialText? then event.text else if event.FinalText? then "" else LastPartial(events))
  {
    var all := events + [event];
    assert all[..|events|] == events && all[|events|] == event;
    RepeatsIffLastPartial(all, |events|);
  }

  const NO_EVENTS := Backend("legacy command streaming provider returned no events")

  /** `Completed` is added unless it is already the last event. */
  function Closed(events: seq<RecognitionEvent>): seq<RecognitionEvent> {
    if events != [] && events[|events| - 1] == Completed then events else events + [Completed]
  }

  /** The answer to the lines, in terms of the raw events alone. */
  ghost function Answer(lines: seq<Line>): Result<seq<RecognitionEvent>, AsrError> {
    var raw := RawEvents(lines);
    if raw.Err? then raw
    else if Kept(raw.value) == [] then Err(NO_EVENTS)
    else Ok(Closed(Kept(raw.value)))
  }

  /** What the loop knows after the raw events `seen`. */
  ghost predicate Tracks(seen: seq<RecognitionEvent>, events: seq<RecognitionEvent>, lastPartialText: string) {
    PartialsHaveText(seen) && events == Kept(seen) && lastPartialText == LastPartial(seen)
  }

  lemma TracksOneMore(
    seen: seq<RecognitionEvent>, events: seq<RecognitionEvent>, lastPartialText: string, event: RecognitionEvent)
    requires Tracks(seen, events, lastPartialText) && (event.PartialText? ==> event.text != "")
    ensures event.PartialText? && event.text == lastPartialText ==> Tracks(seen + [event], events, lastPartialText)
    ensures event.PartialText? && event.text != lastPartialText ==> Tracks(seen + [event], events + [event], event.text)
    ensures event.FinalText? ==> Tracks(seen + [event], events + [event], "")
    ensures !event.PartialText? && !event.FinalText? ==> Tracks(seen + [event], events + [event], lastPartialText)
  {
    OneMore(seen, event);
  }

  lemma RawEventsOfOneMore(lines: seq<Line>, n: nat)
    requires n < |lines| && RawEvents(lines[..n]).Ok?
    ensures ParseLine(lines[n]).Ok? ==>
              RawEvents(lines[..n + 1]) == Ok(RawEvents(lines[..n]).value + ParseLine(lines[n]).value)
    ensures ParseLine(lines[n]).Err? ==> RawEvents(lines) == Err(ParseLine(lines[n]).error)
  {
    assert lines[..n + 1][..n] == lines[..n];
  }

  method ParseStdout(lines: seq<Line>) returns (r: Result<seq<RecognitionEvent>, AsrError>)
    ensures r == Answer(lines)
  {
    var events: seq<RecognitionEvent> := [];
    var lastPartialText := "";
    ghost var seen: seq<RecognitionEvent> := [];
    for n := 0 to |lines|
      invariant RawEvents(lines[..n]) == Ok(seen)
      invariant Tracks(seen, events, lastPartialText)
    {
      var parsed := ParseLine(lines[n]);
      RawEventsOfOneMore(lines, n);
      if parsed.Err? {
        return Err(parsed.error);
      }
      ghost var before := seen;
      for m := 0 to |parsed.value|
        invariant seen == before + parsed.value[..m]
        invariant Tracks(seen, events, lastPartialText)
      {
        var event := parsed.value[m];
        TracksOneMore(seen, events, lastPartialText, event);
        seen := seen + [event];
        assert parsed.value[..m + 1] == parsed.value[..m] + [event];
        if event.PartialText? && event.text == lastPartialText {
        } else if event.PartialText? {
          lastPartialText := event.text;
          events := events + [event];
        } else if event.FinalText? {
          lastPartialText := "";
          events := events + [event];
        } else {
          events := events + [event];
        }
      }
      assert parsed.value[..|parsed.value|] == parsed.value;
    }
    assert lines[..|lines|] == lines;
    if events == [] {
      return Err(NO_EVENTS);
    }
    if events[|events| - 1] != Completed {
      events := events + [Completed];
    }
    return Ok(events);
  }

  // ---- What the filter keeps ----

  function NonPartials(events: seq<RecognitionEvent>): seq<RecognitionEvent> {
    if events == [] then []
    else
      var n := |events| - 1;
      if events[n].PartialText? then NonPartials(events[..n]) else NonPartials(events[..n]) + [events[n]]
  }

  lemma NonPartialsAppend(events: seq<RecognitionEvent>, event: RecognitionEvent)
    ensures NonPartials(events + [event]) ==
            (if event.PartialText? then NonPartials(events) else NonPartials(events) + [event])
  {
    assert (events + [event])[..|events|] == events;
  }

  /** Finals, errors and completions all stay, in order. */
  lemma {:induction false} NonPartialsAreKept(events: seq<RecognitionEvent>)
    ensures NonPartials(Kept(events)) == NonPartials(events)
  {
    if events != [] {
      var n := |events| - 1;
      NonPartialsAreKept(events[..n]);
      NonPartialsAppend(Kept(events[..n]), events[n]);
    }
  }

  lemma {:induction false} KeptHasTheSameLastPartial(events: seq<RecognitionEvent>)
    requires PartialsHaveText(events)
    ensures LastPartial(Kept(events)) == LastPartial(events) && PartialsHaveText(Kept(events))
  {
    if events != [] {
      var n := |events| - 1;
      KeptHasTheSameLastPartial(events[..n]);
      RepeatsIffLastPartial(events, n);
      OneMore(Kept(events[..n]), events[n]);
    }
  }

  /** Nothing that is left repeats: the filter is complete, and filtering again changes nothing. */
  lemma {:induction false} NothingRepeatsAfterwards(events: seq<RecognitionEvent>)
    requires PartialsHaveText(events)
    ensures Kept(Kept(events)) == Kept(events)
  {
    if events != [] {
      var n := |events| - 1;
      var before := Kept(events[..n]);
      NothingRepeatsAfterwards(events[..n]);
      if !Repeats(events, n) {
        KeptHasTheSameLastPartial(events[..n]);
        RepeatsIffLastPartial(events, n);
        OneMore(before, events[n]);
      }
    }
  }

  lemma {:induction false} SomethingIsKept(events: seq<RecognitionEvent>)
    ensures Kept(events) == [] <==> events == []
  {
    if |events| > 1 {
      SomethingIsKept(events[..|events| - 1]);
    }
  }

  /** Well-formed lines fail exactly when they yield no event at all; a success always ends in `Completed`. */
  lemma FailsIffThereIsNoEvent(lines: seq<Line>)
    requires RawEvents(lines).Ok?
    ensures Answer(lines).Err? <==> RawEvents(lines).value == []
    ensures var r := Answer(lines);
            r.Ok? ==> r.value != [] && r.value[|r.value| - 1] == Completed
  {
    SomethingIsKept(RawEvents(lines).value);
  }

  // ---- The payload ----

  datatype Payload = Payload(commitText: string, candidates: seq<string>)

  predicate IsResult(event: RecognitionEvent) {
    event.FinalText? || event.Error?
  }

  function ResultText(event: RecognitionEvent): string
    requires IsResult(event)
  {
    if event.FinalText? then event.text else event.message
  }

  function PayloadOf(event: RecognitionEvent): Payload
    requires IsResult(event)
  {
    Payload(ResultText(event), [ResultText(event)])
  }

  function EventsToPayload(events: seq<RecognitionEvent>): Result<Payload, AsrError> {
    if events == [] then Err(Backend("recognition completed without final text"))
    else
      var before := EventsToPayload(events[..|events| - 1]);
      if before.Err? && IsResult(events[|events| - 1]) then Ok(PayloadOf(events[|events| - 1])) else before
  }

  /** The payload is that of the first final or error, and missing only without one. */
  lemma {:induction false} PayloadIsTheFirstResult(events: seq<RecognitionEvent>)
    ensures EventsToPayload(events).Err? <==> forall i :: 0 <= i < |events| ==> !IsResult(events[i])
    ensures forall i ::
              0 <= i < |events| && IsResult(events[i]) && (forall j :: 0 <= j < i ==> !IsResult(events[j])) ==>
              EventsToPayload(events) == Ok(PayloadOf(events[i]))
  {
    if events != [] {
      PayloadIsTheFirstResult(events[..|events| - 1]);
    }
  }

  lemma PayloadAppend(events: seq<RecognitionEvent>, event: RecognitionEvent)
    ensures EventsToPayload(events + [event]) ==
            (if EventsToPayload(events).Ok? || !IsResult(event) then EventsToPayload(events)
             else Ok(PayloadOf(event)))
  {
    assert (events + [event])[..|events|] == events;
  }

  lemma {:induction false} KeptHasTheSamePayload(events: seq<RecognitionEvent>)
    ensures EventsToPayload(Kept(events)) == EventsToPayload(events)
  {
    if events != [] {
      var n := |events| - 1;
      KeptHasTheSamePayload(events[..n]);
      PayloadAppend(Kept(events[..n]), events[n]);
      PayloadAppend(events[..n], events[n]);
      assert events[..n] + [events[n]] == events;
    }
  }

  /** Neither dropping partials nor closing the list changes the payload. */
  lemma PayloadIsThatOfTheRawEvents(lines: seq<Line>)
    requires Answer(lines).Ok?
    ensures EventsToPayload(Answer(lines).value) == EventsToPayload(RawEvents(lines).value)
  {
    var raw := RawEvents(lines).value;
    KeptHasTheSamePayload(raw);
    PayloadAppend(Kept(raw), Completed);
  }

  // ---- From lines to the committed text ----

  predicate IsKind(line: Line, kind: string) {
    line.Json? && line.kind == Some(kind)
  }

  /** A final with text that is not blank, or an error. */
  predicate IsResultLine(line: Line) {
    || IsKind(line, "error")
    || ((IsKind(line, "final") || IsKind(line, "final_timestamps")) && NonEmptyText(line.text).Some?)
  }

  /** The trimmed text of the final, or the trimmed message of the error where it has one. */
  function LineText(line: Line): string
    requires IsResultLine(line)
  {
    if !IsKind(line, "error") then NonEmptyText(line.text).value
    else if NonEmptyText(line.message).Some? then NonEmptyText(line.message).value
    else "failed."
  }

  lemma ResultLinesParseToResults(line: Line)
    requires ParseLine(line).Ok?
    ensures if IsResultLine(line) then
              exists e :: ParseLine(line).value == [e] && IsResult(e) && ResultText(e) == LineText(line)
            else
              forall e :: e in ParseLine(line).value ==> !IsResult(e)
  {
    if IsResultLine(line) {
      var e := ParseLine(line).value[0];
      assert ParseLine(line).value == [e] && IsResult(e) && ResultText(e) == LineText(line);
    }
  }

  lemma PayloadOfOneMoreLine(lines: seq<Line>)
    requires lines != [] && RawEvents(lines).Ok?
    ensures var n := |lines| - 1;
            var before := EventsToPayload(RawEvents(lines[..n]).value);
            EventsToPayload(RawEvents(lines).value) ==
            if before.Ok? || !IsResultLine(lines[n]) then before
            else Ok(Payload(LineText(lines[n]), [LineText(lines[n])]))
  {
    var n := |lines| - 1;
    var events, parsed := RawEvents(lines[..n]).value, ParseLine(lines[n]).value;
    ResultLinesParseToResults(lines[n]);
    if parsed == [] {
      assert events + parsed == events;
    } else {
      assert parsed == [parsed[0]];
      PayloadAppend(events, parsed[0]);
    }
  }

  predicate HasNoResult(lines: seq<Line>) {
    forall i :: 0 <= i < |lines| ==> !IsResultLine(lines[i])
  }

  predicate IsFirstResult(lines: seq<Line>, i: nat) {
    i < |lines| && IsResultLine(lines[i]) && HasNoResult(lines[..i])
  }

  /** Without a final or error line there is nothing to commit. */
  lemma {:induction false} NothingIsCommittedWithoutAResult(lines: seq<Line>)
    requires RawEvents(lines).Ok? && HasNoResult(lines)
    ensures EventsToPayload(RawEvents(lines).value).Err?
  {
    if lines != [] {
      NothingIsCommittedWithoutAResult(lines[..|lines| - 1]);
      PayloadOfOneMoreLine(lines);
    }
  }

  /** Whatever else the helper prints, what is committed is the text of its first final or error line. */
  lemma {:induction false} FirstResultLineIsCommitted(lines: seq<Line>, i: nat)
    requires RawEvents(lines).Ok? && IsFirstResult(lines, i)
    ensures EventsToPayload(RawEvents(lines).value) == Ok(Payload(LineText(lines[i]), [LineText(lines[i])]))
    decreases |lines|
  {
    var n := |lines| - 1;
    PayloadOfOneMoreLine(lines);
    if i < n {
      assert lines[..n][..i] == lines[..i] && lines[..n][i] == lines[i];
      FirstResultLineIsCommitted(lines[..n], i);
    } else {
      NothingIsCommittedWithoutAResult(lines[..n]);
    }
  }

  // ---- Line by line ----

  predicate HasText(field: Option<string>, text: string) {
    field.Some? && Trim(field.value) == text && text != ""
  }

  /** The one event each kind of line can yield, and what the line must hold for it. */
  lemma EachKindYieldsItsEvent(line: Line, text: string)
    ensures ParseLine(line) == Ok([PartialText(text)]) <==> IsKind(line, "partial") && HasText(line.text, text)
    ensures ParseLine(line) == Ok([FinalText(text)]) <==>
              (IsKind(line, "final") || IsKind(line, "final_timestamps")) && HasText(line.text, text)
    ensures ParseLine(line) == Ok([Error(text)]) <==>
              && IsKind(line, "error")
              && (HasText(line.message, text)
                  || (text == "failed." && (line.message.None? || Trim(line.message.value) == "")))
    ensures ParseLine(line) == Ok([Completed]) <==> IsKind(line, "closed")
    ensures ParseLine(line) == Ok([]) <==>
              && !line.NotJson? && !IsKind(line, "error") && !IsKind(line, "closed")
              && (IsKind(line, "partial") || IsKind(line, "final") || IsKind(line, "final_timestamps") ==>
                    line.text.None? || Trim(line.text.value) == "")
  {
  }

  /** Line `i` is a partial with this text. */
  ghost predicate Shows(lines: seq<Line>, i: nat, text: string)
    requires i < |lines|
  {
    IsKind(lines[i], "partial") && HasText(lines[i].text, text)
  }

  /** Neither a partial nor a final with text. */
  predicate IsQuiet(line: Line) {
    IsKind(line, "partial") || IsKind(line, "final") || IsKind(line, "final_timestamps") ==>
      line.text.None? || Trim(line.text.value) == ""
  }

  ghost predicate QuietLines(lines: seq<Line>, j: nat, i: nat)
    requires j < i <= |lines|
  {
    forall k :: j < k < i ==> IsQuiet(lines[k])
  }

  /** The last partial before line `i` shows this text, and no final came since. */
  ghost predicate ShownBefore(lines: seq<Line>, i: nat, text: string)
    requires i <= |lines|
  {
    exists j :: 0 <= j < i && Shows(lines, j, text) && QuietLines(lines, j, i)
  }

  /** The texts of the partial lines, in order, without those that repeat the one before them. */
  ghost function ShownTexts(lines: seq<Line>): seq<string> {
    if lines == [] then []
    else
      var n := |lines| - 1;
      var before := ShownTexts(lines[..n]);
      if IsKind(lines[n], "partial") && !IsQuiet(lines[n]) && !ShownBefore(lines, n, Trim(lines[n].text.value))
      then before + [Trim(lines[n].text.value)] else before
  }

  function Partials(events: seq<RecognitionEvent>): seq<string> {
    if events == [] then []
    else
      var n := |events| - 1;
      Partials(events[..n]) + (if events[n].PartialText? then [events[n].text] else [])
  }

  lemma ShownBeforeOfPrefix(lines: seq<Line>, n: nat, i: nat, text: string)
    requires i <= n <= |lines|
    ensures ShownBefore(lines[..n], i, text) <==> ShownBefore(lines, i, text)
  {
    var prefix := lines[..n];
    forall j | 0 <= j < i
      ensures Shows(prefix, j, text) <==> Shows(lines, j, text)
      ensures QuietLines(prefix, j, i) <==> QuietLines(lines, j, i)
    {
      assert forall k :: j <= k < i ==> prefix[k] == lines[k];
    }
  }

  lemma ShownBeforeOfOneMore(lines: seq<Line>, text: string)
    requires lines != []
    ensures var n := |lines| - 1;
            ShownBefore(lines, |lines|, text) <==>
            Shows(lines, n, text) || (IsQuiet(lines[n]) && ShownBefore(lines, n, text))
  {
    var n := |lines| - 1;
    if Shows(lines, n, text) {
      assert QuietLines(lines, n, |lines|);
    }
    forall j | 0 <= j < n
      ensures QuietLines(lines, j, |lines|) <==> QuietLines(lines, j, n) && IsQuiet(lines[n])
    {
    }
  }

  lemma RawEventsBefore(lines: seq<Line>)
    requires lines != [] && RawEvents(lines).Ok?
    ensures var n := |lines| - 1;
            && RawEvents(lines[..n]).Ok? && ParseLine(lines[n]).Ok?
            && RawEvents(lines).value == RawEvents(lines[..n]).value + ParseLine(lines[n]).value
  {
    var n := |lines| - 1;
    var before, last := RawEvents(lines[..n]), ParseLine(lines[n]);
    assert RawEvents(lines) ==
      if before.Err? then before else if last.Err? then last else Ok(before.value + last.value);
  }

  /** What the filter remembers of the events is what the lines say. */
  lemma {:induction false} LastPartialIsShown(lines: seq<Line>, text: string)
    requires RawEvents(lines).Ok? && text != ""
    ensures LastPartial(RawEvents(lines).value) == text <==> ShownBefore(lines, |lines|, text)
  {
    if lines != [] {
      var n := |lines| - 1;
      RawEventsBefore(lines);
      LastPartialIsShown(lines[..n], text);
      ShownBeforeOfPrefix(lines, n, n, text);
      ShownBeforeOfOneMore(lines, text);
      var before, parsed := RawEvents(lines[..n]).value, ParseLine(lines[n]).value;
      EachKindYieldsItsEvent(lines[n], text);
      if parsed == [] {
        assert before + parsed == before;
      } else {
        assert parsed == [parsed[0]];
        OneMore(before, parsed[0]);
      }
    }
  }

  lemma PartialsAppend(events: seq<RecognitionEvent>, event: RecognitionEvent)
    ensures Partials(events + [event]) == Partials(events) + (if event.PartialText? then [event.text] else [])
  {
    assert (events + [event])[..|events|] == events;
  }

  /** The one partial among the events of a line, if it has one. */
  function OnePartial(parsed: seq<RecognitionEvent>): Option<string> {
    if |parsed| == 1 && parsed[0].PartialText? then Some(parsed[0].text) else None
  }

  lemma KeptPartialsOfOneMore(events: seq<RecognitionEvent>, parsed: seq<RecognitionEvent>)
    requires PartialsHaveText(events) && PartialsHaveText(parsed) && |parsed| <= 1
    ensures var text := OnePartial(parsed);
            Partials(Kept(events + parsed)) ==
            if text.Some? && text.value != LastPartial(events) then Partials(Kept(events)) + [text.value]
            else Partials(Kept(events))
  {
    if parsed == [] {
      assert events + parsed == events;
    } else {
      assert parsed == [parsed[0]];
      OneMore(events, parsed[0]);
      PartialsAppend(Kept(events), parsed[0]);
    }
  }

  /** A partial line with text, and its text. */
  function PartialOf(line: Line): Option<string> {
    if IsKind(line, "partial") && !IsQuiet(line) then Some(Trim(line.text.value)) else None
  }

  lemma ParsedPartial(line: Line)
    requires ParseLine(line).Ok?
    ensures OnePartial(ParseLine(line).value) == PartialOf(line)
    ensures PartialOf(line).Some? ==> PartialOf(line).value != ""
  {
  }

  lemma ShownTextsOfOneMore(lines: seq<Line>)
    requires lines != []
    ensures var n := |lines| - 1;
            var text := PartialOf(lines[n]);
            ShownTexts(lines) ==
            if text.Some? && !ShownBefore(lines, n, text.value) then ShownTexts(lines[..n]) + [text.value]
            else ShownTexts(lines[..n])
  {
  }

  lemma {:induction false} KeptPartialsAreShown(lines: seq<Line>)
    requires RawEvents(lines).Ok?
    ensures Partials(Kept(RawEvents(lines).value)) == ShownTexts(lines)
  {
    if lines != [] {
      var n := |lines| - 1;
      RawEventsBefore(lines);
      KeptPartialsAreShown(lines[..n]);
      ShownTextsOfOneMore(lines);
      KeptPartialsOfOneMore(RawEvents(lines[..n]).value, ParseLine(lines[n]).value);
      ParsedPartial(lines[n]);
      if PartialOf(lines[n]).Some? {
        LastPartialIsShown(lines[..n], PartialOf(lines[n]).value);
        ShownBeforeOfPrefix(lines, n, n, PartialOf(lines[n]).value);
      }
    }
  }

  /** The partials of an answer are exactly the texts the lines show. */
  lemma AnswerShowsThePartialLines(lines: seq<Line>)
    requires Answer(lines).Ok?
    ensures Partials(Answer(lines).value) == ShownTexts(lines)
  {
    KeptPartialsAreShown(lines);
    PartialsAppend(Kept(RawEvents(lines).value), Completed);
  }

  /** The event of a line that is neither a partial nor silent. */
  function LineEvents(line: Line): seq<RecognitionEvent> {
    if IsResultLine(line) then [if IsKind(line, "error") then Error(LineText(line)) else FinalText(LineText(line))]
    else if IsKind(line, "closed") then [Completed]
    else []
  }

  function AllLineEvents(lines: seq<Line>): seq<RecognitionEvent> {
    if lines == [] then [] else AllLineEvents(lines[..|lines| - 1]) + LineEvents(lines[|lines| - 1])
  }

  lemma ParsedIsTheLineEvent(line: Line)
    requires ParseLine(line).Ok?
    ensures var parsed := ParseLine(line).value;
            LineEvents(line) == if parsed != [] && parsed[0].PartialText? then [] else parsed
  {
  }

  lemma EventsAddTheirNonPartials(events: seq<RecognitionEvent>, parsed: seq<RecognitionEvent>)
    requires |parsed| <= 1
    ensures NonPartials(events + parsed) ==
            NonPartials(events) + (if parsed != [] && parsed[0].PartialText? then [] else parsed)
  {
    if parsed == [] {
      assert events + parsed == events;
    } else {
      assert parsed == [parsed[0]];
      NonPartialsAppend(events, parsed[0]);
    }
  }

  lemma LineAddsItsEvent(events: seq<RecognitionEvent>, line: Line)
    requires ParseLine(line).Ok?
    ensures NonPartials(events + ParseLine(line).value) == NonPartials(events) + LineEvents(line)
  {
    ParsedIsTheLineEvent(line);
    EventsAddTheirNonPartials(events, ParseLine(line).value);
  }

  lemma {:induction false} RawNonPartials(lines: seq<Line>)
    requires RawEvents(lines).Ok?
    ensures NonPartials(RawEvents(lines).value) == AllLineEvents(lines)
  {
    if lines != [] {
      var n := |lines| - 1;
      RawEventsBefore(lines);
      RawNonPartials(lines[..n]);
      LineAddsItsEvent(RawEvents(lines[..n]).value, lines[n]);
    }
  }

  /** The last line that adds to the answer is a closing one. */
  ghost predicate EndsClosed(lines: seq<Line>) {
    && lines != []
    && var n := |lines| - 1;
       || IsKind(lines[n], "closed")
       || (LineEvents(lines[n]) == [] && ShownTexts(lines) == ShownTexts(lines[..n]) && EndsClosed(lines[..n]))
  }

  predicate EndsCompleted(events: seq<RecognitionEvent>) {
    events != [] && events[|events| - 1] == Completed
  }

  /** One more event ends the list, unless it is a partial that is dropped, which shows nothing new. */
  lemma EndsAfterOneMore(events: seq<RecognitionEvent>, event: RecognitionEvent)
    requires PartialsHaveText(events) && (event.PartialText? ==> event.text != "")
    ensures EndsCompleted(Kept(events + [event])) <==>
            event == Completed
            || (event.PartialText? && Partials(Kept(events + [event])) == Partials(Kept(events))
                && EndsCompleted(Kept(events)))
  {
    OneMore(events, event);
    PartialsAppend(Kept(events), event);
  }

  lemma {:induction false} KeptEndsClosed(lines: seq<Line>)
    requires RawEvents(lines).Ok?
    ensures EndsCompleted(Kept(RawEvents(lines).value)) <==> EndsClosed(lines)
  {
    if lines != [] {
      var n := |lines| - 1;
      RawEventsBefore(lines);
      KeptEndsClosed(lines[..n]);
      KeptPartialsAreShown(lines);
      KeptPartialsAreShown(lines[..n]);
      LineEnds(RawEvents(lines[..n]).value, lines[n]);
    }
  }

  lemma EventsEnd(events: seq<RecognitionEvent>, parsed: seq<RecognitionEvent>)
    requires PartialsHaveText(events) && PartialsHaveText(parsed) && |parsed| <= 1
    ensures EndsCompleted(Kept(events + parsed)) <==>
            || parsed == [Completed]
            || (&& (parsed == [] || parsed[0].PartialText?)
                && Partials(Kept(events + parsed)) == Partials(Kept(events)) && EndsCompleted(Kept(events)))
  {
    if parsed == [] {
      assert events + parsed == events;
    } else {
      assert parsed == [parsed[0]];
      EndsAfterOneMore(events, parsed[0]);
    }
  }

  lemma LineEnds(events: seq<RecognitionEvent>, line: Line)
    requires PartialsHaveText(events) && ParseLine(line).Ok?
    ensures var kept, kept' := Kept(events), Kept(events + ParseLine(line).value);
            EndsCompleted(kept') <==>
            || IsKind(line, "closed")
            || (LineEvents(line) == [] && Partials(kept') == Partials(kept) && EndsCompleted(kept))
  {
    var parsed := ParseLine(line).value;
    ParsedIsTheLineEvent(line);
    EventsEnd(events, parsed);
    ClosedLine(line);
  }

  lemma ClosedLine(line: Line)
    requires ParseLine(line).Ok?
    ensures ParseLine(line).value == [Completed] <==> IsKind(line, "closed")
  {
  }

  /** Everything else in an answer: each final, error and closing line in order, and a `Completed` if none ends it. */
  lemma AnswerHoldsTheOtherLines(lines: seq<Line>)
    requires Answer(lines).Ok?
    ensures NonPartials(Answer(lines).value) == AllLineEvents(lines) + (if EndsClosed(lines) then [] else [Completed])
  {
    var kept := Kept(RawEvents(lines).value);
    RawNonPartials(lines);
    NonPartialsAreKept(RawEvents(lines).value);
    KeptEndsClosed(lines);
    NonPartialsAppend(kept, Completed);
  }
}

/**
 The buffered session of a command provider with the streaming runner
 (crates/vinpst-asr/src/command.rs). The helper process is foreign: whether it ran, how it
 exited and what it printed are parameters of `Finish`.
 */
module CommandSession {
  import opened Wrappers
  import opened Bytes
  import opened Pcm
  import opened Recognition
  import Base64
  import CommandStreaming

  /** A line written to the helper's stdin. */
  datatype StdinLine = Audio(audioBase64: string, commit: bool) | FinishLine

  /** What became of the process: it never produced output, or it ran. */
  datatype Process =
    | Failed(message: string)
    | Ran(success: bool, stderr: string, stdinError: Option<string>, stdout: seq<CommandStreaming.Line>)

  type Answer = Result<seq<RecognitionEvent>, AsrError>

  ghost function Recognized(process: Process): Answer {
    match process
    case Failed(message) => Err(Backend(message))
    case Ran(success, stderr, stdinError, stdout) =>
      if !success then Err(Backend(stderr))
      else if stdinError.Some? then Err(Backend(stdinError.value))
      else CommandStreaming.Answer(stdout)
  }

  method Recognize(samples: seq<i16>, process: Process) returns (stdin: seq<StdinLine>, r: Answer)
    ensures Carries(stdin, samples)
    ensures r == Recognized(process)
  {
    var payload := I16SamplesToLeBytes(samples);
    var encoded := Base64.EncodeBase64(payload);
    stdin := [Audio(encoded, true), FinishLine];
    match process {
      case Failed(message) => r := Err(Backend(message));
      case Ran(success, stderr, stdinError, stdout) =>
        if !success {
          r := Err(Backend(stderr));
        } else if stdinError.Some? {
          r := Err(Backend(stdinError.value));
        } else {
          r := CommandStreaming.ParseStdout(stdout);
        }
    }
  }

  /** One committed audio line from which the samples can be read back, then the finish line. */
  ghost predicate Carries(stdin: seq<StdinLine>, samples: seq<i16>) {
    && |stdin| == 2 && stdin[0].Audio? && stdin[0].commit && stdin[1] == FinishLine
    && var payload := Base64.Decode(stdin[0].audioBase64);
       payload.Some? && |payload.value| == 2 * |samples| && BytesToSamples(payload.value) == samples
  }

  class CommandRecognitionSession {
    var pcm: PcmSpec
    var samples: seq<i16>
    var finished: bool
    var cancelled: bool
    var events: seq<RecognitionEvent>

    /** All audio accepted so far, what each helper process was sent, and what polls have taken. */
    ghost var accepted: seq<i16>
    ghost var sent: seq<seq<StdinLine>>
    ghost var polled: seq<RecognitionEvent>

    /**
     At most one process is ever started, it gets exactly the accepted audio, and its events
     are there to be polled once.
     */
    ghost predicate Valid()
      reads this
    {
      && samples == accepted
      && |sent| <= 1
      && (sent != [] <==> finished)
      && (sent != [] ==> Carries(sent[0], accepted))
      && (polled != [] || cancelled ==> events == [])
      && (!finished ==> polled == [] && events == [])
      && (polled + events == [] || EndsInCompleted(polled + events))
    }

    ghost predicate Rejects(error: AsrError)
      reads this
    {
      if cancelled then error == Cancelled else finished && error == AlreadyFinished
    }

    constructor ()
      ensures Valid() && pcm == DEFAULT_SPEC && !finished && !cancelled
      ensures accepted == [] && sent == [] && polled == [] && events == []
    {
      pcm, samples, finished, cancelled, events := DEFAULT_SPEC, [], false, false, [];
      accepted, sent, polled := [], [], [];
    }

    method PushPcm(buffer: PcmBuffer) returns (r: Result<(), AsrError>)
      requires Valid()
      modifies this`pcm, this`samples, this`accepted
      ensures Valid()
      ensures old(cancelled) || old(finished) ==> r.Err? && Rejects(r.error)
      ensures !cancelled && !finished ==>
                (r.Err? <==> old(accepted) != [] && old(pcm) != buffer.spec)
      ensures r.Ok? ==> pcm == buffer.spec && accepted == old(accepted) + buffer.samples
      ensures r.Err? ==> pcm == old(pcm) && accepted == old(accepted)
    {
      if cancelled {
        return Err(Cancelled);
      }
      if finished {
        return Err(AlreadyFinished);
      }
      var nextPcm := buffer.spec;
      if samples != [] && pcm != nextPcm {
        return Err(Backend("command ASR PCM spec changed"));
      }
      pcm := nextPcm;
      samples := samples + buffer.samples;
      accepted := accepted + buffer.samples;
      return Ok(());
    }

    method PushAudio(more: seq<i16>) returns (r: Result<(), AsrError>)
      requires Valid()
      modifies this`samples, this`accepted
      ensures Valid()
      ensures r.Ok? <==> !cancelled && !finished
      ensures r.Ok? ==> accepted == old(accepted) + more
      ensures r.Err? ==> Rejects(r.error) && accepted == old(accepted)
    {
      if cancelled {
        return Err(Cancelled);
      }
      if finished {
        return Err(AlreadyFinished);
      }
      samples := samples + more;
      accepted := accepted + more;
      return Ok(());
    }

    method Finish(process: Process) returns (r: Result<(), AsrError>)
      requires Valid()
      modifies this`finished, this`events, this`sent
      ensures Valid()
      ensures old(cancelled) || old(finished) ==>
                && r.Err? && (if cancelled then r.error == Cancelled else r.error == AlreadyFinished)
                && finished == old(finished) && events == old(events) && sent == old(sent)
      ensures !cancelled && !old(finished) ==>
                && finished && |sent| == 1
                && (r.Ok? <==> Recognized(process).Ok?)
                && (r.Ok? ==> events == Recognized(process).value)
                && (r.Err? ==> r.error == Recognized(process).error && events == [])
    {
      if cancelled {
        return Err(Cancelled);
      }
      if finished {
        return Err(AlreadyFinished);
      }
      finished := true;
      var stdin, answer := Recognize(samples, process);
      sent := sent + [stdin];
      assert sent == [stdin];
      if answer.Err? {
        return Err(answer.error);
      }
      events := answer.value;
      assert polled + events == events;
      if process.Ran? && CommandStreaming.RawEvents(process.stdout).Ok? {
        CommandStreaming.FailsIffThereIsNoEvent(process.stdout);
      }
      return Ok(());
    }

    method Cancel()
      requires Valid()
      modifies this`cancelled, this`events
      ensures Valid() && cancelled && events == []
    {
      assert polled + [] == polled;
      cancelled := true;
      events := [];
    }

    method PollEvents() returns (r: seq<RecognitionEvent>)
      requires Valid()
      modifies this`events, this`polled
      ensures Valid() && r == old(events) && events == [] && polled == old(polled) + r
    {
      r := events;
      events := [];
      polled := polled + r;
      assert polled + events == polled;
    }
  }

  predicate EndsInCompleted(events: seq<RecognitionEvent>) {
    events != [] && events[|events| - 1] == Completed
  }
}

/** What every recognition session speaks (crates/vinpst-asr/src/traits.rs, error.rs). */
module Recognition {

  datatype RecognitionEvent =
    | PartialText(text: string)
    | FinalText(text: string)
    | Error(message: string)
    | Completed

  datatype AsrError = AlreadyFinished | Cancelled | Backend(message: string)
}

/** The status line of the demonstrator (`logs`). Only the values that
    outlive a handler are modelled; the intermediate messages a handler
    replaces before it returns are not. */
module Logs {

  datatype Status =
    | TrainingRequired
    | TrainingStarted
    | TrainingComplete
    | RecognitionSuccess
    | RecognitionFailed

  /** The text shown for each status. */
  function Text(s: Status): string
  {
    match s
    case TrainingRequired => "training required!"
    case TrainingStarted => "training started..."
    case TrainingComplete => "training complete"
    case RecognitionSuccess => "recognition success"
    case RecognitionFailed => "recognition failed"
  }

  /** Different statuses show different texts, so comparing the texts (as the
      start button's guard does) is comparing the statuses. */
  lemma TextInjective(a: Status, b: Status)
    requires Text(a) == Text(b)
    ensures a == b
  {
  }
}

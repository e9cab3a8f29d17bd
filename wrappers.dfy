/** Option and outcome types shared by every module of the model. */
module Wrappers {

  /** A value that may be absent; Python's `None` or a missing dictionary key. */
  datatype Option<+T> = None | Some(value: T) {
    function GetOr(default: T): T {
      match this
      case Some(v) => v
      case None => default
    }
  }

  /** What one external command (an `adb shell` call, an `adb pull`, a compressor run)
      gives back: its output text, or the message of the exception it raised (a
      non-zero exit or a timeout surfaces as an exception in the source). */
  datatype Outcome = Output(text: string) | Raised(msg: string)
}

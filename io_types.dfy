/** Values shared by the character-stream model: optional values, the
    IOExceptions the stream test doubles raise, where a double breaks, and
    the failure a caller finally receives. */
module IoTypes {

  datatype Option<+T> = None | Some(value: T)

  /** The IOExceptions of the model: one per failure-injection point of the
      broken test doubles, plus the end-of-input error of skipFully. */
  datatype IOError =
    | BrokenGetInput     // the input supplier fails to open its reader
    | BrokenGetOutput    // the output supplier fails to open its writer
    | BrokenRead         // the reader fails when read (or skipped)
    | BrokenWrite        // the writer fails when written to
    | BrokenCloseInput   // the reader fails when closed
    | BrokenCloseOutput  // the writer fails when closed
    | EndOfFile          // java.io.EOFException

  /** A call that returns a value or throws one IOException. */
  datatype Result<+T> = Ok(value: T) | Err(error: IOError)

  /** Where a test-double resource breaks: nowhere, when its supplier is
      asked for it, when it is used, or when it is closed. */
  datatype Fault = Sound | FailsOnOpen | FailsOnUse | FailsOnClose

  /** An exception as the caller catches it: the primary error and the
      errors added to it with addSuppressed, in the order they were added. */
  datatype Failure = Failure(primary: IOError, suppressed: seq<IOError>)

  /** What a supplier-level operation ends with: a value, or a thrown failure. */
  datatype Outcome<+T> = Completed(value: T) | Threw(failure: Failure)
}

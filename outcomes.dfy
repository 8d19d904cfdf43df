/** Optional values, the exceptions the synthesis engine raises, and a
    failure-compatible Result that carries them. */
module Outcomes {

  datatype Option<+T> = None | Some(value: T)

  /** The exceptions of the engine, one constructor per kind the code raises. */
  datatype Error =
    | AssertionError(message: string)        // a failed `assert`
    | KeyError(key: string)                  // a missing dictionary key
    | ValueError                             // `list.index` of an absent element
    | IndexError                             // a list index out of range
    | NotImplementedError(message: string)   // an unsupported language
    | EmptyWaveformList                      // stitching an empty list of waveforms
    | FileNotFound(path: string)             // decoding a clip that does not exist

  datatype Result<+T> = Ok(value: T) | Err(error: Error) {
    predicate IsFailure() { Err? }

    function PropagateFailure<U>(): Result<U>
      requires Err?
    {
      Err(error)
    }

    function Extract(): T
      requires Ok?
    {
      value
    }
  }
}

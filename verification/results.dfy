/** Failure-compatible wrappers shared by the whole model: an optional value,
    and a result that either carries a value or the Python exception that
    would have aborted the extraction run. */
module Results {

  /** Python's `None` versus a present value. */
  datatype Option<+T> = None | Some(value: T)

  /** The exceptions the extraction code can raise. None of them is caught by
      the code, so each one ends the run. */
  datatype Error =
    /** a BeautifulSoup lookup returned `None` and the next call on it failed */
    | AttributeError(landmark: string)
    /** `[-1]`, `[1]` or `[2]` on a list that is too short */
    | IndexError(what: string)
    /** a dictionary or DataFrame lookup of a key that is not there */
    | KeyError(key: string)
    /** `str + x` where `x` is NaN rather than text */
    | TypeError(what: string)
    /** `int(...)` on text that is not an integer literal (or on NaN) */
    | ValueError(text: string)
    /** the metadata API request for this page offset failed to arrive or to decode */
    | TransportError(offset: int)
    /** more non-empty pages than the page bound allows (not in the original) */
    | PageLimit

  datatype Result<+T> = Ok(value: T) | Err(error: Error) {

    predicate IsFailure() {
      Err?
    }

    function PropagateFailure<U>(): Result<U>
      requires Err?
    {
      Err(error)
    }

    function Extract(): T
      requires Ok?
    {
      value
    }
  }
}

/**
 * The Python exceptions the modelled code can raise, results that carry
 * them, and the clamp Python applies to a negative length.
 */
module Outcome {

  datatype PyError =
    | IndexError  // a list or array index past the end
    | ValueError  // `range` with step 0, `np.concatenate` of nothing
    | KeyError    // a missing key in a plain `dict`
    | TypeError   // a call with the wrong arguments

  datatype Result<T> = Success(value: T) | Failure(error: PyError)

  datatype Option<T> = None | Some(value: T)

  /** `max(0, n)`: how many elements `range(n)` or a slice `[:n]` of a long enough list has. */
  function Max0(n: int): nat {
    if n > 0 then n else 0
  }
}

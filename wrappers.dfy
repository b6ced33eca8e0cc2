/** Option and Result, and the Python exceptions the modelled code can raise. */
module Wrappers {

  datatype Option<+T> = None | Some(value: T)

  /** The exceptions that escape the modelled functions. */
  datatype Error =
    | TypeError          // an operation applied to a value of the wrong type (e.g. `None < 1.0`)
    | KeyError           // `d[key]` on a dict without `key`
    | AttributeError     // `x.get(...)` on a value that is not a dict
    | ValueError         // e.g. unpacking a one-element split into two names
    | ZeroDivisionError  // `total / 0`
    | UnboundLocalError  // reading a local that an exception skipped assigning
    | FetchFailed        // the network fetch gave up (transport error after all retries)
    | DecodeError        // `json.loads` rejected its input

  datatype Result<+T> = Ok(value: T) | Err(error: Error)

  /** Whether a generator ran to its end or an exception escaped it. */
  datatype Outcome = Done | Raised(error: Error)
}

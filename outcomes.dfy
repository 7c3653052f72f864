/** Results and failures shared by the transformers: Python's exceptions as data. */
module Outcomes {

  datatype Option<+T> = None | Some(value: T)

  /** The exceptions the transformers raise, named by their Python class. */
  datatype Error =
    | ValueError(msg: string)
    | TypeError(msg: string)
    | KeyError(key: string)
    /** The `KeyError` that `DataFrame.drop` raises, listing every label it did not find. */
    | LabelsNotFound(labels: seq<string>)
    | AttributeError(name: string)
    /** `astype('int')` meeting a null left by an unmapped value. */
    | IntCastingNaN(column: string)

  /** What a call returns, or the exception it raises. */
  datatype Result<+T> = Ok(value: T) | Err(error: Error)

  /** How a call whose return value carries nothing (`fit`, which returns `self`) ends. */
  datatype Outcome = Pass | Fail(error: Error)
}

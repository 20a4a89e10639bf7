/** Failure-compatible wrappers shared by the model: an optional value (the
    source's `null`/`undefined`) and a result carrying the error that a
    handler's exception would report. */
module Results {

  datatype Option<+T> = None | Some(value: T)

  /** The ways an operation of the demonstrator can be refused. */
  datatype Error =
    | ShapeMismatch   // a reshape or slice whose shape does not fit the tensor
    | InvalidState    // a prediction requested before training published its data

  datatype Result<+T> = Ok(value: T) | Err(error: Error)
}

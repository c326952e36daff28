/** Small failure-carrying datatypes shared by every module of the model. */
module Base {

  /** A value or Python's `None`. */
  datatype Option<+T> = None | Some(value: T)

  /** The result of a Python call that either returns a value or lets an
      exception escape to its caller. */
  datatype Raises<+T> = Returns(value: T) | Raised
}

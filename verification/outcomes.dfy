/** Failure values for the batch generator. Every exception the generator can
    raise on its own inputs is a constructor of `Error`; operations that can
    raise return a `Result`. */
module Outcomes {

  datatype Error =
    | NoClasses             // the dataset root lists no class directories
    | NoSamples             // the class directories hold no files to label
    | ZeroBatchSize         // a batch size of zero is a zero step for `range`
    | ZeroSide              // resizing an image with a side of length zero
    | EmptyGroup            // the maximum shape of an empty image group
    | GroupTooLarge         // more images than slots in the batch tensor
    | IndexOutOfRange       // a batch index outside the group list

  datatype Option<+T> = None | Some(value: T)

  datatype Result<+T> = Success(value: T) | Failure(error: Error) {

    predicate IsFailure() {
      Failure?
    }

    function PropagateFailure<U>(): Result<U>
      requires Failure?
    {
      Failure(error)
    }

    function Extract(): T
      requires Success?
    {
      value
    }
  }
}

/** Failure-compatible result types shared by the whole model.

    The C++ program signals failure in three ways: `assert` (a debug build
    aborts), exceptions (nlohmann type errors, `std::vector::at`, the
    Vulkan wrappers' `runtime_error`) and undefined behaviour (reading past a
    buffer, dereferencing a null view).  The model turns each of them into an
    `Error` value so that no operation needs a precondition the source does
    not state. */
module Failures {

  datatype Error =
    | BadMagic             // assert(magic == 0x46546C67) fails
    | TruncatedInput       // fewer bytes than a chunk declares
    | ParseError           // nlohmann::json::parse throws
    | TypeError            // a JSON value of the wrong kind is converted or indexed
    | OutOfRange           // std::vector::at throws
    | UndefinedBehaviour   // a read past the end of a buffer or through a null view
    | PoolExhausted        // vkAllocateDescriptorSets fails

  datatype Option<+T> = None | Some(value: T)

  datatype Result<+T> = Ok(value: T) | Err(error: Error) {
    predicate IsFailure() { Err? }

    function PropagateFailure<U>(): Result<U>
      requires Err?
    {
      Err(error)
    }

    function Extract(): T
      requires Ok?
    {
      value
    }
  }

  datatype Outcome = Pass | Fail(error: Error) {
    predicate IsFailure() { Fail? }

    function PropagateFailure(): Outcome
      requires Fail?
    {
      this
    }
  }
}

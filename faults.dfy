/** The engine's failure kinds and the datatypes that carry them out of an
    operation in place of Java's exceptions. */
module Faults {

  /** One case per exception kind the engine raises. */
  datatype Error =
    | MemoryAccess(index: int)      // data or code store index outside the store
    | IndexOutOfBounds(index: int)  // an unchecked array store's own bounds failure
    | CodeAccess(ip: int)           // instruction pointer outside the current job's code segment
    | InvalidMode(opcode: int)      // a handler refused the addressing mode it was given
    | DivideByZero
    | InvalidJob(id: int)           // job id outside 0..3
    | UnknownOpcode(opcode: int)    // an empty or missing dispatch-table slot

  datatype Option<+T> = None | Some(value: T)

  datatype Result<+T> = Ok(value: T) | Err(error: Error)

  /** The result of an operation that returns nothing when it succeeds. */
  datatype Outcome = Pass | Fail(error: Error)
}

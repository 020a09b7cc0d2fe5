/**
 The control channel between a user block and the engine: how a block can
 finish, and what an adapter hands back to the engine's call stack.
 */
module Control {

  /** A Ruby exception; `rescue` without a class catches only StandardError. */
  datatype Exception = StandardError(name: string) | NonStandardError(name: string)

  /**
   How a block invocation finished: it returned a value (ignored), it did
   `throw :return, code`, or it raised an exception.
   */
  datatype Outcome<V> = Returned(value: V) | Thrown(code: int) | Raised(error: Exception)

  /** What the engine's call stack observes: a control code, or an exception unwinding through it. */
  datatype Reply = Code(code: int) | Escaped(error: Exception)

  /** Codes carried by `stop!` and `error!`. */
  const StopCode: int := 1
  const ErrorCode: int := -1
}

/** Types shared by every stage of the front end: optional values, the
    failure-carrying result type that replaces the source's exit-on-error
    reporting, and the fixed-width integer range of the source's `u64`. */
module Common {

  /** An unsigned 64-bit value, as the source's `u64`. */
  type u64 = x: int | 0 <= x < 0x1_0000_0000_0000_0000

  const TwoTo16: int := 0x1_0000
  const TwoTo32: int := 0x1_0000_0000
  const TwoTo64: int := 0x1_0000_0000_0000_0000

  /** Stands for a pointer that may be NULL. */
  datatype Option<+T> = None | Some(value: T)

  /** Every way a statement can be abandoned. In the source each of these
      either prints one message and exits the process, trips a C `assert`,
      dereferences NULL, or never returns. */
  datatype Error =
    | UnexpectedEndOfBuffer                    // lexer: an advance reached the end of the line
    | NoProgress                               // lexer: the statement loop would spin forever
    | UnexpectedEndOfTokens                    // parser: advancing while on the end-of-file token
    | UnexpectedToken(expected: int, got: int) // parser: eat_token saw another kind
    | DeclarationNeedsIdentifier               // parser: `:` after something other than an identifier
    | ExpectedOperand                          // parser: no operand where an expression must start
    | Redeclaration(name: string)
    | UndefinedIdentifier(name: string)
    | ScopeUnderflow
    | ExpectedType
    | ExpectedBoolean
    | NotArithmetic
    | TypeMismatch
    | NotAFunction
    | ArityMismatch(wanted: int, got: int)
    | UnexpectedNode                           // a statement-only node where a value is expected
    | AssertionFailed                          // a C `assert` of the source fails
    | NullDereference                          // the source dereferences a NULL pointer

  /** Success with a value, or the error that abandoned the statement. */
  datatype Result<+T> = Success(value: T) | Failure(error: Error) {

    predicate IsFailure() {
      Failure?
    }

    function PropagateFailure<U>(): Result<U>
      requires Failure?
    {
      Failure(error)
    }

    function Extract(): T
      requires Success?
    {
      value
    }
  }
}

/** The two error categories of the interpreter (Parse and Evaluation), plus the
    Java runtime exceptions the source lets escape, and running out of fuel. */
module Errors {
  import opened SExpressions

  /** What the tokenizer's error query reports, and the parser's own
      empty-input message. */
  datatype Diagnostic =
    | EmptyExpression
    | MissingRightBrace
    | UnexpectedEndOfInput
    | UnexpectedDot
    | UnexpectedLeftBrace
    | UnexpectedRightBrace
    | SymbolLengthExceeded(token: string)
    | IntegerLengthExceeded(token: string)
    | InvalidCharacter(c: char)
    | LowerCaseCharacter(c: char)
    | BareSign(c: char)
    | UnexpectedToken(token: string)

  /** The messages of Evaluation errors. */
  datatype Failure =
    | UnboundAtom(name: string)
    | NotALispExpression
    | CouldNotEvaluate(expr: SExpr)
    | WrongArgCount(fn: string, given: nat)
    | AtomArgument(fn: string, arg: SExpr)
    | NonIntegerArguments(fn: string)
    | DivisionByZero
    | CondWithoutClauses
    | CondExhausted
    | UndefinedFunction(name: string)
    | ArityMismatch(fn: string, expected: nat, given: nat)
    | ParamsNotSymbolic
    | DefunEmpty
    | DefunNoNameOrParams
    | DefunNameNotSymbol
    | DefunNoParams
    | DefunParamsNotSeparate
    | DefunNoBody
    | DefunTrailing(rest: SExpr)

  /** Java runtime exceptions: a method called on a null node, and an index
      past the end of an array or list. */
  datatype Fault = NullPointer | IndexOutOfBounds

  datatype Error =
    | ParseError(diagnostic: Diagnostic)
    | EvalError(failure: Failure)
    | Crash(fault: Fault)
    | OutOfFuel
}

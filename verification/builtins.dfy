/** The evaluator's non-recursive helpers: the built-in function names,
    argument counting and checking, DEFUN validation, and the built-in
    operations on already-evaluated arguments. */
module Builtins {
  import opened Wrappers
  import opened SExpressions
  import opened Errors

  /** The functions `apply` implements itself. */
  datatype Builtin =
    | CAR | CDR | CONS
    | PLUS | MINUS | TIMES | QUOTIENT | REMAINDER | LESS | GREATER
    | ATOM | EQ | NULL | INT

  function BuiltinName(b: Builtin): string {
    match b
    case CAR => "CAR"
    case CDR => "CDR"
    case CONS => "CONS"
    case PLUS => "PLUS"
    case MINUS => "MINUS"
    case TIMES => "TIMES"
    case QUOTIENT => "QUOTIENT"
    case REMAINDER => "REMAINDER"
    case LESS => "LESS"
    case GREATER => "GREATER"
    case ATOM => "ATOM"
    case EQ => "EQ"
    case NULL => "NULL"
    case INT => "INT"
  }

  /** The built-in a function name denotes, if any: the chain of name tests
      at the head of `apply`. */
  function BuiltinNamed(name: string): Option<Builtin> {
    if name == "CAR" then Some(CAR)
    else if name == "CDR" then Some(CDR)
    else if name == "CONS" then Some(CONS)
    else if name == "PLUS" then Some(PLUS)
    else if name == "MINUS" then Some(MINUS)
    else if name == "TIMES" then Some(TIMES)
    else if name == "QUOTIENT" then Some(QUOTIENT)
    else if name == "REMAINDER" then Some(REMAINDER)
    else if name == "LESS" then Some(LESS)
    else if name == "GREATER" then Some(GREATER)
    else if name == "ATOM" then Some(ATOM)
    else if name == "EQ" then Some(EQ)
    else if name == "NULL" then Some(NULL)
    else if name == "INT" then Some(INT)
    else None
  }

  /** Names and built-ins correspond one to one. */
  lemma BuiltinNaming(b: Builtin, name: string)
    ensures BuiltinNamed(BuiltinName(b)) == Some(b)
    ensures BuiltinNamed(name) == Some(b) ==> name == BuiltinName(b)
  {
  }

  /** The seven built-ins the argument check groups as "BINARY": two integer
      arguments. */
  predicate IsBinary(b: Builtin) {
    b.PLUS? || b.MINUS? || b.TIMES? || b.QUOTIENT? || b.REMAINDER? || b.LESS? || b.GREATER?
  }

  function Arity(b: Builtin): nat {
    if b.CAR? || b.CDR? || b.ATOM? || b.NULL? || b.INT? then 1 else 2
  }

  /** The special forms `eval` recognises by the name at the head of a list. */
  datatype Form = QUOTE | COND | DEFUN

  function FormNamed(name: string): Option<Form> {
    if name == "QUOTE" then Some(QUOTE)
    else if name == "COND" then Some(COND)
    else if name == "DEFUN" then Some(DEFUN)
    else None
  }

  /** `countArgs`: the number of `cdr` steps to NIL. A chain ending in another
      atom steps onto that atom's null cdr and dereferences it. */
  function CountArgs(e: SExpr): (r: Result<nat, Error>)
    ensures r.Ok? ==> IsNil(Tail(e)) && r.value == |Spine(e)|
    ensures r.Err? ==> !IsNil(Tail(e)) && r.error == Crash(NullPointer)
  {
    if IsNil(e) then Ok(0)
    else match e
      case Pair(_, d) =>
        var n :- CountArgs(d);
        Ok(n + 1)
      case _ => Err(Crash(NullPointer))
  }

  /** The argument count `checkIfValidArgs` demands of a name: QUOTE, the
      COND clause check (named EVCON) and the label BINARY, under which the
      check files the arithmetic built-ins, besides the built-ins; none for
      any other name. */
  function ExpectedArgs(fn: string): Option<nat> {
    if fn == "QUOTE" then Some(1)
    else if fn == "EVCON" then Some(2)
    else if fn == "BINARY" then Some(2)
    else match BuiltinNamed(fn)
      case Some(b) => Some(Arity(b))
      case None => None
  }

  /** `checkIfValidArgs`: the first problem with the arguments of `fn`, or
      None. The count comes first; then CAR and CDR want a non-atomic
      argument, the binary built-ins two integers, and QUOTIENT and REMAINDER
      a nonzero divisor. A function called BINARY gets the binary checks
      too, since that is the label the check files them under. */
  function CheckArgs(fn: string, args: SExpr): (r: Option<Error>)
    ensures r.None? ==> IsNil(Tail(args))
    ensures r.None? && ExpectedArgs(fn).Some? ==> |Spine(args)| == ExpectedArgs(fn).value
  {
    match CountArgs(args)
    case Err(err) => Some(err)
    case Ok(n) =>
      var xs := Spine(args);
      if ExpectedArgs(fn).Some? && n != ExpectedArgs(fn).value then Some(EvalError(WrongArgCount(fn, n)))
      else if fn == "BINARY" && (!xs[0].Int? || !xs[1].Int?) then Some(EvalError(NonIntegerArguments(fn)))
      else match BuiltinNamed(fn)
        case None => None
        case Some(b) =>
          if (b.CAR? || b.CDR?) && IsAtom(xs[0]) then Some(EvalError(AtomArgument(fn, xs[0])))
          else if IsBinary(b) && (!xs[0].Int? || !xs[1].Int?) then Some(EvalError(NonIntegerArguments(fn)))
          else if (b.QUOTIENT? || b.REMAINDER?) && Val(xs[1]) == 0 then Some(EvalError(DivisionByZero))
          else None
  }

  /** The argument list a built-in accepts. */
  predicate ArgsFit(b: Builtin, xs: seq<SExpr>) {
    && |xs| == Arity(b)
    && ((b.CAR? || b.CDR?) ==> !IsAtom(xs[0]))
    && (IsBinary(b) ==> xs[0].Int? && xs[1].Int?)
    && ((b.QUOTIENT? || b.REMAINDER?) ==> Val(xs[1]) != 0)
  }

  /** The built-ins' argument checks, as one statement: the check passes
      exactly when the arguments form a proper list that fits the built-in. */
  lemma CheckArgsBuiltin(b: Builtin, args: SExpr)
    ensures CheckArgs(BuiltinName(b), args).None? <==> IsNil(Tail(args)) && ArgsFit(b, Spine(args))
  {
    BuiltinNaming(b, BuiltinName(b));
    var fn := BuiltinName(b);
    assert fn != "QUOTE" && fn != "EVCON" && fn != "BINARY";
  }

  /** A call headed by BINARY, which names no built-in, passes the check
      exactly on two integers: the arithmetic built-ins' check without the
      divisor test. */
  lemma {:induction false} CheckArgsBinaryLabel(args: SExpr)
    ensures CheckArgs("BINARY", args).None? <==>
      IsNil(Tail(args)) && |Spine(args)| == 2 && Spine(args)[0].Int? && Spine(args)[1].Int?
    ensures BuiltinNamed("BINARY").None?
  {
    assert "BINARY" != "QUOTE" && "BINARY" != "EVCON";
  }

  /** The body of a built-in, on arguments that passed its check. */
  function ApplyBuiltin(b: Builtin, xs: seq<SExpr>): (r: SExpr)
    requires ArgsFit(b, xs)
    ensures (b.ATOM? || b.NULL? || b.INT? || b.LESS? || b.GREATER? || b.EQ?) ==> IsT(r) || IsNil(r)
    ensures b.ATOM? ==> (IsT(r) <==> IsAtom(xs[0]))
    ensures b.NULL? ==> (IsT(r) <==> IsNil(xs[0]))
    ensures b.INT? ==> (IsT(r) <==> xs[0].Int?)
    ensures b.CONS? ==> Car(r) == Some(xs[0]) && Cdr(r) == Some(xs[1])
    ensures b.CAR? ==> Some(r) == Car(xs[0])
    ensures b.CDR? ==> Some(r) == Cdr(xs[0])
  {
    match b
    case CAR => xs[0].car
    case CDR => xs[0].cdr
    case CONS => Cons(xs[0], xs[1])
    case PLUS => Plus(xs[0], xs[1])
    case MINUS => Minus(xs[0], xs[1])
    case TIMES => Times(xs[0], xs[1])
    case QUOTIENT => Quotient(xs[0], xs[1])
    case REMAINDER => Remainder(xs[0], xs[1])
    case LESS => Less(xs[0], xs[1])
    case GREATER => Greater(xs[0], xs[1])
    case ATOM => Bool(IsAtom(xs[0]))
    case EQ => Eq(xs[0], xs[1])
    case NULL => Bool(IsNil(xs[0]))
    case INT => Bool(xs[0].Int?)
  }

  /** The DEFUN form the validation lets through: `(DEFUN (NAME PARAMS) BODY)`
      with a symbol for NAME and a non-NIL PARAMS. */
  predicate DefunShape(d: SExpr) {
    && d.Pair? && d.car.Pair? && d.car.car.Sym?
    && d.car.cdr.Pair? && !IsNil(d.car.cdr.car) && IsNil(d.car.cdr.cdr)
    && d.cdr.Pair? && !IsNil(d.cdr.car) && IsNil(d.cdr.cdr)
  }

  /** `checkIfValidDefun` on the part after DEFUN: the first failing check,
      in the source's order. A check that calls a method on a missing child
      is a null dereference. The source's two "is an atom" tests come after
      tests that already made the node a pair, so they never fire. */
  function CheckDefun(d: SExpr): (r: Option<Error>)
    ensures r.None? <==> DefunShape(d)
  {
    if IsNil(d) then Some(EvalError(DefunEmpty))
    else if !d.Pair? then Some(Crash(NullPointer))
    else if IsNil(d.car) then Some(EvalError(DefunNoNameOrParams))
    else if !d.car.Pair? then Some(Crash(NullPointer))
    else if !d.car.car.Sym? then Some(EvalError(DefunNameNotSymbol))
    else if IsNil(d.car.cdr) then Some(EvalError(DefunNoParams))
    else if !d.car.cdr.Pair? then Some(Crash(NullPointer))
    else if IsNil(d.car.cdr.car) then Some(EvalError(DefunNoParams))
    else if !IsNil(d.car.cdr.cdr) then Some(EvalError(DefunParamsNotSeparate))
    else if IsNil(d.cdr) then Some(EvalError(DefunNoBody))
    else if !d.cdr.Pair? then Some(Crash(NullPointer))
    else if IsNil(d.cdr.car) then Some(EvalError(DefunNoBody))
    else if !IsNil(d.cdr.cdr) then Some(EvalError(DefunTrailing(d.cdr.cdr)))
    else None
  }
}

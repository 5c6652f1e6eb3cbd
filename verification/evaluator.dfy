/** `eval`, `evcon`, `evlis` and `apply`. The binding list and the function
    table, which the source keeps in fields and a static map, are passed in
    and handed back by every step, also when the step fails. The only
    unbounded recursion is the application of a user function, which spends
    one unit of fuel; everything else recurs on a smaller expression. */
module Evaluation {
  import opened Wrappers
  import opened SExpressions
  import opened Errors
  import opened Bindings
  import opened Defuns
  import opened FunctionTable
  import opened Builtins

  /** The outcome of an evaluation step with the state it leaves behind. */
  datatype Out = Out(result: Result<SExpr, Error>, al: AList, dl: DList)

  /** `(QUOTE x)`: `x`, unevaluated, when exactly one argument is given. */
  function Quote(args: SExpr): (r: Result<SExpr, Error>)
    ensures r.Ok? <==> CheckArgs("QUOTE", args).None?
    ensures r.Ok? ==> Car(args) == Some(r.value)
  {
    match CheckArgs("QUOTE", args)
    case Some(err) => Err(err)
    case None => Ok(Spine(args)[0])
  }

  /** `(DEFUN (NAME PARAMS) BODY)`: validate, build the definition, enter it
      in the function table and answer the name. The binding list is never
      touched. */
  function Define(d: SExpr, al: AList, dl: DList): (r: Out)
    ensures r.al == al
    ensures r.result.Ok? <==> DefunShape(d) && MakeDefun(d.car.car.name, d.car.cdr.car, d.cdr.car).Ok?
    ensures r.result.Ok? ==>
      var name := d.car.car.name;
      && r.result.value == Sym(name)
      && r.dl == AddFunction(dl, name, MakeDefun(name, d.car.cdr.car, d.cdr.car).value)
    ensures r.result.Err? ==> r.dl == dl
  {
    match CheckDefun(d)
    case Some(err) => Out(Err(err), al, dl)
    case None =>
      var name := d.car.car.name;
      match MakeDefun(name, d.car.cdr.car, d.cdr.car)
      case Err(err) => Out(Err(err), al, dl)
      case Ok(def) => Out(Ok(Sym(name)), al, AddFunction(dl, name, def))
  }

  /** `eval`: atoms T, NIL and integers stand for themselves, other symbols
      are looked up; a list headed by a symbol is a special form or a call,
      and any other list is not an expression. */
  function Eval(e: SExpr, al: AList, dl: DList, fuel: nat): (r: Out)
    ensures r.result.Ok? ==> Restores(al, r.al)
    ensures dl.Keys <= r.dl.Keys
    decreases fuel, Size(e), 1
  {
    match e
    case Int(_) => Out(Ok(e), al, dl)
    case Sym(name) =>
      if IsT(e) || IsNil(e) then Out(Ok(e), al, dl)
      else Out(GetVal(al, name), al, dl)
    case Pair(head, args) =>
      if !head.Sym? then Out(Err(EvalError(NotALispExpression)), al, dl)
      else match FormNamed(head.name)
        case Some(QUOTE) => Out(Quote(args), al, dl)
        case Some(COND) =>
          if IsNil(args) then Out(Err(EvalError(CondWithoutClauses)), al, dl)
          else Evcon(args, al, dl, fuel)
        case Some(DEFUN) => Define(args, al, dl)
        case None => EvalCall(e, head.name, args, al, dl, fuel)
  }

  /** `evcon`: the value of the expression of the first clause whose test is
      not NIL. Each clause must be a two-element list; running out of
      clauses is an error. */
  function Evcon(clauses: SExpr, al: AList, dl: DList, fuel: nat): (r: Out)
    ensures r.result.Ok? ==> Restores(al, r.al)
    ensures dl.Keys <= r.dl.Keys
    decreases fuel, Size(clauses), 1
  {
    if IsNil(clauses) then Out(Err(EvalError(CondExhausted)), al, dl)
    else match clauses
      // another atom has a null car, which the clause check dereferences
      case Int(_) => Out(Err(Crash(NullPointer)), al, dl)
      case Sym(_) => Out(Err(Crash(NullPointer)), al, dl)
      case Pair(clause, rest) =>
        match CheckArgs("EVCON", clause)
        case Some(err) => Out(Err(err), al, dl)
        case None =>
          SpineFirstTwo(clause);
          var test, expr := clause.car, clause.cdr.car;
          var t := Eval(test, al, dl, fuel);
          if t.result.Err? then t
          else if !IsNil(t.result.value) then
            var r := Eval(expr, t.al, t.dl, fuel);
            RestoresChain(al, t.al, r.al);
            r
          else
            var r := Evcon(rest, t.al, t.dl, fuel);
            RestoresChain(al, t.al, r.al);
            r
  }

  /** `evlis`: evaluate the elements of a list in order, threading the state,
      and list the values. */
  function Evlis(list: SExpr, al: AList, dl: DList, fuel: nat): (r: Out)
    ensures r.result.Ok? ==> Restores(al, r.al)
    ensures dl.Keys <= r.dl.Keys
    decreases fuel, Size(list), 1
  {
    if IsNil(list) then Out(Ok(NIL), al, dl)
    else match list
      // another atom has a null car, which `eval` dereferences
      case Int(_) => Out(Err(Crash(NullPointer)), al, dl)
      case Sym(_) => Out(Err(Crash(NullPointer)), al, dl)
      case Pair(x, rest) =>
        var h := Eval(x, al, dl, fuel);
        if h.result.Err? then h
        else
          var t := Evlis(rest, h.al, h.dl, fuel);
          RestoresChain(al, h.al, t.al);
          if t.result.Err? then t
          else Out(Ok(Cons(h.result.value, t.result.value)), t.al, t.dl)
  }

  /** A call `(fn args...)`: evaluate the arguments, then apply. A null
      dereference anywhere in evaluating the arguments is caught and
      reported as "Could not evaluate" the whole call. */
  function EvalCall(e: SExpr, fn: string, args: SExpr, al: AList, dl: DList, fuel: nat): (r: Out)
    requires e == Pair(Sym(fn), args)
    ensures r.result.Ok? ==> Restores(al, r.al)
    ensures dl.Keys <= r.dl.Keys
    decreases fuel, Size(e), 0
  {
    var vs := Evlis(args, al, dl, fuel);
    if vs.result == Err(Crash(NullPointer)) then Out(Err(EvalError(CouldNotEvaluate(e))), vs.al, vs.dl)
    else if vs.result.Err? then vs
    else
      var r := Apply(fn, vs.result.value, vs.al, vs.dl, fuel);
      RestoresChain(al, vs.al, r.al);
      r
  }

  /** `apply`: check the arguments, then run the built-in of that name or,
      failing that, the user function of that name. */
  function Apply(fn: string, args: SExpr, al: AList, dl: DList, fuel: nat): (r: Out)
    ensures r.result.Ok? ==> Restores(al, r.al)
    ensures dl.Keys <= r.dl.Keys
    decreases fuel, 0, 1
  {
    match CheckArgs(fn, args)
    case Some(err) => Out(Err(err), al, dl)
    case None =>
      match BuiltinNamed(fn)
      case Some(b) =>
        assert ArgsFit(b, Spine(args)) by {
          BuiltinNaming(b, fn);
          CheckArgsBuiltin(b, args);
        }
        Out(Ok(ApplyBuiltin(b, Spine(args))), al, dl)
      case None => ApplyDefined(fn, args, al, dl, fuel)
  }

  /** A user function: bind the parameters to the non-NIL arguments, run the
      body on the extended binding list, unbind. A body that fails leaves its
      bindings in place. */
  function ApplyDefined(fn: string, args: SExpr, al: AList, dl: DList, fuel: nat): (r: Out)
    ensures r.result.Ok? ==> Restores(al, r.al)
    ensures dl.Keys <= r.dl.Keys
    decreases fuel, 0, 0
  {
    match GetFunction(dl, fn)
    case None => Out(Err(EvalError(UndefinedFunction(fn))), al, dl)
    case Some(def) =>
      match GetArgumentsAsList(args)
      case Err(err) => Out(Err(err), al, dl)
      case Ok(xs) =>
        match AddPairs(al, fn, def.params, xs)
        case Err(err) => Out(Err(err), al, dl)
        case Ok(bound) =>
          if fuel == 0 then Out(Err(OutOfFuel), bound, dl)
          else
            var body := Eval(def.body, bound, dl, fuel - 1);
            if body.result.Err? then body
            else
              PopAfterPush(al, def.params, xs, body.al);
              match DestroyPairs(body.al, def.params)
              case Err(err) => Out(Err(err), body.al, body.dl)
              case Ok(unbound) => Out(body.result, unbound, body.dl)
  }

  /** One top-level expression: a fresh, empty binding list and the function
      table left by the expressions before it. */
  function EvalTopLevel(e: SExpr, dl: DList, fuel: nat): (r: (Result<SExpr, Error>, DList))
    ensures dl.Keys <= r.1.Keys
  {
    var out := Eval(e, map[], dl, fuel);
    (out.result, out.dl)
  }
}

/** Properties of the evaluator: what each special form, built-in and call
    computes, in which order the checks fire, and what state is left
    behind. */
module EvaluationProperties {
  import opened Wrappers
  import opened SExpressions
  import opened Errors
  import opened Bindings
  import opened Defuns
  import opened FunctionTable
  import opened Builtins
  import opened Evaluation

  /** The one-element list `(x)`. */
  function List1(x: SExpr): SExpr {
    Pair(x, NIL)
  }

  /** The two-element list `(x y)`. */
  function List2(x: SExpr, y: SExpr): SExpr {
    Pair(x, Pair(y, NIL))
  }

  // ---------------------------------------------------------------- atoms

  /** Integers, T and NIL evaluate to themselves; every other symbol is
      looked up in the binding list. Neither touches the state. */
  lemma AtomEvaluation(e: SExpr, al: AList, dl: DList, fuel: nat)
    requires IsAtom(e)
    ensures Eval(e, al, dl, fuel).al == al && Eval(e, al, dl, fuel).dl == dl
    ensures e.Int? || IsT(e) || IsNil(e) ==> Eval(e, al, dl, fuel).result == Ok(e)
    ensures e.Sym? && !IsT(e) && !IsNil(e) ==> Eval(e, al, dl, fuel).result == GetVal(al, e.name)
  {
  }

  /** A top-level expression starts from an empty binding list, so a symbol
      other than T and NIL is unbound there. */
  lemma TopLevelUnbound(name: string, dl: DList, fuel: nat)
    requires name != "T" && name != "NIL"
    ensures EvalTopLevel(Sym(name), dl, fuel) == (Err(EvalError(UnboundAtom(name))), dl)
  {
  }

  /** A list whose head is not a symbol is not an expression. */
  lemma NotAnExpression(head: SExpr, args: SExpr, al: AList, dl: DList, fuel: nat)
    requires !head.Sym?
    ensures Eval(Pair(head, args), al, dl, fuel) == Out(Err(EvalError(NotALispExpression)), al, dl)
  {
  }

  // ---------------------------------------------------------------- QUOTE

  /** `(QUOTE x)` is `x`, unevaluated. */
  lemma QuoteReturnsArgument(x: SExpr, al: AList, dl: DList, fuel: nat)
    ensures Eval(Pair(Sym("QUOTE"), List1(x)), al, dl, fuel) == Out(Ok(x), al, dl)
  {
  }

  /** QUOTE succeeds exactly on one argument; another count on a proper list
      is an argument-count error, and an improper list a null dereference. */
  lemma QuoteArity(args: SExpr, al: AList, dl: DList, fuel: nat)
    ensures var r := Eval(Pair(Sym("QUOTE"), args), al, dl, fuel);
      && r.al == al && r.dl == dl
      && (r.result.Ok? <==> IsNil(Tail(args)) && |Spine(args)| == 1)
      && (r.result.Ok? ==> r.result.value == Spine(args)[0])
      && (IsNil(Tail(args)) && |Spine(args)| != 1 ==>
            r.result == Err(EvalError(WrongArgCount("QUOTE", |Spine(args)|))))
      && (!IsNil(Tail(args)) ==> r.result == Err(Crash(NullPointer)))
  {
  }

  // ----------------------------------------------------------------- COND

  /** COND needs at least one clause. */
  lemma CondNeedsClauses(al: AList, dl: DList, fuel: nat)
    ensures Eval(Pair(Sym("COND"), NIL), al, dl, fuel) == Out(Err(EvalError(CondWithoutClauses)), al, dl)
  {
  }

  /** The first clause whose test is true decides: its expression is
      evaluated in the state the test left, and the later clauses play no
      part. */
  lemma EvconFirstTrue(test: SExpr, expr: SExpr, rest: SExpr, al: AList, dl: DList, fuel: nat)
    requires Eval(test, al, dl, fuel).result.Ok? && !IsNil(Eval(test, al, dl, fuel).result.value)
    ensures var t := Eval(test, al, dl, fuel);
      Evcon(Pair(List2(test, expr), rest), al, dl, fuel) == Eval(expr, t.al, t.dl, fuel)
  {
    ClauseAccepted(test, expr);
  }

  /** A clause whose test is NIL passes on to the next clause. */
  lemma EvconFalseMovesOn(test: SExpr, expr: SExpr, rest: SExpr, al: AList, dl: DList, fuel: nat)
    requires Eval(test, al, dl, fuel).result == Ok(NIL)
    ensures var t := Eval(test, al, dl, fuel);
      Evcon(Pair(List2(test, expr), rest), al, dl, fuel) == Evcon(rest, t.al, t.dl, fuel)
  {
    ClauseAccepted(test, expr);
  }

  /** A two-element clause passes the clause check. */
  lemma ClauseAccepted(test: SExpr, expr: SExpr)
    ensures CheckArgs("EVCON", List2(test, expr)).None?
  {
    assert Spine(NIL) == [];
    assert Spine(List1(expr)) == [expr];
    assert Spine(List2(test, expr)) == [test, expr];
    assert CountArgs(List2(test, expr)) == Ok(2);
  }

  /** Running out of clauses is an error. */
  lemma EvconExhausted(al: AList, dl: DList, fuel: nat)
    ensures Evcon(NIL, al, dl, fuel) == Out(Err(EvalError(CondExhausted)), al, dl)
  {
  }

  /** A clause that is not a two-element list is rejected before anything in
      it is evaluated. */
  lemma EvconClauseShape(clause: SExpr, rest: SExpr, al: AList, dl: DList, fuel: nat)
    requires !(IsNil(Tail(clause)) && |Spine(clause)| == 2)
    ensures Evcon(Pair(clause, rest), al, dl, fuel) ==
      Out(Err(if IsNil(Tail(clause)) then EvalError(WrongArgCount("EVCON", |Spine(clause)|))
              else Crash(NullPointer)), al, dl)
  {
  }

  // ---------------------------------------------------------------- EVLIS

  /** The reference for `evlis`: evaluate the elements of a sequence one
      after another, each in the state the previous one left. */
  function EvalEach(xs: seq<SExpr>, al: AList, dl: DList, fuel: nat): (r: (Result<seq<SExpr>, Error>, AList, DList))
    ensures r.0.Ok? ==> |r.0.value| == |xs|
    ensures r.0.Ok? && xs != [] ==> Eval(xs[0], al, dl, fuel).result == Ok(r.0.value[0])
    decreases |xs|
  {
    if xs == [] then (Ok([]), al, dl)
    else
      var h := Eval(xs[0], al, dl, fuel);
      if h.result.Err? then (Err(h.result.error), h.al, h.dl)
      else
        var t := EvalEach(xs[1..], h.al, h.dl, fuel);
        if t.0.Err? then t else (Ok([h.result.value] + t.0.value), t.1, t.2)
  }

  /** `evlis` on a proper list evaluates its elements in order: it succeeds
      exactly when every element does, and then lists their values, one per
      element; it fails with the first element's error otherwise. */
  lemma {:induction false} EvlisEvaluatesEach(list: SExpr, al: AList, dl: DList, fuel: nat)
    requires ListElems(list).Some?
    ensures var r := Evlis(list, al, dl, fuel);
      var s := EvalEach(ListElems(list).value, al, dl, fuel);
      && (r.result.Ok? <==> s.0.Ok?)
      && (r.result.Ok? ==> ListElems(r.result.value) == Some(s.0.value))
      && (r.result.Err? ==> r.result.error == s.0.error)
      && r.al == s.1 && r.dl == s.2
    decreases Size(list)
  {
    if !IsNil(list) {
      var x, rest := list.car, list.cdr;
      var xs := ListElems(rest).value;
      assert ListElems(list).value == [x] + xs;
      assert ([x] + xs)[1..] == xs;
      var h := Eval(x, al, dl, fuel);
      if h.result.Ok? {
        EvlisEvaluatesEach(rest, h.al, h.dl, fuel);
      }
    }
  }

  /** `evlis` of NIL is NIL. */
  lemma EvlisNil(al: AList, dl: DList, fuel: nat)
    ensures Evlis(NIL, al, dl, fuel) == Out(Ok(NIL), al, dl)
  {
  }

  /** `evlis` on a chain that does not end in NIL never succeeds. */
  lemma {:induction false} EvlisImproper(list: SExpr, al: AList, dl: DList, fuel: nat)
    requires !IsNil(Tail(list))
    ensures Evlis(list, al, dl, fuel).result.Err?
    decreases Size(list)
  {
    if list.Pair? {
      var h := Eval(list.car, al, dl, fuel);
      if h.result.Ok? {
        EvlisImproper(list.cdr, h.al, h.dl, fuel);
      }
    }
  }

  // ---------------------------------------------------------------- CALLS

  /** A list headed by a symbol that names no special form is a call: the
      arguments are evaluated in order, and `apply` runs on their values in
      the state that left. A null dereference while evaluating the arguments
      is caught and reported as "Could not evaluate" the whole call; any
      other error is passed on unchanged. */
  lemma CallEvaluatesArguments(fn: string, args: SExpr, al: AList, dl: DList, fuel: nat)
    requires FormNamed(fn).None?
    ensures var e, vs := Pair(Sym(fn), args), Evlis(args, al, dl, fuel);
      var r := Eval(e, al, dl, fuel);
      && (vs.result == Err(Crash(NullPointer)) ==> r == Out(Err(EvalError(CouldNotEvaluate(e))), vs.al, vs.dl))
      && (vs.result.Err? && vs.result != Err(Crash(NullPointer)) ==> r == vs)
      && (vs.result.Ok? ==> r == Apply(fn, vs.result.value, vs.al, vs.dl, fuel))
  {
  }

  /** `(F . x)` with an atom x other than NIL: `evlis` dereferences the
      atom's null car, and the call reports that it could not be evaluated,
      leaving the state alone. */
  lemma DottedCallNotEvaluated(fn: string, x: SExpr, al: AList, dl: DList, fuel: nat)
    requires FormNamed(fn).None? && IsAtom(x) && !IsNil(x)
    ensures Eval(Pair(Sym(fn), x), al, dl, fuel) == Out(Err(EvalError(CouldNotEvaluate(Pair(Sym(fn), x)))), al, dl)
  {
    CallEvaluatesArguments(fn, x, al, dl, fuel);
  }

  /** The catch reports the innermost call: in `(G (F . 5))` it is `(F . 5)`
      that could not be evaluated, and G passes that error on. */
  lemma InnermostCallReported(g: string, fn: string, al: AList, dl: DList, fuel: nat)
    requires FormNamed(g).None? && FormNamed(fn).None?
    ensures Eval(Pair(Sym(g), List1(Pair(Sym(fn), Int(5)))), al, dl, fuel).result ==
      Err(EvalError(CouldNotEvaluate(Pair(Sym(fn), Int(5)))))
  {
    DottedCallNotEvaluated(fn, Int(5), al, dl, fuel);
    CallEvaluatesArguments(g, List1(Pair(Sym(fn), Int(5))), al, dl, fuel);
  }

  // --------------------------------------------------------------- APPLY

  /** `countArgs` is the length of a proper list and fails on any other
      chain. */
  lemma CountArgsLength(e: SExpr)
    ensures CountArgs(e).Ok? <==> ListElems(e).Some?
    ensures CountArgs(e).Ok? ==> CountArgs(e).value == |ListElems(e).value|
  {
    ListElemsSpine(e);
  }

  /** A failed argument check stops `apply` before anything else happens. */
  lemma ApplyChecksFirst(fn: string, args: SExpr, al: AList, dl: DList, fuel: nat)
    requires CheckArgs(fn, args).Some?
    ensures Apply(fn, args, al, dl, fuel) == Out(Err(CheckArgs(fn, args).value), al, dl)
  {
  }

  /** A built-in name always runs the built-in, whatever the function table
      holds under that name, and leaves the state alone. */
  lemma BuiltinIgnoresTable(b: Builtin, args: SExpr, al: AList, dl: DList, fuel: nat)
    requires IsNil(Tail(args)) && ArgsFit(b, Spine(args))
    ensures Apply(BuiltinName(b), args, al, dl, fuel) == Out(Ok(ApplyBuiltin(b, Spine(args))), al, dl)
  {
    CheckArgsBuiltin(b, args);
    BuiltinNaming(b, BuiltinName(b));
  }

  /** A built-in applied to arguments it does not fit is an error, and the
      state is untouched. */
  lemma BuiltinRejects(b: Builtin, args: SExpr, al: AList, dl: DList, fuel: nat)
    requires !(IsNil(Tail(args)) && ArgsFit(b, Spine(args)))
    ensures var r := Apply(BuiltinName(b), args, al, dl, fuel);
      r.result.Err? && r.al == al && r.dl == dl
  {
    CheckArgsBuiltin(b, args);
  }

  /** ATOM, NULL and INT answer T exactly when their argument is an atom, is
      NIL, or is an integer, and NIL otherwise. */
  lemma PredicateBuiltins(x: SExpr, al: AList, dl: DList, fuel: nat)
    ensures Apply("ATOM", List1(x), al, dl, fuel).result == Ok(Bool(IsAtom(x)))
    ensures Apply("NULL", List1(x), al, dl, fuel).result == Ok(Bool(IsNil(x)))
    ensures Apply("INT", List1(x), al, dl, fuel).result == Ok(Bool(x.Int?))
  {
    assert BuiltinName(ATOM) == "ATOM" && BuiltinName(NULL) == "NULL" && BuiltinName(INT) == "INT";
    OneArgumentBuiltin(ATOM, x, al, dl, fuel);
    OneArgumentBuiltin(NULL, x, al, dl, fuel);
    OneArgumentBuiltin(INT, x, al, dl, fuel);
  }

  /** A one-argument built-in other than CAR and CDR accepts any single
      argument. */
  lemma OneArgumentBuiltin(b: Builtin, x: SExpr, al: AList, dl: DList, fuel: nat)
    requires b.ATOM? || b.NULL? || b.INT?
    ensures Apply(BuiltinName(b), List1(x), al, dl, fuel).result ==
      Ok(Bool(if b.ATOM? then IsAtom(x) else if b.NULL? then IsNil(x) else x.Int?))
  {
    assert Spine(List1(x)) == [x];
    BuiltinIgnoresTable(b, List1(x), al, dl, fuel);
  }

  /** A name that is neither built in nor defined is an error. */
  lemma UndefinedFunctionCall(fn: string, args: SExpr, al: AList, dl: DList, fuel: nat)
    requires BuiltinNamed(fn).None? && fn !in dl && CheckArgs(fn, args).None?
    ensures Apply(fn, args, al, dl, fuel) == Out(Err(EvalError(UndefinedFunction(fn))), al, dl)
  {
  }

  /** A function called BINARY gets the argument check of the arithmetic
      built-ins, whatever the function table holds: arguments other than
      two integers are an error before any definition is looked up, and the
      state is untouched. */
  lemma BinaryLabelChecked(args: SExpr, al: AList, dl: DList, fuel: nat)
    requires !(IsNil(Tail(args)) && |Spine(args)| == 2 && Spine(args)[0].Int? && Spine(args)[1].Int?)
    ensures var r := Apply("BINARY", args, al, dl, fuel);
      && r.result.Err? && r.result != Err(EvalError(UndefinedFunction("BINARY")))
      && r.al == al && r.dl == dl
  {
    CheckArgsBinaryLabel(args);
  }

  /** `(BINARY)` is an argument-count error, defined or not. */
  lemma BinaryWithoutArguments(al: AList, dl: DList, fuel: nat)
    ensures Eval(Pair(Sym("BINARY"), NIL), al, dl, fuel) ==
      Out(Err(EvalError(WrongArgCount("BINARY", 0))), al, dl)
  {
    var e := Pair(Sym("BINARY"), NIL);
    assert FormNamed("BINARY").None?;
    assert Evlis(NIL, al, dl, fuel) == Out(Ok(NIL), al, dl);
    assert CountArgs(NIL) == Ok(0) && ExpectedArgs("BINARY") == Some(2);
    assert Apply("BINARY", NIL, al, dl, fuel) == Out(Err(EvalError(WrongArgCount("BINARY", 0))), al, dl);
    assert Eval(e, al, dl, fuel) == EvalCall(e, "BINARY", NIL, al, dl, fuel);
  }

  /** A user call binds the parameters to the non-NIL arguments on top of
      the caller's bindings, evaluates the body there, and on success answers
      the body's value with every binding as the caller had it. */
  lemma UserCall(fn: string, args: SExpr, xs: seq<SExpr>, al: AList, dl: DList, fuel: nat)
    requires BuiltinNamed(fn).None? && fn in dl && CheckArgs(fn, args).None?
    requires GetArgumentsAsList(args) == Ok(xs) && |dl[fn].params| == |xs| && fuel > 0
    requires Eval(dl[fn].body, Push(al, dl[fn].params, xs), dl, fuel - 1).result.Ok?
    ensures var body := Eval(dl[fn].body, Push(al, dl[fn].params, xs), dl, fuel - 1);
      var r := Apply(fn, args, al, dl, fuel);
      && r.result == body.result
      && Restores(al, r.al)
      && r.dl == body.dl
  {
    var def := dl[fn];
    var body := Eval(def.body, Push(al, def.params, xs), dl, fuel - 1);
    PopAfterPush(al, def.params, xs, body.al);
  }

  /** A call with the wrong number of non-NIL arguments binds nothing. */
  lemma UserCallArity(fn: string, args: SExpr, xs: seq<SExpr>, al: AList, dl: DList, fuel: nat)
    requires BuiltinNamed(fn).None? && fn in dl && CheckArgs(fn, args).None?
    requires GetArgumentsAsList(args) == Ok(xs) && |dl[fn].params| != |xs|
    ensures Apply(fn, args, al, dl, fuel) ==
      Out(Err(EvalError(ArityMismatch(fn, |dl[fn].params|, |xs|))), al, dl)
  {
  }

  // ---------------------------------------------------------------- DEFUN

  /** A well-formed DEFUN enters the definition under its name, replacing
      any earlier one, and answers the name. */
  lemma DefunRegisters(name: string, params: SExpr, body: SExpr, al: AList, dl: DList, fuel: nat)
    requires !IsNil(params) && !IsNil(body) && GetParamsAsList(params).Ok?
    ensures var r := Eval(Pair(Sym("DEFUN"), List2(List2(Sym(name), params), body)), al, dl, fuel);
      && r.result == Ok(Sym(name))
      && r.al == al
      && GetFunction(r.dl, name) == Some(Defun(name, GetParamsAsList(params).value, body))
      && (forall n :: n != name ==> GetFunction(r.dl, n) == GetFunction(dl, n))
  {
  }

  /** A DEFUN that fails validation reports the first failing check and
      changes nothing. */
  lemma DefunRejected(d: SExpr, al: AList, dl: DList, fuel: nat)
    requires CheckDefun(d).Some?
    ensures Eval(Pair(Sym("DEFUN"), d), al, dl, fuel) == Out(Err(CheckDefun(d).value), al, dl)
  {
  }

  /** The name is checked before the parameters and the body: a non-symbol
      name is reported whatever follows it. */
  lemma DefunNameCheckedFirst(name: SExpr, ps: SExpr, rest: SExpr)
    requires !name.Sym?
    ensures CheckDefun(Pair(Pair(name, ps), rest)) == Some(EvalError(DefunNameNotSymbol))
  {
  }

  /** The parameters are checked before the body: a missing parameter list
      is reported whatever the body is. */
  lemma DefunParamsBeforeBody(name: string, rest: SExpr)
    ensures CheckDefun(Pair(List1(Sym(name)), rest)) == Some(EvalError(DefunNoParams))
  {
  }

  /** A parameter list given as a bare symbol, as in `(DEFUN (F X) ...)`,
      passes validation and then dereferences the null car of that symbol. */
  lemma DefunBareParameter(name: string, x: string, body: SExpr, al: AList, dl: DList, fuel: nat)
    requires x != "NIL" && !IsNil(body)
    ensures Eval(Pair(Sym("DEFUN"), List2(List2(Sym(name), Sym(x)), body)), al, dl, fuel) ==
      Out(Err(Crash(NullPointer)), al, dl)
  {
  }

  // ------------------------------------------------------------- examples

  /** `(DEFUN F (X) X)`, with the name outside the first sublist, reaches the
      name check through the null car of the atom F. */
  lemma NameOutsideSublistCrashes(al: AList, dl: DList, fuel: nat)
    ensures Eval(Pair(Sym("DEFUN"), Pair(Sym("F"), List2(List1(Sym("X")), Sym("X")))), al, dl, fuel) ==
      Out(Err(Crash(NullPointer)), al, dl)
  {
  }

  /** `(DEFUN (F (X)) X)` followed, as a separate top-level expression, by
      `(F 5)` gives 5: the definition outlives its expression and the call
      binds X to 5. */
  lemma DefineThenCall(dl: DList, fuel: nat)
    requires fuel >= 1
    ensures var def := EvalTopLevel(Pair(Sym("DEFUN"), List2(List2(Sym("F"), List1(Sym("X"))), Sym("X"))), dl, fuel);
      && def.0 == Ok(Sym("F"))
      && EvalTopLevel(Pair(Sym("F"), List1(Int(5))), def.1, fuel).0 == Ok(Int(5))
  {
    var params := List1(Sym("X"));
    assert GetParamsAsList(NIL) == Ok([]);
    assert [Some("X")] + [] == [Some("X")];
    assert GetParamsAsList(params) == Ok([Some("X")]);
    DefunRegisters("F", params, Sym("X"), map[], dl, fuel);
    var dl' := EvalTopLevel(Pair(Sym("DEFUN"), List2(List2(Sym("F"), params), Sym("X"))), dl, fuel).1;
    CallIdentity(dl', fuel);
  }

  /** With F defined as the identity on X, `(F 5)` gives 5. */
  lemma CallIdentity(dl: DList, fuel: nat)
    requires fuel >= 1 && GetFunction(dl, "F") == Some(Defun("F", [Some("X")], Sym("X")))
    ensures EvalTopLevel(Pair(Sym("F"), List1(Int(5))), dl, fuel).0 == Ok(Int(5))
  {
    var args := List1(Int(5));
    var e := Pair(Sym("F"), args);
    assert Evlis(args, map[], dl, fuel) == Out(Ok(args), map[], dl);
    assert CountArgs(args) == Ok(1);
    assert GetArgumentsAsList(NIL) == Ok([]);
    assert [Int(5)] + [] == [Int(5)];
    assert GetArgumentsAsList(args) == Ok([Int(5)]);
    var bound := Push(map[], [Some("X")], [Int(5)]);
    assert bound == map[Some("X") := [Int(5)]];
    assert Eval(Sym("X"), bound, dl, fuel - 1).result == Ok(Int(5));
    assert BuiltinNamed("F") == None && FormNamed("F") == None;
    UserCall("F", args, [Int(5)], map[], dl, fuel);
    assert Apply("F", args, map[], dl, fuel).result == Ok(Int(5));
    assert EvalCall(e, "F", args, map[], dl, fuel).result == Ok(Int(5));
  }
}

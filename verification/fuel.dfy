/** The fuel bound only cuts runs short: a run that did not run out of fuel
    has the same outcome, and leaves the same state, with any larger
    amount. Running out of fuel is the model's stand-in for the unbounded
    recursion of the source, which has no such limit. */
module FuelProperties {
  import opened Wrappers
  import opened SExpressions
  import opened Errors
  import opened Bindings
  import opened Defuns
  import opened FunctionTable
  import opened Builtins
  import opened Evaluation

  lemma {:induction false} EvalFuel(e: SExpr, al: AList, dl: DList, fuel: nat)
    requires Eval(e, al, dl, fuel).result != Err(OutOfFuel)
    ensures Eval(e, al, dl, fuel + 1) == Eval(e, al, dl, fuel)
    decreases fuel, Size(e), 1
  {
    match e
    case Pair(head, args) =>
      if head.Sym? {
        match FormNamed(head.name)
        case Some(COND) =>
          if !IsNil(args) {
            EvconFuel(args, al, dl, fuel);
          }
        case None =>
          EvalCallFuel(e, head.name, args, al, dl, fuel);
        case _ =>
      }
    case _ =>
  }

  lemma {:induction false} EvconFuel(clauses: SExpr, al: AList, dl: DList, fuel: nat)
    requires Evcon(clauses, al, dl, fuel).result != Err(OutOfFuel)
    ensures Evcon(clauses, al, dl, fuel + 1) == Evcon(clauses, al, dl, fuel)
    decreases fuel, Size(clauses), 1
  {
    if !IsNil(clauses) && clauses.Pair? && CheckArgs("EVCON", clauses.car).None? {
      var clause := clauses.car;
      SpineFirstTwo(clause);
      var t := Eval(clause.car, al, dl, fuel);
      EvalFuel(clause.car, al, dl, fuel);
      if t.result.Ok? {
        if !IsNil(t.result.value) {
          EvalFuel(clause.cdr.car, t.al, t.dl, fuel);
        } else {
          EvconFuel(clauses.cdr, t.al, t.dl, fuel);
        }
      }
    }
  }

  lemma {:induction false} EvlisFuel(list: SExpr, al: AList, dl: DList, fuel: nat)
    requires Evlis(list, al, dl, fuel).result != Err(OutOfFuel)
    ensures Evlis(list, al, dl, fuel + 1) == Evlis(list, al, dl, fuel)
    decreases fuel, Size(list), 1
  {
    if !IsNil(list) && list.Pair? {
      var h := Eval(list.car, al, dl, fuel);
      EvalFuel(list.car, al, dl, fuel);
      if h.result.Ok? {
        EvlisFuel(list.cdr, h.al, h.dl, fuel);
      }
    }
  }

  lemma {:induction false} EvalCallFuel(e: SExpr, fn: string, args: SExpr, al: AList, dl: DList, fuel: nat)
    requires e == Pair(Sym(fn), args)
    requires EvalCall(e, fn, args, al, dl, fuel).result != Err(OutOfFuel)
    ensures EvalCall(e, fn, args, al, dl, fuel + 1) == EvalCall(e, fn, args, al, dl, fuel)
    decreases fuel, Size(e), 0
  {
    var vs := Evlis(args, al, dl, fuel);
    EvlisFuel(args, al, dl, fuel);
    if vs.result.Ok? {
      ApplyFuel(fn, vs.result.value, vs.al, vs.dl, fuel);
    }
  }

  lemma {:induction false} ApplyFuel(fn: string, args: SExpr, al: AList, dl: DList, fuel: nat)
    requires Apply(fn, args, al, dl, fuel).result != Err(OutOfFuel)
    ensures Apply(fn, args, al, dl, fuel + 1) == Apply(fn, args, al, dl, fuel)
    decreases fuel, 0, 1
  {
    if CheckArgs(fn, args).None? && BuiltinNamed(fn).None? {
      ApplyDefinedFuel(fn, args, al, dl, fuel);
    }
  }

  lemma {:induction false} ApplyDefinedFuel(fn: string, args: SExpr, al: AList, dl: DList, fuel: nat)
    requires ApplyDefined(fn, args, al, dl, fuel).result != Err(OutOfFuel)
    ensures ApplyDefined(fn, args, al, dl, fuel + 1) == ApplyDefined(fn, args, al, dl, fuel)
    decreases fuel, 0, 0
  {
    var found := GetFunction(dl, fn);
    if found.Some? {
      var xs := GetArgumentsAsList(args);
      if xs.Ok? {
        var bound := AddPairs(al, fn, found.value.params, xs.value);
        if bound.Ok? && fuel > 0 {
          EvalFuel(found.value.body, bound.value, dl, fuel - 1);
        }
      }
    }
  }

  /** Any amount of extra fuel leaves a completed run unchanged. */
  lemma {:induction false} EvalMoreFuel(e: SExpr, al: AList, dl: DList, fuel: nat, more: nat)
    requires fuel <= more
    requires Eval(e, al, dl, fuel).result != Err(OutOfFuel)
    ensures Eval(e, al, dl, more) == Eval(e, al, dl, fuel)
    decreases more - fuel
  {
    if fuel < more {
      EvalFuel(e, al, dl, fuel);
      EvalMoreFuel(e, al, dl, fuel + 1, more);
    }
  }
}

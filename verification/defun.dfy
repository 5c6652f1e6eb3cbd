/** A user-defined function: its name, its parameter names and its body. */
module Defuns {
  import opened Wrappers
  import opened SExpressions
  import opened Errors
  import opened Bindings

  datatype Defun = Defun(name: string, params: seq<Key>, body: SExpr)

  /** The name the source stores for a parameter element: the `name` field,
      which is null (None) for a pair. */
  function ParamName(e: SExpr): (k: Key)
    requires !e.Int?
    ensures k.Some? <==> e.Sym?
    ensures e.Sym? ==> k == Some(e.name)
  {
    if e.Sym? then Some(e.name) else None
  }

  /** `getParamsAsList`: one name per element, NIL included. An integer
      element is an error as soon as the walk reaches it; a chain ending in
      an atom other than NIL dereferences the atom's null car. */
  function GetParamsAsList(params: SExpr): (r: Result<seq<Key>, Error>)
    ensures r.Ok? ==> |r.value| == |Spine(params)|
  {
    if IsNil(params) then Ok([])
    else match params
      case Pair(a, d) =>
        if a.Int? then Err(EvalError(ParamsNotSymbolic))
        else
          var rest :- GetParamsAsList(d);
          Ok([ParamName(a)] + rest)
      case _ => Err(Crash(NullPointer))
  }

  /** The `Defun` constructor: name and body stored as given, the parameter
      list converted; a conversion error escapes the constructor. */
  function MakeDefun(name: string, params: SExpr, body: SExpr): (r: Result<Defun, Error>)
    ensures r.Ok? <==> GetParamsAsList(params).Ok?
    ensures r.Ok? ==> r.value.name == name && r.value.body == body
    ensures r.Ok? ==> r.value.params == GetParamsAsList(params).value
    ensures r.Err? ==> r.error == GetParamsAsList(params).error
  {
    var ps :- GetParamsAsList(params);
    Ok(Defun(name, ps, body))
  }

  /** The outcome of `getParamsAsList` in terms of the elements on the chain
      of cdrs and the atom ending it: an integer anywhere among the elements
      is the "must be symbolic atoms" error; otherwise an improper chain is a
      null dereference and a proper list gives one name per element, in
      order. */
  lemma {:induction false} ParamsSpec(params: SExpr)
    ensures (exists i :: 0 <= i < |Spine(params)| && Spine(params)[i].Int?)
            <==> GetParamsAsList(params) == Err(EvalError(ParamsNotSymbolic))
    ensures (forall i :: 0 <= i < |Spine(params)| ==> !Spine(params)[i].Int?) ==>
              if IsNil(Tail(params)) then
                GetParamsAsList(params).Ok? &&
                forall i :: 0 <= i < |Spine(params)| ==>
                  GetParamsAsList(params).value[i] == ParamName(Spine(params)[i])
              else GetParamsAsList(params) == Err(Crash(NullPointer))
  {
    match params
    case Pair(a, d) =>
      ParamsSpec(d);
      var sp := Spine(params);
      assert sp == [a] + Spine(d);
      if a.Int? {
        assert Spine(params)[0].Int?;
        assert exists i :: 0 <= i < |Spine(params)| && Spine(params)[i].Int?;
        assert GetParamsAsList(params) == Err(EvalError(ParamsNotSymbolic));
      } else {
        var rd := GetParamsAsList(d);
        assert GetParamsAsList(params) == (if rd.Err? then Err(rd.error) else Ok([ParamName(a)] + rd.value));
        assert forall i :: 1 <= i < |sp| ==> sp[i] == Spine(d)[i - 1];
        if exists i :: 0 <= i < |Spine(d)| && Spine(d)[i].Int? {
          var i :| 0 <= i < |Spine(d)| && Spine(d)[i].Int?;
          assert Spine(params)[i + 1].Int?;
          assert exists j :: 0 <= j < |Spine(params)| && Spine(params)[j].Int?;
          assert GetParamsAsList(params) == Err(EvalError(ParamsNotSymbolic));
        } else {
          assert forall i :: 0 <= i < |sp| ==> !sp[i].Int?;
          assert GetParamsAsList(params) != Err(EvalError(ParamsNotSymbolic));
        }
      }
    case _ =>
  }
}

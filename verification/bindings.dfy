/** The association list of the evaluator: every parameter name maps to a
    stack of values, most recent first, so that a recursive call shadows the
    caller's binding and uncovers it again on return (dynamic scope). */
module Bindings {
  import opened Wrappers
  import opened SExpressions
  import opened Errors

  /** A parameter name. A pair in a parameter list has no name, which the
      source stores as a null key; that is `None` here. */
  type Key = Option<string>

  type AList = map<Key, seq<SExpr>>

  /** The stack of a name, empty when the name has never been bound. */
  function Stack(al: AList, k: Key): seq<SExpr> {
    if k in al then al[k] else []
  }

  /** `getVal`: the value most recently bound to a symbol. A name never bound
      is an "Unbound atom" error; a name whose stack has been emptied again
      makes the source read index 0 of an empty list. */
  function GetVal(al: AList, name: string): (r: Result<SExpr, Error>)
    ensures r.Ok? <==> Stack(al, Some(name)) != []
    ensures r.Ok? ==> r.value == Stack(al, Some(name))[0]
    ensures Some(name) !in al ==> r == Err(EvalError(UnboundAtom(name)))
    ensures Some(name) in al && al[Some(name)] == [] ==> r == Err(Crash(IndexOutOfBounds))
  {
    if Some(name) in al then
      var stack := al[Some(name)];
      if stack == [] then Err(Crash(IndexOutOfBounds)) else Ok(stack[0])
    else Err(EvalError(UnboundAtom(name)))
  }

  /** The elements of a sequence that are not NIL, in order. */
  function WithoutNil(xs: seq<SExpr>): seq<SExpr> {
    if xs == [] then []
    else if IsNil(xs[0]) then WithoutNil(xs[1..])
    else [xs[0]] + WithoutNil(xs[1..])
  }

  /** `getArgumentsAsList`: walk the list and collect its elements, skipping
      every NIL element. A chain ending in an atom other than NIL makes the
      source call a method on the null car of that atom. */
  function GetArgumentsAsList(args: SExpr): (r: Result<seq<SExpr>, Error>)
    ensures r.Err? ==> r.error == Crash(NullPointer)
  {
    if IsNil(args) then Ok([])
    else match args
      case Pair(a, d) =>
        var rest :- GetArgumentsAsList(d);
        Ok(if IsNil(a) then rest else [a] + rest)
      case _ => Err(Crash(NullPointer))
  }

  /** The values a run of pushes puts on top of the stack of `k`: the
      arguments of the positions holding `k`, the last position first. */
  function Pushed(ps: seq<Key>, args: seq<SExpr>, k: Key): seq<SExpr>
    requires |ps| == |args|
  {
    if ps == [] then []
    else
      var n := |ps| - 1;
      (if ps[n] == k then [args[n]] else []) + Pushed(ps[..n], args[..n], k)
  }

  /** The `for` loop of `addPairs`: push `args[i]` onto the stack of `ps[i]`,
      for `i` from 0 up. */
  function Push(al: AList, ps: seq<Key>, args: seq<SExpr>): AList
    requires |ps| == |args|
    decreases |ps|
  {
    if ps == [] then al
    else Push(al[ps[0] := [args[0]] + Stack(al, ps[0])], ps[1..], args[1..])
  }

  /** `addPairs`: a count mismatch raises an error and binds nothing;
      otherwise every parameter gets its argument pushed, so each stack
      carries its name's arguments, last position first, over what it held,
      and the names bound are the old ones and the parameters. */
  function AddPairs(al: AList, fn: string, ps: seq<Key>, args: seq<SExpr>): (r: Result<AList, Error>)
    ensures |ps| != |args| <==> r.Err?
    ensures r.Err? ==> r.error == EvalError(ArityMismatch(fn, |ps|, |args|))
    ensures r.Ok? ==> forall k :: Stack(r.value, k) == Pushed(ps, args, k) + Stack(al, k)
    ensures r.Ok? ==> forall k :: k in r.value <==> k in al || k in ps
  {
    if |ps| != |args| then Err(EvalError(ArityMismatch(fn, |ps|, |args|)))
    else
      PushStackAll(al, ps, args);
      Ok(Push(al, ps, args))
  }

  /** `destroyPairs`: pop the front of the stack of each parameter in turn. A
      name with no stack is a null dereference; an empty stack is an index
      error. */
  function DestroyPairs(al: AList, ps: seq<Key>): (r: Result<AList, Error>)
    ensures r.Ok? ==> r.value.Keys == al.Keys
  {
    if ps == [] then Ok(al)
    else if ps[0] !in al then Err(Crash(NullPointer))
    else if al[ps[0]] == [] then Err(Crash(IndexOutOfBounds))
    else DestroyPairs(al[ps[0] := al[ps[0]][1..]], ps[1..])
  }

  /** The AList a completed call leaves behind: every stack as before the call,
      and every name first bound by the call left with an empty stack. */
  predicate Restores(before: AList, after: AList) {
    && before.Keys <= after.Keys
    && (forall k :: k in before ==> after[k] == before[k])
    && (forall k :: k in after && k !in before ==> after[k] == [])
  }

  /** Two steps that each restore compose to one that restores. */
  lemma RestoresChain(a: AList, b: AList, c: AList)
    ensures Restores(a, b) && Restores(b, c) ==> Restores(a, c)
  {
  }

  /** Splitting the last push off a run of pushes. */
  lemma {:induction false} PushLast(al: AList, ps: seq<Key>, args: seq<SExpr>)
    requires |ps| == |args| && ps != []
    ensures var n := |ps| - 1;
      Push(al, ps, args) == Push(al, ps[..n], args[..n])[ps[n] := [args[n]] + Stack(Push(al, ps[..n], args[..n]), ps[n])]
    decreases |ps|
  {
    var n := |ps| - 1;
    if n > 0 {
      var al' := al[ps[0] := [args[0]] + Stack(al, ps[0])];
      PushLast(al', ps[1..], args[1..]);
      assert ps[1..][..n - 1] == ps[..n][1..];
      assert args[1..][..n - 1] == args[..n][1..];
      assert ps[1..][n - 1] == ps[n];
      assert args[1..][n - 1] == args[n];
    }
  }

  /** One push: only the pushed name's stack changes, and it gains the value
      on top. */
  lemma PushOne(al: AList, key: Key, x: SExpr, k: Key)
    ensures Stack(al[key := [x] + Stack(al, key)], k) == (if key == k then [x] else []) + Stack(al, k)
    ensures k in al[key := [x] + Stack(al, key)] <==> k in al || k == key
  {
  }

  /** The names bound after a run of pushes: those bound before and the
      parameters. */
  lemma {:induction false} PushKeys(al: AList, ps: seq<Key>, args: seq<SExpr>, k: Key)
    requires |ps| == |args|
    ensures k in Push(al, ps, args) <==> k in al || k in ps
    decreases |ps|
  {
    if ps != [] {
      var n := |ps| - 1;
      var ps', args' := ps[..n], args[..n];
      var prev := Push(al, ps', args');
      PushLast(al, ps, args);
      PushKeys(al, ps', args', k);
      PushOne(prev, ps[n], args[n], k);
      assert ps == ps' + [ps[n]];
    }
  }

  /** The stack of one name after a run of pushes. */
  lemma {:induction false} PushValues(al: AList, ps: seq<Key>, args: seq<SExpr>, k: Key)
    requires |ps| == |args|
    ensures Stack(Push(al, ps, args), k) == Pushed(ps, args, k) + Stack(al, k)
    decreases |ps|
  {
    if ps != [] {
      var n := |ps| - 1;
      var ps', args' := ps[..n], args[..n];
      var prev := Push(al, ps', args');
      var top := if ps[n] == k then [args[n]] else [];
      calc {
        Stack(Push(al, ps, args), k);
        { PushLast(al, ps, args); }
        Stack(prev[ps[n] := [args[n]] + Stack(prev, ps[n])], k);
        { PushOne(prev, ps[n], args[n], k); }
        top + Stack(prev, k);
        { PushValues(al, ps', args', k); }
        top + (Pushed(ps', args', k) + Stack(al, k));
        (top + Pushed(ps', args', k)) + Stack(al, k);
        Pushed(ps, args, k) + Stack(al, k);
      }
    }
  }

  /** What `addPairs` leaves for one name: the values pushed onto it, last
      push first, over its old stack; a name is bound afterwards exactly when
      it was bound before or is a parameter. */
  lemma {:induction false} PushStack(al: AList, ps: seq<Key>, args: seq<SExpr>, k: Key)
    requires |ps| == |args|
    ensures Stack(Push(al, ps, args), k) == Pushed(ps, args, k) + Stack(al, k)
    ensures k in Push(al, ps, args) <==> k in al || k in ps
  {
    PushValues(al, ps, args, k);
    PushKeys(al, ps, args, k);
  }
  /** `PushStack` for every name at once. */
  lemma PushStackAll(al: AList, ps: seq<Key>, args: seq<SExpr>)
    requires |ps| == |args|
    ensures forall k :: Stack(Push(al, ps, args), k) == Pushed(ps, args, k) + Stack(al, k)
    ensures forall k :: k in Push(al, ps, args) <==> k in al || k in ps
  {
    forall k {
      PushStack(al, ps, args, k);
    }
  }


  /** Each name receives one value per position that holds it. */
  lemma {:induction false} PushedCount(ps: seq<Key>, args: seq<SExpr>, k: Key)
    requires |ps| == |args|
    ensures |Pushed(ps, args, k)| == multiset(ps)[k]
    decreases |ps|
  {
    if ps != [] {
      var n := |ps| - 1;
      PushedCount(ps[..n], args[..n], k);
      assert ps == ps[..n] + [ps[n]];
    }
  }

  /** The front of a parameter's stack after `addPairs` is the argument of
      the last position holding that parameter. */
  lemma GetValAfterPush(al: AList, ps: seq<Key>, args: seq<SExpr>, name: string)
    requires |ps| == |args| && ps != [] && ps[|ps| - 1] == Some(name)
    ensures GetVal(Push(al, ps, args), name) == Ok(args[|args| - 1])
  {
    PushStack(al, ps, args, Some(name));
  }

  /** A name that is not a parameter reads as before the call. */
  lemma GetValOtherName(al: AList, ps: seq<Key>, args: seq<SExpr>, name: string)
    requires |ps| == |args| && Some(name) !in ps
    ensures GetVal(Push(al, ps, args), name) == GetVal(al, name)
  {
    PushStack(al, ps, args, Some(name));
    PushedCount(ps, args, Some(name));
    assert multiset(ps)[Some(name)] == 0;
  }

  /** What `destroyPairs` leaves when every stack it pops is deep enough: each
      name loses as many values as it occurs among the parameters, the rest
      are untouched. */
  lemma {:induction false} DestroySpec(al: AList, ps: seq<Key>)
    requires forall k :: k in multiset(ps) ==> k in al && |al[k]| >= multiset(ps)[k]
    ensures DestroyPairs(al, ps).Ok?
    ensures forall k :: k in al ==> DestroyPairs(al, ps).value[k] == al[k][multiset(ps)[k]..]
    decreases |ps|
  {
    if ps != [] {
      var k0, rest := ps[0], ps[1..];
      assert ps == [k0] + rest;
      assert multiset(ps) == multiset{k0} + multiset(rest);
      assert k0 in al && al[k0] != [] by {
        assert k0 in multiset(ps);
      }
      var al' := al[k0 := al[k0][1..]];
      assert DestroyPairs(al, ps) == DestroyPairs(al', rest);
      forall k | k in multiset(rest)
        ensures k in al' && |al'[k]| >= multiset(rest)[k]
      {
        assert k in multiset(ps);
      }
      DestroySpec(al', rest);
      forall k | k in al
        ensures DestroyPairs(al', rest).value[k] == al[k][multiset(ps)[k]..]
      {
        assert k in al';
        if k == k0 {
          assert al'[k] == al[k][1..] && multiset(ps)[k] == multiset(rest)[k] + 1;
          assert al[k][1..][multiset(rest)[k]..] == al[k][multiset(ps)[k]..];
        } else {
          assert al'[k] == al[k] && multiset(ps)[k] == multiset(rest)[k];
        }
      }
    }
  }

  /** A call's unbinding undoes its binding: after `addPairs` and a body that
      leaves the AList as it found it, `destroyPairs` brings every stack back
      to what it was before the call, duplicate parameters included. */
  lemma PopAfterPush(al: AList, ps: seq<Key>, args: seq<SExpr>, body: AList)
    requires |ps| == |args| && Restores(Push(al, ps, args), body)
    ensures DestroyPairs(body, ps).Ok?
    ensures Restores(al, DestroyPairs(body, ps).value)
  {
    var pushed := Push(al, ps, args);
    forall k | k in multiset(ps)
      ensures k in body && |body[k]| >= multiset(ps)[k]
    {
      PushStack(al, ps, args, k);
      PushedCount(ps, args, k);
    }
    DestroySpec(body, ps);
    var after := DestroyPairs(body, ps).value;
    forall k | k in al
      ensures k in after
    {
      PushStack(al, ps, args, k);
    }
    forall k | k in al
      ensures after[k] == al[k]
    {
      PushStack(al, ps, args, k);
      PushedCount(ps, args, k);
    }
    forall k | k in after && k !in al
      ensures after[k] == []
    {
      PushStack(al, ps, args, k);
      PushedCount(ps, args, k);
    }
  }

  /** `getArgumentsAsList` on a proper list is its elements without the NILs;
      on any other chain it fails. */
  lemma {:induction false} ArgumentsOfList(args: SExpr)
    ensures ListElems(args).Some? <==> GetArgumentsAsList(args).Ok?
    ensures ListElems(args).Some? ==> GetArgumentsAsList(args).value == WithoutNil(ListElems(args).value)
  {
    if !IsNil(args) {
      match args
      case Pair(a, d) =>
        ArgumentsOfList(d);
        if ListElems(d).Some? {
          var xs := ListElems(d).value;
          assert ListElems(args).value == [a] + xs;
          assert ([a] + xs)[1..] == xs;
        }
      case _ =>
    }
  }

  /** The NIL-free elements are exactly the elements that are not NIL, in
      their original order. */
  lemma {:induction false} WithoutNilSpec(xs: seq<SExpr>)
    ensures forall x :: x in WithoutNil(xs) <==> x in xs && !IsNil(x)
    ensures |WithoutNil(xs)| <= |xs|
    ensures (forall i :: 0 <= i < |xs| ==> !IsNil(xs[i])) ==> WithoutNil(xs) == xs
    decreases |xs|
  {
    if xs != [] {
      WithoutNilSpec(xs[1..]);
      assert xs == [xs[0]] + xs[1..];
    }
  }
}

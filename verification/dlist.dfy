/** The function table: user definitions by name. It outlives each top-level
    expression, so the evaluator threads it through every call. */
module FunctionTable {
  import opened Wrappers
  import opened Defuns

  type DList = map<string, Defun>

  /** `getFunction`: the definition under `name`, or null (None). */
  function GetFunction(dl: DList, name: string): (r: Option<Defun>)
    ensures r.Some? <==> name in dl
    ensures r.Some? ==> r.value == dl[name]
  {
    if name in dl then Some(dl[name]) else None
  }

  /** `addFunction`: store `d` under `name`, replacing any earlier entry. */
  function AddFunction(dl: DList, name: string, d: Defun): (r: DList)
    ensures GetFunction(r, name) == Some(d)
    ensures forall n :: n != name ==> GetFunction(r, n) == GetFunction(dl, n)
    ensures r.Keys == dl.Keys + {name}
  {
    dl[name := d]
  }

  /** A later definition under the same name replaces the earlier one. */
  lemma AddOverwrites(dl: DList, name: string, d1: Defun, d2: Defun)
    ensures AddFunction(AddFunction(dl, name, d1), name, d2) == AddFunction(dl, name, d2)
  {
  }

  /** The table a sequence of definitions builds, in order. */
  function AddAll(dl: DList, defs: seq<(string, Defun)>): DList
    decreases |defs|
  {
    if defs == [] then dl
    else AddAll(AddFunction(dl, defs[0].0, defs[0].1), defs[1..])
  }

  /** A name no definition in the sequence uses reads as before. */
  lemma {:induction false} AddAllOthers(dl: DList, defs: seq<(string, Defun)>, name: string)
    requires forall i :: 0 <= i < |defs| ==> defs[i].0 != name
    ensures GetFunction(AddAll(dl, defs), name) == GetFunction(dl, name)
    decreases |defs|
  {
    if defs != [] {
      assert defs[0].0 != name;
      assert forall j :: 0 <= j < |defs| - 1 ==> defs[1..][j] == defs[j + 1];
      AddAllOthers(AddFunction(dl, defs[0].0, defs[0].1), defs[1..], name);
    }
  }

  /** A defined name reads as its last definition in the sequence. */
  lemma {:induction false} AddAllLast(dl: DList, defs: seq<(string, Defun)>, name: string, i: nat)
    requires i < |defs| && defs[i].0 == name
    requires forall j :: i < j < |defs| ==> defs[j].0 != name
    ensures GetFunction(AddAll(dl, defs), name) == Some(defs[i].1)
    decreases |defs|
  {
    var dl' := AddFunction(dl, defs[0].0, defs[0].1);
    assert forall j :: 0 <= j < |defs| - 1 ==> defs[1..][j] == defs[j + 1];
    if i > 0 {
      AddAllLast(dl', defs[1..], name, i - 1);
    } else {
      AddAllOthers(dl', defs[1..], name);
    }
  }

  /** A table no definition has reached answers null for every name. */
  lemma NeverAdded(defs: seq<(string, Defun)>, name: string)
    requires forall i :: 0 <= i < |defs| ==> defs[i].0 != name
    ensures GetFunction(AddAll(map[], defs), name) == None
  {
    AddAllOthers(map[], defs, name);
  }
}

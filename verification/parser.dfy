/** The recursive-descent parser: `parseCar` and `parseCdr` over the tokenizer,
    and `parse` on a whole input buffer. */
module Parsing {
  import opened Wrappers
  import opened SExpressions
  import opened Symbols
  import opened Errors
  import opened Tokenizers
  import opened Lexing

  /** Every symbol occurring in a tree. */
  function SymbolsOf(e: SExpr): set<string> {
    match e
    case Int(_) => {}
    case Sym(n) => {n}
    case Pair(a, d) => SymbolsOf(a) + SymbolsOf(d)
  }

  /** The frame every parsing step keeps: same tokens, a valid cursor that
      never moves back, a table that only grows, and the parsed tree's symbols
      all interned. */
  ghost predicate Keeps(tk: Tokenizer, table: Table, r: Scan) {
    && r.tk.Valid() && r.tk.tokens == tk.tokens && r.tk.current >= tk.current
    && table <= r.table
    && (r.result.Ok? ==> SymbolsOf(r.result.value) <= r.table)
  }

  /** The element in car position: a list opened by `(`, an empty list closing
      an enclosing one, or an atom. A successful call always consumes at least
      one token, which is what makes the recursion terminate. */
  function ParseCar(tk: Tokenizer, table: Table, seenLeftBrace: bool): (r: Scan)
    requires tk.Valid()
    ensures Keeps(tk, table, r)
    ensures r.result.Ok? ==> r.tk.current > tk.current
    decreases |tk.tokens| - tk.current, 0
  {
    if !tk.HasMoreTokens() then Fail(tk, table)
    else if tk.IsLeftBrace() then
      var tk1 := tk.(countBrace := tk.countBrace + 1).SkipToken();
      if !tk1.HasMoreTokens() then
        // the source tests the next token without checking that one exists
        Scan(Err(Crash(IndexOutOfBounds)), tk1, table)
      else if tk1.IsRightBrace() then
        var (nil, table') := GetFromTable(table, "NIL");
        Scan(Ok(nil), tk1.SkipToken(), table')
      else
        var car := ParseCar(tk1, table, true);
        if car.result.Err? then car
        else if car.tk.HasMoreTokens() then
          var cdr := ParseCdr(car.tk, car.table, true);
          if cdr.result.Err? then cdr
          else Scan(Ok(Pair(car.result.value, cdr.result.value)), cdr.tk, cdr.table)
        else car
    else if tk.IsRightBrace() then
      var tk1 := tk.(countBrace := tk.countBrace - 1);
      if seenLeftBrace then
        var (nil, table') := GetFromTable(table, "NIL");
        Scan(Ok(nil), tk1.SkipToken(), table')
      else Fail(tk1, table)
    else if tk.IsIdentifier() then GetIdentifier(tk, table)
    else if tk.IsInteger() then GetInteger(tk, table)
    else Fail(tk, table)
  }

  /** The rest of a list after an element: `)` ends it, `. x )` makes `x` the
      rest directly, and anything else is one more element followed by the rest. */
  function ParseCdr(tk: Tokenizer, table: Table, seenLeftBrace: bool): (r: Scan)
    requires tk.Valid()
    ensures Keeps(tk, table, r)
    ensures r.result.Ok? ==> r.tk.current > tk.current
    decreases |tk.tokens| - tk.current, 1
  {
    if !tk.HasMoreTokens() then Fail(tk, table)
    else if tk.IsRightBrace() then
      var (nil, table') := GetFromTable(table, "NIL");
      Scan(Ok(nil), tk.SkipToken().(countBrace := tk.countBrace - 1), table')
    else if tk.IsDot() then
      if seenLeftBrace then
        var cdr := ParseCar(tk.SkipToken(), table, false);
        if cdr.result.Err? then cdr
        else if cdr.tk.HasMoreTokens() && cdr.tk.IsRightBrace() then
          Scan(cdr.result, cdr.tk.SkipToken().(countBrace := cdr.tk.countBrace - 1), cdr.table)
        else Fail(cdr.tk, cdr.table)
      else Fail(tk, table)
    else
      var car := ParseCar(tk, table, false);
      if car.result.Err? then car
      else
        var cdr := ParseCdr(car.tk, car.table, false);
        if cdr.result.Err? then cdr
        else Scan(Ok(Pair(car.result.value, cdr.result.value)), cdr.tk, cdr.table)
  }

  /** `parse`: an empty buffer is a Parse error; otherwise one car-position
      expression that must use up every token. */
  function Parse(input: string, table: Table): (r: Scan)
    ensures input == [] ==> r.result == Err(ParseError(EmptyExpression))
    ensures table <= r.table
    ensures r.result.Ok? ==> input != [] && r.tk.tokens == Tokenize(input)
    ensures r.result.Ok? ==> !r.tk.HasMoreTokens() && r.tk.current == |r.tk.tokens|
    ensures r.result.Ok? ==> SymbolsOf(r.result.value) <= r.table
  {
    if input == [] then Scan(Err(ParseError(EmptyExpression)), New(input), table)
    else
      var tk := New(input);
      var s := ParseCar(tk, table, false);
      if s.result.Err? then s
      else if s.tk.HasMoreTokens() then Fail(s.tk, s.table)
      else s
  }
}

/** Edge cases of the parser: empty lists, braces and dots in the wrong place,
    a list left open, and the dotted tail after a second element. */
module ParserProperties {
  import opened Wrappers
  import opened SExpressions
  import opened Symbols
  import opened Errors
  import opened Tokenizers
  import opened Parsing
  import opened RoundTrip

  /** `( )` in car position is NIL and consumes both braces. */
  lemma EmptyListIsNil(tk: Tokenizer, table: Table, seen: bool)
    requires tk.Valid() && tk.current + 1 < |tk.tokens|
    requires IsSingle(tk.tokens[tk.current], '(') && IsSingle(tk.tokens[tk.current + 1], ')')
    ensures ParseCar(tk, table, seen).result == Ok(NIL)
    ensures ParseCar(tk, table, seen).tk.current == tk.current + 2
  {
  }

  /** `(` as the very last token: the source reads the token after it
      without checking that one exists. */
  lemma OpenAtEnd(tk: Tokenizer, table: Table, seen: bool)
    requires tk.Valid() && tk.current + 1 == |tk.tokens| && IsSingle(tk.tokens[tk.current], '(')
    ensures ParseCar(tk, table, seen).result == Err(Crash(IndexOutOfBounds))
  {
  }

  /** `)` reached in car position with no list open is the "extra right
      brace" Parse error, and the cursor stays on it. */
  lemma StrayRightBrace(tk: Tokenizer, table: Table)
    requires tk.Valid() && tk.HasMoreTokens() && IsSingle(tk.tokens[tk.current], ')')
    ensures ParseCar(tk, table, false).result == Err(ParseError(UnexpectedRightBrace))
    ensures ParseCar(tk, table, false).tk.current == tk.current
  {
  }

  /** Inside a list `)` in car position closes it as NIL. */
  lemma RightBraceInList(tk: Tokenizer, table: Table)
    requires tk.Valid() && tk.HasMoreTokens() && IsSingle(tk.tokens[tk.current], ')')
    ensures ParseCar(tk, table, true).result == Ok(NIL)
    ensures ParseCar(tk, table, true).tk.current == tk.current + 1
  {
  }

  /** A dot is legal in cdr position only right after a list's first element. */
  lemma DotNeedsBraceFlag(tk: Tokenizer, table: Table)
    requires tk.Valid() && tk.HasMoreTokens() && IsSingle(tk.tokens[tk.current], '.')
    ensures ParseCdr(tk, table, false).result == Err(ParseError(UnexpectedDot))
    ensures ParseCdr(tk, table, false).tk.current == tk.current
  {
  }

  /** A dot is never legal in car position. */
  lemma DotInCarPosition(tk: Tokenizer, table: Table, seen: bool)
    requires tk.Valid() && tk.HasMoreTokens() && IsSingle(tk.tokens[tk.current], '.')
    ensures ParseCar(tk, table, seen).result == Err(ParseError(UnexpectedDot))
  {
  }

  /** `(x` with nothing after it: `parseCar` hands back `x` itself. */
  lemma UnclosedSingle(e: SExpr, tk: Tokenizer, table: Table, seen: bool)
    requires Readable(e) && tk.Valid() && tk.current + 1 + |DisplayTokens(e)| == |tk.tokens|
    requires IsSingle(tk.tokens[tk.current], '(') && At(tk.tokens, tk.current + 1, DisplayTokens(e))
    ensures ParseCar(tk, table, seen).result == Ok(e)
    ensures !ParseCar(tk, table, seen).tk.HasMoreTokens()
  {
    var tk1 := tk.(countBrace := tk.countBrace + 1).SkipToken();
    assert ParseCar(tk1, table, true).result == Ok(e) && !ParseCar(tk1, table, true).tk.HasMoreTokens() by {
      AtMoved(tk.tokens, tk.current + 1, DisplayTokens(e), tk1);
      ParseCarDisplay(e, tk1, table, true);
    }
    assert tk1.HasMoreTokens() && !tk1.IsRightBrace() by {
      TokenAt(tk1, tk.tokens, tk.current + 1);
      FirstDisplayToken(e);
    }
    OpenThenEnd(tk, table, seen);
  }

  /** `parseCar` on `(` whose first element uses up the tokens: that element
      is the result. */
  lemma OpenThenEnd(tk: Tokenizer, table: Table, seen: bool)
    requires tk.Valid() && tk.HasMoreTokens() && tk.IsLeftBrace()
    requires var tk1 := tk.(countBrace := tk.countBrace + 1).SkipToken();
      tk1.HasMoreTokens() && !tk1.IsRightBrace()
    ensures var car := ParseCar(tk.(countBrace := tk.countBrace + 1).SkipToken(), table, true);
      car.result.Ok? && !car.tk.HasMoreTokens() ==> ParseCar(tk, table, seen) == car
  {
  }

  /** `parseCdr` after an element whose next element parses and is followed
      by a failing rest: the failure is the result. */
  lemma NextStepFails(tk: Tokenizer, table: Table, seen: bool)
    requires tk.Valid() && tk.HasMoreTokens() && !tk.IsRightBrace() && !tk.IsDot()
    ensures var car := ParseCar(tk, table, false);
      car.result.Ok? ==>
        var cdr := ParseCdr(car.tk, car.table, false);
        cdr.result.Err? ==> ParseCdr(tk, table, seen) == cdr
  {
  }

  /** `parseCar` on `(` whose first element parses and whose rest fails:
      the failure is the result. */
  lemma OpenStepFails(tk: Tokenizer, table: Table, seen: bool)
    requires tk.Valid() && tk.HasMoreTokens() && tk.IsLeftBrace()
    requires var tk1 := tk.(countBrace := tk.countBrace + 1).SkipToken();
      tk1.HasMoreTokens() && !tk1.IsRightBrace()
    ensures var car := ParseCar(tk.(countBrace := tk.countBrace + 1).SkipToken(), table, true);
      car.result.Ok? && car.tk.HasMoreTokens() ==>
        var cdr := ParseCdr(car.tk, car.table, true);
        cdr.result.Err? ==> ParseCar(tk, table, seen) == cdr
  {
  }

  /** `(x y . z)`: the dot after the second element is rejected, because the
      brace flag is passed on as false after the first element. */
  lemma DotAfterSecondElement(a: SExpr, b: SExpr, tk: Tokenizer, table: Table, seen: bool, c2: nat, m: nat)
    requires Readable(a) && Readable(b) && tk.Valid()
    requires c2 == tk.current + 1 + |DisplayTokens(a)| && m == c2 + |DisplayTokens(b)| && m < |tk.tokens|
    requires IsSingle(tk.tokens[tk.current], '(')
    requires At(tk.tokens, tk.current + 1, DisplayTokens(a)) && At(tk.tokens, c2, DisplayTokens(b))
    requires IsSingle(tk.tokens[m], '.')
    ensures ParseCar(tk, table, seen).result == Err(ParseError(UnexpectedDot))
  {
    var tk1 := tk.(countBrace := tk.countBrace + 1).SkipToken();
    TwoThenDot(a, b, tk1, table, tk.tokens, tk.current + 1, c2, m);
    assert tk1.Token() == DisplayTokens(a)[0] by {
      TokenAt(tk1, tk.tokens, tk.current + 1);
    }
    FirstDisplayToken(a);
    OpenStepFails(tk, table, seen);
  }

  /** Just inside `(`: the first element at `c`, the second at `c2`, a dot at `m`. */
  lemma TwoThenDot(a: SExpr, b: SExpr, tk: Tokenizer, table: Table, s: seq<string>, c: nat, c2: nat, m: nat)
    requires Readable(a) && Readable(b) && tk.Valid() && tk.tokens == s && tk.current == c
    requires c2 == c + |DisplayTokens(a)| && m == c2 + |DisplayTokens(b)| && m < |s|
    requires At(s, c, DisplayTokens(a)) && At(s, c2, DisplayTokens(b)) && IsSingle(s[m], '.')
    ensures ParseCar(tk, table, true).result == Ok(a)
    ensures ParseCar(tk, table, true).tk.HasMoreTokens()
    ensures ParseCdr(ParseCar(tk, table, true).tk, ParseCar(tk, table, true).table, true).result
      == Err(ParseError(UnexpectedDot))
  {
    ParseCarDisplay(a, tk, table, true);
    var car := ParseCar(tk, table, true);
    TokenAt(car.tk, s, c2);
    SecondThenDot(b, car.tk, car.table, s, c2, m);
  }

  /** The second element at `c`, then a dot at `m`: `parseCdr` fails there. */
  lemma {:induction false} SecondThenDot(b: SExpr, tk: Tokenizer, table: Table, s: seq<string>, c: nat, m: nat)
    requires Readable(b) && tk.Valid() && tk.tokens == s && tk.current == c
    requires m == c + |DisplayTokens(b)| && m < |s|
    requires At(s, c, DisplayTokens(b)) && IsSingle(s[m], '.')
    ensures ParseCdr(tk, table, true).result == Err(ParseError(UnexpectedDot))
  {
    FirstDisplayToken(b);
    TokenAt(tk, s, c);
    ParseCarDisplay(b, tk, table, false);
    var car := ParseCar(tk, table, false);
    TokenAt(car.tk, s, m);
    DotNeedsBraceFlag(car.tk, car.table);
    NextStepFails(tk, table, true);
  }

  /** Tokens left over after a complete expression make `parse` fail. */
  lemma LeftoverTokensRejected(input: string, table: Table)
    requires input != []
    requires ParseCar(New(input), table, false).result.Ok?
    requires ParseCar(New(input), table, false).tk.HasMoreTokens()
    ensures Parse(input, table).result.Err?
    ensures Parse(input, table).result.error.ParseError?
  {
  }
}

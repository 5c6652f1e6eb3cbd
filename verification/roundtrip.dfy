/** Reading back what the renderer writes: for every tree whose atoms respect
    the tokenizer's lexical classes and length limits, parsing the dotted-pair
    rendering gives the tree again. Also the list notation and the parser's
    edge cases. */
module RoundTrip {
  import opened Wrappers
  import opened SExpressions
  import opened Symbols
  import opened Errors
  import opened Lexing
  import opened Tokenizers
  import opened Parsing

  /** An atom the tokenizer reads back unchanged. */
  predicate ReadableAtom(e: SExpr) {
    match e
    case Int(v) => |IntToString(v)| <= INTEGER_LIMIT
    case Sym(n) => IsIdentifierToken(n) && |n| <= SYMBOL_LIMIT
    case Pair(_, _) => false
  }

  predicate Readable(e: SExpr) {
    match e
    case Pair(a, d) => Readable(a) && Readable(d)
    case _ => ReadableAtom(e)
  }

  /** The tokens of a rendered tree. */
  function DisplayTokens(e: SExpr): (ts: seq<string>)
    ensures |ts| >= 1
  {
    match e
    case Int(v) => [IntToString(v)]
    case Sym(n) => [n]
    case Pair(a, d) => ["("] + DisplayTokens(a) + ["."] + DisplayTokens(d) + [")"]
  }

  lemma {:induction false} DigitsOfNat(n: nat)
    ensures AllDigits(NatToString(n))
    ensures DigitsValue(NatToString(n)) == n
    decreases n
  {
    var s := NatToString(n);
    if n >= 10 {
      DigitsOfNat(n / 10);
      assert s[..|s| - 1] == NatToString(n / 10);
    }
  }

  /** The digits of a natural number: a whitespace-free, delimiter-free
      token of digits that reads back as the number. */
  lemma NatText(n: nat)
    ensures var t := NatToString(n);
      NoSpace(t) && NoDelimiter(t) && AllDigits(t) && t[0] != '+' && t[0] != '-' && DigitsValue(t) == n
  {
    DigitsOfNat(n);
  }

  /** The text of an integer atom is one token of the integer class that
      reads back as the integer. */
  lemma IntText(v: int)
    ensures var s := IntToString(v);
      NoSpace(s) && NoDelimiter(s) && IsIntegerToken(s) && !IsIdentifierToken(s) && ParseInt(s) == v
  {
    var s := IntToString(v);
    if v < 0 {
      var t := NatToString(-v);
      NatText(-v);
      assert s == ['-'] + t && s[1..] == t;
      assert NoSpace(s) && NoDelimiter(s) by {
        forall i | 0 <= i < |s|
          ensures !IsSpace(s[i]) && !IsDelimiter(s[i])
        {
          if i > 0 {
            assert s[i] == t[i - 1];
          }
        }
      }
    } else {
      NatText(v);
    }
  }

  /** The text of a readable atom is one whitespace-free, delimiter-free token. */
  lemma AtomText(e: SExpr)
    requires ReadableAtom(e)
    ensures |Display(e)| >= 1 && NoSpace(Display(e)) && NoDelimiter(Display(e))
    ensures DisplayTokens(e) == [Display(e)]
  {
    if e.Int? {
      IntText(e.val);
    }
  }

  lemma PadLiterals()
    ensures Pad("(") == " ( "
    ensures Pad(")") == " ) "
    ensures Pad(" . ") == "  .  "
  {
    assert " . " == [' '] + ". ";
    assert ". " == ['.'] + " ";
  }

  function PaddedPair(pa: string, pd: string): string {
    " ( " + pa + "  .  " + pd + " ) "
  }

  lemma PadDisplayPair(a: SExpr, d: SExpr)
    ensures Pad(Display(Pair(a, d))) == PaddedPair(Pad(Display(a)), Pad(Display(d)))
  {
    PadLiterals();
    PadConcat("(" + Display(a) + " . " + Display(d), ")");
    PadConcat("(" + Display(a) + " . ", Display(d));
    PadConcat("(" + Display(a), " . ");
    PadConcat("(", Display(a));
  }

  lemma WordsSpaceFirst(y: string)
    ensures Words([' '] + y) == Words(y)
  {
    WordsJoin([], ' ', y);
    assert [] + [' '] + y == [' '] + y;
  }

  lemma WordsDelimiterFirst(c: char, y: string)
    requires !IsSpace(c)
    ensures Words([c, ' '] + y) == [[c]] + Words(y)
  {
    WordsJoin([c], ' ', y);
    assert [c] + [' '] + y == [c, ' '] + y;
    WordsOfWord([c]);
  }

  lemma PaddedPairShape(pa: string, pd: string)
    ensures PaddedPair(pa, pd) ==
      [' '] + (['(', ' '] + (pa + [' '] + ([' '] + (['.', ' '] + ([' '] + (pd + [' '] + ([')', ' '] + [])))))))
  {
  }

  lemma WordsOfPaddedPair(pa: string, pd: string)
    ensures Words(PaddedPair(pa, pd)) == ["("] + Words(pa) + ["."] + Words(pd) + [")"]
  {
    var r4 := ['.', ' '] + ([' '] + (pd + [' '] + ([')', ' '] + [])));
    var r3 := [' '] + r4;
    var r2 := pa + [' '] + r3;
    var r1 := ['(', ' '] + r2;
    PaddedPairShape(pa, pd);
    WordsSpaceFirst(r1);
    WordsDelimiterFirst('(', r2);
    WordsJoin(pa, ' ', r3);
    WordsSpaceFirst(r4);
    WordsOfDotTail(pd);
  }

  /** The words of the rendered ` . d )` part of a pair. */
  lemma WordsOfDotTail(pd: string)
    ensures Words(['.', ' '] + ([' '] + (pd + [' '] + ([')', ' '] + [])))) == ["."] + Words(pd) + [")"]
  {
    var r7 := [')', ' '] + [];
    var r6 := pd + [' '] + r7;
    var r5 := [' '] + r6;
    WordsDelimiterFirst('.', r5);
    WordsSpaceFirst(r6);
    WordsJoin(pd, ' ', r7);
    WordsDelimiterFirst(')', []);
  }

  /** Rendering then cutting into tokens gives the tree's tokens. */
  lemma {:induction false} WordsOfDisplay(e: SExpr)
    requires Readable(e)
    ensures Words(Pad(Display(e))) == DisplayTokens(e)
  {
    match e
    case Pair(a, d) =>
      WordsOfDisplay(a);
      WordsOfDisplay(d);
      PadDisplayPair(a, d);
      WordsOfPaddedPair(Pad(Display(a)), Pad(Display(d)));
    case _ =>
      AtomText(e);
      PadNoDelimiter(Display(e));
      WordsOfWord(Display(e));
  }

  lemma TokenizeDisplay(e: SExpr)
    requires Readable(e)
    ensures Display(e) != []
    ensures Tokenize(Display(e)) == DisplayTokens(e)
  {
    WordsOfDisplay(e);
    if !e.Pair? {
      AtomText(e);
    }
  }

  lemma FirstDisplayToken(e: SExpr)
    requires Readable(e)
    ensures !IsSingle(DisplayTokens(e)[0], ')') && !IsSingle(DisplayTokens(e)[0], '.')
  {
    if !e.Pair? {
      AtomText(e);
    }
  }

  /** The token sequence `s` holds the tokens `w` from position `c` on. */
  predicate At(s: seq<string>, c: nat, w: seq<string>)
    decreases w
  {
    if w == [] then c <= |s| else c < |s| && s[c] == w[0] && At(s, c + 1, w[1..])
  }

  lemma {:induction false} AtConcat(s: seq<string>, c: nat, x: seq<string>, y: seq<string>)
    ensures At(s, c, x + y) <==> At(s, c, x) && At(s, c + |x|, y)
    decreases x
  {
    if x == [] {
      assert x + y == y;
      AtBound(s, c, y);
    } else {
      assert (x + y)[1..] == x[1..] + y;
      AtConcat(s, c + 1, x[1..], y);
    }
  }

  lemma {:induction false} AtBound(s: seq<string>, c: nat, w: seq<string>)
    ensures At(s, c, w) ==> c + |w| <= |s|
    decreases w
  {
    if w != [] {
      AtBound(s, c + 1, w[1..]);
    }
  }

  lemma {:induction false} AtSuffix(s: seq<string>, c: nat)
    requires c <= |s|
    ensures At(s, c, s[c..])
    decreases |s| - c
  {
    if c < |s| {
      assert s[c..][1..] == s[c + 1..];
      AtSuffix(s, c + 1);
    }
  }

  /** The tokens of `( x . y )` found at position `c` of a token sequence. */
  lemma PairWindow(s: seq<string>, c: nat, ta: seq<string>, td: seq<string>)
    requires At(s, c, ["("] + ta + ["."] + td + [")"])
    ensures c + 1 + |ta| + 1 + |td| < |s|
    ensures IsSingle(s[c], '(') && IsSingle(s[c + 1 + |ta|], '.') && IsSingle(s[c + 1 + |ta| + 1 + |td|], ')')
    ensures At(s, c + 1, ta) && At(s, c + 1 + |ta| + 1, td)
  {
    AtConcat(s, c, ["("] + ta + ["."] + td, [")"]);
    AtConcat(s, c, ["("] + ta + ["."], td);
    AtConcat(s, c, ["("] + ta, ["."]);
    AtConcat(s, c, ["("], ta);
    AtBound(s, c, ["("] + ta + ["."] + td + [")"]);
  }

  /** A tokenizer standing at position `i` of `s` sees `s[i]`. */
  lemma TokenAt(tk: Tokenizer, s: seq<string>, i: nat)
    requires tk.tokens == s && tk.current == i && i < |s|
    ensures tk.Valid() && tk.HasMoreTokens() && tk.Token() == s[i]
  {
  }

  /** A tokenizer standing at position `c` of `s` sees the window there. */
  lemma AtMoved(s: seq<string>, c: nat, w: seq<string>, tk: Tokenizer)
    requires At(s, c, w) && tk.tokens == s && tk.current == c
    ensures At(tk.tokens, tk.current, w)
  {
  }

  /** One step of `parseCar` on `(` followed by an element that is not `)`:
      the pair of that element and the rest `parseCdr` reads after it. */
  lemma OpenStep(tk: Tokenizer, table: Table, seen: bool)
    requires tk.Valid() && tk.HasMoreTokens() && tk.IsLeftBrace()
    requires var tk1 := tk.(countBrace := tk.countBrace + 1).SkipToken();
      tk1.HasMoreTokens() && !tk1.IsRightBrace()
    ensures var car := ParseCar(tk.(countBrace := tk.countBrace + 1).SkipToken(), table, true);
      car.result.Ok? && car.tk.HasMoreTokens() ==>
        var cdr := ParseCdr(car.tk, car.table, true);
        cdr.result.Ok? ==>
          ParseCar(tk, table, seen) == Scan(Ok(Pair(car.result.value, cdr.result.value)), cdr.tk, cdr.table)
  {
  }

  /** One step of `parseCdr` on `. x )` inside a list: just `x`. */
  lemma DotStep(tk: Tokenizer, table: Table)
    requires tk.Valid() && tk.HasMoreTokens() && tk.IsDot()
    ensures var cdr := ParseCar(tk.SkipToken(), table, false);
      cdr.result.Ok? && cdr.tk.HasMoreTokens() && cdr.tk.IsRightBrace() ==>
        ParseCdr(tk, table, true).result == cdr.result &&
        ParseCdr(tk, table, true).tk.current == cdr.tk.current + 1
  {
  }

  /** An integer's text in car position reads back as the integer. */
  lemma ParseIntToken(v: Int32, tk: Tokenizer, table: Table, seen: bool)
    requires tk.Valid() && tk.HasMoreTokens() && tk.Token() == IntToString(v)
    requires |IntToString(v)| <= INTEGER_LIMIT
    ensures ParseCar(tk, table, seen).result == Ok(Int(v))
    ensures ParseCar(tk, table, seen).tk.current == tk.current + 1
  {
    IntText(v);
    assert !tk.IsLeftBrace() && !tk.IsRightBrace() && !tk.IsIdentifier() && tk.IsInteger();
  }

  /** A symbol's name in car position reads back as the symbol. */
  lemma ParseSymbolToken(n: string, tk: Tokenizer, table: Table, seen: bool)
    requires tk.Valid() && tk.HasMoreTokens() && tk.Token() == n
    requires IsIdentifierToken(n) && |n| <= SYMBOL_LIMIT
    ensures ParseCar(tk, table, seen).result == Ok(Sym(n))
    ensures ParseCar(tk, table, seen).tk.current == tk.current + 1
  {
    assert !tk.IsLeftBrace() && !tk.IsRightBrace() && tk.IsIdentifier();
  }

  /** Parsing in car position the tokens of a rendered tree gives the tree
      and consumes exactly those tokens, whatever follows them. */
  lemma {:induction false} ParseCarDisplay(e: SExpr, tk: Tokenizer, table: Table, seen: bool)
    requires Readable(e) && tk.Valid()
    requires At(tk.tokens, tk.current, DisplayTokens(e))
    ensures ParseCar(tk, table, seen).result == Ok(e)
    ensures ParseCar(tk, table, seen).tk.current == tk.current + |DisplayTokens(e)|
    decreases e, 3
  {
    match e
    case Pair(a, d) =>
      var ta, td := DisplayTokens(a), DisplayTokens(d);
      assert DisplayTokens(e) == ["("] + ta + ["."] + td + [")"];
      var c := tk.current;
      var m := c + 1 + |ta|;
      var end := m + 1 + |td|;
      PairWindow(tk.tokens, c, ta, td);
      FirstDisplayToken(a);
      ParsePairDisplay(a, d, tk, table, seen, tk.tokens, c, m, end);
    case Int(v) =>
      ParseIntToken(v, tk, table, seen);
    case Sym(n) =>
      ParseSymbolToken(n, tk, table, seen);
  }

  /** `( x . y )` at position `c` in car position, with the dot at `m` and the
      closing brace at `e`. */
  lemma {:induction false} ParsePairDisplay(a: SExpr, d: SExpr, tk: Tokenizer, table: Table, seen: bool,
                                            s: seq<string>, c: nat, m: nat, e: nat)
    requires Readable(a) && Readable(d) && tk.Valid() && tk.tokens == s && tk.current == c
    requires m == c + 1 + |DisplayTokens(a)| && e == m + 1 + |DisplayTokens(d)| && e < |s|
    requires IsSingle(s[c], '(') && !IsSingle(s[c + 1], ')') && IsSingle(s[m], '.') && IsSingle(s[e], ')')
    requires At(s, c + 1, DisplayTokens(a)) && At(s, m + 1, DisplayTokens(d))
    ensures ParseCar(tk, table, seen).result == Ok(Pair(a, d))
    ensures ParseCar(tk, table, seen).tk.current == e + 1
    decreases Pair(a, d), 2
  {
    var tk1 := tk.(countBrace := tk.countBrace + 1).SkipToken();
    TokenAt(tk1, s, c + 1);
    PairInside(a, d, tk1, table, s, c + 1, m, e);
    OpenStep(tk, table, seen);
  }

  /** Just inside `(`: the tokens of `x . y )` parse to `x` in car position
      and then to `y` in cdr position. */
  lemma {:induction false} PairInside(a: SExpr, d: SExpr, tk: Tokenizer, table: Table,
                                      s: seq<string>, c: nat, m: nat, e: nat)
    requires Readable(a) && Readable(d) && tk.Valid() && tk.tokens == s && tk.current == c
    requires m == c + |DisplayTokens(a)| && e == m + 1 + |DisplayTokens(d)| && e < |s|
    requires IsSingle(s[m], '.') && IsSingle(s[e], ')')
    requires At(s, c, DisplayTokens(a)) && At(s, m + 1, DisplayTokens(d))
    ensures ParseCar(tk, table, true).result == Ok(a)
    ensures ParseCar(tk, table, true).tk.HasMoreTokens()
    ensures ParseCdr(ParseCar(tk, table, true).tk, ParseCar(tk, table, true).table, true).result == Ok(d)
    ensures ParseCdr(ParseCar(tk, table, true).tk, ParseCar(tk, table, true).table, true).tk.current == e + 1
    decreases Pair(a, d), 1
  {
    ParseCarDisplay(a, tk, table, true);
    var car := ParseCar(tk, table, true);
    TokenAt(car.tk, s, m);
    ParseDotTail(d, car.tk, car.table, s, m, e);
  }

  /** `. x )` after a list's first element, the dot at `c` and the closing
      brace at `e`: the rest is `x` itself. */
  lemma {:induction false} ParseDotTail(d: SExpr, tk: Tokenizer, table: Table, s: seq<string>, c: nat, e: nat)
    requires Readable(d) && tk.Valid() && tk.tokens == s && tk.current == c
    requires e == c + 1 + |DisplayTokens(d)| && e < |s|
    requires IsSingle(s[c], '.') && IsSingle(s[e], ')')
    requires At(s, c + 1, DisplayTokens(d))
    ensures ParseCdr(tk, table, true).result == Ok(d)
    ensures ParseCdr(tk, table, true).tk.current == e + 1
    decreases d, 4
  {
    var tk2 := tk.SkipToken();
    AtMoved(s, c + 1, DisplayTokens(d), tk2);
    ParseCarDisplay(d, tk2, table, false);
    var cdr := ParseCar(tk2, table, false);
    TokenAt(cdr.tk, s, e);
    DotStep(tk, table);
  }

  /** Round trip: the rendering of every readable tree parses back to it. */
  lemma {:induction false} ParseDisplay(e: SExpr, table: Table)
    requires Readable(e)
    ensures Parse(Display(e), table).result == Ok(e)
  {
    TokenizeDisplay(e);
    var tk := New(Display(e));
    AtSuffix(tk.tokens, 0);
    ParseCarDisplay(e, tk, table, false);
  }

  /** The tokens of the elements of a list written in list notation. */
  function ElementTokens(xs: seq<SExpr>): seq<string> {
    if xs == [] then [] else DisplayTokens(xs[0]) + ElementTokens(xs[1..])
  }

  /** One step of `parseCdr` on `)`: the list ends here, as NIL. */
  lemma CloseStep(tk: Tokenizer, table: Table, seen: bool)
    requires tk.Valid() && tk.HasMoreTokens() && tk.IsRightBrace()
    ensures ParseCdr(tk, table, seen).result == Ok(NIL)
    ensures ParseCdr(tk, table, seen).tk.current == tk.current + 1
  {
  }

  /** One step of `parseCdr` on an element: the pair of that element and the
      rest read after it. */
  lemma NextStep(tk: Tokenizer, table: Table, seen: bool)
    requires tk.Valid() && tk.HasMoreTokens() && !tk.IsRightBrace() && !tk.IsDot()
    ensures var car := ParseCar(tk, table, false);
      car.result.Ok? ==>
        var cdr := ParseCdr(car.tk, car.table, false);
        cdr.result.Ok? ==>
          ParseCdr(tk, table, seen) == Scan(Ok(Pair(car.result.value, cdr.result.value)), cdr.tk, cdr.table)
  {
  }

  /** The tokens of the elements `xs` at position `c`, followed by `)` at
      position `e`, parse in cdr position to the NIL-terminated list of `xs`. */
  lemma {:induction false} ParseCdrElements(xs: seq<SExpr>, tk: Tokenizer, table: Table, seen: bool,
                                            s: seq<string>, c: nat, e: nat)
    requires forall i :: 0 <= i < |xs| ==> Readable(xs[i])
    requires tk.Valid() && tk.tokens == s && tk.current == c
    requires e == c + |ElementTokens(xs)| && e < |s|
    requires At(s, c, ElementTokens(xs)) && IsSingle(s[e], ')')
    ensures ParseCdr(tk, table, seen).result == Ok(MakeList(xs))
    ensures ParseCdr(tk, table, seen).tk.current == e + 1
    decreases |xs|
  {
    if xs == [] {
      TokenAt(tk, s, c);
      CloseStep(tk, table, seen);
    } else {
      var t0, rest := DisplayTokens(xs[0]), ElementTokens(xs[1..]);
      assert ElementTokens(xs) == t0 + rest;
      AtConcat(s, c, t0, rest);
      FirstDisplayToken(xs[0]);
      TokenAt(tk, s, c);
      ParseCarDisplay(xs[0], tk, table, false);
      var car := ParseCar(tk, table, false);
      ParseCdrElements(xs[1..], car.tk, car.table, false, s, c + |t0|, e);
      NextStep(tk, table, seen);
    }
  }

  /** Just inside `(`: the first element in car position, then the remaining
      elements and `)` in cdr position. */
  lemma ListInside(xs: seq<SExpr>, tk: Tokenizer, table: Table, s: seq<string>, c: nat, e: nat)
    requires |xs| >= 1 && forall i :: 0 <= i < |xs| ==> Readable(xs[i])
    requires tk.Valid() && tk.tokens == s && tk.current == c
    requires e == c + |ElementTokens(xs)| && e < |s|
    requires At(s, c, ElementTokens(xs)) && IsSingle(s[e], ')')
    ensures ParseCar(tk, table, true).result == Ok(xs[0])
    ensures ParseCar(tk, table, true).tk.HasMoreTokens()
    ensures ParseCdr(ParseCar(tk, table, true).tk, ParseCar(tk, table, true).table, true).result
      == Ok(MakeList(xs[1..]))
    ensures ParseCdr(ParseCar(tk, table, true).tk, ParseCar(tk, table, true).table, true).tk.current == e + 1
  {
    var t0, rest := DisplayTokens(xs[0]), ElementTokens(xs[1..]);
    assert At(s, c, t0) && At(s, c + |t0|, rest) && e == c + |t0| + |rest| by {
      assert ElementTokens(xs) == t0 + rest;
      AtConcat(s, c, t0, rest);
    }
    ParseCarDisplay(xs[0], tk, table, true);
    var car := ParseCar(tk, table, true);
    TokenAt(car.tk, s, c + |t0|);
    ParseCdrElements(xs[1..], car.tk, car.table, true, s, c + |t0|, e);
  }

  /** List notation: `(x1 x2 ... xn)` parses to `(x1 . (x2 . ... (xn . NIL)))`. */
  lemma ParseListNotation(xs: seq<SExpr>, tk: Tokenizer, table: Table, seen: bool)
    requires |xs| >= 1 && forall i :: 0 <= i < |xs| ==> Readable(xs[i])
    requires tk.Valid() && At(tk.tokens, tk.current, ["("] + ElementTokens(xs) + [")"])
    ensures ParseCar(tk, table, seen).result == Ok(MakeList(xs))
    ensures ParseCar(tk, table, seen).tk.current == tk.current + |ElementTokens(xs)| + 2
  {
    var s, c, ts := tk.tokens, tk.current, ElementTokens(xs);
    var e := c + 1 + |ts|;
    assert s[c] == "(" && At(s, c + 1, ts) && e < |s| && s[e] == ")" by {
      AtConcat(s, c, ["("] + ts, [")"]);
      AtConcat(s, c, ["("], ts);
      AtBound(s, c, ["("] + ts + [")"]);
    }
    var tk1 := tk.(countBrace := tk.countBrace + 1).SkipToken();
    assert tk1.HasMoreTokens() && !tk1.IsRightBrace() by {
      var t0, rest := DisplayTokens(xs[0]), ElementTokens(xs[1..]);
      assert ts == t0 + rest;
      AtConcat(s, c + 1, t0, rest);
      FirstDisplayToken(xs[0]);
      TokenAt(tk1, s, c + 1);
    }
    ListInside(xs, tk1, table, s, c + 1, e);
    OpenStep(tk, table, seen);
  }
}

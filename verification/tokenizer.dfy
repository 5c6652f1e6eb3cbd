/** The tokenizer: the token sequence with a cursor, the classification of the
    current token, the length-limited readers of identifiers and integers, and
    the contextual diagnostic used by every Parse error. */
module Tokenizers {
  import opened Wrappers
  import opened SExpressions
  import opened Symbols
  import opened Errors
  import opened Lexing

  /** Longest symbol name, and longest integer text counting its sign. */
  const SYMBOL_LIMIT: nat := 10
  const INTEGER_LIMIT: nat := 6

  predicate IsUpper(c: char) {
    'A' <= c <= 'Z'
  }

  predicate IsLower(c: char) {
    'a' <= c <= 'z'
  }

  predicate IsDigit(c: char) {
    '0' <= c <= '9'
  }

  /** The characters the diagnostic reports as invalid. */
  predicate IsInvalidChar(c: char) {
    c in "~#@$*%{}<>[]|\"_^"
  }

  /** `t` is the one-character string `c` (Java's `t.equals("c")`). */
  predicate IsSingle(t: string, c: char) {
    |t| == 1 && t[0] == c
  }

  lemma SingleIsLiteral(t: string, c: char)
    ensures IsSingle(t, c) <==> t == [c]
  {
    if IsSingle(t, c) {
      assert t == [t[0]];
    }
  }

  /** `[A-Z][A-Z0-9]*` */
  predicate IsIdentifierToken(s: string) {
    |s| >= 1 && IsUpper(s[0]) && forall i :: 1 <= i < |s| ==> IsUpper(s[i]) || IsDigit(s[i])
  }

  predicate AllDigits(s: string) {
    forall i :: 0 <= i < |s| ==> IsDigit(s[i])
  }

  /** `[+-]?[0-9]+` */
  predicate IsIntegerToken(s: string) {
    |s| >= 1 &&
    if s[0] == '+' || s[0] == '-' then |s| >= 2 && AllDigits(s[1..]) else AllDigits(s)
  }

  function Pow10(n: nat): (p: nat)
    ensures p >= 1
  {
    if n == 0 then 1 else 10 * Pow10(n - 1)
  }

  /** The number written by a string of decimal digits. */
  function DigitsValue(s: string): (v: nat)
    requires AllDigits(s)
    ensures v < Pow10(|s|)
  {
    if s == [] then 0
    else DigitsValue(s[..|s| - 1]) * 10 + (s[|s| - 1] as int - '0' as int)
  }

  /** `Integer.parseInt` on a token of the integer class (a leading `+` is accepted). */
  function ParseInt(s: string): (v: int)
    requires IsIntegerToken(s)
    ensures |s| <= INTEGER_LIMIT ==> -(Pow10(INTEGER_LIMIT) as int) < v < Pow10(INTEGER_LIMIT)
  {
    if s[0] == '-' then -(DigitsValue(s[1..]) as int)
    else if s[0] == '+' then DigitsValue(s[1..])
    else DigitsValue(s)
  }

  /** The first character of `s` satisfying `p`, if any (the `find` of a
      one-character-class regular expression). */
  function FirstMatch(s: string, p: char -> bool): Option<char> {
    if s == [] then None
    else if p(s[0]) then Some(s[0])
    else FirstMatch(s[1..], p)
  }

  lemma {:induction false} FirstMatchSpec(s: string, p: char -> bool)
    ensures FirstMatch(s, p).Some? <==> exists i :: 0 <= i < |s| && p(s[i])
    ensures FirstMatch(s, p).Some? ==>
      exists i :: 0 <= i < |s| && s[i] == FirstMatch(s, p).value && p(s[i]) &&
        forall j :: 0 <= j < i ==> !p(s[j])
    decreases |s|
  {
    if s != [] && !p(s[0]) {
      FirstMatchSpec(s[1..], p);
      if FirstMatch(s, p).Some? {
        var i :| 0 <= i < |s[1..]| && s[1..][i] == FirstMatch(s, p).value && p(s[1..][i]) &&
          forall j :: 0 <= j < i ==> !p(s[1..][j]);
        assert s[i + 1] == s[1..][i];
        forall j | 0 <= j < i + 1
          ensures !p(s[j])
        {
          if j > 0 {
            assert s[j] == s[1..][j - 1];
          }
        }
      } else {
        forall i | 0 <= i < |s|
          ensures !p(s[i])
        {
          if i > 0 {
            assert s[i] == s[1..][i - 1];
          }
        }
      }
    }
  }

  datatype Tokenizer = Tokenizer(
    tokens: seq<string>,
    current: nat,
    intLimitExceeded: bool,
    symbolLimitExceeded: bool,
    countBrace: int)
  {
    predicate Valid() {
      current <= |tokens|
    }

    predicate HasMoreTokens() {
      current < |tokens|
    }

    function Token(): string
      requires HasMoreTokens()
    {
      tokens[current]
    }

    function SkipToken(): (tk: Tokenizer)
      requires HasMoreTokens()
      ensures tk.Valid() && tk.current == current + 1
      ensures tk == this.(current := current + 1)
    {
      this.(current := current + 1)
    }

    predicate IsIdentifier()
      requires HasMoreTokens()
    {
      IsIdentifierToken(Token())
    }

    predicate IsInteger()
      requires HasMoreTokens()
    {
      IsIntegerToken(Token())
    }

    predicate IsDot()
      requires HasMoreTokens()
    {
      IsSingle(Token(), '.')
    }

    predicate IsLeftBrace()
      requires HasMoreTokens()
    {
      IsSingle(Token(), '(')
    }

    predicate IsRightBrace()
      requires HasMoreTokens()
    {
      IsSingle(Token(), ')')
    }

    /** `checkIfInvalid`: the first invalid character of the current token
        (see `CheckIfInvalidSpec`). */
    function CheckIfInvalid(): Option<char>
      requires HasMoreTokens()
    {
      FirstMatch(Token(), IsInvalidChar)
    }

    /** `checkIfLowerCase`: the first lower-case letter of the current token
        (see `CheckIfLowerCaseSpec`). */
    function CheckIfLowerCase(): Option<char>
      requires HasMoreTokens()
    {
      FirstMatch(Token(), IsLower)
    }

    /** `getError`: the diagnostic for the current position, checked in a
        fixed priority order (see `GetErrorPriority`); reporting a length
        limit resets its flag. */
    function GetError(): (r: (Diagnostic, Tokenizer))
      requires Valid()
      ensures r.1.Valid() && r.1.tokens == tokens && r.1.current == current && r.1.countBrace == countBrace
    {
      if !HasMoreTokens() then
        (if countBrace > 0 then MissingRightBrace else UnexpectedEndOfInput, this)
      else if IsDot() then (UnexpectedDot, this)
      else if IsLeftBrace() then (UnexpectedLeftBrace, this)
      else if IsRightBrace() then (UnexpectedRightBrace, this)
      else if symbolLimitExceeded then
        (SymbolLengthExceeded(Token()), this.(symbolLimitExceeded := false))
      else if intLimitExceeded then
        (IntegerLengthExceeded(Token()), this.(intLimitExceeded := false))
      else if CheckIfInvalid().Some? then (InvalidCharacter(CheckIfInvalid().value), this)
      else if CheckIfLowerCase().Some? then (LowerCaseCharacter(CheckIfLowerCase().value), this)
      else if IsSingle(Token(), '+') then (BareSign('+'), this)
      else if IsSingle(Token(), '-') then (BareSign('-'), this)
      else (UnexpectedToken(Token()), this)
    }
  }

  /** `checkIfInvalid` finds a character exactly when the token holds an
      invalid one, and what it finds is the first. */
  lemma CheckIfInvalidSpec(tk: Tokenizer)
    requires tk.HasMoreTokens()
    ensures var r, t := tk.CheckIfInvalid(), tk.Token();
      && (r.Some? <==> exists i :: 0 <= i < |t| && IsInvalidChar(t[i]))
      && (r.Some? ==> exists i :: 0 <= i < |t| && t[i] == r.value && IsInvalidChar(r.value) &&
                        forall j :: 0 <= j < i ==> !IsInvalidChar(t[j]))
  {
    FirstMatchSpec(tk.Token(), IsInvalidChar);
  }

  /** `checkIfLowerCase` finds a character exactly when the token holds a
      lower-case letter, and what it finds is the first. */
  lemma CheckIfLowerCaseSpec(tk: Tokenizer)
    requires tk.HasMoreTokens()
    ensures var r, t := tk.CheckIfLowerCase(), tk.Token();
      && (r.Some? <==> exists i :: 0 <= i < |t| && IsLower(t[i]))
      && (r.Some? ==> exists i :: 0 <= i < |t| && t[i] == r.value && IsLower(r.value) &&
                        forall j :: 0 <= j < i ==> !IsLower(t[j]))
  {
    FirstMatchSpec(tk.Token(), IsLower);
  }

  /** A token that gets past every test of `getError` before the sign test:
      not punctuation, no length flag set, and neither an invalid nor a
      lower-case character in it. */
  predicate PlainToken(tk: Tokenizer)
    requires tk.Valid()
  {
    && tk.HasMoreTokens() && tk.Token() !in {".", "(", ")"} && !tk.symbolLimitExceeded && !tk.intLimitExceeded
    && tk.CheckIfInvalid().None? && tk.CheckIfLowerCase().None?
  }

  /** The priority order of `getError`: end of input, then the three
      punctuation tokens, then the two length flags (symbol first), then an
      invalid character, then a lower-case letter, then a bare sign, and
      last the token itself as unexpected. */
  lemma GetErrorPriority(tk: Tokenizer)
    requires tk.Valid()
    ensures var (d, tk') := tk.GetError();
      && (!tk.HasMoreTokens() ==> d == (if tk.countBrace > 0 then MissingRightBrace else UnexpectedEndOfInput))
      && (d == MissingRightBrace || d == UnexpectedEndOfInput ==> !tk.HasMoreTokens())
      && (d == UnexpectedDot <==> tk.HasMoreTokens() && tk.Token() == ".")
      && (d == UnexpectedLeftBrace <==> tk.HasMoreTokens() && tk.Token() == "(")
      && (d == UnexpectedRightBrace <==> tk.HasMoreTokens() && tk.Token() == ")")
      && (d.SymbolLengthExceeded? <==>
        tk.HasMoreTokens() && tk.Token() !in {".", "(", ")"} && tk.symbolLimitExceeded)
      && (d.IntegerLengthExceeded? <==>
        tk.HasMoreTokens() && tk.Token() !in {".", "(", ")"} && !tk.symbolLimitExceeded && tk.intLimitExceeded)
      && (d.InvalidCharacter? <==>
        tk.HasMoreTokens() && tk.Token() !in {".", "(", ")"} && !tk.symbolLimitExceeded && !tk.intLimitExceeded
        && tk.CheckIfInvalid().Some?)
      && (d.LowerCaseCharacter? <==>
        tk.HasMoreTokens() && tk.Token() !in {".", "(", ")"} && !tk.symbolLimitExceeded && !tk.intLimitExceeded
        && tk.CheckIfInvalid().None? && tk.CheckIfLowerCase().Some?)
      && (d == BareSign('+') <==> PlainToken(tk) && tk.Token() == "+")
      && (d == BareSign('-') <==> PlainToken(tk) && tk.Token() == "-")
      && (d.BareSign? ==> d.c == '+' || d.c == '-')
      && !d.EmptyExpression?
      && (d.UnexpectedToken? <==> PlainToken(tk) && tk.Token() != "+" && tk.Token() != "-")
      && (d.SymbolLengthExceeded? || d.IntegerLengthExceeded? || d.UnexpectedToken? ==> d.token == tk.Token())
      && (d.InvalidCharacter? ==> d.c == tk.CheckIfInvalid().value)
      && (d.LowerCaseCharacter? ==> d.c == tk.CheckIfLowerCase().value)
      && (d.SymbolLengthExceeded? ==> !tk'.symbolLimitExceeded && tk'.intLimitExceeded == tk.intLimitExceeded)
      && (d.IntegerLengthExceeded? ==> !tk'.intLimitExceeded && !tk'.symbolLimitExceeded)
      && (!d.SymbolLengthExceeded? && !d.IntegerLengthExceeded? ==> tk' == tk)
  {
    if tk.HasMoreTokens() {
      var t := tk.Token();
      SingleIsLiteral(t, '.');
      SingleIsLiteral(t, '(');
      SingleIsLiteral(t, ')');
      SingleIsLiteral(t, '+');
      SingleIsLiteral(t, '-');
    }
  }

  /** What a reading step leaves behind: its outcome, the tokenizer, and the
      symbol table (an exception abandons the tokenizer but not the table). */
  datatype Scan = Scan(result: Result<SExpr, Error>, tk: Tokenizer, table: Table)

  /** The constructor: tokenise the input; cursor at the first token, no
      limit exceeded, no brace open. */
  function New(input: string): (tk: Tokenizer)
    ensures tk.Valid() && tk.HasMoreTokens() && tk.current == 0
    ensures !tk.intLimitExceeded && !tk.symbolLimitExceeded && tk.countBrace == 0
    ensures tk.tokens == Tokenize(input)
  {
    Tokenizer(Tokenize(input), 0, false, false, 0)
  }

  /** Raise a Parse error carrying the tokenizer's current diagnostic. */
  function Fail(tk: Tokenizer, table: Table): (r: Scan)
    requires tk.Valid()
    ensures r.result.Err? && r.result.error.ParseError?
    ensures r.result.error.diagnostic == tk.GetError().0
    ensures r.tk.Valid() && r.tk.tokens == tk.tokens && r.tk.current == tk.current && r.table == table
  {
    var (d, tk') := tk.GetError();
    Scan(Err(ParseError(d)), tk', table)
  }

  /** `getIdentifier`: a name longer than the limit is a Parse error that
      leaves the cursor where it was; otherwise the interned symbol, one token on. */
  function GetIdentifier(tk: Tokenizer, table: Table): (r: Scan)
    requires tk.Valid() && tk.HasMoreTokens()
    ensures r.tk.Valid() && r.tk.tokens == tk.tokens
    ensures r.result.Err? <==> |tk.Token()| > SYMBOL_LIMIT
    ensures r.result.Err? ==>
      r.result.error == ParseError(SymbolLengthExceeded(tk.Token())) &&
      r.tk.current == tk.current && !r.tk.symbolLimitExceeded && r.table == table
    ensures r.result.Ok? ==>
      r.result.value == Sym(tk.Token()) && r.tk == tk.SkipToken() &&
      r.table == table + {tk.Token()}
  {
    var id := tk.Token();
    if |id| > SYMBOL_LIMIT then
      Fail(tk.(symbolLimitExceeded := true), table)
    else
      var (node, table') := GetFromTable(table, id);
      Scan(Ok(node), tk.SkipToken(), table')
  }

  /** `getInteger`: a token longer than the limit, sign included, is a Parse
      error that leaves the cursor where it was; otherwise its value, one token on. */
  function GetInteger(tk: Tokenizer, table: Table): (r: Scan)
    requires tk.Valid() && tk.HasMoreTokens() && tk.IsInteger()
    ensures r.tk.Valid() && r.tk.tokens == tk.tokens && r.table == table
    ensures r.result.Err? <==> |tk.Token()| > INTEGER_LIMIT
    ensures r.result.Err? ==>
      r.result.error == ParseError(
        if tk.symbolLimitExceeded then SymbolLengthExceeded(tk.Token()) else IntegerLengthExceeded(tk.Token())) &&
      r.tk.current == tk.current && !r.tk.symbolLimitExceeded
    ensures r.result.Ok? ==>
      r.result.value.Int? && r.result.value.val == ParseInt(tk.Token()) && r.tk == tk.SkipToken()
  {
    var num := tk.Token();
    if |num| > INTEGER_LIMIT then
      Fail(tk.(intLimitExceeded := true), table)
    else
      Scan(Ok(Int(ParseInt(num))), tk.SkipToken(), table)
  }
}

/** The node model: a symbolic expression is an integer atom, a symbolic atom or
    a pair, together with the primitive operations the evaluator applies to
    already-evaluated atoms and the dotted-pair renderer. */
module SExpressions {
  import opened Wrappers

  const TWO32: int := 0x1_0000_0000
  const INT_MIN: int := -0x8000_0000
  const INT_MAX: int := 0x7fff_ffff

  /** Java's 32-bit `int`, the type of an integer atom's value. */
  type Int32 = x: int | -0x8000_0000 <= x <= 0x7fff_ffff

  predicate InInt32(x: int) {
    INT_MIN <= x <= INT_MAX
  }

  /** Two's-complement wrap-around of a mathematical integer to 32 bits. */
  function Wrap(x: int): (r: Int32)
    ensures (r - x) % TWO32 == 0
    ensures InInt32(x) ==> r == x
  {
    var m := (x - INT_MIN) % TWO32;
    assert x - INT_MIN == ((x - INT_MIN) / TWO32) * TWO32 + m;
    m + INT_MIN
  }

  datatype SExpr =
    | Int(val: Int32)
    | Sym(name: string)
    | Pair(car: SExpr, cdr: SExpr)

  /** Both obtained from the symbol table by the source; as values they are
      just the symbols with these names. */
  const NIL: SExpr := Sym("NIL")
  const T: SExpr := Sym("T")

  predicate IsNil(e: SExpr) {
    e.Sym? && e.name == "NIL"
  }

  predicate IsT(e: SExpr) {
    e.Sym? && e.name == "T"
  }

  predicate IsAtom(e: SExpr) {
    !e.Pair?
  }

  predicate IsInteger(e: SExpr) {
    e.Int?
  }

  predicate IsSymbol(e: SExpr) {
    e.Sym?
  }

  /** T for true and NIL for false, as the built-in predicates answer. */
  function Bool(b: bool): (r: SExpr)
    ensures IsT(r) <==> b
    ensures IsNil(r) <==> !b
  {
    if b then T else NIL
  }

  /** `car()`: the left child of a pair, and null (None) on an atom. */
  function Car(e: SExpr): (r: Option<SExpr>)
    ensures r.Some? <==> !IsAtom(e)
  {
    if e.Pair? then Some(e.car) else None
  }

  /** `cdr()`: the right child of a pair, and null (None) on an atom. */
  function Cdr(e: SExpr): (r: Option<SExpr>)
    ensures r.Some? <==> !IsAtom(e)
  {
    if e.Pair? then Some(e.cdr) else None
  }

  function Cons(a: SExpr, d: SExpr): (r: SExpr)
    ensures !IsAtom(r)
    ensures Car(r) == Some(a) && Cdr(r) == Some(d)
  {
    Pair(a, d)
  }

  /** The `val` field the arithmetic reads: the value of an integer atom, and
      the field's default 0 on any other node. */
  function Val(e: SExpr): int {
    if e.Int? then e.val else 0
  }

  function Plus(a: SExpr, b: SExpr): (r: SExpr)
    ensures r.Int? && (r.val - (Val(a) + Val(b))) % TWO32 == 0
    ensures InInt32(Val(a) + Val(b)) ==> r.val == Val(a) + Val(b)
  {
    Int(Wrap(Val(a) + Val(b)))
  }

  function Minus(a: SExpr, b: SExpr): (r: SExpr)
    ensures r.Int? && (r.val - (Val(a) - Val(b))) % TWO32 == 0
    ensures InInt32(Val(a) - Val(b)) ==> r.val == Val(a) - Val(b)
  {
    Int(Wrap(Val(a) - Val(b)))
  }

  function Times(a: SExpr, b: SExpr): (r: SExpr)
    ensures r.Int? && (r.val - Val(a) * Val(b)) % TWO32 == 0
    ensures InInt32(Val(a) * Val(b)) ==> r.val == Val(a) * Val(b)
  {
    Int(Wrap(Val(a) * Val(b)))
  }

  function Abs(x: int): nat {
    if x < 0 then -x else x
  }

  /** Java's `/` on integers: the quotient rounded toward zero. */
  function TruncDiv(n: int, d: int): int
    requires d != 0
  {
    var q := Abs(n) / Abs(d);
    if (n < 0) == (d < 0) then q else -q
  }

  /** Java's `%` on integers: what is left after the truncated quotient. */
  function TruncRem(n: int, d: int): (r: int)
    requires d != 0
    ensures TruncDiv(n, d) * d + r == n
  {
    n - TruncDiv(n, d) * d
  }

  lemma DivNonneg(a: int, b: int)
    requires a >= 0 && b > 0
    ensures a / b >= 0
  {
  }

  /** The four sign cases of truncating division, each in terms of the
      Euclidean quotient and remainder of the magnitudes. */
  lemma TruncSigns(n: int, d: int)
    requires d != 0
    ensures var q, m := Abs(n) / Abs(d), Abs(n) % Abs(d);
      && (n >= 0 && d > 0 ==> TruncDiv(n, d) == q && TruncRem(n, d) == m)
      && (n < 0 && d < 0 ==> TruncDiv(n, d) == q && TruncRem(n, d) == -m)
      && (n >= 0 && d < 0 ==> TruncDiv(n, d) == -q && TruncRem(n, d) == m)
      && (n < 0 && d > 0 ==> TruncDiv(n, d) == -q && TruncRem(n, d) == -m)
  {
    var a, b := Abs(n), Abs(d);
    var q, m := a / b, a % b;
    assert a == q * b + m;
    if n >= 0 && d > 0 {
      assert TruncRem(n, d) == a - q * b;
    } else if n < 0 && d < 0 {
      assert q * d == -(q * b);
      assert TruncRem(n, d) == -a + q * b;
    } else if n >= 0 {
      assert (-q) * d == q * b;
      assert TruncRem(n, d) == a - q * b;
    } else {
      assert (-q) * d == -(q * b);
      assert TruncRem(n, d) == -a + q * b;
    }
  }

  /** Truncation toward zero: the quotient's magnitude is the quotient of the
      magnitudes, and its sign is negative only when the operands' signs
      differ; the remainder is smaller than the divisor in magnitude and
      takes the sign of the dividend. */
  lemma TruncDivRem(n: int, d: int)
    requires d != 0
    ensures Abs(TruncDiv(n, d)) == Abs(n) / Abs(d)
    ensures TruncDiv(n, d) < 0 ==> ((n < 0) != (d < 0))
    ensures Abs(TruncRem(n, d)) < Abs(d)
    ensures TruncRem(n, d) == 0 || ((TruncRem(n, d) < 0) <==> (n < 0))
  {
    DivNonneg(Abs(n), Abs(d));
    assert Abs(TruncRem(n, d)) < Abs(d) && (TruncRem(n, d) == 0 || ((TruncRem(n, d) < 0) <==> (n < 0))) by {
      TruncSigns(n, d);
      assert Abs(n) % Abs(d) < Abs(d);
    }
  }

  function Quotient(a: SExpr, b: SExpr): (r: SExpr)
    requires Val(b) != 0
    ensures r.Int? && (r.val - TruncDiv(Val(a), Val(b))) % TWO32 == 0
    ensures InInt32(TruncDiv(Val(a), Val(b))) ==> r.val == TruncDiv(Val(a), Val(b))
  {
    Int(Wrap(TruncDiv(Val(a), Val(b))))
  }

  function Remainder(a: SExpr, b: SExpr): (r: SExpr)
    requires Val(b) != 0
    ensures r.Int? && (r.val - TruncRem(Val(a), Val(b))) % TWO32 == 0
    ensures InInt32(TruncRem(Val(a), Val(b))) ==> r.val == TruncRem(Val(a), Val(b))
  {
    Int(Wrap(TruncRem(Val(a), Val(b))))
  }

  function Less(a: SExpr, b: SExpr): (r: SExpr)
    ensures IsT(r) <==> Val(a) < Val(b)
    ensures IsNil(r) <==> !(Val(a) < Val(b))
  {
    if Val(a) < Val(b) then T else NIL
  }

  function Greater(a: SExpr, b: SExpr): (r: SExpr)
    ensures IsT(r) <==> Val(a) > Val(b)
    ensures IsNil(r) <==> !(Val(a) > Val(b))
  {
    if Val(a) > Val(b) then T else NIL
  }

  /** The node kind the source stores in `type`: 1 integer, 2 symbol, 3 pair. */
  function Kind(e: SExpr): nat {
    match e
    case Int(_) => 1
    case Sym(_) => 2
    case Pair(_, _) => 3
  }

  /** EQ: integers by value, symbols by interned identity (equal names), and
      never for pairs or across kinds. */
  function Eq(a: SExpr, b: SExpr): (r: SExpr)
    ensures IsT(r) || IsNil(r)
    ensures IsT(r) <==> (a.Int? && b.Int? && a.val == b.val) || (a.Sym? && b.Sym? && a.name == b.name)
  {
    if Kind(a) != Kind(b) then NIL
    else if a.Int? && Val(a) == Val(b) then T
    else if a.Sym? && a.name == b.name then T
    else NIL
  }

  function DigitChar(d: nat): (c: char)
    requires d < 10
    ensures '0' <= c <= '9'
  {
    (d + '0' as int) as char
  }

  /** Decimal digits of a natural number, most significant first. */
  function NatToString(n: nat): (s: string)
    ensures |s| >= 1
    ensures forall i :: 0 <= i < |s| ==> '0' <= s[i] <= '9'
    decreases n
  {
    if n < 10 then [DigitChar(n)] else NatToString(n / 10) + [DigitChar(n % 10)]
  }

  /** `Integer.toString`: a minus sign for negative values, never a plus. */
  function IntToString(v: int): (s: string)
    ensures |s| >= 1
    ensures s[0] == '-' <==> v < 0
    ensures s[0] == '-' || '0' <= s[0] <= '9'
    ensures forall i :: 1 <= i < |s| ==> '0' <= s[i] <= '9'
  {
    if v < 0 then "-" + NatToString(-v) else NatToString(v)
  }

  /** `getName`: the text of an atom, and null (None) for a pair. */
  function GetName(e: SExpr): (r: Option<string>)
    ensures r.Some? <==> IsAtom(e)
    ensures e.Sym? ==> r == Some(e.name)
  {
    match e
    case Int(v) => Some(IntToString(v))
    case Sym(n) => Some(n)
    case Pair(_, _) => None
  }

  /** `displayTree`: fully parenthesised dotted-pair notation. An atom is
      shown as its name; a pair as a parenthesised dotted pair. */
  function Display(e: SExpr): (r: string)
    ensures IsAtom(e) ==> GetName(e) == Some(r)
    ensures e.Pair? ==> |r| >= 5 && r[0] == '(' && r[|r| - 1] == ')'
  {
    match e
    case Int(v) => IntToString(v)
    case Sym(n) => n
    case Pair(a, d) => "(" + Display(a) + " . " + Display(d) + ")"
  }

  function Size(e: SExpr): (n: nat)
    ensures n >= 1
  {
    match e
    case Pair(a, d) => 1 + Size(a) + Size(d)
    case _ => 1
  }

  /** The elements of a NIL-terminated list, or None for an improper list. */
  function ListElems(e: SExpr): Option<seq<SExpr>> {
    if IsNil(e) then Some([])
    else match e
      case Pair(a, d) =>
        (match ListElems(d)
         case Some(xs) => Some([a] + xs)
         case None => None)
      case _ => None
  }

  /** The NIL-terminated list holding `xs` in order. */
  function MakeList(xs: seq<SExpr>): (e: SExpr)
    ensures ListElems(e) == Some(xs)
  {
    if xs == [] then NIL
    else
      assert xs == [xs[0]] + xs[1..];
      Pair(xs[0], MakeList(xs[1..]))
  }

  lemma {:induction false} MakeListElems(e: SExpr, xs: seq<SExpr>)
    requires ListElems(e) == Some(xs)
    ensures MakeList(xs) == e
  {
    if IsNil(e) {
    } else {
      match e
      case Pair(a, d) =>
        var ys := ListElems(d).value;
        assert xs == [a] + ys;
        assert xs[1..] == ys;
        MakeListElems(d, ys);
    }
  }

  /** The cars met walking down a chain of cdrs, in order. */
  function Spine(e: SExpr): seq<SExpr> {
    match e
    case Pair(a, d) => [a] + Spine(d)
    case _ => []
  }

  /** The atom that ends a chain of cdrs: NIL for a proper list. */
  function Tail(e: SExpr): (r: SExpr)
    ensures IsAtom(r)
  {
    match e
    case Pair(_, d) => Tail(d)
    case _ => e
  }

  /** A list is proper exactly when its chain of cdrs ends in NIL, and then
      its elements are the spine. */
  lemma {:induction false} ListElemsSpine(e: SExpr)
    ensures ListElems(e).Some? <==> IsNil(Tail(e))
    ensures ListElems(e).Some? ==> ListElems(e).value == Spine(e)
  {
    match e
    case Pair(a, d) =>
      ListElemsSpine(d);
    case _ =>
  }

  /** The first two spine elements are the car and the cadr, both smaller
      than the whole. */
  lemma SpineFirstTwo(e: SExpr)
    requires |Spine(e)| >= 2
    ensures e.Pair? && e.cdr.Pair?
    ensures Spine(e)[0] == e.car && Spine(e)[1] == e.cdr.car
    ensures Size(e.car) < Size(e) && Size(e.cdr.car) < Size(e)
  {
  }
}

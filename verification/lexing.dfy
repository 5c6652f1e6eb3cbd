/** How the tokenizer cuts its input into tokens: every `(`, `)` and `.` is
    surrounded by spaces, whitespace runs separate tokens, and surrounding
    whitespace is dropped. An input with no token at all yields the single
    empty token, as splitting an empty string does. */
module Lexing {

  /** Java's `\s`: space, tab, line feed, vertical tab, form feed, carriage return. */
  predicate IsSpace(c: char) {
    c == ' ' || '\t' <= c <= '\r'
  }

  predicate IsDelimiter(c: char) {
    c == '(' || c == ')' || c == '.'
  }

  predicate NoSpace(s: string) {
    forall i :: 0 <= i < |s| ==> !IsSpace(s[i])
  }

  predicate NoDelimiter(s: string) {
    forall i :: 0 <= i < |s| ==> !IsDelimiter(s[i])
  }

  predicate HasNonSpace(s: string) {
    exists i :: 0 <= i < |s| && !IsSpace(s[i])
  }

  function PadChar(c: char): string {
    if IsDelimiter(c) then [' ', c, ' '] else [c]
  }

  /** The three `replaceAll` calls that put spaces around each delimiter. */
  function Pad(s: string): string {
    if s == [] then [] else PadChar(s[0]) + Pad(s[1..])
  }

  /** Length of the leading run of non-whitespace characters. */
  function RunLen(s: string): (n: nat)
    ensures n <= |s|
    ensures forall i :: 0 <= i < n ==> !IsSpace(s[i])
    ensures n < |s| ==> IsSpace(s[n])
  {
    if s == [] || IsSpace(s[0]) then 0 else 1 + RunLen(s[1..])
  }

  /** The maximal whitespace-free runs of `s`, in order: collapsing
      whitespace, trimming and splitting at single spaces. */
  function Words(s: string): (ws: seq<string>)
    ensures forall i :: 0 <= i < |ws| ==> |ws[i]| > 0 && NoSpace(ws[i])
    decreases |s|
  {
    if s == [] then []
    else if IsSpace(s[0]) then Words(s[1..])
    else
      var n := RunLen(s);
      [s[..n]] + Words(s[n..])
  }

  /** The token sequence the tokenizer's constructor builds. */
  function Tokenize(s: string): (ts: seq<string>)
    ensures |ts| >= 1
  {
    var ws := Words(Pad(s));
    if ws == [] then [""] else ws
  }

  function Concat(ws: seq<string>): string {
    if ws == [] then [] else ws[0] + Concat(ws[1..])
  }

  function RemoveSpaces(s: string): (r: string)
    ensures NoSpace(r)
  {
    if s == [] then []
    else (if IsSpace(s[0]) then [] else [s[0]]) + RemoveSpaces(s[1..])
  }

  lemma {:induction false} RemoveSpacesConcat(a: string, b: string)
    ensures RemoveSpaces(a + b) == RemoveSpaces(a) + RemoveSpaces(b)
    decreases |a|
  {
    if a == [] {
      assert a + b == b;
    } else {
      assert (a + b)[1..] == a[1..] + b;
      RemoveSpacesConcat(a[1..], b);
    }
  }

  lemma {:induction false} RemoveSpacesOfNoSpace(s: string)
    requires NoSpace(s)
    ensures RemoveSpaces(s) == s
    decreases |s|
  {
    if s != [] {
      RemoveSpacesOfNoSpace(s[1..]);
    }
  }

  lemma {:induction false} RemoveSpacesEmpty(s: string)
    ensures RemoveSpaces(s) == [] <==> !HasNonSpace(s)
    decreases |s|
  {
    if s != [] {
      RemoveSpacesEmpty(s[1..]);
      if HasNonSpace(s[1..]) {
        var i :| 0 <= i < |s[1..]| && !IsSpace(s[1..][i]);
        assert !IsSpace(s[i + 1]);
      }
      if HasNonSpace(s) && IsSpace(s[0]) {
        var i :| 0 <= i < |s| && !IsSpace(s[i]);
        assert !IsSpace(s[1..][i - 1]);
      }
    }
  }

  /** The tokens, laid end to end, are the input with its whitespace removed. */
  lemma {:induction false} ConcatWords(s: string)
    ensures Concat(Words(s)) == RemoveSpaces(s)
    decreases |s|
  {
    if s == [] {
    } else if IsSpace(s[0]) {
      ConcatWords(s[1..]);
    } else {
      var n := RunLen(s);
      var ws := Words(s[n..]);
      assert Words(s) == [s[..n]] + ws;
      assert ([s[..n]] + ws)[1..] == ws;
      ConcatWords(s[n..]);
      RemoveSpacesOfNoSpace(s[..n]);
      RemoveSpacesConcat(s[..n], s[n..]);
      assert s[..n] + s[n..] == s;
    }
  }

  lemma {:induction false} PadConcat(a: string, b: string)
    ensures Pad(a + b) == Pad(a) + Pad(b)
    decreases |a|
  {
    if a == [] {
      assert a + b == b;
    } else {
      assert (a + b)[0] == a[0];
      assert (a + b)[1..] == a[1..] + b;
      PadConcat(a[1..], b);
    }
  }

  lemma {:induction false} PadNoDelimiter(s: string)
    requires NoDelimiter(s)
    ensures Pad(s) == s
    decreases |s|
  {
    if s != [] {
      PadNoDelimiter(s[1..]);
      assert s == [s[0]] + s[1..];
    }
  }

  /** Padding only inserts whitespace. */
  lemma {:induction false} PadRemoveSpaces(s: string)
    ensures RemoveSpaces(Pad(s)) == RemoveSpaces(s)
    decreases |s|
  {
    if s != [] {
      PadRemoveSpaces(s[1..]);
      RemoveSpacesConcat(PadChar(s[0]), Pad(s[1..]));
      var c := s[0];
      if IsDelimiter(c) {
        assert [' ', c, ' '] == [' '] + ([c] + [' ']);
        RemoveSpacesConcat([' '], [c] + [' ']);
        RemoveSpacesConcat([c], [' ']);
      }
    }
  }

  lemma {:induction false} WordsEmpty(s: string)
    ensures Words(s) == [] <==> !HasNonSpace(s)
  {
    ConcatWords(s);
    RemoveSpacesEmpty(s);
    var ws := Words(s);
    if ws != [] {
      assert Concat(ws) == ws[0] + Concat(ws[1..]);
      assert |Concat(ws)| > 0;
    }
  }

  lemma {:induction false} PadHasNonSpace(s: string)
    ensures HasNonSpace(Pad(s)) <==> HasNonSpace(s)
  {
    PadRemoveSpaces(s);
    RemoveSpacesEmpty(s);
    RemoveSpacesEmpty(Pad(s));
  }

  /** Every delimiter stands between two whitespace characters, and so never
      at either end. */
  ghost predicate Padded(p: string) {
    forall i :: 0 <= i < |p| && IsDelimiter(p[i]) ==> 0 < i < |p| - 1 && IsSpace(p[i - 1]) && IsSpace(p[i + 1])
  }

  /** Every delimiter is at an end or next to whitespace on that side. */
  ghost predicate Isolated(p: string) {
    forall i :: 0 <= i < |p| && IsDelimiter(p[i]) ==>
      (i == 0 || IsSpace(p[i - 1])) && (i == |p| - 1 || IsSpace(p[i + 1]))
  }

  lemma {:induction false} PadIsPadded(s: string)
    ensures Padded(Pad(s))
    decreases |s|
  {
    if s != [] {
      PadIsPadded(s[1..]);
      var a, b := PadChar(s[0]), Pad(s[1..]);
      var p := a + b;
      forall i | 0 <= i < |p| && IsDelimiter(p[i])
        ensures 0 < i < |p| - 1 && IsSpace(p[i - 1]) && IsSpace(p[i + 1])
      {
        if i >= |a| {
          assert b[i - |a|] == p[i];
        }
      }
    }
  }

  lemma IsolatedSuffix(p: string, k: nat)
    requires Isolated(p) && k <= |p|
    ensures Isolated(p[k..])
  {
    var q := p[k..];
    forall i | 0 <= i < |q| && IsDelimiter(q[i])
      ensures (i == 0 || IsSpace(q[i - 1])) && (i == |q| - 1 || IsSpace(q[i + 1]))
    {
      assert q[i] == p[k + i];
    }
  }

  lemma IsolatedAt(p: string, j: nat)
    requires Isolated(p) && j < |p| && IsDelimiter(p[j])
    ensures j == 0 || IsSpace(p[j - 1])
    ensures j == |p| - 1 || IsSpace(p[j + 1])
  {
  }

  /** A token that contains a delimiter is that delimiter alone. */
  ghost predicate DelimitersStandAlone(ws: seq<string>) {
    forall i, j :: 0 <= i < |ws| && 0 <= j < |ws[i]| && IsDelimiter(ws[i][j]) ==> ws[i] == [ws[i][j]]
  }

  lemma {:induction false} WordsOfIsolated(p: string)
    requires Isolated(p)
    ensures DelimitersStandAlone(Words(p))
    decreases |p|
  {
    if p == [] {
    } else if IsSpace(p[0]) {
      IsolatedSuffix(p, 1);
      WordsOfIsolated(p[1..]);
    } else {
      var n := RunLen(p);
      var w := p[..n];
      IsolatedSuffix(p, n);
      WordsOfIsolated(p[n..]);
      var ws := Words(p);
      assert ws == [w] + Words(p[n..]);
      forall i, j | 0 <= i < |ws| && 0 <= j < |ws[i]| && IsDelimiter(ws[i][j])
        ensures ws[i] == [ws[i][j]]
      {
        if i == 0 {
          assert p[j] == w[j] && IsDelimiter(p[j]);
          IsolatedAt(p, j);
          if j > 0 {
            assert false;
          }
          if n > 1 {
            assert false;
          }
        } else {
          assert ws[i] == Words(p[n..])[i - 1];
        }
      }
    }
  }

  lemma {:induction false} RunLenBeforeSpace(x: string, c: char, y: string)
    requires IsSpace(c)
    ensures RunLen(x + [c] + y) == RunLen(x)
    decreases |x|
  {
    if x == [] {
      assert (x + [c] + y)[0] == c;
    } else if IsSpace(x[0]) {
      assert (x + [c] + y)[0] == x[0];
    } else {
      assert (x + [c] + y)[1..] == x[1..] + [c] + y;
      RunLenBeforeSpace(x[1..], c, y);
    }
  }

  /** A whitespace character separates the words on its two sides. */
  lemma {:induction false} WordsJoin(x: string, c: char, y: string)
    requires IsSpace(c)
    ensures Words(x + [c] + y) == Words(x) + Words(y)
    decreases |x|
  {
    var s := x + [c] + y;
    if x == [] {
      assert s[0] == c && s[1..] == y;
    } else if IsSpace(x[0]) {
      assert s[0] == x[0];
      assert s[1..] == x[1..] + [c] + y;
      WordsJoin(x[1..], c, y);
    } else {
      RunLenBeforeSpace(x, c, y);
      var n := RunLen(x);
      assert s[..n] == x[..n];
      assert s[n..] == x[n..] + [c] + y;
      WordsJoin(x[n..], c, y);
    }
  }

  lemma WordsOfWord(w: string)
    requires |w| > 0 && NoSpace(w)
    ensures Words(w) == [w]
  {
    assert RunLen(w) == |w|;
    assert w[..|w|] == w;
  }

  /** The three properties of the constructor's tokens: no token holds
      whitespace, each delimiter is a token of its own, and the tokens laid end
      to end give back the input without its whitespace. An input without any
      non-whitespace character gives the single empty token. */
  lemma TokenizeSpec(s: string)
    ensures HasNonSpace(s) ==> forall i :: 0 <= i < |Tokenize(s)| ==> |Tokenize(s)[i]| > 0 && NoSpace(Tokenize(s)[i])
    ensures HasNonSpace(s) ==> DelimitersStandAlone(Tokenize(s))
    ensures HasNonSpace(s) ==> Concat(Tokenize(s)) == RemoveSpaces(s)
    ensures !HasNonSpace(s) ==> Tokenize(s) == [""]
  {
    var p := Pad(s);
    PadHasNonSpace(s);
    WordsEmpty(p);
    PadIsPadded(s);
    WordsOfIsolated(p);
    ConcatWords(p);
    PadRemoveSpaces(s);
  }
}

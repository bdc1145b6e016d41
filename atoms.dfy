/**
 * `atomize` (emlisp/types.py): the classification of one token into a boxed atom, tried in
 * a fixed order: integer, float, `#t`/`#f`, double-quoted string, symbol.
 */
module Atoms {
  import opened Values

  /** `s.lstrip()`: the suffix of `s` left after its leading white space. */
  function StripLeft(s: string): (r: string)
    ensures |r| <= |s|
  {
    if s != [] && IsSpace(s[0]) then StripLeft(s[1..]) else s
  }

  /** `s.rstrip()`: the prefix of `s` left before its trailing white space. */
  function StripRight(s: string): (r: string)
    ensures |r| <= |s|
  {
    if s != [] && IsSpace(s[|s| - 1]) then StripRight(s[..|s| - 1]) else s
  }

  /** What `lstrip` removes is white space, and what it keeps starts with none. */
  lemma {:induction false} StripLeftSpec(s: string)
    ensures StripLeft(s) == s[|s| - |StripLeft(s)|..]
    ensures forall i :: 0 <= i < |s| - |StripLeft(s)| ==> IsSpace(s[i])
    ensures StripLeft(s) == [] || !IsSpace(StripLeft(s)[0])
    decreases |s|
  {
    if s != [] && IsSpace(s[0]) {
      StripLeftSpec(s[1..]);
      assert s[1..][|s| - 1 - |StripLeft(s)|..] == s[|s| - |StripLeft(s)|..];
    }
  }

  /** What `rstrip` removes is white space, and what it keeps ends with none. */
  lemma {:induction false} StripRightSpec(s: string)
    ensures StripRight(s) == s[..|StripRight(s)|]
    ensures forall i :: |StripRight(s)| <= i < |s| ==> IsSpace(s[i])
    ensures StripRight(s) == [] || !IsSpace(StripRight(s)[|StripRight(s)| - 1])
    decreases |s|
  {
    if s != [] && IsSpace(s[|s| - 1]) {
      StripRightSpec(s[..|s| - 1]);
      assert s[..|s| - 1][..|StripRight(s)|] == s[..|StripRight(s)|];
    }
  }

  /** The host's integer conversion ignores white space at either end of its argument. */
  function Strip(s: string): string {
    StripRight(StripLeft(s))
  }

  /** Every character is a decimal digit (stated from the right, the way DigitsValue reads it). */
  predicate AllDigits(s: string)
    decreases |s|
  {
    s == [] || (AllDigits(s[..|s| - 1]) && IsDigit(s[|s| - 1]))
  }

  lemma {:induction false} AllDigitsEach(s: string)
    ensures AllDigits(s) <==> forall i :: 0 <= i < |s| ==> IsDigit(s[i])
    decreases |s|
  {
    if s != [] {
      AllDigitsEach(s[..|s| - 1]);
      assert forall i :: 0 <= i < |s| - 1 ==> s[..|s| - 1][i] == s[i];
    }
  }

  function DigitsValue(s: string): nat
    requires AllDigits(s)
  {
    if s == [] then 0 else DigitsValue(s[..|s| - 1]) * 10 + (s[|s| - 1] as int - '0' as int)
  }

  /**
   * The host's `int(token)` in base 10: after stripping white space, an optional `+` or `-`
   * followed by one or more decimal digits (leading zeros allowed); anything else fails.
   * The host also allows white space between the sign and the digits; that case is not
   * modelled, since a token never contains white space.
   */
  function ParseInt(t: string): (r: Option<int>)
    ensures r.Some? ==> Strip(t) != [] && (IsDigit(Strip(t)[0]) || Strip(t)[0] == '+' || Strip(t)[0] == '-')
    ensures r.Some? && Strip(t)[0] != '-' ==> r.value >= 0
    ensures Strip(t) != [] && AllDigits(Strip(t)) ==> r == Some(DigitsValue(Strip(t)))
    ensures |Strip(t)| >= 2 && Strip(t)[0] == '+' && AllDigits(Strip(t)[1..]) ==> r == Some(DigitsValue(Strip(t)[1..]))
    ensures |Strip(t)| >= 2 && Strip(t)[0] == '-' && AllDigits(Strip(t)[1..]) ==> r == Some(-(DigitsValue(Strip(t)[1..]) as int))
  {
    var s := Strip(t);
    AllDigitsEach(s);
    if |s| >= 2 && (s[0] == '+' || s[0] == '-') && AllDigits(s[1..]) then
      var d: int := DigitsValue(s[1..]);
      Some(if s[0] == '-' then -d else d)
    else if |s| >= 1 && AllDigits(s) then
      Some(DigitsValue(s))
    else
      None
  }

  /** The value kinds `atomize` can produce. */
  predicate IsAtom(v: Value) {
    v.Numeric? || v.Float? || v.Bool? || v.String? || v.Symbol?
  }

  /**
   * `atomize`. The host's `float(token)` accepts more than decimal literals (`inf`, `nan`,
   * exponents, white space), so whether it succeeds is the parameter `isFloat`; a float
   * keeps its token as its payload. A token that is neither a number nor `#t`/`#f` is
   * indexed at its first and last character: an empty one fails there with IndexError.
   * The string-escape decoding of a quoted token is the identity here.
   */
  function Atomize(tok: string, isFloat: string -> bool): (r: Result<Value>)
    ensures r.Err? <==> tok == [] && !isFloat(tok)
    ensures r.Err? ==> r.error == IndexError
    ensures r.Ok? ==> IsAtom(r.value)
    ensures r.Ok? && r.value.Symbol? ==> r.value.name == tok != []
    ensures r.Ok? && r.value.Bool? ==> tok == (if r.value.b then "#t" else "#f")
    ensures ParseInt(tok).Some? ==> r == Ok(Numeric(ParseInt(tok).value))
    ensures ParseInt(tok).None? && isFloat(tok) ==> r == Ok(Float(tok))
    ensures r.Ok? && r.value.String? ==> |tok| >= 1 && tok[0] == '"' && tok[|tok| - 1] == '"'
  {
    match ParseInt(tok)
    case Some(i) => Ok(Numeric(i))
    case None =>
      if isFloat(tok) then Ok(Float(tok))
      else if tok == "#t" then Ok(Bool(true))
      else if tok == "#f" then Ok(Bool(false))
      else if tok == [] then Err(IndexError)
      else if tok[0] == '"' && tok[|tok| - 1] == '"' then
        Ok(String(if |tok| >= 2 then tok[1..|tok| - 1] else ""))
      else Ok(Symbol(tok))
  }

  lemma {:induction false} NatToStringValue(n: nat)
    ensures AllDigits(NatToString(n)) && |NatToString(n)| >= 1
    ensures DigitsValue(NatToString(n)) == n
    decreases n
  {
    NatToStringDigits(n);
    AllDigitsEach(NatToString(n));
    if n >= 10 {
      NatToStringValue(n / 10);
      var s := NatToString(n);
      assert s[..|s| - 1] == NatToString(n / 10);
    }
  }

  /** Reading back the printed form of an integer gives the integer: `int('%s' % n) == n`. */
  lemma IntToStringParses(n: int)
    ensures ParseInt(IntToString(n)) == Some(n)
  {
    var s := IntToString(n);
    NatToStringValue(if n < 0 then -n else n);
    NatToStringDigits(if n < 0 then -n else n);
    assert !IsSpace(s[0]) && !IsSpace(s[|s| - 1]);
    assert Strip(s) == s;
    if n < 0 {
      assert s[1..] == NatToString(-n);
    }
  }

  /**
   * Every atom `atomize` makes, except a String or a float, is written back to a token that
   * `atomize` maps to the same atom: the symbol and boolean tokens are reproduced exactly,
   * an integer token in its canonical decimal form.
   */
  lemma AtomizeWrite(tok: string, isFloat: string -> bool)
    requires Atomize(tok, isFloat).Ok?
    requires !Atomize(tok, isFloat).value.String? && !Atomize(tok, isFloat).value.Float?
    ensures Atomize(Write(Atomize(tok, isFloat).value), isFloat) == Atomize(tok, isFloat)
  {
    var v := Atomize(tok, isFloat).value;
    if v.Numeric? {
      IntToStringParses(v.n);
    } else {
      assert Write(v) == tok;
    }
  }

  /**
   * A token in double quotes that the host's `float` rejects is the String of what lies
   * between the quotes: `atomize` reads back what `display` shows for a String.
   */
  lemma AtomizeString(s: string, isFloat: string -> bool)
    requires !isFloat("\"" + s + "\"")
    ensures Atomize("\"" + s + "\"", isFloat) == Ok(String(s))
    ensures Atomize(Display(String(s)), isFloat) == Ok(String(s))
  {
    var tok := "\"" + s + "\"";
    assert !IsSpace(tok[0]) && !IsSpace(tok[|tok| - 1]);
    assert StripLeft(tok) == tok;
    assert StripRight(tok) == tok;
    assert !IsDigit(Strip(tok)[0]);
    assert tok[1..|tok| - 1] == s;
  }

  /**
   * The classes `atomize` tries after the numbers, forward: `#t` and `#f` are the Bools, a
   * token in double quotes is the String between them, and any other non-empty token is
   * the Symbol it spells.
   */
  lemma AtomizeCases(tok: string, isFloat: string -> bool)
    requires ParseInt(tok).None? && !isFloat(tok)
    ensures tok == "#t" ==> Atomize(tok, isFloat) == Ok(Bool(true))
    ensures tok == "#f" ==> Atomize(tok, isFloat) == Ok(Bool(false))
    ensures |tok| >= 2 && tok[0] == '"' && tok[|tok| - 1] == '"' ==> Atomize(tok, isFloat) == Ok(String(tok[1..|tok| - 1]))
    ensures tok != [] && tok != "#t" && tok != "#f" && !(tok[0] == '"' && tok[|tok| - 1] == '"') ==>
      Atomize(tok, isFloat) == Ok(Symbol(tok))
  {
  }
}

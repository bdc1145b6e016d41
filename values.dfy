/**
 * The boxed values of emlisp (emlisp/types.py): one closed sum type in place of the
 * `Lispval` class family, the error kinds the interpreter raises, the fixed singletons,
 * and the two printers `display` and `write`.
 */
module Values {

  datatype Option<+T> = None | Some(value: T)

  /** The host exceptions the interpreter lets escape, one constructor per kind. */
  datatype Error =
    | SyntaxError(msg: string)   // malformed input, a non-symbol binding target, (un)boxing failure
    | TypeError(msg: string)     // arity mismatch, calling a non-procedure, an unhashable key
    | LookupError(key: string)   // a name bound in no frame of the chain
    | IndexError                 // indexing an exhausted token list or an empty expression list
    | ValueError                 // a special form of the wrong length failing to unpack
    | AttributeError             // a host object without the attribute the code reads
    | OutOfFuel                  // the evaluation bound ran out (stands for host stack exhaustion)

  datatype Result<+T> = Ok(value: T) | Err(error: Error)

  /**
   * A boxed value. `Numeric` holds an integer; a floating-point Numeric is kept as the token
   * it was read from (`Float`). A `Lambda` holds the index of the frame it captured (see
   * module Frames). `Native` names a host procedure. `HostNone` is the host's own None,
   * which is not a Lisp value: only the older evaluator's `define` returns it.
   */
  datatype Value =
    | Numeric(n: int)
    | Float(text: string)
    | Bool(b: bool)
    | String(s: string)
    | Symbol(name: string)
    | Nil
    | List(items: seq<Value>)
    | Lambda(parms: Value, body: Value, env: nat)
    | Native(id: nat)
    | HostNone

  const NilObject: Value := Nil
  const TrueObject: Value := Bool(true)
  const FalseObject: Value := Bool(false)
  const EofObject: Value := Symbol("#eof")

  /**
   * The host's truth test. `Lispval` defines neither a truth hook nor a length, so every
   * boxed value is true, `Bool(false)`, `Nil` and the empty List included; only the host's
   * None is false.
   */
  predicate Truthy(v: Value)
    ensures v.Bool? || v.Nil? || v == List([]) || v.Numeric? ==> Truthy(v)
  {
    !v.HostNone?
  }

  /** Truth is decided by the host kind alone: false exactly for the host's None. */
  lemma EveryLispValueIsTrue(v: Value)
    ensures Truthy(v) <==> v != HostNone
    ensures Truthy(FalseObject) && Truthy(NilObject) && Truthy(List([])) && Truthy(Numeric(0))
  {
  }

  /** `is_sym`: the value is the symbol spelled `what`. */
  function IsSym(v: Value, what: string): (r: bool)
    ensures r <==> v == Symbol(what)
  {
    v.Symbol? && v.name == what
  }

  /** The characters the host's `str.split()` and `int()` treat as white space. */
  predicate IsSpace(c: char) {
    c == ' ' || c == '\t' || c == '\n' || c == '\r' || c == '\U{000B}' || c == '\U{000C}'
  }

  predicate IsDigit(c: char) {
    '0' <= c <= '9'
  }

  function DigitChar(d: nat): (c: char)
    requires d < 10
    ensures IsDigit(c)
  {
    (48 + d) as char
  }

  /** Decimal rendering of a natural number, most significant digit first. */
  function NatToString(n: nat): (s: string)
    decreases n
  {
    if n < 10 then [DigitChar(n)] else NatToString(n / 10) + [DigitChar(n % 10)]
  }

  /** The host's `'%s' % n` for an integer. */
  function IntToString(n: int): string {
    if n < 0 then "-" + NatToString(-n) else NatToString(n)
  }

  /** `' '.join(parts)`. */
  function JoinSpace(parts: seq<string>): string {
    if parts == [] then ""
    else if |parts| == 1 then parts[0]
    else parts[0] + " " + JoinSpace(parts[1..])
  }

  /**
   * `write`: the base printer `'%s' % self.value`, overridden by Bool (`#t`/`#f`) and List
   * (elements written and joined by single spaces). Nil has no override, so it writes its
   * payload None. A Lambda writes `<lambda: ...>` with an object address; a host procedure
   * has no printer at all (see README, Left out).
   */
  function Write(v: Value): (w: string)
    decreases v
    ensures v.Bool? ==> w == "#t" || w == "#f"
    ensures v.List? ==> |w| >= 2 && w[0] == '(' && w[|w| - 1] == ')'
  {
    match v
    case Numeric(n) => IntToString(n)
    case Float(text) => text
    case Bool(b) => if b then "#t" else "#f"
    case String(s) => s
    case Symbol(name) => name
    case Nil => "None"
    case List(xs) => "(" + JoinSpace(WriteAll(xs)) + ")"
    case Lambda(_, _, _) => "<lambda>"
    case Native(_) => "<native>"
    case HostNone => "None"
  }

  function WriteAll(xs: seq<Value>): (ws: seq<string>)
    decreases xs
    ensures |ws| == |xs|
  {
    if xs == [] then [] else [Write(xs[0])] + WriteAll(xs[1..])
  }

  /**
   * `display`: `write`, except that a String is shown between double quotes, Nil as `()`,
   * and a List displays its elements.
   */
  function Display(v: Value): (d: string)
    decreases v
    ensures v.String? ==> |d| == |v.s| + 2 && d[0] == '"' && d[|d| - 1] == '"' && d[1..|d| - 1] == v.s
    ensures v.List? ==> |d| >= 2 && d[0] == '(' && d[|d| - 1] == ')'
    ensures !v.String? && !v.Nil? && !v.List? ==> d == Write(v)
  {
    match v
    case String(s) => "\"" + s + "\""
    case Nil => "()"
    case List(xs) => "(" + JoinSpace(DisplayAll(xs)) + ")"
    case _ => Write(v)
  }

  function DisplayAll(xs: seq<Value>): (ds: seq<string>)
    decreases xs
    ensures |ds| == |xs|
  {
    if xs == [] then [] else [Display(xs[0])] + DisplayAll(xs[1..])
  }

  /**
   * Whether the printers return at all. A host procedure and the host's None are not
   * `Lispval`s and have neither `display` nor `write`, so printing one, or a List holding
   * one at any depth, raises AttributeError. The printers above give such values a
   * placeholder text instead; callers that print check this first.
   */
  predicate Printable(v: Value)
    decreases v
  {
    match v
    case Native(_) => false
    case HostNone => false
    case List(xs) => forall i :: 0 <= i < |xs| ==> Printable(xs[i])
    case _ => true
  }

  /** No String and no Nil anywhere inside: the only variants whose two printers differ. */
  predicate NoStringOrNil(v: Value)
    decreases v
  {
    match v
    case String(_) => false
    case Nil => false
    case List(xs) => forall i :: 0 <= i < |xs| ==> NoStringOrNil(xs[i])
    case _ => true
  }

  /** `display` and `write` agree on every value without a String or a Nil inside. */
  lemma {:induction false} PrintersAgree(v: Value)
    requires NoStringOrNil(v)
    ensures Display(v) == Write(v)
    decreases v, 1
  {
    match v
    case List(xs) => PrintersAgreeAll(xs);
    case _ =>
  }

  lemma {:induction false} PrintersAgreeAll(xs: seq<Value>)
    requires forall i :: 0 <= i < |xs| ==> NoStringOrNil(xs[i])
    ensures DisplayAll(xs) == WriteAll(xs)
    decreases xs, 0
  {
    if xs != [] {
      PrintersAgree(xs[0]);
      PrintersAgreeAll(xs[1..]);
    }
  }

  /**
   * The variants on which the printers differ: a String is displayed in quotes and
   * written raw, Nil is displayed `()` and written as its payload, a Bool is `#t`/`#f` in both.
   */
  lemma PrintersDiffer(s: string, b: bool)
    ensures Display(String(s)) == "\"" + Write(String(s)) + "\""
    ensures Display(Nil) == "()" && Write(Nil) == "None"
    ensures Display(Bool(b)) == Write(Bool(b)) == (if b then "#t" else "#f")
  {
  }

  /** The decimal text of a natural number is a non-empty run of digits. */
  lemma {:induction false} NatToStringDigits(n: nat)
    ensures |NatToString(n)| >= 1
    ensures forall i :: 0 <= i < |NatToString(n)| ==> IsDigit(NatToString(n)[i])
    decreases n
  {
    if n >= 10 {
      NatToStringDigits(n / 10);
    }
  }
}

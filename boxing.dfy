/**
 * The bridge between host values and boxed values (`box` and `unbox`, emlisp/types.py),
 * through which host procedures receive their arguments and return their results.
 */
module Boxing {
  import opened Values

  /**
   * The host values the bridge meets: None, bools, integers, floats (kept as their text),
   * strings, lists, and any other host object (a dict, a tuple, a function, ...), which
   * only its printed form describes.
   */
  datatype Host =
    | HNone
    | HBool(b: bool)
    | HInt(i: int)
    | HFloat(text: string)
    | HStr(s: string)
    | HList(items: seq<Host>)
    | HOther(repr: string)

  /** A boxed value that `unbox` accepts: no Symbol, procedure or host None anywhere inside. */
  predicate Plain(v: Value)
    decreases v
  {
    match v
    case Symbol(_) => false
    case Lambda(_, _, _) => false
    case Native(_) => false
    case HostNone => false
    case List(xs) => forall i :: 0 <= i < |xs| ==> Plain(xs[i])
    case _ => true
  }

  /** A host value that `box` accepts: no foreign object anywhere inside. */
  predicate Supported(h: Host)
    decreases h
  {
    match h
    case HOther(_) => false
    case HList(hs) => forall i :: 0 <= i < |hs| ==> Supported(hs[i])
    case _ => true
  }

  /** The class name `unbox` reports for a value it refuses. */
  function ClassName(v: Value): string {
    match v
    case Symbol(_) => "Symbol"
    case Lambda(_, _, _) => "Lambda"
    case Native(_) => "function"
    case HostNone => "NoneType"
    case _ => "Lispval"
  }

  /**
   * `unbox`: the payload of a Numeric, Bool or String, None for Nil, a list for a List
   * (element by element); anything else is a SyntaxError naming its class.
   */
  function Unbox(v: Value): (r: Result<Host>)
    decreases v, 1
    ensures r.Ok? <==> Plain(v)
    ensures r.Ok? ==> Supported(r.value)
  {
    match v
    case Numeric(n) => Ok(HInt(n))
    case Float(text) => Ok(HFloat(text))
    case Bool(b) => Ok(HBool(b))
    case String(s) => Ok(HStr(s))
    case Nil => Ok(HNone)
    case List(xs) =>
      (match UnboxSeq(xs)
       case Ok(hs) => Ok(HList(hs))
       case Err(e) => Err(e))
    case _ => Err(SyntaxError("Cannot unbox type \"" + ClassName(v) + "\""))
  }

  /** `unbox` of a host list or tuple of boxed values: each element in order, stopping at the first failure. */
  function UnboxSeq(xs: seq<Value>): (r: Result<seq<Host>>)
    decreases xs, 0
    ensures r.Ok? <==> forall i :: 0 <= i < |xs| ==> Plain(xs[i])
    ensures r.Ok? ==> |r.value| == |xs| && forall i :: 0 <= i < |xs| ==> Supported(r.value[i])
  {
    if xs == [] then Ok([])
    else
      match Unbox(xs[0])
      case Err(e) => Err(e)
      case Ok(h) =>
        match UnboxSeq(xs[1..])
        case Err(e) => Err(e)
        case Ok(hs) =>
          assert forall i :: 1 <= i < |xs| ==> xs[i] == xs[1..][i - 1];
          Ok([h] + hs)
  }

  /**
   * `box`: None to the Nil singleton, a bool to the true/false singletons (tested before
   * numbers, of which the host counts bools as a kind), a number to Numeric, a list to a List
   * boxed element by element, a string to String; anything else is a SyntaxError.
   */
  function Box(h: Host): (r: Result<Value>)
    decreases h, 1
    ensures r.Ok? <==> Supported(h)
    ensures r.Ok? ==> Plain(r.value)
  {
    match h
    case HNone => Ok(NilObject)
    case HBool(b) => if b then Ok(TrueObject) else Ok(FalseObject)
    case HInt(i) => Ok(Numeric(i))
    case HFloat(text) => Ok(Float(text))
    case HList(hs) =>
      (match BoxSeq(hs)
       case Ok(vs) => Ok(List(vs))
       case Err(e) => Err(e))
    case HStr(s) => Ok(String(s))
    case HOther(repr) => Err(SyntaxError("Cannot box value \"" + repr + "\""))
  }

  function BoxSeq(hs: seq<Host>): (r: Result<seq<Value>>)
    decreases hs, 0
    ensures r.Ok? <==> forall i :: 0 <= i < |hs| ==> Supported(hs[i])
    ensures r.Ok? ==> |r.value| == |hs| && forall i :: 0 <= i < |hs| ==> Plain(r.value[i])
  {
    if hs == [] then Ok([])
    else
      match Box(hs[0])
      case Err(e) => Err(e)
      case Ok(v) =>
        match BoxSeq(hs[1..])
        case Err(e) => Err(e)
        case Ok(vs) =>
          assert forall i :: 1 <= i < |hs| ==> hs[i] == hs[1..][i - 1];
          Ok([v] + vs)
  }

  /** `unbox` undoes `box` on every host value `box` accepts. */
  lemma {:induction false} UnboxBox(h: Host)
    requires Supported(h)
    ensures Box(h).Ok? && Unbox(Box(h).value) == Ok(h)
    decreases h, 1
  {
    match h
    case HList(hs) => UnboxBoxSeq(hs);
    case _ =>
  }

  lemma {:induction false} UnboxBoxSeq(hs: seq<Host>)
    requires forall i :: 0 <= i < |hs| ==> Supported(hs[i])
    ensures BoxSeq(hs).Ok? && UnboxSeq(BoxSeq(hs).value) == Ok(hs)
    decreases hs, 0
  {
    if hs != [] {
      UnboxBox(hs[0]);
      UnboxBoxSeq(hs[1..]);
      var vs := BoxSeq(hs).value;
      assert vs[0] == Box(hs[0]).value;
      assert vs[1..] == BoxSeq(hs[1..]).value;
      assert UnboxSeq(vs) == Ok([hs[0]] + hs[1..]);
      assert hs == [hs[0]] + hs[1..];
    }
  }

  /** `box` undoes `unbox`: a value that unboxes is rebuilt exactly, Nil included. */
  lemma {:induction false} BoxUnbox(v: Value, h: Host)
    requires Unbox(v) == Ok(h)
    ensures Box(h) == Ok(v)
    decreases v, 1
  {
    match v
    case List(xs) => BoxUnboxSeq(xs, h.items);
    case _ =>
  }

  lemma {:induction false} BoxUnboxSeq(xs: seq<Value>, hs: seq<Host>)
    requires UnboxSeq(xs) == Ok(hs)
    ensures BoxSeq(hs) == Ok(xs)
    decreases xs, 0
  {
    if xs != [] {
      var h := Unbox(xs[0]).value;
      BoxUnbox(xs[0], h);
      BoxUnboxSeq(xs[1..], UnboxSeq(xs[1..]).value);
      assert hs[1..] == UnboxSeq(xs[1..]).value;
      assert xs == [xs[0]] + xs[1..];
    }
  }

  /** The singletons: None, True and False box to `nil_object`, `true_object`, `false_object`. */
  lemma BoxSingletons()
    ensures Box(HNone) == Ok(NilObject)
    ensures Box(HBool(true)) == Ok(TrueObject) && Box(HBool(false)) == Ok(FalseObject)
    ensures Box(HBool(true)) != Ok(Numeric(1))
  {
  }
}

/**
 * `eval` of emlisp/types.py and `Lambda.__call__`, as functions of the frame store: each
 * takes the store before and gives the outcome (a value or an error) with the store after,
 * since `define` and `set!` update frames in place and a call appends a frame. The store
 * after an error keeps every update made before the error, as the host's frames do.
 *
 * Evaluation need not terminate, so every evaluation step spends one unit of `fuel`;
 * running out is the error OutOfFuel, where the host would exhaust its stack or run forever.
 */
module Evaluator {
  import opened Values
  import opened Boxing
  import opened Frames

  /** A host procedure, by its number: applied to the unboxed arguments. */
  type Prim = (nat, seq<Host>) -> Result<Host>

  datatype Outcome<+T> = Outcome(res: Result<T>, fs: seq<Frame>)

  function NotSymbolMessage(v: Value): string {
    "Not a symbol: \"" + Display(v) + "\""
  }

  /**
   * The error of a binding form whose target is not a Symbol: a SyntaxError showing the
   * target as `str` does. A host procedure or None is shown by the host itself, but a List
   * holding one cannot be displayed, and AttributeError escapes instead.
   */
  function NotSymbolError(v: Value): Error {
    if v.List? && !Printable(v) then AttributeError else SyntaxError(NotSymbolMessage(v))
  }

  /** A boxed value made by `box` holds no closure. */
  lemma {:induction false} PlainClosed(v: Value, n: nat)
    requires Boxing.Plain(v)
    ensures Closed(v, n)
    decreases v
  {
    if v.List? {
      forall i | 0 <= i < |v.items|
        ensures Closed(v.items[i], n)
      {
        PlainClosed(v.items[i], n);
      }
    }
  }

  /** A new frame whose outer frame and bound values point into the store keeps the store invariant. */
  lemma PushOk(fs: seq<Frame>, m: map<string, Value>, outer: nat)
    requires StoreOk(fs) && outer < |fs|
    requires forall k :: k in m ==> Closed(m[k], |fs|)
    ensures StoreOk(fs + [Frame(m, Some(outer))])
    ensures Grows(fs, fs + [Frame(m, Some(outer))])
  {
    var fs2 := fs + [Frame(m, Some(outer))];
    forall i, k | 0 <= i < |fs2| && k in fs2[i].vars
      ensures Closed(fs2[i].vars[k], |fs2|)
    {
      if i < |fs| {
        assert fs2[i] == fs[i];
        ClosedMono(fs[i].vars[k], |fs|, |fs2|);
      } else {
        ClosedMono(m[k], |fs|, |fs2|);
      }
    }
  }

  /**
   * A call of a host procedure (`unboxedfn`'s wrapper): the arguments are unboxed, the
   * procedure is applied, and its result is boxed. A failure at any of the three steps is
   * the outcome.
   */
  function CallNative(prim: Prim, id: nat, args: seq<Value>): (r: Result<Value>)
    ensures r.Ok? ==> Boxing.Plain(r.value)
  {
    match UnboxSeq(args)
    case Err(e) => Err(e)
    case Ok(hs) =>
      match prim(id, hs)
      case Err(e) => Err(e)
      case Ok(h) => Box(h)
  }

  /**
   * `expr.eval(env)` for an expression that is not a List: a Symbol is looked up along the
   * chain, a host procedure and the host's None have no `eval` at all, and every other Lisp
   * value evaluates to itself. The store is not touched.
   */
  function EvalAtom(e: Value, env: nat, fs: seq<Frame>): (r: Result<Value>)
    requires StoreOk(fs) && env < |fs| && Closed(e, |fs|) && !e.List?
    ensures r.Ok? ==> Closed(r.value, |fs|)
    ensures r.Err? <==> e.Native? || e.HostNone? || (e.Symbol? && Find(fs, env, e.name).None?)
    ensures r.Ok? && !e.Symbol? ==> r.value == e
  {
    match e
    case Symbol(name) => Lookup(fs, env, name)
    case Native(_) => Err(AttributeError)
    case HostNone => Err(AttributeError)
    case _ => Ok(e)
  }

  /**
   * `eval(expr, env)`: a List is a special form or an application; any other value goes
   * through EvalAtom.
   */
  function Eval(fuel: nat, e: Value, env: nat, fs: seq<Frame>, prim: Prim): (o: Outcome<Value>)
    requires StoreOk(fs) && env < |fs| && Closed(e, |fs|)
    ensures StoreOk(o.fs) && Grows(fs, o.fs)
    ensures o.res.Ok? ==> Closed(o.res.value, |o.fs|)
    decreases fuel, 0, 0
  {
    if fuel == 0 then Outcome(Err(OutOfFuel), fs)
    else if e.List? then EvalForm(fuel - 1, e.items, env, fs, prim)
    else Outcome(EvalAtom(e, env, fs), fs)
  }

  /**
   * The dispatch on the head of a List: `quote`, `if`, `set!`, `define` and `lambda` are
   * special when the head is that very symbol, and each first unpacks the List into a fixed
   * number of parts (ValueError when the length is wrong); anything else is an application.
   * An empty List has no head: IndexError.
   */
  function EvalForm(fuel: nat, xs: seq<Value>, env: nat, fs: seq<Frame>, prim: Prim): (o: Outcome<Value>)
    requires StoreOk(fs) && env < |fs| && AllClosed(xs, |fs|)
    ensures StoreOk(o.fs) && Grows(fs, o.fs)
    ensures o.res.Ok? ==> Closed(o.res.value, |o.fs|)
    decreases fuel, 4, 0
  {
    if xs == [] then Outcome(Err(IndexError), fs)
    else if IsSym(xs[0], "quote") then
      if |xs| != 2 then Outcome(Err(ValueError), fs) else Outcome(Ok(xs[1]), fs)
    else if IsSym(xs[0], "if") then
      if |xs| != 4 then Outcome(Err(ValueError), fs) else EvalIf(fuel, xs[1], xs[2], xs[3], env, fs, prim)
    else if IsSym(xs[0], "set!") then
      if |xs| != 3 then Outcome(Err(ValueError), fs) else EvalSet(fuel, xs[1], xs[2], env, fs, prim)
    else if IsSym(xs[0], "define") then
      if |xs| != 3 then Outcome(Err(ValueError), fs) else EvalDefine(fuel, xs[1], xs[2], env, fs, prim)
    else if IsSym(xs[0], "lambda") then
      if |xs| != 3 then Outcome(Err(ValueError), fs) else Outcome(Ok(Lambda(xs[1], xs[2], env)), fs)
    else EvalApp(fuel, xs, env, fs, prim)
  }

  /** `if`: the test is evaluated, then the consequent when the test's value is true, else the alternative. */
  function EvalIf(fuel: nat, test: Value, conseq: Value, alt: Value, env: nat, fs: seq<Frame>, prim: Prim): (o: Outcome<Value>)
    requires StoreOk(fs) && env < |fs| && Closed(test, |fs|) && Closed(conseq, |fs|) && Closed(alt, |fs|)
    ensures StoreOk(o.fs) && Grows(fs, o.fs)
    ensures o.res.Ok? ==> Closed(o.res.value, |o.fs|)
    decreases fuel, 3, 0
  {
    var t := Eval(fuel, test, env, fs, prim);
    if t.res.Err? then Outcome(Err(t.res.error), t.fs)
    else
      var branch := if Truthy(t.res.value) then conseq else alt;
      ClosedMono(branch, |fs|, |t.fs|);
      var o := Eval(fuel, branch, env, t.fs, prim);
      GrowsTrans(fs, t.fs, o.fs);
      o
  }

  /**
   * `set!`: the target must be a Symbol (SyntaxError otherwise, before anything is
   * evaluated); the new value is evaluated first, then the chain is searched for the frame
   * that binds the name (LookupError when none does), and that frame is updated.
   */
  function EvalSet(fuel: nat, target: Value, rhs: Value, env: nat, fs: seq<Frame>, prim: Prim): (o: Outcome<Value>)
    requires StoreOk(fs) && env < |fs| && Closed(rhs, |fs|)
    ensures StoreOk(o.fs) && Grows(fs, o.fs)
    ensures o.res.Ok? ==> o.res.value == Nil
    decreases fuel, 3, 0
  {
    if !target.Symbol? then Outcome(Err(NotSymbolError(target)), fs)
    else
      var r := Eval(fuel, rhs, env, fs, prim);
      if r.res.Err? then Outcome(Err(r.res.error), r.fs)
      else
        match Find(r.fs, env, target.name)
        case None => Outcome(Err(LookupError(target.name)), r.fs)
        case Some(j) =>
          AssignOk(r.fs, j, target.name, r.res.value);
          GrowsTrans(fs, r.fs, Assign(r.fs, j, target.name, r.res.value));
          Outcome(Ok(NilObject), Assign(r.fs, j, target.name, r.res.value))
  }

  /**
   * `define`: the target must be a Symbol; the value is evaluated and bound in the current
   * frame, whatever the outer frames bind.
   */
  function EvalDefine(fuel: nat, target: Value, rhs: Value, env: nat, fs: seq<Frame>, prim: Prim): (o: Outcome<Value>)
    requires StoreOk(fs) && env < |fs| && Closed(rhs, |fs|)
    ensures StoreOk(o.fs) && Grows(fs, o.fs)
    ensures o.res.Ok? ==> o.res.value == Nil
    decreases fuel, 3, 0
  {
    if !target.Symbol? then Outcome(Err(NotSymbolError(target)), fs)
    else
      var r := Eval(fuel, rhs, env, fs, prim);
      if r.res.Err? then Outcome(Err(r.res.error), r.fs)
      else
        AssignOk(r.fs, env, target.name, r.res.value);
        GrowsTrans(fs, r.fs, Assign(r.fs, env, target.name, r.res.value));
        Outcome(Ok(NilObject), Assign(r.fs, env, target.name, r.res.value))
  }

  /** Application: every element is evaluated, left to right; the first is called on the others. */
  function EvalApp(fuel: nat, xs: seq<Value>, env: nat, fs: seq<Frame>, prim: Prim): (o: Outcome<Value>)
    requires StoreOk(fs) && env < |fs| && AllClosed(xs, |fs|) && xs != []
    ensures StoreOk(o.fs) && Grows(fs, o.fs)
    ensures o.res.Ok? ==> Closed(o.res.value, |o.fs|)
    decreases fuel, 3, 0
  {
    var r := EvalList(fuel, xs, env, fs, prim);
    if r.res.Err? then Outcome(Err(r.res.error), r.fs)
    else
      var vs := r.res.value;
      assert AllClosed(vs[1..], |r.fs|) by {
        assert forall i :: 0 <= i < |vs| - 1 ==> vs[1..][i] == vs[i + 1];
      }
      var o := Apply(fuel, vs[0], vs[1..], r.fs, prim);
      GrowsTrans(fs, r.fs, o.fs);
      o
  }

  /** The list comprehension of the application: the elements in order, each in the store the previous one left. */
  function EvalList(fuel: nat, xs: seq<Value>, env: nat, fs: seq<Frame>, prim: Prim): (o: Outcome<seq<Value>>)
    requires StoreOk(fs) && env < |fs| && AllClosed(xs, |fs|)
    ensures StoreOk(o.fs) && Grows(fs, o.fs)
    ensures o.res.Ok? ==> |o.res.value| == |xs| && AllClosed(o.res.value, |o.fs|)
    decreases fuel, 1, |xs|
  {
    if xs == [] then Outcome(Ok([]), fs)
    else
      var r := Eval(fuel, xs[0], env, fs, prim);
      if r.res.Err? then Outcome(Err(r.res.error), r.fs)
      else
        assert AllClosed(xs[1..], |fs|) by {
          assert forall i :: 0 <= i < |xs| - 1 ==> xs[1..][i] == xs[i + 1];
        }
        AllClosedMono(xs[1..], |fs|, |r.fs|);
        var rs := EvalList(fuel, xs[1..], env, r.fs, prim);
        GrowsTrans(fs, r.fs, rs.fs);
        if rs.res.Err? then Outcome(Err(rs.res.error), rs.fs)
        else
          ClosedMono(r.res.value, |r.fs|, |rs.fs|);
          Outcome(Ok([r.res.value] + rs.res.value), rs.fs)
  }

  /**
   * `fn(*args, env=env)`: a closure (`Lambda.__call__`) evaluates its body in a new frame
   * that binds its parameters and whose outer frame is the one it captured; a host
   * procedure goes through CallNative; any other value is not callable.
   */
  function Apply(fuel: nat, fn: Value, args: seq<Value>, fs: seq<Frame>, prim: Prim): (o: Outcome<Value>)
    requires StoreOk(fs) && Closed(fn, |fs|) && AllClosed(args, |fs|)
    ensures StoreOk(o.fs) && Grows(fs, o.fs)
    ensures o.res.Ok? ==> Closed(o.res.value, |o.fs|)
    decreases fuel, 2, 0
  {
    match fn
    case Lambda(parms, body, captured) =>
      (match Bind(parms, args)
       case Err(e) => Outcome(Err(e), fs)
       case Ok(m) =>
         BindClosed(parms, args, |fs|);
         PushOk(fs, m, captured);
         var fs2 := fs + [Frame(m, Some(captured))];
         ClosedMono(body, |fs|, |fs2|);
         var o := Eval(fuel, body, |fs|, fs2, prim);
         GrowsTrans(fs, fs2, o.fs);
         o)
    case Native(id) =>
      var r := CallNative(prim, id, args);
      if r.Ok? then PlainClosed(r.value, |fs|); Outcome(r, fs) else Outcome(r, fs)
    case _ => Outcome(Err(TypeError("object is not callable")), fs)
  }
}

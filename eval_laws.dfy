/**
 * What the evaluator of emlisp/types.py promises, stated over Eval: literals evaluate to
 * themselves, names to their innermost binding, the special forms do what their names say,
 * a closure's body sees its parameters and the frame it captured, and the elements of an
 * application are evaluated from left to right.
 */
module EvalLaws {
  import opened Values
  import opened Boxing
  import opened Frames
  import opened Evaluator

  /** A value that evaluates to itself through `Lispval.eval`. */
  predicate Literal(v: Value) {
    !v.Symbol? && !v.List? && !v.Native? && !v.HostNone?
  }

  /** A name evaluates to its binding in the innermost frame of the chain that binds it, or fails with LookupError. */
  lemma SymbolIsInnermostBinding(f: nat, name: string, env: nat, fs: seq<Frame>, prim: Prim)
    requires StoreOk(fs) && env < |fs|
    ensures var b := FirstBinding(fs, Chain(fs, env), name);
      && (b.None? ==> Eval(f + 1, Symbol(name), env, fs, prim) == Outcome(Err(LookupError(name)), fs))
      && (b.Some? ==> b.value < |fs| && Eval(f + 1, Symbol(name), env, fs, prim) == Outcome(Ok(fs[b.value].vars[name]), fs))
  {
    assert Eval(f + 1, Symbol(name), env, fs, prim) == Outcome(Lookup(fs, env, name), fs);
    FindInnermost(fs, env, name);
  }

  /** The length each special form unpacks its List into. */
  function FormLength(head: string): Option<nat> {
    if head == "quote" then Some(2)
    else if head == "if" then Some(4)
    else if head == "set!" || head == "define" || head == "lambda" then Some(3)
    else None
  }

  /**
   * A special form of the wrong length fails with ValueError before anything is evaluated,
   * and a List with no elements fails with IndexError.
   */
  lemma MalformedForms(f: nat, xs: seq<Value>, env: nat, fs: seq<Frame>, prim: Prim)
    requires StoreOk(fs) && env < |fs| && AllClosed(xs, |fs|)
    ensures xs == [] ==> Eval(f + 1, List(xs), env, fs, prim) == Outcome(Err(IndexError), fs)
    ensures xs != [] && xs[0].Symbol? && FormLength(xs[0].name).Some? && |xs| != FormLength(xs[0].name).value ==>
      Eval(f + 1, List(xs), env, fs, prim) == Outcome(Err(ValueError), fs)
  {
  }

  /**
   * `quote` returns its operand unevaluated, and `lambda` makes a closure over the current
   * frame without evaluating its body: neither can fail nor change the store, whatever the
   * operand or the body.
   */
  lemma QuoteAndLambdaEvaluateNothing(f: nat, x: Value, parms: Value, body: Value, env: nat, fs: seq<Frame>, prim: Prim)
    requires StoreOk(fs) && env < |fs| && Closed(x, |fs|) && Closed(parms, |fs|) && Closed(body, |fs|)
    ensures Eval(f + 1, List([Symbol("quote"), x]), env, fs, prim) == Outcome(Ok(x), fs)
    ensures Eval(f + 1, List([Symbol("lambda"), parms, body]), env, fs, prim) == Outcome(Ok(Lambda(parms, body, env)), fs)
  {
  }

  function If(test: Value, conseq: Value, alt: Value): Value {
    List([Symbol("if"), test, conseq, alt])
  }

  lemma ClosedIf(test: Value, conseq: Value, alt: Value, n: nat)
    requires Closed(test, n) && Closed(conseq, n) && Closed(alt, n)
    ensures Closed(If(test, conseq, alt), n)
  {
    var xs := [Symbol("if"), test, conseq, alt];
    assert forall i :: 0 <= i < 4 ==> Closed(xs[i], n);
  }

  /**
   * `if` evaluates only the branch its test selects: when the test fails or is true, the
   * alternative can be anything; when it is false, the consequent can be anything.
   */
  lemma IfIgnoresOtherBranch(f: nat, test: Value, c: Value, a: Value, c2: Value, a2: Value, env: nat, fs: seq<Frame>, prim: Prim)
    requires StoreOk(fs) && env < |fs|
    requires Closed(test, |fs|) && Closed(c, |fs|) && Closed(a, |fs|) && Closed(c2, |fs|) && Closed(a2, |fs|)
    ensures Closed(If(test, c, a), |fs|) && Closed(If(test, c, a2), |fs|) && Closed(If(test, c2, a), |fs|)
    ensures var t := Eval(f, test, env, fs, prim);
      (t.res.Err? || Truthy(t.res.value)) ==> Eval(f + 1, If(test, c, a), env, fs, prim) == Eval(f + 1, If(test, c, a2), env, fs, prim)
    ensures var t := Eval(f, test, env, fs, prim);
      (t.res.Err? || !Truthy(t.res.value)) ==> Eval(f + 1, If(test, c, a), env, fs, prim) == Eval(f + 1, If(test, c2, a), env, fs, prim)
  {
    ClosedIf(test, c, a, |fs|);
    ClosedIf(test, c, a2, |fs|);
    ClosedIf(test, c2, a, |fs|);
    forall c', a' | Closed(c', |fs|) && Closed(a', |fs|)
      ensures Eval(f + 1, If(test, c', a'), env, fs, prim) == EvalIf(f, test, c', a', env, fs, prim)
    {
      var xs := [Symbol("if"), test, c', a'];
      assert Eval(f + 1, List(xs), env, fs, prim) == EvalForm(f, xs, env, fs, prim);
      assert !IsSym(xs[0], "quote") && IsSym(xs[0], "if");
    }
  }

  /** Every literal test selects the consequent, `#f` and the empty List included. */
  lemma IfLiteralTest(f: nat, test: Value, c: Value, a: Value, env: nat, fs: seq<Frame>, prim: Prim)
    requires StoreOk(fs) && env < |fs| && Closed(test, |fs|) && Closed(c, |fs|) && Closed(a, |fs|)
    requires Literal(test)
    ensures Eval(f + 2, If(test, c, a), env, fs, prim) == Eval(f + 1, c, env, fs, prim)
  {
    var xs := [Symbol("if"), test, c, a];
    assert Eval(f + 2, List(xs), env, fs, prim) == EvalForm(f + 1, xs, env, fs, prim);
    assert !IsSym(xs[0], "quote") && IsSym(xs[0], "if");
    assert EvalForm(f + 1, xs, env, fs, prim) == EvalIf(f + 1, test, c, a, env, fs, prim);
    assert Eval(f + 1, test, env, fs, prim) == Outcome(Ok(test), fs);
  }

  /**
   * `define` evaluates its value, then binds the name in the current frame, and only
   * there: an outer frame that binds the same name keeps its binding. It evaluates to Nil.
   */
  lemma DefineBindsInCurrentFrame(f: nat, name: string, rhs: Value, env: nat, fs: seq<Frame>, prim: Prim)
    requires StoreOk(fs) && env < |fs| && Closed(rhs, |fs|)
    requires Eval(f, rhs, env, fs, prim).res.Ok?
    ensures var r := Eval(f, rhs, env, fs, prim);
      var o := Eval(f + 1, List([Symbol("define"), Symbol(name), rhs]), env, fs, prim);
      && o.res == Ok(Nil)
      && |o.fs| == |r.fs|
      && o.fs[env].vars == r.fs[env].vars[name := r.res.value]
      && (forall i :: 0 <= i < |r.fs| && i != env ==> o.fs[i] == r.fs[i])
      && Lookup(o.fs, env, name) == Ok(r.res.value)
  {
    var xs := [Symbol("define"), Symbol(name), rhs];
    assert Eval(f + 1, List(xs), env, fs, prim) == EvalForm(f, xs, env, fs, prim);
    assert !IsSym(xs[0], "quote") && !IsSym(xs[0], "if") && !IsSym(xs[0], "set!") && IsSym(xs[0], "define");
    assert EvalForm(f, xs, env, fs, prim) == EvalDefine(f, Symbol(name), rhs, env, fs, prim);
    var r := Eval(f, rhs, env, fs, prim);
    AssignThenLookup(r.fs, env, env, name, r.res.value);
  }

  /**
   * `set!` evaluates its value, then updates the innermost frame of the chain that binds
   * the name, and only that frame; when no frame binds it, it fails with LookupError and
   * binds nothing. It evaluates to Nil.
   */
  lemma SetUpdatesBindingFrame(f: nat, name: string, rhs: Value, env: nat, fs: seq<Frame>, prim: Prim)
    requires StoreOk(fs) && env < |fs| && Closed(rhs, |fs|)
    requires Eval(f, rhs, env, fs, prim).res.Ok?
    ensures var r := Eval(f, rhs, env, fs, prim);
      var o := Eval(f + 1, List([Symbol("set!"), Symbol(name), rhs]), env, fs, prim);
      Find(r.fs, env, name).None? ==> o == Outcome(Err(LookupError(name)), r.fs)
    ensures var r := Eval(f, rhs, env, fs, prim);
      var o := Eval(f + 1, List([Symbol("set!"), Symbol(name), rhs]), env, fs, prim);
      var j := Find(r.fs, env, name);
      j.Some? ==>
        && o.res == Ok(Nil)
        && |o.fs| == |r.fs|
        && o.fs[j.value].vars == r.fs[j.value].vars[name := r.res.value]
        && (forall i :: 0 <= i < |r.fs| && i != j.value ==> o.fs[i] == r.fs[i])
        && Lookup(o.fs, env, name) == Ok(r.res.value)
  {
    var xs := [Symbol("set!"), Symbol(name), rhs];
    assert Eval(f + 1, List(xs), env, fs, prim) == EvalForm(f, xs, env, fs, prim);
    assert !IsSym(xs[0], "quote") && !IsSym(xs[0], "if") && IsSym(xs[0], "set!");
    assert EvalForm(f, xs, env, fs, prim) == EvalSet(f, Symbol(name), rhs, env, fs, prim);
    var r := Eval(f, rhs, env, fs, prim);
    var j := Find(r.fs, env, name);
    if j.Some? {
      AssignThenLookup(r.fs, env, j.value, name, r.res.value);
    }
  }

  /** The target of `define` must be a Symbol: anything else fails before the value is evaluated. */
  lemma DefineTargetMustBeSymbol(f: nat, target: Value, rhs: Value, env: nat, fs: seq<Frame>, prim: Prim)
    requires StoreOk(fs) && env < |fs| && Closed(target, |fs|) && Closed(rhs, |fs|)
    requires !target.Symbol?
    ensures Eval(f + 1, List([Symbol("define"), target, rhs]), env, fs, prim) == Outcome(Err(NotSymbolError(target)), fs)
  {
    var ds := [Symbol("define"), target, rhs];
    assert Eval(f + 1, List(ds), env, fs, prim) == EvalForm(f, ds, env, fs, prim);
    assert !IsSym(ds[0], "quote") && !IsSym(ds[0], "if") && !IsSym(ds[0], "set!") && IsSym(ds[0], "define");
    assert EvalForm(f, ds, env, fs, prim) == EvalDefine(f, target, rhs, env, fs, prim);
  }

  /** The same for `set!`; the message shows the target as `str` would, e.g. `Not a symbol: "1"`. */
  lemma SetTargetMustBeSymbol(f: nat, target: Value, rhs: Value, env: nat, fs: seq<Frame>, prim: Prim)
    requires StoreOk(fs) && env < |fs| && Closed(target, |fs|) && Closed(rhs, |fs|)
    requires !target.Symbol?
    ensures Eval(f + 1, List([Symbol("set!"), target, rhs]), env, fs, prim) == Outcome(Err(NotSymbolError(target)), fs)
    ensures NotSymbolError(Numeric(1)) == SyntaxError("Not a symbol: \"1\"")
  {
    var ss := [Symbol("set!"), target, rhs];
    assert Eval(f + 1, List(ss), env, fs, prim) == EvalForm(f, ss, env, fs, prim);
    assert !IsSym(ss[0], "quote") && !IsSym(ss[0], "if") && IsSym(ss[0], "set!");
    assert EvalForm(f, ss, env, fs, prim) == EvalSet(f, target, rhs, env, fs, prim);
    assert NatToString(1) == "1";
    assert Display(Numeric(1)) == "1";
  }

  /**
   * A target that is not a Symbol is reported as a SyntaxError showing it, unless it is a
   * List holding a host procedure or None, which cannot be displayed.
   */
  lemma NotSymbolErrorKind(v: Value, n: nat)
    ensures NotSymbolError(v) == AttributeError <==> v.List? && !Printable(v)
    ensures NotSymbolError(v) != AttributeError ==> NotSymbolError(v) == SyntaxError("Not a symbol: \"" + Display(v) + "\"")
    ensures NotSymbolError(Native(n)).SyntaxError? && NotSymbolError(HostNone).SyntaxError?
    ensures NotSymbolError(List([Numeric(1), HostNone])) == AttributeError
  {
    assert !Printable([Numeric(1), HostNone][1]);
  }

  /**
   * A call of any value. A closure binds its parameters as `Env(parms, args, outer)` does:
   * when that raises, the call fails with the same error and adds no frame; otherwise the
   * body is evaluated in a new frame at the end of the store whose outer frame is the
   * captured one. A value that is neither a closure nor a host procedure cannot be called.
   */
  lemma ApplyLaw(f: nat, fn: Value, args: seq<Value>, fs: seq<Frame>, prim: Prim)
    requires StoreOk(fs) && Closed(fn, |fs|) && AllClosed(args, |fs|)
    ensures fn.Lambda? && Bind(fn.parms, args).Err? ==>
      Apply(f, fn, args, fs, prim) == Outcome(Err(Bind(fn.parms, args).error), fs)
    ensures fn.Lambda? && Bind(fn.parms, args).Ok? ==>
      var fs2 := fs + [Frame(Bind(fn.parms, args).value, Some(fn.env))];
      && StoreOk(fs2)
      && Closed(fn.body, |fs2|)
      && Apply(f, fn, args, fs, prim) == Eval(f, fn.body, |fs|, fs2, prim)
    ensures !fn.Lambda? && !fn.Native? ==>
      Apply(f, fn, args, fs, prim) == Outcome(Err(TypeError("object is not callable")), fs)
  {
    if fn.Lambda? && Bind(fn.parms, args).Ok? {
      var m := Bind(fn.parms, args).value;
      BindClosed(fn.parms, args, |fs|);
      PushOk(fs, m, fn.env);
      ClosedMono(fn.body, |fs|, |fs| + 1);
    }
  }

  /**
   * A call of a closure with a List of distinct names: a wrong number of arguments adds no
   * frame and fails as the arity check does (a TypeError naming both sides when they can
   * be displayed); otherwise the body is evaluated in a new
   * frame at the end of the store whose outer frame is the captured one.
   */
  lemma ApplyClosure(f: nat, ps: seq<Value>, body: Value, captured: nat, args: seq<Value>, fs: seq<Frame>, prim: Prim)
    requires StoreOk(fs) && Closed(Lambda(List(ps), body, captured), |fs|) && AllClosed(args, |fs|)
    requires DistinctSymbols(ps)
    ensures |ps| != |args| ==>
      Apply(f, Lambda(List(ps), body, captured), args, fs, prim) == Outcome(Err(ArityError(List(ps), args)), fs)
    ensures |ps| == |args| ==>
      var fs2 := fs + [Frame(Zip(ps, args), Some(captured))];
      && StoreOk(fs2)
      && Closed(body, |fs2|)
      && Apply(f, Lambda(List(ps), body, captured), args, fs, prim) == Eval(f, body, |fs|, fs2, prim)
  {
    if |ps| == |args| {
      assert !exists i :: 0 <= i < |ps| && NoValueAttr(ps[i]);
      assert !exists i :: 0 <= i < |ps| && ps[i].List?;
      assert Bind(List(ps), args) == Ok(Zip(ps, args));
      ZipClosed(ps, args, |fs|);
      PushOk(fs, Zip(ps, args), captured);
      ClosedMono(body, |fs|, |fs| + 1);
    }
  }

  /**
   * Lexical scope: from the frame of a call, each parameter names its argument, and every
   * other name means what it means from the captured frame, whatever the caller's frame binds.
   */
  lemma CallFrameScope(fs: seq<Frame>, ps: seq<Value>, args: seq<Value>, captured: nat)
    requires Linked(fs) && captured < |fs| && |ps| == |args| && DistinctSymbols(ps)
    ensures var fs2 := fs + [Frame(Zip(ps, args), Some(captured))];
      && Linked(fs2)
      && (forall i :: 0 <= i < |ps| ==> Lookup(fs2, |fs|, ps[i].name) == Ok(args[i]))
      && (forall x :: x !in Zip(ps, args) ==> Lookup(fs2, |fs|, x) == Lookup(fs, captured, x))
  {
    var fs2 := fs + [Frame(Zip(ps, args), Some(captured))];
    assert fs2[|fs|] == Frame(Zip(ps, args), Some(captured));
    ZipValues(ps, args);
    forall x | x !in Zip(ps, args)
      ensures Lookup(fs2, |fs|, x) == Lookup(fs, captured, x)
    {
      FindAppend(fs, Frame(Zip(ps, args), Some(captured)), captured, x);
    }
  }

  /**
   * A call of a host procedure leaves the store alone; it succeeds exactly when every
   * argument unboxes, the procedure returns, and its result boxes; and the value it gives
   * unboxes to what the procedure returned.
   */
  lemma NativeCall(f: nat, id: nat, args: seq<Value>, fs: seq<Frame>, prim: Prim)
    requires StoreOk(fs) && AllClosed(args, |fs|)
    ensures Apply(f, Native(id), args, fs, prim).fs == fs
    ensures var o := Apply(f, Native(id), args, fs, prim);
      o.res.Ok? <==> UnboxSeq(args).Ok? && prim(id, UnboxSeq(args).value).Ok? && Supported(prim(id, UnboxSeq(args).value).value)
    ensures var o := Apply(f, Native(id), args, fs, prim);
      o.res.Ok? ==> Unbox(o.res.value) == prim(id, UnboxSeq(args).value)
  {
    var o := Apply(f, Native(id), args, fs, prim);
    if o.res.Ok? {
      UnboxBox(prim(id, UnboxSeq(args).value).value);
    }
  }

  lemma AllClosedSplit(xs: seq<Value>, ys: seq<Value>, n: nat)
    requires AllClosed(xs, n) && AllClosed(ys, n)
    ensures AllClosed(xs + ys, n)
    ensures xs != [] ==> AllClosed(xs[1..], n) && (xs + ys)[0] == xs[0] && (xs + ys)[1..] == xs[1..] + ys
  {
    assert forall i :: 0 <= i < |xs + ys| ==> (xs + ys)[i] == if i < |xs| then xs[i] else ys[i - |xs|];
    if xs != [] {
      assert forall i :: 0 <= i < |xs| - 1 ==> xs[1..][i] == xs[i + 1];
    }
  }

  /** Sequential composition: after the outcome `a`, unless it failed, evaluate `ys` in the store it left. */
  function ThenList(f: nat, a: Outcome<seq<Value>>, ys: seq<Value>, env: nat, prim: Prim): Outcome<seq<Value>>
    requires StoreOk(a.fs) && env < |a.fs| && AllClosed(ys, |a.fs|)
  {
    if a.res.Err? then Outcome(Err(a.res.error), a.fs)
    else
      var b := EvalList(f, ys, env, a.fs, prim);
      if b.res.Err? then Outcome(Err(b.res.error), b.fs) else Outcome(Ok(a.res.value + b.res.value), b.fs)
  }

  /** A value in front of the values of an outcome, unless it failed. */
  function Cons(v: Value, o: Outcome<seq<Value>>): Outcome<seq<Value>> {
    if o.res.Err? then o else Outcome(Ok([v] + o.res.value), o.fs)
  }

  lemma ConsThen(f: nat, v: Value, a: Outcome<seq<Value>>, ys: seq<Value>, env: nat, prim: Prim)
    requires StoreOk(a.fs) && env < |a.fs| && AllClosed(ys, |a.fs|)
    ensures ThenList(f, Cons(v, a), ys, env, prim) == Cons(v, ThenList(f, a, ys, env, prim))
  {
    if a.res.Ok? {
      var b := EvalList(f, ys, env, a.fs, prim);
      if b.res.Ok? {
        assert [v] + (a.res.value + b.res.value) == ([v] + a.res.value) + b.res.value;
      }
    }
  }

  /** The first step of EvalList: the head's value in front of the rest's, evaluated in the head's store. */
  lemma EvalListStep(f: nat, xs: seq<Value>, env: nat, fs: seq<Frame>, prim: Prim)
    requires StoreOk(fs) && env < |fs| && AllClosed(xs, |fs|) && xs != []
    requires Eval(f, xs[0], env, fs, prim).res.Ok?
    ensures AllClosed(xs[1..], |Eval(f, xs[0], env, fs, prim).fs|)
    ensures var r := Eval(f, xs[0], env, fs, prim);
      EvalList(f, xs, env, fs, prim) == Cons(r.res.value, EvalList(f, xs[1..], env, r.fs, prim))
  {
    var r := Eval(f, xs[0], env, fs, prim);
    assert AllClosed(xs[1..], |fs|) by {
      assert forall i :: 0 <= i < |xs| - 1 ==> xs[1..][i] == xs[i + 1];
    }
    AllClosedMono(xs[1..], |fs|, |r.fs|);
  }

  /**
   * Left to right: evaluating `xs + ys` is evaluating `xs`, then `ys` in the store `xs`
   * left; an error in `xs` stops there and `ys` is never evaluated.
   */
  lemma {:induction false} EvalListAppend(f: nat, xs: seq<Value>, ys: seq<Value>, env: nat, fs: seq<Frame>, prim: Prim)
    requires StoreOk(fs) && env < |fs| && AllClosed(xs, |fs|) && AllClosed(ys, |fs|)
    ensures AllClosed(xs + ys, |fs|)
    ensures AllClosed(ys, |EvalList(f, xs, env, fs, prim).fs|)
    ensures EvalList(f, xs + ys, env, fs, prim) == ThenList(f, EvalList(f, xs, env, fs, prim), ys, env, prim)
    decreases |xs|
  {
    AllClosedSplit(xs, ys, |fs|);
    var a := EvalList(f, xs, env, fs, prim);
    AllClosedMono(ys, |fs|, |a.fs|);
    if xs == [] {
      assert xs + ys == ys;
      var b := EvalList(f, ys, env, fs, prim);
      if b.res.Ok? {
        assert a.res.value + b.res.value == b.res.value;
      }
    } else {
      var r := Eval(f, xs[0], env, fs, prim);
      if r.res.Ok? {
        EvalListStep(f, xs, env, fs, prim);
        EvalListStep(f, xs + ys, env, fs, prim);
        AllClosedMono(ys, |fs|, |r.fs|);
        EvalListAppend(f, xs[1..], ys, env, r.fs, prim);
        ConsThen(f, r.res.value, EvalList(f, xs[1..], env, r.fs, prim), ys, env, prim);
      }
    }
  }

  /** One literal element evaluates to itself. */
  lemma EvalListLiteral(f: nat, v: Value, env: nat, fs: seq<Frame>, prim: Prim)
    requires StoreOk(fs) && env < |fs| && Closed(v, |fs|) && Literal(v)
    ensures EvalList(f + 1, [v], env, fs, prim) == Outcome(Ok([v]), fs)
  {
    var r := Eval(f + 1, v, env, fs, prim);
    assert r == Outcome(Ok(v), fs);
    assert [v][1..] == [];
    var rs := EvalList(f + 1, [v][1..], env, r.fs, prim);
    assert rs == Outcome(Ok([]), fs);
    assert [v] + [] == [v];
  }

  /** `(define x 5)` then `x`, as two elements of one application: the second sees the first's binding. */
  lemma DefineThenUse(f: nat, env: nat, fs: seq<Frame>, prim: Prim)
    requires StoreOk(fs) && env < |fs|
    ensures EvalList(f + 2, [List([Symbol("define"), Symbol("x"), Numeric(5)]), Symbol("x")], env, fs, prim)
      == Outcome(Ok([Nil, Numeric(5)]), Assign(fs, env, "x", Numeric(5)))
  {
    var d := [Symbol("define"), Symbol("x"), Numeric(5)];
    var xs := [List(d), Symbol("x")];
    var fs1 := Assign(fs, env, "x", Numeric(5));
    DefineFive(f, env, fs, prim);
    AssignOk(fs, env, "x", Numeric(5));
    AssignThenLookup(fs, env, env, "x", Numeric(5));
    var r := Eval(f + 2, Symbol("x"), env, fs1, prim);
    assert r == Outcome(Ok(Numeric(5)), fs1);
    assert xs[1..] == [Symbol("x")] && [Symbol("x")][1..] == [];
    var rs := EvalList(f + 2, [Symbol("x")][1..], env, fs1, prim);
    assert rs == Outcome(Ok([]), fs1);
    assert [Numeric(5)] + [] == [Numeric(5)];
    assert EvalList(f + 2, xs[1..], env, fs1, prim) == Outcome(Ok([Numeric(5)]), fs1);
    assert [Nil] + [Numeric(5)] == [Nil, Numeric(5)];
  }

  lemma DefineFive(f: nat, env: nat, fs: seq<Frame>, prim: Prim)
    requires StoreOk(fs) && env < |fs|
    ensures Closed(List([Symbol("define"), Symbol("x"), Numeric(5)]), |fs|)
    ensures Eval(f + 2, List([Symbol("define"), Symbol("x"), Numeric(5)]), env, fs, prim) == Outcome(Ok(Nil), Assign(fs, env, "x", Numeric(5)))
  {
    var d := [Symbol("define"), Symbol("x"), Numeric(5)];
    assert forall i :: 0 <= i < 3 ==> Closed(d[i], |fs|);
    assert Eval(f + 2, List(d), env, fs, prim) == EvalForm(f + 1, d, env, fs, prim);
    assert !IsSym(d[0], "quote") && !IsSym(d[0], "if") && !IsSym(d[0], "set!") && IsSym(d[0], "define");
    assert EvalForm(f + 1, d, env, fs, prim) == EvalDefine(f + 1, Symbol("x"), Numeric(5), env, fs, prim);
    assert Eval(f + 1, Numeric(5), env, fs, prim) == Outcome(Ok(Numeric(5)), fs);
  }

  /** The elements of `((lambda (x) x) 7)`: a closure over the current frame, and 7. */
  lemma IdentityElements(f: nat, env: nat, fs: seq<Frame>, prim: Prim)
    requires StoreOk(fs) && env < |fs|
    ensures var xs := [List([Symbol("lambda"), List([Symbol("x")]), Symbol("x")]), Numeric(7)];
      && AllClosed(xs, |fs|)
      && EvalList(f + 1, xs, env, fs, prim) == Outcome(Ok([Lambda(List([Symbol("x")]), Symbol("x"), env), Numeric(7)]), fs)
  {
    var ps := [Symbol("x")];
    var lam := [Symbol("lambda"), List(ps), Symbol("x")];
    var xs := [List(lam), Numeric(7)];
    assert Closed(List(ps), |fs|) by {
      assert Closed(ps[0], |fs|);
    }
    assert forall i :: 0 <= i < 3 ==> Closed(lam[i], |fs|);
    assert AllClosed(xs, |fs|);
    QuoteAndLambdaEvaluateNothing(f, Nil, List(ps), Symbol("x"), env, fs, prim);
    var clo := Lambda(List(ps), Symbol("x"), env);
    assert Eval(f + 1, xs[0], env, fs, prim) == Outcome(Ok(clo), fs);
    assert xs[1..] == [Numeric(7)];
    EvalListLiteral(f, Numeric(7), env, fs, prim);
    assert [clo] + [Numeric(7)] == [clo, Numeric(7)];
  }

  /** `((lambda (x) x) 7)` is 7, evaluated in a new frame that binds `x` to 7 and whose outer frame is the caller's. */
  lemma IdentityApplication(f: nat, env: nat, fs: seq<Frame>, prim: Prim)
    requires StoreOk(fs) && env < |fs|
    ensures Eval(f + 2, List([List([Symbol("lambda"), List([Symbol("x")]), Symbol("x")]), Numeric(7)]), env, fs, prim)
      == Outcome(Ok(Numeric(7)), fs + [Frame(map["x" := Numeric(7)], Some(env))])
  {
    var ps := [Symbol("x")];
    var xs := [List([Symbol("lambda"), List(ps), Symbol("x")]), Numeric(7)];
    IdentityElements(f, env, fs, prim);
    assert Eval(f + 2, List(xs), env, fs, prim) == EvalForm(f + 1, xs, env, fs, prim);
    assert EvalForm(f + 1, xs, env, fs, prim) == EvalApp(f + 1, xs, env, fs, prim);
    var clo := Lambda(List(ps), Symbol("x"), env);
    assert [clo, Numeric(7)][1..] == [Numeric(7)];
    assert EvalApp(f + 1, xs, env, fs, prim) == Apply(f + 1, clo, [Numeric(7)], fs, prim);
    IdentityCall(f, env, fs, prim);
  }

  lemma IdentityCall(f: nat, env: nat, fs: seq<Frame>, prim: Prim)
    requires StoreOk(fs) && env < |fs|
    ensures Closed(Lambda(List([Symbol("x")]), Symbol("x"), env), |fs|) && AllClosed([Numeric(7)], |fs|)
    ensures Apply(f + 1, Lambda(List([Symbol("x")]), Symbol("x"), env), [Numeric(7)], fs, prim)
      == Outcome(Ok(Numeric(7)), fs + [Frame(map["x" := Numeric(7)], Some(env))])
  {
    var ps := [Symbol("x")];
    assert Closed(List(ps), |fs|) by {
      assert Closed(ps[0], |fs|);
    }
    assert Zip(ps, [Numeric(7)]) == map["x" := Numeric(7)] by {
      assert ps[..0] == [];
    }
    ApplyClosure(f + 1, ps, Symbol("x"), env, [Numeric(7)], fs, prim);
    var fs2 := fs + [Frame(map["x" := Numeric(7)], Some(env))];
    assert Find(fs2, |fs|, "x") == Some(|fs|);
  }

  /** `(1 2)`: a number is not a procedure. */
  lemma NumberIsNotCallable(f: nat, env: nat, fs: seq<Frame>, prim: Prim)
    requires StoreOk(fs) && env < |fs|
    ensures Eval(f + 2, List([Numeric(1), Numeric(2)]), env, fs, prim) == Outcome(Err(TypeError("object is not callable")), fs)
  {
    var xs := [Numeric(1), Numeric(2)];
    assert Eval(f + 2, List(xs), env, fs, prim) == EvalForm(f + 1, xs, env, fs, prim);
    assert EvalForm(f + 1, xs, env, fs, prim) == EvalApp(f + 1, xs, env, fs, prim);
    assert xs[1..] == [Numeric(2)];
    EvalListLiteral(f, Numeric(2), env, fs, prim);
    assert Eval(f + 1, xs[0], env, fs, prim) == Outcome(Ok(Numeric(1)), fs);
    assert [Numeric(1)] + [Numeric(2)] == xs;
    assert EvalList(f + 1, xs, env, fs, prim) == Outcome(Ok(xs), fs);
  }
}

/**
 * How the older evaluator (emlisp/environment.py) relates to the newer one (emlisp/types.py):
 * on expressions that use neither `set!`, `define` nor `lambda` they agree, store included;
 * `define` binds the same way in both but gives the host's None in the older one, which an
 * `if` then takes as false; and `lambda` and `set!` are not special forms there.
 */
module LegacyLaws {
  import opened Values
  import opened Frames
  import opened Evaluator
  import opened EvalLaws
  import opened LegacyEvaluator

  /** The head of a form only the newer evaluator treats specially (or differently: `define`). */
  predicate NewFormHead(h: Value) {
    IsSym(h, "set!") || IsSym(h, "define") || IsSym(h, "lambda")
  }

  /** No List anywhere in `e` is headed by `set!`, `define` or `lambda`. */
  predicate Agreeable(e: Value)
    decreases e
  {
    match e
    case List(xs) => (xs == [] || !NewFormHead(xs[0])) && forall i :: 0 <= i < |xs| ==> Agreeable(xs[i])
    case _ => true
  }

  /** On such expressions the two evaluators give the same outcome, with the same fuel. */
  lemma {:induction false} LegacyAgrees(f: nat, e: Value, env: nat, fs: seq<Frame>, prim: Prim)
    requires StoreOk(fs) && env < |fs| && Closed(e, |fs|) && Agreeable(e)
    ensures LegacyEval(f, e, env, fs, prim) == Eval(f, e, env, fs, prim)
    decreases f, 0, 0
  {
    if f > 0 && e.List? {
      FormAgrees(f - 1, e.items, env, fs, prim);
    }
  }

  lemma {:induction false} FormAgrees(f: nat, xs: seq<Value>, env: nat, fs: seq<Frame>, prim: Prim)
    requires StoreOk(fs) && env < |fs| && AllClosed(xs, |fs|)
    requires xs == [] || !NewFormHead(xs[0])
    requires forall i :: 0 <= i < |xs| ==> Agreeable(xs[i])
    ensures LegacyForm(f, xs, env, fs, prim) == EvalForm(f, xs, env, fs, prim)
    decreases f, 3, 0
  {
    if xs == [] || IsSym(xs[0], "quote") {
    } else if IsSym(xs[0], "if") {
      if |xs| == 4 {
        assert LegacyForm(f, xs, env, fs, prim) == LegacyIf(f, xs[1], xs[2], xs[3], env, fs, prim);
        assert EvalForm(f, xs, env, fs, prim) == EvalIf(f, xs[1], xs[2], xs[3], env, fs, prim);
        IfAgrees(f, xs[1], xs[2], xs[3], env, fs, prim);
      }
    } else {
      assert LegacyForm(f, xs, env, fs, prim) == LegacyApp(f, xs, env, fs, prim);
      assert EvalForm(f, xs, env, fs, prim) == EvalApp(f, xs, env, fs, prim);
      AppAgrees(f, xs, env, fs, prim);
    }
  }

  lemma {:induction false} IfAgrees(f: nat, test: Value, c: Value, a: Value, env: nat, fs: seq<Frame>, prim: Prim)
    requires StoreOk(fs) && env < |fs| && Closed(test, |fs|) && Closed(c, |fs|) && Closed(a, |fs|)
    requires Agreeable(test) && Agreeable(c) && Agreeable(a)
    ensures LegacyIf(f, test, c, a, env, fs, prim) == EvalIf(f, test, c, a, env, fs, prim)
    decreases f, 2, 0
  {
    LegacyAgrees(f, test, env, fs, prim);
    LegacyIfSteps(f, test, c, a, env, fs, prim);
    EvalIfSteps(f, test, c, a, env, fs, prim);
    var t := Eval(f, test, env, fs, prim);
    if t.res.Ok? {
      LegacyAgrees(f, if Truthy(t.res.value) then c else a, env, t.fs, prim);
    }
  }

  /** LegacyIf: the test, then the branch it picks, in the store the test left. */
  lemma LegacyIfSteps(f: nat, test: Value, c: Value, a: Value, env: nat, fs: seq<Frame>, prim: Prim)
    requires StoreOk(fs) && env < |fs| && Closed(test, |fs|) && Closed(c, |fs|) && Closed(a, |fs|)
    ensures var t := LegacyEval(f, test, env, fs, prim);
      && Closed(c, |t.fs|) && Closed(a, |t.fs|)
      && LegacyIf(f, test, c, a, env, fs, prim) ==
        if t.res.Err? then Outcome(Err(t.res.error), t.fs)
        else LegacyEval(f, if Truthy(t.res.value) then c else a, env, t.fs, prim)
  {
    var t := LegacyEval(f, test, env, fs, prim);
    ClosedMono(c, |fs|, |t.fs|);
    ClosedMono(a, |fs|, |t.fs|);
  }

  /** EvalIf: the test, then the branch it picks, in the store the test left. */
  lemma EvalIfSteps(f: nat, test: Value, c: Value, a: Value, env: nat, fs: seq<Frame>, prim: Prim)
    requires StoreOk(fs) && env < |fs| && Closed(test, |fs|) && Closed(c, |fs|) && Closed(a, |fs|)
    ensures var t := Eval(f, test, env, fs, prim);
      && Closed(c, |t.fs|) && Closed(a, |t.fs|)
      && EvalIf(f, test, c, a, env, fs, prim) ==
        if t.res.Err? then Outcome(Err(t.res.error), t.fs)
        else Eval(f, if Truthy(t.res.value) then c else a, env, t.fs, prim)
  {
    var t := Eval(f, test, env, fs, prim);
    ClosedMono(c, |fs|, |t.fs|);
    ClosedMono(a, |fs|, |t.fs|);
  }

  lemma {:induction false} AppAgrees(f: nat, xs: seq<Value>, env: nat, fs: seq<Frame>, prim: Prim)
    requires StoreOk(fs) && env < |fs| && AllClosed(xs, |fs|) && xs != []
    requires forall i :: 0 <= i < |xs| ==> Agreeable(xs[i])
    ensures LegacyApp(f, xs, env, fs, prim) == EvalApp(f, xs, env, fs, prim)
    decreases f, 2, 0
  {
    LegacyAgrees(f, xs[0], env, fs, prim);
    var h := Eval(f, xs[0], env, fs, prim);
    if h.res.Ok? {
      EvalListStep(f, xs, env, fs, prim);
      assert forall i :: 0 <= i < |xs| - 1 ==> xs[1..][i] == xs[i + 1];
      ListAgrees(f, xs[1..], env, h.fs, prim);
      var r := EvalList(f, xs[1..], env, h.fs, prim);
      if r.res.Ok? {
        var vs := [h.res.value] + r.res.value;
        assert vs[0] == h.res.value && vs[1..] == r.res.value;
      }
    }
  }

  lemma {:induction false} ListAgrees(f: nat, xs: seq<Value>, env: nat, fs: seq<Frame>, prim: Prim)
    requires StoreOk(fs) && env < |fs| && AllClosed(xs, |fs|)
    requires forall i :: 0 <= i < |xs| ==> Agreeable(xs[i])
    ensures LegacyEvalList(f, xs, env, fs, prim) == EvalList(f, xs, env, fs, prim)
    decreases f, 1, |xs|
  {
    if xs != [] {
      LegacyAgrees(f, xs[0], env, fs, prim);
      var r := Eval(f, xs[0], env, fs, prim);
      if r.res.Ok? {
        EvalListStep(f, xs, env, fs, prim);
        assert forall i :: 0 <= i < |xs| - 1 ==> xs[1..][i] == xs[i + 1];
        ListAgrees(f, xs[1..], env, r.fs, prim);
      }
    }
  }

  /**
   * Outside a List the older evaluator defers to the value's own `eval`: a name is looked up
   * through the chain, a procedure or the host's None has no `eval`, anything else is
   * itself. `(quote x)` gives `x` unevaluated; neither touches the store.
   */
  lemma LegacyAtomsAndQuote(f: nat, e: Value, x: Value, env: nat, fs: seq<Frame>, prim: Prim)
    requires StoreOk(fs) && env < |fs| && Closed(e, |fs|) && Closed(x, |fs|) && !e.List?
    ensures e.Symbol? ==> LegacyEval(f + 1, e, env, fs, prim) == Outcome(Lookup(fs, env, e.name), fs)
    ensures e.Native? || e.HostNone? ==> LegacyEval(f + 1, e, env, fs, prim) == Outcome(Err(AttributeError), fs)
    ensures !e.Symbol? && !e.Native? && !e.HostNone? ==> LegacyEval(f + 1, e, env, fs, prim) == Outcome(Ok(e), fs)
    ensures LegacyEval(f + 1, List([Symbol("quote"), x]), env, fs, prim) == Outcome(Ok(x), fs)
  {
    var xs := [Symbol("quote"), x];
    assert AllClosed(xs, |fs|) by {
      assert forall i :: 0 <= i < 2 ==> xs[i] == x || xs[i] == Symbol("quote");
    }
    assert LegacyEval(f + 1, List(xs), env, fs, prim) == LegacyForm(f, xs, env, fs, prim);
    assert IsSym(xs[0], "quote");
  }

  /** The older `define` also refuses a target that is not a Symbol, before evaluating anything. */
  lemma LegacyDefineTarget(f: nat, target: Value, rhs: Value, env: nat, fs: seq<Frame>, prim: Prim)
    requires StoreOk(fs) && env < |fs| && Closed(target, |fs|) && Closed(rhs, |fs|)
    requires !target.Symbol?
    ensures LegacyEval(f + 1, List([Symbol("define"), target, rhs]), env, fs, prim) == Outcome(Err(NotSymbolError(target)), fs)
  {
    var ds := [Symbol("define"), target, rhs];
    assert LegacyEval(f + 1, List(ds), env, fs, prim) == LegacyForm(f, ds, env, fs, prim);
    assert !IsSym(ds[0], "quote") && !IsSym(ds[0], "if") && IsSym(ds[0], "define");
    assert LegacyForm(f, ds, env, fs, prim) == LegacyDefine(f, target, rhs, env, fs, prim);
  }

  /**
   * `define` changes the store in the same way in both evaluators; the newer one gives Nil,
   * the older one the host's None.
   */
  lemma DefineResultsDiffer(f: nat, name: string, rhs: Value, env: nat, fs: seq<Frame>, prim: Prim)
    requires StoreOk(fs) && env < |fs| && Closed(rhs, |fs|) && Agreeable(rhs)
    requires Eval(f, rhs, env, fs, prim).res.Ok?
    ensures Closed(List([Symbol("define"), Symbol(name), rhs]), |fs|)
    ensures Eval(f + 1, List([Symbol("define"), Symbol(name), rhs]), env, fs, prim).res == Ok(Nil)
    ensures LegacyEval(f + 1, List([Symbol("define"), Symbol(name), rhs]), env, fs, prim)
      == Outcome(Ok(HostNone), Eval(f + 1, List([Symbol("define"), Symbol(name), rhs]), env, fs, prim).fs)
  {
    var xs := [Symbol("define"), Symbol(name), rhs];
    assert forall i :: 0 <= i < 3 ==> Closed(xs[i], |fs|);
    assert !IsSym(xs[0], "quote") && !IsSym(xs[0], "if") && !IsSym(xs[0], "set!") && IsSym(xs[0], "define");
    assert Eval(f + 1, List(xs), env, fs, prim) == EvalForm(f, xs, env, fs, prim);
    assert EvalForm(f, xs, env, fs, prim) == EvalDefine(f, Symbol(name), rhs, env, fs, prim);
    assert LegacyEval(f + 1, List(xs), env, fs, prim) == LegacyForm(f, xs, env, fs, prim);
    assert LegacyForm(f, xs, env, fs, prim) == LegacyDefine(f, Symbol(name), rhs, env, fs, prim);
    LegacyAgrees(f, rhs, env, fs, prim);
  }

  /**
   * `(if (define x 5) 1 2)`: the newer evaluator takes the consequent, since Nil is true;
   * the older one takes the alternative, since None is false. Both bind `x`.
   */
  lemma IfOnDefine(f: nat, env: nat, fs: seq<Frame>, prim: Prim)
    requires StoreOk(fs) && env < |fs|
    ensures var d := List([Symbol("define"), Symbol("x"), Numeric(5)]);
      && Closed(d, |fs|)
      && Eval(f + 3, If(d, Numeric(1), Numeric(2)), env, fs, prim) == Outcome(Ok(Numeric(1)), Assign(fs, env, "x", Numeric(5)))
      && LegacyEval(f + 3, If(d, Numeric(1), Numeric(2)), env, fs, prim) == Outcome(Ok(Numeric(2)), Assign(fs, env, "x", Numeric(5)))
  {
    var d := List([Symbol("define"), Symbol("x"), Numeric(5)]);
    DefineFive(f, env, fs, prim);
    DefineResultsDiffer(f + 1, "x", Numeric(5), env, fs, prim);
    var fs1 := Assign(fs, env, "x", Numeric(5));
    AssignOk(fs, env, "x", Numeric(5));
    var xs := [Symbol("if"), d, Numeric(1), Numeric(2)];
    ClosedIf(d, Numeric(1), Numeric(2), |fs|);
    assert !IsSym(xs[0], "quote") && IsSym(xs[0], "if");
    assert Eval(f + 3, List(xs), env, fs, prim) == EvalIf(f + 2, d, Numeric(1), Numeric(2), env, fs, prim);
    assert LegacyEval(f + 3, List(xs), env, fs, prim) == LegacyIf(f + 2, d, Numeric(1), Numeric(2), env, fs, prim);
    EvalIfSteps(f + 2, d, Numeric(1), Numeric(2), env, fs, prim);
    LegacyIfSteps(f + 2, d, Numeric(1), Numeric(2), env, fs, prim);
    assert Eval(f + 2, Numeric(1), env, fs1, prim) == Outcome(Ok(Numeric(1)), fs1);
    assert LegacyEval(f + 2, Numeric(2), env, fs1, prim) == Outcome(Ok(Numeric(2)), fs1);
  }

  /**
   * `lambda` and `set!` are not special forms in the older evaluator: their heads are
   * looked up like any other name, and where nothing binds them the form fails with
   * LookupError before its operands are looked at.
   */
  lemma LambdaAndSetAreApplications(f: nat, head: string, rest: seq<Value>, env: nat, fs: seq<Frame>, prim: Prim)
    requires StoreOk(fs) && env < |fs| && AllClosed(rest, |fs|)
    requires head == "lambda" || head == "set!"
    requires Find(fs, env, head).None?
    ensures Closed(List([Symbol(head)] + rest), |fs|)
    ensures LegacyEval(f + 2, List([Symbol(head)] + rest), env, fs, prim) == Outcome(Err(LookupError(head)), fs)
  {
    var xs := [Symbol(head)] + rest;
    assert forall i :: 0 <= i < |xs| ==> xs[i] == if i == 0 then Symbol(head) else rest[i - 1];
    assert !IsSym(xs[0], "quote") && !IsSym(xs[0], "if") && !IsSym(xs[0], "define");
    assert LegacyEval(f + 2, List(xs), env, fs, prim) == LegacyForm(f + 1, xs, env, fs, prim);
    assert LegacyForm(f + 1, xs, env, fs, prim) == LegacyApp(f + 1, xs, env, fs, prim);
    assert LegacyEval(f + 1, xs[0], env, fs, prim) == Outcome(Err(LookupError(head)), fs);
  }
}

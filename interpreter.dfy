/**
 * The evaluators as the host runs them: the frames are one mutable store that `define` and
 * `set!` update in place and that every closure call extends with a new frame; the list
 * comprehension of an application is a loop. Each method is proved to give the result and
 * the store its specification function (Evaluator, LegacyEvaluator) gives.
 */
module Interpreter {
  import opened Values
  import opened Frames
  import opened Evaluator
  import opened EvalLaws
  import opened LegacyEvaluator

  /** Values in front of the values of an outcome, unless it failed. */
  function Prefix(vs: seq<Value>, o: Outcome<seq<Value>>): Outcome<seq<Value>> {
    if o.res.Err? then o else Outcome(Ok(vs + o.res.value), o.fs)
  }

  lemma PrefixCons(vs: seq<Value>, v: Value, o: Outcome<seq<Value>>)
    ensures Prefix(vs, Cons(v, o)) == Prefix(vs + [v], o)
  {
    if o.res.Ok? {
      assert vs + ([v] + o.res.value) == (vs + [v]) + o.res.value;
    }
  }

  lemma PrefixEmpty(o: Outcome<seq<Value>>)
    ensures Prefix([], o) == o
  {
    if o.res.Ok? {
      assert [] + o.res.value == o.res.value;
    }
  }

  lemma AllClosedSuffix(xs: seq<Value>, i: nat, n: nat)
    requires i < |xs| && AllClosed(xs[i..], n)
    ensures Closed(xs[i], n) && AllClosed(xs[i + 1..], n) && xs[i..][0] == xs[i] && xs[i..][1..] == xs[i + 1..]
  {
    assert xs[i..][0] == xs[i];
    assert xs[i..][1..] == xs[i + 1..];
  }

  /** The first step of LegacyEvalList, as EvalListStep is for EvalList. */
  lemma LegacyEvalListStep(f: nat, xs: seq<Value>, env: nat, fs: seq<Frame>, prim: Prim)
    requires StoreOk(fs) && env < |fs| && AllClosed(xs, |fs|) && xs != []
    requires LegacyEval(f, xs[0], env, fs, prim).res.Ok?
    ensures AllClosed(xs[1..], |LegacyEval(f, xs[0], env, fs, prim).fs|)
    ensures var r := LegacyEval(f, xs[0], env, fs, prim);
      LegacyEvalList(f, xs, env, fs, prim) == Cons(r.res.value, LegacyEvalList(f, xs[1..], env, r.fs, prim))
  {
    var r := LegacyEval(f, xs[0], env, fs, prim);
    assert AllClosed(xs[1..], |fs|) by {
      assert forall i :: 0 <= i < |xs| - 1 ==> xs[1..][i] == xs[i + 1];
    }
    AllClosedMono(xs[1..], |fs|, |r.fs|);
  }

  /** The environment graph: every frame ever made, updated in place. */
  class Store {
    var frames: seq<Frame>
    const prim: Prim

    /** A store holding one empty root frame (`Env()`): the host procedures are bound by the caller. */
    constructor(prim: Prim)
      ensures frames == [Frame(map[], None)] && this.prim == prim
      ensures StoreOk(frames)
    {
      frames := [Frame(map[], None)];
      this.prim := prim;
    }

    /**
     * `Env(parms, args, outer)`: checks the parameters against the arguments, fills a new
     * frame one binding at a time, and adds it to the store; when the constructor raises,
     * no frame is added.
     */
    method NewEnv(parms: Value, args: seq<Value>, outer: Option<nat>) returns (r: Result<nat>)
      modifies this
      ensures Bind(parms, args).Err? ==> r == Err(Bind(parms, args).error) && frames == old(frames)
      ensures Bind(parms, args).Ok? ==>
        r == Ok(|old(frames)|) && frames == old(frames) + [Frame(Bind(parms, args).value, outer)]
    {
      var m: map<string, Value>;
      match parms {
        case Symbol(name) =>
          m := map[name := List(args)];
        case List(ps) =>
          if |ps| != |args| {
            return Err(ArityError(parms, args));
          }
          var i := 0;
          while i < |ps|
            invariant 0 <= i <= |ps|
            invariant forall k :: 0 <= k < i ==> !NoValueAttr(ps[k])
          {
            if NoValueAttr(ps[i]) {
              return Err(AttributeError);
            }
            i := i + 1;
          }
          m := map[];
          i := 0;
          while i < |ps|
            invariant 0 <= i <= |ps|
            invariant forall k :: 0 <= k < i ==> !ps[k].List?
            invariant m == Zip(ps[..i], args[..i])
          {
            if ps[i].List? {
              return Err(TypeError("unhashable type: 'list'"));
            }
            assert ps[..i + 1][..i] == ps[..i] && args[..i + 1][..i] == args[..i];
            match KeyOf(ps[i]) {
              case Some(k) => m := m[k := args[i]];
              case None =>
            }
            i := i + 1;
          }
          assert ps[..i] == ps && args[..i] == args;
        case String(s) =>
          if |s| != |args| {
            return Err(ArityError(parms, args));
          }
          if s != [] {
            return Err(AttributeError);
          }
          m := map[];
        case Lambda(_, _, _) =>
          return Err(AttributeError);
        case Native(_) =>
          return Err(AttributeError);
        case HostNone =>
          return Err(AttributeError);
        case _ =>
          return Err(TypeError("object has no len()"));
      }
      frames := frames + [Frame(m, outer)];
      r := Ok(|frames| - 1);
    }

    /** `eval(expr, env)` of emlisp/types.py. */
    method Evaluate(fuel: nat, e: Value, env: nat) returns (r: Result<Value>)
      requires StoreOk(frames) && env < |frames| && Closed(e, |frames|)
      modifies this
      ensures Outcome(r, frames) == Eval(fuel, e, env, old(frames), prim)
      decreases fuel, 0, 0
    {
      if fuel == 0 {
        return Err(OutOfFuel);
      }
      if !e.List? {
        return EvalAtom(e, env, frames);
      }
      var xs := e.items;
      if xs == [] {
        return Err(IndexError);
      }
      if IsSym(xs[0], "quote") {
        if |xs| != 2 {
          return Err(ValueError);
        }
        return Ok(xs[1]);
      }
      if IsSym(xs[0], "if") {
        if |xs| != 4 {
          return Err(ValueError);
        }
        r := EvaluateIf(fuel - 1, xs[1], xs[2], xs[3], env);
        return;
      }
      if IsSym(xs[0], "set!") {
        if |xs| != 3 {
          return Err(ValueError);
        }
        r := EvaluateSet(fuel - 1, xs[1], xs[2], env);
        return;
      }
      if IsSym(xs[0], "define") {
        if |xs| != 3 {
          return Err(ValueError);
        }
        r := EvaluateDefine(fuel - 1, xs[1], xs[2], env);
        return;
      }
      if IsSym(xs[0], "lambda") {
        if |xs| != 3 {
          return Err(ValueError);
        }
        return Ok(Lambda(xs[1], xs[2], env));
      }
      r := EvaluateApp(fuel - 1, xs, env);
    }

    method EvaluateIf(fuel: nat, test: Value, conseq: Value, alt: Value, env: nat) returns (r: Result<Value>)
      requires StoreOk(frames) && env < |frames| && Closed(test, |frames|) && Closed(conseq, |frames|) && Closed(alt, |frames|)
      modifies this
      ensures Outcome(r, frames) == EvalIf(fuel, test, conseq, alt, env, old(frames), prim)
      decreases fuel, 1, 0
    {
      var t := Evaluate(fuel, test, env);
      if t.Err? {
        return Err(t.error);
      }
      var branch := if Truthy(t.value) then conseq else alt;
      ClosedMono(branch, |old(frames)|, |frames|);
      assert EvalIf(fuel, test, conseq, alt, env, old(frames), prim) == Eval(fuel, branch, env, frames, prim);
      r := Evaluate(fuel, branch, env);
    }

    /** `set!`: the value first, then the frame that binds the name is updated in place. */
    method EvaluateSet(fuel: nat, target: Value, rhs: Value, env: nat) returns (r: Result<Value>)
      requires StoreOk(frames) && env < |frames| && Closed(rhs, |frames|)
      modifies this
      ensures Outcome(r, frames) == EvalSet(fuel, target, rhs, env, old(frames), prim)
      decreases fuel, 1, 0
    {
      if !target.Symbol? {
        return Err(NotSymbolError(target));
      }
      var v := Evaluate(fuel, rhs, env);
      if v.Err? {
        return Err(v.error);
      }
      var owner := Find(frames, env, target.name);
      if owner.None? {
        return Err(LookupError(target.name));
      }
      var j := owner.value;
      frames := frames[j := Frame(frames[j].vars[target.name := v.value], frames[j].outer)];
      r := Ok(NilObject);
    }

    /** `define`: the value first, then the current frame is updated in place. */
    method EvaluateDefine(fuel: nat, target: Value, rhs: Value, env: nat) returns (r: Result<Value>)
      requires StoreOk(frames) && env < |frames| && Closed(rhs, |frames|)
      modifies this
      ensures Outcome(r, frames) == EvalDefine(fuel, target, rhs, env, old(frames), prim)
      decreases fuel, 1, 0
    {
      if !target.Symbol? {
        return Err(NotSymbolError(target));
      }
      var v := Evaluate(fuel, rhs, env);
      if v.Err? {
        return Err(v.error);
      }
      frames := frames[env := Frame(frames[env].vars[target.name := v.value], frames[env].outer)];
      r := Ok(NilObject);
    }

    method EvaluateApp(fuel: nat, xs: seq<Value>, env: nat) returns (r: Result<Value>)
      requires StoreOk(frames) && env < |frames| && AllClosed(xs, |frames|) && xs != []
      modifies this
      ensures Outcome(r, frames) == EvalApp(fuel, xs, env, old(frames), prim)
      decreases fuel, 3, 0
    {
      var vs := EvaluateAll(fuel, xs, env);
      if vs.Err? {
        return Err(vs.error);
      }
      var args := vs.value[1..];
      assert AllClosed(args, |frames|) by {
        assert forall i :: 0 <= i < |args| ==> args[i] == vs.value[i + 1];
      }
      r := Call(fuel, vs.value[0], args);
    }

    /** `[eval(arg, env) for arg in xs]`: in order, each in the store the previous one left; the first error stops the loop. */
    method EvaluateAll(fuel: nat, xs: seq<Value>, env: nat) returns (r: Result<seq<Value>>)
      requires StoreOk(frames) && env < |frames| && AllClosed(xs, |frames|)
      modifies this
      ensures Outcome(r, frames) == EvalList(fuel, xs, env, old(frames), prim)
      decreases fuel, 1, 0
    {
      var vs: seq<Value> := [];
      var i := 0;
      assert xs[0..] == xs;
      PrefixEmpty(EvalList(fuel, xs, env, frames, prim));
      while i < |xs|
        invariant 0 <= i <= |xs|
        invariant StoreOk(frames) && env < |frames| && AllClosed(xs[i..], |frames|)
        invariant EvalList(fuel, xs, env, old(frames), prim) == Prefix(vs, EvalList(fuel, xs[i..], env, frames, prim))
        decreases |xs| - i
      {
        AllClosedSuffix(xs, i, |frames|);
        ghost var before := frames;
        var v := Evaluate(fuel, xs[i], env);
        if v.Err? {
          assert EvalList(fuel, xs[i..], env, before, prim) == Outcome(Err(v.error), frames);
          return Err(v.error);
        }
        EvalListStep(fuel, xs[i..], env, before, prim);
        PrefixCons(vs, v.value, EvalList(fuel, xs[i + 1..], env, frames, prim));
        vs := vs + [v.value];
        i := i + 1;
      }
      assert xs[i..] == [] && vs + [] == vs;
      r := Ok(vs);
    }

    /**
     * `fn(*args, env=env)`: a closure (`Lambda.__call__`) gets a new frame from NewEnv and
     * its body is evaluated there; a host procedure goes through CallNative.
     */
    method Call(fuel: nat, fn: Value, args: seq<Value>) returns (r: Result<Value>)
      requires StoreOk(frames) && Closed(fn, |frames|) && AllClosed(args, |frames|)
      modifies this
      ensures Outcome(r, frames) == Apply(fuel, fn, args, old(frames), prim)
      decreases fuel, 2, 0
    {
      match fn {
        case Lambda(parms, body, captured) =>
          var n := NewEnv(parms, args, Some(captured));
          if n.Err? {
            return Err(n.error);
          }
          BindClosed(parms, args, |old(frames)|);
          PushOk(old(frames), Bind(parms, args).value, captured);
          ClosedMono(body, |old(frames)|, |frames|);
          r := Evaluate(fuel, body, n.value);
        case Native(id) =>
          r := CallNative(prim, id, args);
        case _ =>
          r := Err(TypeError("object is not callable"));
      }
    }

    /** `eval(expr, env)` of emlisp/environment.py. */
    method LegacyEvaluate(fuel: nat, e: Value, env: nat) returns (r: Result<Value>)
      requires StoreOk(frames) && env < |frames| && Closed(e, |frames|)
      modifies this
      ensures Outcome(r, frames) == LegacyEval(fuel, e, env, old(frames), prim)
      decreases fuel, 0, 0
    {
      if fuel == 0 {
        return Err(OutOfFuel);
      }
      if !e.List? {
        return EvalAtom(e, env, frames);
      }
      var xs := e.items;
      if xs == [] {
        return Err(IndexError);
      }
      if IsSym(xs[0], "quote") {
        if |xs| != 2 {
          return Err(ValueError);
        }
        return Ok(xs[1]);
      }
      if IsSym(xs[0], "if") {
        if |xs| != 4 {
          return Err(ValueError);
        }
        r := LegacyEvaluateIf(fuel - 1, xs[1], xs[2], xs[3], env);
        return;
      }
      if IsSym(xs[0], "define") {
        if |xs| != 3 {
          return Err(ValueError);
        }
        r := LegacyEvaluateDefine(fuel - 1, xs[1], xs[2], env);
        return;
      }
      r := LegacyEvaluateApp(fuel - 1, xs, env);
    }

    method LegacyEvaluateIf(fuel: nat, test: Value, conseq: Value, alt: Value, env: nat) returns (r: Result<Value>)
      requires StoreOk(frames) && env < |frames| && Closed(test, |frames|) && Closed(conseq, |frames|) && Closed(alt, |frames|)
      modifies this
      ensures Outcome(r, frames) == LegacyIf(fuel, test, conseq, alt, env, old(frames), prim)
      decreases fuel, 1, 0
    {
      var t := LegacyEvaluate(fuel, test, env);
      if t.Err? {
        return Err(t.error);
      }
      var branch := if Truthy(t.value) then conseq else alt;
      ClosedMono(branch, |old(frames)|, |frames|);
      assert LegacyIf(fuel, test, conseq, alt, env, old(frames), prim) == LegacyEval(fuel, branch, env, frames, prim);
      r := LegacyEvaluate(fuel, branch, env);
    }

    /** `env[var.value] = eval(exp, env)`, then the host's None. */
    method LegacyEvaluateDefine(fuel: nat, target: Value, rhs: Value, env: nat) returns (r: Result<Value>)
      requires StoreOk(frames) && env < |frames| && Closed(rhs, |frames|)
      modifies this
      ensures Outcome(r, frames) == LegacyDefine(fuel, target, rhs, env, old(frames), prim)
      decreases fuel, 1, 0
    {
      if !target.Symbol? {
        return Err(NotSymbolError(target));
      }
      var v := LegacyEvaluate(fuel, rhs, env);
      if v.Err? {
        return Err(v.error);
      }
      frames := frames[env := Frame(frames[env].vars[target.name := v.value], frames[env].outer)];
      r := Ok(HostNone);
    }

    /** The head, then `[eval(arg, env) for arg in expr.value[1:]]`, then the call. */
    method LegacyEvaluateApp(fuel: nat, xs: seq<Value>, env: nat) returns (r: Result<Value>)
      requires StoreOk(frames) && env < |frames| && AllClosed(xs, |frames|) && xs != []
      modifies this
      ensures Outcome(r, frames) == LegacyApp(fuel, xs, env, old(frames), prim)
      decreases fuel, 3, 0
    {
      var h := LegacyEvaluate(fuel, xs[0], env);
      if h.Err? {
        return Err(h.error);
      }
      assert AllClosed(xs[1..], |old(frames)|) by {
        assert forall i :: 0 <= i < |xs| - 1 ==> xs[1..][i] == xs[i + 1];
      }
      AllClosedMono(xs[1..], |old(frames)|, |frames|);
      ghost var mid := frames;
      var args := LegacyEvaluateAll(fuel, xs[1..], env);
      if args.Err? {
        return Err(args.error);
      }
      ClosedMono(h.value, |mid|, |frames|);
      r := Call(fuel, h.value, args.value);
    }

    method LegacyEvaluateAll(fuel: nat, xs: seq<Value>, env: nat) returns (r: Result<seq<Value>>)
      requires StoreOk(frames) && env < |frames| && AllClosed(xs, |frames|)
      modifies this
      ensures Outcome(r, frames) == LegacyEvalList(fuel, xs, env, old(frames), prim)
      decreases fuel, 1, 0
    {
      var vs: seq<Value> := [];
      var i := 0;
      assert xs[0..] == xs;
      PrefixEmpty(LegacyEvalList(fuel, xs, env, frames, prim));
      while i < |xs|
        invariant 0 <= i <= |xs|
        invariant StoreOk(frames) && env < |frames| && AllClosed(xs[i..], |frames|)
        invariant LegacyEvalList(fuel, xs, env, old(frames), prim) == Prefix(vs, LegacyEvalList(fuel, xs[i..], env, frames, prim))
        decreases |xs| - i
      {
        AllClosedSuffix(xs, i, |frames|);
        ghost var before := frames;
        var v := LegacyEvaluate(fuel, xs[i], env);
        if v.Err? {
          assert LegacyEvalList(fuel, xs[i..], env, before, prim) == Outcome(Err(v.error), frames);
          return Err(v.error);
        }
        LegacyEvalListStep(fuel, xs[i..], env, before, prim);
        PrefixCons(vs, v.value, LegacyEvalList(fuel, xs[i + 1..], env, frames, prim));
        vs := vs + [v.value];
        i := i + 1;
      }
      assert xs[i..] == [] && vs + [] == vs;
      r := Ok(vs);
    }
  }
}

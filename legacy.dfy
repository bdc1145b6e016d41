/**
 * The older evaluator of emlisp/environment.py. It knows only `quote`, `if` and `define`;
 * its `define` gives the host's None instead of Nil; an application evaluates the head, then
 * the arguments, and calls the head. A closure called from here still runs its body through
 * the evaluator of emlisp/types.py, since `Lambda.__call__` is defined there.
 */
module LegacyEvaluator {
  import opened Values
  import opened Frames
  import opened Evaluator

  function LegacyEval(fuel: nat, e: Value, env: nat, fs: seq<Frame>, prim: Prim): (o: Outcome<Value>)
    requires StoreOk(fs) && env < |fs| && Closed(e, |fs|)
    ensures StoreOk(o.fs) && Grows(fs, o.fs)
    ensures o.res.Ok? ==> Closed(o.res.value, |o.fs|)
    decreases fuel, 0, 0
  {
    if fuel == 0 then Outcome(Err(OutOfFuel), fs)
    else if e.List? then LegacyForm(fuel - 1, e.items, env, fs, prim)
    else Outcome(EvalAtom(e, env, fs), fs)
  }

  /** The dispatch on the head: `quote`, `if` and `define`, each unpacked to a fixed length; anything else is an application. */
  function LegacyForm(fuel: nat, xs: seq<Value>, env: nat, fs: seq<Frame>, prim: Prim): (o: Outcome<Value>)
    requires StoreOk(fs) && env < |fs| && AllClosed(xs, |fs|)
    ensures StoreOk(o.fs) && Grows(fs, o.fs)
    ensures o.res.Ok? ==> Closed(o.res.value, |o.fs|)
    decreases fuel, 4, 0
  {
    if xs == [] then Outcome(Err(IndexError), fs)
    else if IsSym(xs[0], "quote") then
      if |xs| != 2 then Outcome(Err(ValueError), fs) else Outcome(Ok(xs[1]), fs)
    else if IsSym(xs[0], "if") then
      if |xs| != 4 then Outcome(Err(ValueError), fs) else LegacyIf(fuel, xs[1], xs[2], xs[3], env, fs, prim)
    else if IsSym(xs[0], "define") then
      if |xs| != 3 then Outcome(Err(ValueError), fs) else LegacyDefine(fuel, xs[1], xs[2], env, fs, prim)
    else LegacyApp(fuel, xs, env, fs, prim)
  }

  function LegacyIf(fuel: nat, test: Value, conseq: Value, alt: Value, env: nat, fs: seq<Frame>, prim: Prim): (o: Outcome<Value>)
    requires StoreOk(fs) && env < |fs| && Closed(test, |fs|) && Closed(conseq, |fs|) && Closed(alt, |fs|)
    ensures StoreOk(o.fs) && Grows(fs, o.fs)
    ensures o.res.Ok? ==> Closed(o.res.value, |o.fs|)
    decreases fuel, 3, 0
  {
    var t := LegacyEval(fuel, test, env, fs, prim);
    if t.res.Err? then Outcome(Err(t.res.error), t.fs)
    else
      var branch := if Truthy(t.res.value) then conseq else alt;
      ClosedMono(branch, |fs|, |t.fs|);
      var o := LegacyEval(fuel, branch, env, t.fs, prim);
      GrowsTrans(fs, t.fs, o.fs);
      o
  }

  /** `define` binds in the current frame, as in the newer evaluator, but gives the host's None. */
  function LegacyDefine(fuel: nat, target: Value, rhs: Value, env: nat, fs: seq<Frame>, prim: Prim): (o: Outcome<Value>)
    requires StoreOk(fs) && env < |fs| && Closed(rhs, |fs|)
    ensures StoreOk(o.fs) && Grows(fs, o.fs)
    ensures o.res.Ok? ==> o.res.value == HostNone
    decreases fuel, 3, 0
  {
    if !target.Symbol? then Outcome(Err(NotSymbolError(target)), fs)
    else
      var r := LegacyEval(fuel, rhs, env, fs, prim);
      if r.res.Err? then Outcome(Err(r.res.error), r.fs)
      else
        AssignOk(r.fs, env, target.name, r.res.value);
        GrowsTrans(fs, r.fs, Assign(r.fs, env, target.name, r.res.value));
        Outcome(Ok(HostNone), Assign(r.fs, env, target.name, r.res.value))
  }

  /** An application: the head first, then the arguments from left to right, then the call. */
  function LegacyApp(fuel: nat, xs: seq<Value>, env: nat, fs: seq<Frame>, prim: Prim): (o: Outcome<Value>)
    requires StoreOk(fs) && env < |fs| && AllClosed(xs, |fs|) && xs != []
    ensures StoreOk(o.fs) && Grows(fs, o.fs)
    ensures o.res.Ok? ==> Closed(o.res.value, |o.fs|)
    decreases fuel, 3, 0
  {
    var h := LegacyEval(fuel, xs[0], env, fs, prim);
    if h.res.Err? then Outcome(Err(h.res.error), h.fs)
    else
      assert AllClosed(xs[1..], |fs|) by {
        assert forall i :: 0 <= i < |xs| - 1 ==> xs[1..][i] == xs[i + 1];
      }
      AllClosedMono(xs[1..], |fs|, |h.fs|);
      var r := LegacyEvalList(fuel, xs[1..], env, h.fs, prim);
      GrowsTrans(fs, h.fs, r.fs);
      if r.res.Err? then Outcome(Err(r.res.error), r.fs)
      else
        ClosedMono(h.res.value, |h.fs|, |r.fs|);
        var o := Apply(fuel, h.res.value, r.res.value, r.fs, prim);
        GrowsTrans(fs, r.fs, o.fs);
        o
  }

  function LegacyEvalList(fuel: nat, xs: seq<Value>, env: nat, fs: seq<Frame>, prim: Prim): (o: Outcome<seq<Value>>)
    requires StoreOk(fs) && env < |fs| && AllClosed(xs, |fs|)
    ensures StoreOk(o.fs) && Grows(fs, o.fs)
    ensures o.res.Ok? ==> |o.res.value| == |xs| && AllClosed(o.res.value, |o.fs|)
    decreases fuel, 1, |xs|
  {
    if xs == [] then Outcome(Ok([]), fs)
    else
      var r := LegacyEval(fuel, xs[0], env, fs, prim);
      if r.res.Err? then Outcome(Err(r.res.error), r.fs)
      else
        assert AllClosed(xs[1..], |fs|) by {
          assert forall i :: 0 <= i < |xs| - 1 ==> xs[1..][i] == xs[i + 1];
        }
        AllClosedMono(xs[1..], |fs|, |r.fs|);
        var rs := LegacyEvalList(fuel, xs[1..], env, r.fs, prim);
        GrowsTrans(fs, r.fs, rs.fs);
        if rs.res.Err? then Outcome(Err(rs.res.error), rs.fs)
        else
          ClosedMono(r.res.value, |r.fs|, |rs.fs|);
          Outcome(Ok([r.res.value] + rs.res.value), rs.fs)
  }
}

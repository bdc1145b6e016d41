/**
 * The environment chain of emlisp/types.py (`Env`): dictionary frames linked to an outer
 * frame. Frames are shared by every closure that captured them and updated in place, so
 * they live in one store, a sequence of frames, and a closure holds the index of the frame
 * it captured. A new frame is appended at the end, and its outer frame always comes before it.
 */
module Frames {
  import opened Values

  datatype Frame = Frame(vars: map<string, Value>, outer: Option<nat>)

  /** Every closure inside `v` captured a frame below `n`. */
  predicate Closed(v: Value, n: nat)
    decreases v
  {
    match v
    case Lambda(parms, body, env) => env < n && Closed(parms, n) && Closed(body, n)
    case List(xs) => forall i :: 0 <= i < |xs| ==> Closed(xs[i], n)
    case _ => true
  }

  predicate AllClosed(xs: seq<Value>, n: nat) {
    forall i :: 0 <= i < |xs| ==> Closed(xs[i], n)
  }

  lemma {:induction false} ClosedMono(v: Value, n: nat, m: nat)
    requires Closed(v, n) && n <= m
    ensures Closed(v, m)
    decreases v
  {
    match v
    case Lambda(parms, body, env) =>
      ClosedMono(parms, n, m);
      ClosedMono(body, n, m);
    case List(xs) =>
      forall i | 0 <= i < |xs|
        ensures Closed(xs[i], m)
      {
        ClosedMono(xs[i], n, m);
      }
    case _ =>
  }

  lemma AllClosedMono(xs: seq<Value>, n: nat, m: nat)
    requires AllClosed(xs, n) && n <= m
    ensures AllClosed(xs, m)
  {
    forall i | 0 <= i < |xs|
      ensures Closed(xs[i], m)
    {
      ClosedMono(xs[i], n, m);
    }
  }

  /** Every outer link points to an earlier frame, so every chain ends. */
  predicate Linked(fs: seq<Frame>) {
    forall i :: 0 <= i < |fs| && fs[i].outer.Some? ==> fs[i].outer.value < i
  }

  /** The store invariant: linked, and every bound value's closures point into the store. */
  predicate StoreOk(fs: seq<Frame>) {
    && Linked(fs)
    && (forall i, k :: 0 <= i < |fs| && k in fs[i].vars ==> Closed(fs[i].vars[k], |fs|))
  }

  /** `fs2` extends `fs`: no frame disappears, no outer link changes, no name is unbound. */
  predicate Grows(fs: seq<Frame>, fs2: seq<Frame>) {
    && |fs| <= |fs2|
    && (forall i :: 0 <= i < |fs| ==> fs2[i].outer == fs[i].outer)
    && (forall i, k :: 0 <= i < |fs| && k in fs[i].vars ==> k in fs2[i].vars)
  }

  lemma GrowsRefl(fs: seq<Frame>)
    ensures Grows(fs, fs)
  {
  }

  lemma GrowsTrans(a: seq<Frame>, b: seq<Frame>, c: seq<Frame>)
    requires Grows(a, b) && Grows(b, c)
    ensures Grows(a, c)
  {
  }

  /** The frames of the chain that starts at frame `i`, innermost first. */
  function Chain(fs: seq<Frame>, i: nat): (c: seq<nat>)
    requires Linked(fs) && i < |fs|
    decreases i
    ensures |c| >= 1 && c[0] == i
    ensures forall p :: 0 <= p < |c| ==> c[p] <= i
  {
    match fs[i].outer
    case None => [i]
    case Some(o) => [i] + Chain(fs, o)
  }

  /**
   * `Env.find`: the index of the innermost frame on the chain from frame `i` that binds
   * `name`, or None where the source raises LookupError.
   */
  function Find(fs: seq<Frame>, i: nat, name: string): (r: Option<nat>)
    requires Linked(fs) && i < |fs|
    decreases i
    ensures r.Some? ==> r.value <= i && name in fs[r.value].vars
    ensures name in fs[i].vars ==> r == Some(i)
  {
    if name in fs[i].vars then Some(i)
    else
      match fs[i].outer
      case None => None
      case Some(o) => Find(fs, o, name)
  }

  /**
   * The reference search: the first frame of the list `c` that binds `name`. It fails
   * exactly when no frame of `c` binds the name, and otherwise every frame before the one
   * it returns does not bind it.
   */
  function FirstBinding(fs: seq<Frame>, c: seq<nat>, name: string): (r: Option<nat>)
    requires forall p :: 0 <= p < |c| ==> c[p] < |fs|
    ensures r.None? <==> forall p :: 0 <= p < |c| ==> name !in fs[c[p]].vars
    ensures r.Some? ==>
      exists p :: 0 <= p < |c| && c[p] == r.value && name in fs[r.value].vars &&
        forall q :: 0 <= q < p ==> name !in fs[c[q]].vars
  {
    if c == [] then None
    else if name in fs[c[0]].vars then Some(c[0])
    else
      var r := FirstBinding(fs, c[1..], name);
      assert forall p :: 1 <= p < |c| ==> c[p] == c[1..][p - 1];
      if r.Some? then
        var p :| 0 <= p < |c| - 1 && c[1..][p] == r.value && forall q :: 0 <= q < p ==> name !in fs[c[1..][q]].vars;
        assert c[p + 1] == r.value;
        r
      else r
  }

  /** `find` is the search of the chain, innermost frame first. */
  lemma {:induction false} FindInnermost(fs: seq<Frame>, i: nat, name: string)
    requires Linked(fs) && i < |fs|
    ensures Find(fs, i, name) == FirstBinding(fs, Chain(fs, i), name)
    decreases i
  {
    var c := Chain(fs, i);
    if name !in fs[i].vars && fs[i].outer.Some? {
      var o := fs[i].outer.value;
      FindInnermost(fs, o, name);
      assert c[1..] == Chain(fs, o);
    }
  }

  /** `Symbol.eval`: the value of a name in the innermost frame that binds it. */
  function Lookup(fs: seq<Frame>, i: nat, name: string): (r: Result<Value>)
    requires Linked(fs) && i < |fs|
    ensures r.Err? <==> Find(fs, i, name).None?
    ensures r.Err? ==> r.error == LookupError(name)
    ensures r.Ok? ==> r.value == fs[Find(fs, i, name).value].vars[name]
  {
    match Find(fs, i, name)
    case None => Err(LookupError(name))
    case Some(j) => Ok(fs[j].vars[name])
  }

  /** `frame[name] = v` on frame `j`, in place: every other frame is left alone. */
  function Assign(fs: seq<Frame>, j: nat, name: string, v: Value): (fs2: seq<Frame>)
    requires j < |fs|
    ensures |fs2| == |fs| && Grows(fs, fs2)
    ensures fs2[j].vars == fs[j].vars[name := v]
    ensures forall i :: 0 <= i < |fs| && i != j ==> fs2[i] == fs[i]
  {
    fs[j := Frame(fs[j].vars[name := v], fs[j].outer)]
  }

  /** Assigning a value whose closures point into the store keeps the store invariant. */
  lemma AssignOk(fs: seq<Frame>, j: nat, name: string, v: Value)
    requires StoreOk(fs) && j < |fs| && Closed(v, |fs|)
    ensures StoreOk(Assign(fs, j, name, v))
  {
  }

  /**
   * After an assignment of `name` in a frame `j` of the chain, the chain finds `name` no
   * deeper than `j`; if the chain found it in `j` before (or `j` is where the chain starts),
   * reading it gives the new value.
   */
  lemma {:induction false} AssignThenLookup(fs: seq<Frame>, i: nat, j: nat, name: string, v: Value)
    requires Linked(fs) && i < |fs| && j < |fs|
    requires j == i || Find(fs, i, name) == Some(j)
    ensures Linked(Assign(fs, j, name, v))
    ensures Lookup(Assign(fs, j, name, v), i, name) == Ok(v)
    decreases i
  {
    var fs2 := Assign(fs, j, name, v);
    if i != j {
      var o := fs[i].outer.value;
      AssignThenLookup(fs, o, j, name, v);
    }
  }

  /** An assignment of one name changes the lookup of no other name, from any frame. */
  lemma {:induction false} AssignOtherName(fs: seq<Frame>, i: nat, j: nat, name: string, v: Value, other: string)
    requires Linked(fs) && i < |fs| && j < |fs| && other != name
    ensures Linked(Assign(fs, j, name, v))
    ensures Find(Assign(fs, j, name, v), i, other) == Find(fs, i, other)
    ensures Lookup(Assign(fs, j, name, v), i, other) == Lookup(fs, i, other)
    decreases i
  {
    if other !in fs[i].vars && fs[i].outer.Some? {
      AssignOtherName(fs, fs[i].outer.value, j, name, v, other);
    }
  }

  /** Lookups from an existing frame see the same frames in a store extended at the end. */
  lemma {:induction false} FindAppend(fs: seq<Frame>, f: Frame, i: nat, name: string)
    requires Linked(fs) && i < |fs| && Linked(fs + [f])
    ensures Find(fs + [f], i, name) == Find(fs, i, name)
    ensures Lookup(fs + [f], i, name) == Lookup(fs, i, name)
    decreases i
  {
    assert (fs + [f])[i] == fs[i];
    if name !in fs[i].vars && fs[i].outer.Some? {
      FindAppend(fs, f, fs[i].outer.value, name);
    }
  }

  /** A parameter the binding cannot read a `.value` from: a procedure or the host's None. */
  predicate NoValueAttr(p: Value) {
    p.Lambda? || p.Native? || p.HostNone?
  }

  /** The dictionary key a parameter binds, when a name can see it: symbols and strings. */
  function KeyOf(p: Value): Option<string> {
    match p
    case Symbol(name) => Some(name)
    case String(s) => Some(s)
    case _ => None
  }

  /**
   * `self.update(zip(names, args))`: each parameter in order binds the argument at its
   * position, a later duplicate overwriting an earlier one. Parameters whose key is a
   * number, a bool or None land under keys no name can look up, so they add nothing here.
   */
  function Zip(ps: seq<Value>, args: seq<Value>): (m: map<string, Value>)
    requires |ps| == |args|
    decreases |ps|
  {
    if ps == [] then map[]
    else
      var n := |ps| - 1;
      var m := Zip(ps[..n], args[..n]);
      match KeyOf(ps[n])
      case None => m
      case Some(k) => m[k := args[n]]
  }

  /** The message of the arity TypeError: the displayed parameters and arguments. */
  function ArityMessage(parms: Value, args: seq<Value>): string {
    "expected " + Display(parms) + ", given " + Display(List(args))
  }

  /**
   * The error an arity mismatch raises. The TypeError's message displays both sides, so
   * when either holds a host procedure or the host's None, building the message raises
   * AttributeError first.
   */
  function ArityError(parms: Value, args: seq<Value>): Error {
    if Printable(parms) && Printable(List(args)) then TypeError(ArityMessage(parms, args)) else AttributeError
  }

  /**
   * `Env(parms, args, outer)`: the bindings of a new frame, or the error its constructor
   * raises. A Symbol takes the whole argument List. A List or a String must have as many
   * elements as there are arguments (TypeError otherwise, before anything is bound); a
   * List's elements are then read for their `.value` (AttributeError on a procedure or
   * None) and used as keys (TypeError on an unhashable list); a non-empty String fails on
   * its first character, which has no `.value`. Other kinds of value have no length, and
   * procedures and None have no `.value` at all.
   */
  function Bind(parms: Value, args: seq<Value>): (r: Result<map<string, Value>>)
    ensures r.Ok? ==>
      || parms.Symbol?
      || (parms.List? && |parms.items| == |args|)
      || (parms == String("") && args == [])
    ensures parms.List? && |parms.items| != |args| ==> r == Err(ArityError(parms, args))
    ensures parms.String? && |parms.s| != |args| ==> r == Err(ArityError(parms, args))
  {
    match parms
    case Symbol(name) => Ok(map[name := List(args)])
    case List(ps) =>
      if |ps| != |args| then Err(ArityError(parms, args))
      else if exists i :: 0 <= i < |ps| && NoValueAttr(ps[i]) then Err(AttributeError)
      else if exists i :: 0 <= i < |ps| && ps[i].List? then Err(TypeError("unhashable type: 'list'"))
      else Ok(Zip(ps, args))
    case String(s) =>
      if |s| != |args| then Err(ArityError(parms, args))
      else if s == [] then Ok(map[])
      else Err(AttributeError)
    case Lambda(_, _, _) => Err(AttributeError)
    case Native(_) => Err(AttributeError)
    case HostNone => Err(AttributeError)
    case _ => Err(TypeError("object has no len()"))
  }

  /** The parameters are symbols with pairwise different names. */
  predicate DistinctSymbols(ps: seq<Value>) {
    && (forall i :: 0 <= i < |ps| ==> ps[i].Symbol?)
    && (forall i, j :: 0 <= i < j < |ps| ==> ps[i].name != ps[j].name)
  }

  lemma {:induction false} ZipValues(ps: seq<Value>, args: seq<Value>)
    requires |ps| == |args| && DistinctSymbols(ps)
    ensures forall i :: 0 <= i < |ps| ==> ps[i].name in Zip(ps, args) && Zip(ps, args)[ps[i].name] == args[i]
    decreases |ps|
  {
    if ps != [] {
      var n := |ps| - 1;
      var ps0, args0 := ps[..n], args[..n];
      assert DistinctSymbols(ps0) by {
        assert forall i :: 0 <= i < n ==> ps0[i] == ps[i];
      }
      ZipValues(ps0, args0);
      var m := Zip(ps0, args0);
      assert Zip(ps, args) == m[ps[n].name := args[n]];
      forall i | 0 <= i < |ps|
        ensures ps[i].name in Zip(ps, args) && Zip(ps, args)[ps[i].name] == args[i]
      {
        if i < n {
          assert ps0[i] == ps[i] && args0[i] == args[i];
          assert ps[i].name != ps[n].name;
        }
      }
    }
  }

  lemma {:induction false} ZipKeys(ps: seq<Value>, args: seq<Value>)
    requires |ps| == |args| && forall i :: 0 <= i < |ps| ==> ps[i].Symbol?
    ensures forall k :: k in Zip(ps, args) <==> exists i :: 0 <= i < |ps| && ps[i].name == k
    decreases |ps|
  {
    if ps != [] {
      var n := |ps| - 1;
      var ps0, args0 := ps[..n], args[..n];
      assert forall i :: 0 <= i < n ==> ps0[i] == ps[i];
      ZipKeys(ps0, args0);
      assert Zip(ps, args).Keys == Zip(ps0, args0).Keys + {ps[n].name};
      forall k | k in Zip(ps, args)
        ensures exists i :: 0 <= i < |ps| && ps[i].name == k
      {
        if k != ps[n].name {
          var i :| 0 <= i < n && ps0[i].name == k;
          assert ps[i].name == k;
        }
      }
    }
  }

  /**
   * A list of distinct symbols binds each name to the argument at the same position, and
   * nothing else.
   */
  lemma BindPositional(ps: seq<Value>, args: seq<Value>)
    requires |ps| == |args| && DistinctSymbols(ps)
    ensures Bind(List(ps), args).Ok?
    ensures forall i :: 0 <= i < |ps| ==>
      ps[i].name in Bind(List(ps), args).value && Bind(List(ps), args).value[ps[i].name] == args[i]
    ensures forall k :: k in Bind(List(ps), args).value <==> exists i :: 0 <= i < |ps| && ps[i].name == k
  {
    ZipValues(ps, args);
    ZipKeys(ps, args);
    assert !exists i :: 0 <= i < |ps| && NoValueAttr(ps[i]);
    assert !exists i :: 0 <= i < |ps| && ps[i].List?;
  }

  /** A lone Symbol is bound to the whole argument List, whatever the number of arguments. */
  lemma BindVariadic(name: string, args: seq<Value>)
    ensures Bind(Symbol(name), args) == Ok(map[name := List(args)])
  {
  }

  /**
   * A List of parameters of the wrong length binds nothing. The error is a TypeError naming
   * both sides exactly when both can be displayed, and AttributeError otherwise.
   */
  lemma BindArity(ps: seq<Value>, args: seq<Value>)
    requires |ps| != |args|
    ensures Bind(List(ps), args).Err?
    ensures Bind(List(ps), args).error == TypeError("expected " + Display(List(ps)) + ", given " + Display(List(args)))
      <==> Printable(List(ps)) && Printable(List(args))
    ensures !(Printable(List(ps)) && Printable(List(args))) ==> Bind(List(ps), args).error == AttributeError
  {
  }

  /**
   * `((lambda (x) x) + +)` with `+` a host procedure, and a call of `(lambda (x y) x)` on the
   * host's None alone: both fail while the arity message is being built.
   */
  lemma BindArityUnprintable(n: nat)
    ensures Bind(List([Symbol("x")]), [Native(n), Native(n)]) == Err(AttributeError)
    ensures Bind(List([Symbol("x"), Symbol("y")]), [HostNone]) == Err(AttributeError)
    ensures Bind(List([Symbol("x")]), [Numeric(1), Numeric(2)]).error.TypeError?
  {
    assert !Printable(List([Native(n), Native(n)])) by {
      assert !Printable([Native(n), Native(n)][0]);
    }
    assert !Printable(List([HostNone])) by {
      assert !Printable([HostNone][0]);
    }
    assert Printable(List([Symbol("x")])) && Printable(List([Numeric(1), Numeric(2)]));
  }

  /** Among duplicate parameter names, the last one wins. */
  lemma BindLastWins(a: string, x: Value, y: Value)
    ensures Bind(List([Symbol(a), Symbol(a)]), [x, y]) == Ok(map[a := y])
  {
    var ps := [Symbol(a), Symbol(a)];
    assert ps[..1] == [Symbol(a)] && [x, y][..1] == [x];
    assert ps[..1][..0] == [] && [x, y][..1][..0] == [];
    assert Zip([Symbol(a)], [x]) == map[a := x];
    assert Zip(ps, [x, y]) == map[a := x][a := y];
    assert map[a := x][a := y] == map[a := y];
    assert !NoValueAttr(ps[0]) && !NoValueAttr(ps[1]) && !ps[0].List? && !ps[1].List?;
  }

  /** Every bound value has its closures in the store when the arguments do. */
  lemma BindClosed(parms: Value, args: seq<Value>, n: nat)
    requires AllClosed(args, n) && Bind(parms, args).Ok?
    ensures forall k :: k in Bind(parms, args).value ==> Closed(Bind(parms, args).value[k], n)
  {
    if parms.List? {
      ZipClosed(parms.items, args, n);
    }
  }

  lemma {:induction false} ZipClosed(ps: seq<Value>, args: seq<Value>, n: nat)
    requires |ps| == |args| && AllClosed(args, n)
    ensures forall k :: k in Zip(ps, args) ==> Closed(Zip(ps, args)[k], n)
    decreases |ps|
  {
    if ps != [] {
      var m := |ps| - 1;
      assert AllClosed(args[..m], n) by {
        assert forall i :: 0 <= i < m ==> args[..m][i] == args[i];
      }
      ZipClosed(ps[..m], args[..m], n);
    }
  }
}

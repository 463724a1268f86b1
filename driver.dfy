/** The engine as the Ruby code runs it: `transduce` and `transduce_string`
    are loops that reassign their accumulator, each `TakingReducer` owns a
    counter that its `step` decrements in place, and `PreservingReduced#apply`
    stores the reducer in a field. The chain-building methods are proved to
    build what the functions of `Transducers` build, and the stepping and
    reducing methods to compute what the functions of `Semantics` compute,
    counters included. */
module Driver {
  import opened Values
  import opened Chains
  import opened Transducers
  import Semantics

  /** The `@n` of one `TakingReducer`. */
  class TakingCounter {
    var n: int

    constructor (n: int)
      ensures this.n == n
    {
      this.n := n;
    }
  }

  /** A chain as it lives on the heap. */
  type Live = Chain<TakingCounter>

  /** The counters of a chain's `TakingReducer`s. */
  function Cells(c: Live): set<TakingCounter> {
    match c
    case Reducer(_, _) => {}
    case Foreign(_, _) => {}
    case MappingReducer(inner, _) => Cells(inner)
    case FilteringReducer(inner, _) => Cells(inner)
    case TakingReducer(k, inner) => {k} + Cells(inner)
    case CattingReducer(inner) => Cells(inner)
  }

  /** Every layer has a counter of its own, as each `apply` allocates one. */
  predicate Valid(c: Live) {
    match c
    case Reducer(_, _) => true
    case Foreign(_, _) => true
    case MappingReducer(inner, _) => Valid(inner)
    case FilteringReducer(inner, _) => Valid(inner)
    case TakingReducer(k, inner) => k !in Cells(inner) && Valid(inner)
    case CattingReducer(inner) => Valid(inner)
  }

  /** The chain with each counter read off the heap. */
  function Abs(c: Live): (a: Chain<int>)
    reads Cells(c)
    ensures Shape(a) == Shape(c) && Depth(a) == Depth(c) && Init(a) == Init(c)
  {
    match c
    case Reducer(init, kind) => Reducer(init, kind)
    case Foreign(seed, step) => Foreign(seed, step)
    case MappingReducer(inner, xform) => MappingReducer(Abs(inner), xform)
    case FilteringReducer(inner, pred) => FilteringReducer(Abs(inner), pred)
    case TakingReducer(k, inner) => TakingReducer(k.n, Abs(inner))
    case CattingReducer(inner) => CattingReducer(Abs(inner))
  }

  function ArgCells(arg: ReducerArg<TakingCounter>): set<TakingCounter> {
    if arg.AReducer? then Cells(arg.r) else {}
  }

  predicate ArgValid(arg: ReducerArg<TakingCounter>) {
    arg.AReducer? ==> Valid(arg.r)
  }

  function ArgDepth(arg: ReducerArg<TakingCounter>): nat {
    if arg.AReducer? then Depth(arg.r) else 0
  }

  function AbsArg(arg: ReducerArg<TakingCounter>): ReducerArg<int>
    reads ArgCells(arg)
  {
    match arg
    case AReducer(r) => AReducer(Abs(r))
    case ASymbol(sym) => ASymbol(sym)
    case NoArg => NoArg
  }

  lemma AbsAsReducer(init: Value, arg: ReducerArg<TakingCounter>, block: Option<(Value, Value) -> Value>)
    ensures Cells(AsReducer(init, arg, block)) == ArgCells(arg)
    ensures Valid(AsReducer(init, arg, block)) <== ArgValid(arg)
    ensures Depth(AsReducer(init, arg, block)) == ArgDepth(arg)
    ensures Abs(AsReducer(init, arg, block)) == AsReducer(init, AbsArg(arg), block)
  {
  }

  /** The counters of a chain are allocated objects. */
  lemma AllocatedCells(c: Live)
    ensures forall k :: k in Cells(c) ==> allocated(k)
  {
    match c
    case Reducer(_, _) =>
    case Foreign(_, _) =>
    case MappingReducer(inner, _) => AllocatedCells(inner);
    case FilteringReducer(inner, _) => AllocatedCells(inner);
    case TakingReducer(_, inner) => AllocatedCells(inner);
    case CattingReducer(inner) => AllocatedCells(inner);
  }

  /** The counters of a chain that existed before are old objects; so a
      counter allocated since is none of them. */
  twostate lemma OldCells(c: Live)
    requires old(allocated(c))
    ensures forall k :: k in Cells(c) ==> old(allocated(k))
  {
    match c
    case Reducer(_, _) =>
    case Foreign(_, _) =>
    case MappingReducer(inner, _) => OldCells(inner);
    case FilteringReducer(inner, _) => OldCells(inner);
    case TakingReducer(_, inner) => OldCells(inner);
    case CattingReducer(inner) => OldCells(inner);
  }

  /** Peeling commutes with reading the counters. */
  lemma {:induction false} AbsPeel(t: Transducer, c: Live)
    ensures Cells(Peel(t, c)) <= Cells(c)
    ensures Abs(Peel(t, c)) == Peel(t, Abs(c))
    decreases t, 1
  {
    match t
    case ComposedTransducer(ts) => AbsPeelAll(ts, 0, c);
    case Preserving =>
    case _ =>
  }

  lemma {:induction false} AbsPeelAll(ts: seq<Transducer>, i: nat, c: Live)
    requires i <= |ts|
    ensures Cells(PeelAll(ts, i, c)) <= Cells(c)
    ensures Abs(PeelAll(ts, i, c)) == PeelAll(ts, i, Abs(c))
    decreases ts, |ts| - i
  {
    if i < |ts| {
      AbsPeel(ts[i], c);
      AbsPeelAll(ts, i + 1, Peel(ts[i], c));
    }
  }

  /** A `PreservingReduced` object: `apply` keeps the reducer it is given in
      `@reducer` and returns it; `step` would forward to it and wrap a
      `Reduced` answer once more. */
  class PreservingReduced {
    var reducer: Option<Live>

    constructor ()
      ensures reducer == None
    {
      reducer := None;
    }

    method Apply(r: Live) returns (out: Live)
      modifies this
      ensures reducer == Some(r) && out == r
    {
      reducer := Some(r);
      out := reducer.value;
    }

    method Step(acc: Value, x: Value) returns (ret: Result<Value>)
      requires reducer.Some? ==> Valid(reducer.value)
      modifies if reducer.Some? then Cells(reducer.value) else {}
      ensures reducer.None? ==> ret == Err(NoMethodError("step"))
      ensures reducer.Some? ==>
        var o := Semantics.Step(old(Abs(reducer.value)), acc, x);
        Abs(reducer.value) == o.chain &&
        ret == (if o.res.Ok? then Ok(Semantics.Preserve(o.res.value)) else o.res)
    {
      if reducer.None? {
        ret := Err(NoMethodError("step"));
      } else {
        ret := StepChain(reducer.value, acc, x);
        if ret.Ok? && ret.value.Reduced? {
          ret := Ok(Reduced(ret.value));
        }
      }
    }
  }

  /** `t.apply(r)`: each `TakingReducer` gets a fresh counter starting at the
      transducer's `n`; a composed transducer applies its list from the last
      transducer to the first. */
  method ApplyTo(t: Transducer, r: Live) returns (c: Live)
    requires Valid(r)
    ensures Valid(c) && Cells(r) <= Cells(c)
    ensures forall k :: k in Cells(c) ==> k in Cells(r) || fresh(k)
    ensures Abs(c) == Apply(t, Abs(r))
    ensures Peel(t, c) == r
    decreases t
  {
    match t
    case MappingTransducer(xform) =>
      c := MappingReducer(r, xform);
    case FilteringTransducer(pred) =>
      c := FilteringReducer(r, pred);
    case TakingTransducer(n) =>
      var k := new TakingCounter(n);
      OldCells(r);
      c := TakingReducer(k, r);
    case CattingTransducer =>
      c := CattingReducer(r);
    case ComposedTransducer(ts) =>
      c := ApplyComposed(ts, r);
    case Preserving =>
      var p := new PreservingReduced();
      c := p.Apply(r);
  }

  /** `ComposedTransducer#apply`: `reverse.reduce(r) {|r, t| t.apply(r)}`,
      the last transducer wrapping `r` first. */
  method ApplyComposed(ts: seq<Transducer>, r: Live) returns (c: Live)
    requires Valid(r)
    ensures Valid(c) && Cells(r) <= Cells(c)
    ensures forall k :: k in Cells(c) ==> k in Cells(r) || fresh(k)
    ensures Abs(c) == ApplyReversed(ts, |ts|, Abs(r))
    ensures PeelAll(ts, 0, c) == r
    decreases ts
  {
    c := r;
    var i := |ts|;
    while i > 0
      invariant 0 <= i <= |ts|
      invariant Valid(c) && Cells(r) <= Cells(c)
      invariant forall k :: k in Cells(c) ==> k in Cells(r) || fresh(k)
      invariant ApplyReversed(ts, i, Abs(c)) == ApplyReversed(ts, |ts|, Abs(r))
      invariant PeelAll(ts, i, c) == r
    {
      i := i - 1;
      AllocatedCells(c);
      c := ApplyTo(ts[i], c);
    }
  }

  /** `c.step(acc, x)`, counters updated in place: the step of whichever
      reducer class `c` is. */
  method StepChain(c: Live, acc: Value, x: Value) returns (res: Result<Value>)
    requires Valid(c)
    modifies Cells(c)
    ensures Semantics.Step(old(Abs(c)), acc, x).res == res
    ensures Semantics.Step(old(Abs(c)), acc, x).chain == Abs(c)
    decreases Depth(c), 1
  {
    match c
    case Reducer(_, kind) =>
      res := Semantics.Call(kind, acc, x);
    case Foreign(_, step) =>
      res := Ok(step(acc, x));
    case MappingReducer(inner, xform) =>
      res := MappingStep(inner, xform, acc, x);
    case FilteringReducer(inner, pred) =>
      res := FilteringStep(inner, pred, acc, x);
    case TakingReducer(k, inner) =>
      res := TakingStep(k, inner, acc, x);
    case CattingReducer(inner) =>
      res := CattingStep(inner, acc, x);
  }

  /** `MappingReducer#step`: the inner step on the transformed input. */
  method MappingStep(inner: Live, xform: XForm, acc: Value, x: Value) returns (res: Result<Value>)
    requires Valid(inner)
    modifies Cells(inner)
    ensures Semantics.Step(old(Abs(MappingReducer(inner, xform))), acc, x).res == res
    ensures Semantics.Step(old(Abs(MappingReducer(inner, xform))), acc, x).chain == Abs(MappingReducer(inner, xform))
    decreases Depth(inner) + 1, 0
  {
    ghost var before := Abs(inner);
    var y := Semantics.Transform(xform, x);
    if y.Err? {
      res := Err(y.error);
    } else {
      res := StepChain(inner, acc, y.value);
      assert Semantics.Step(before, acc, y.value).chain == Abs(inner);
    }
  }

  /** `BlockReducer#step` and `MethodReducer#step`: the inner step when the
      input passes, the accumulator untouched when it does not. */
  method FilteringStep(inner: Live, pred: Pred, acc: Value, x: Value) returns (res: Result<Value>)
    requires Valid(inner)
    modifies Cells(inner)
    ensures Semantics.Step(old(Abs(FilteringReducer(inner, pred))), acc, x).res == res
    ensures Semantics.Step(old(Abs(FilteringReducer(inner, pred))), acc, x).chain == Abs(FilteringReducer(inner, pred))
    decreases Depth(inner) + 1, 0
  {
    ghost var before := Abs(inner);
    ghost var spec := Semantics.Step(FilteringReducer(before, pred), acc, x);
    var keep := Semantics.Keeps(pred, x);
    if keep.Err? {
      res := Err(keep.error);
      assert spec == Semantics.Outcome(res, FilteringReducer(before, pred));
    } else if !keep.value {
      res := Ok(acc);
      assert spec == Semantics.Outcome(res, FilteringReducer(before, pred));
    } else {
      ghost var o := Semantics.Step(before, acc, x);
      assert spec == Semantics.Outcome(o.res, FilteringReducer(o.chain, pred));
      res := StepChain(inner, acc, x);
      assert o.chain == Abs(inner);
    }
  }

  /** `TakingReducer#step`: `@n -= 1`, then `Reduced(result)` if `@n` is now
      -1, the inner step otherwise. */
  method TakingStep(k: TakingCounter, inner: Live, acc: Value, x: Value) returns (res: Result<Value>)
    requires Valid(TakingReducer(k, inner))
    modifies Cells(TakingReducer(k, inner))
    ensures Semantics.Step(old(Abs(TakingReducer(k, inner))), acc, x).res == res
    ensures Semantics.Step(old(Abs(TakingReducer(k, inner))), acc, x).chain == Abs(TakingReducer(k, inner))
    decreases Depth(inner) + 1, 0
  {
    ghost var before := Abs(inner);
    k.n := k.n - 1;
    if k.n == -1 {
      res := Ok(Reduced(acc));
    } else {
      res := StepChain(inner, acc, x);
      assert Semantics.Step(before, acc, x).chain == Abs(inner);
    }
  }

  /** `CattingReducer#step`: `transduce(PreservingReduced.new, @reducer, result, input)`. */
  method CattingStep(inner: Live, acc: Value, x: Value) returns (res: Result<Value>)
    requires Valid(inner)
    modifies Cells(inner)
    ensures Semantics.Step(old(Abs(CattingReducer(inner))), acc, x).res == res
    ensures Semantics.Step(old(Abs(CattingReducer(inner))), acc, x).chain == Abs(CattingReducer(inner))
    decreases Depth(inner) + 1, 0
  {
    res := Transduce(Preserving, AReducer(inner), acc, x);
  }

  /** `Transducers.transduce(t, reducer, init, coll)`. When the reducer
      passed in is a chain, its counters end as the reduction left them. */
  method Transduce(t: Transducer, arg: ReducerArg<TakingCounter>, init: Value, coll: Value)
    returns (res: Result<Value>)
    requires ArgValid(arg)
    modifies ArgCells(arg)
    ensures Semantics.Transduce(t, old(AbsArg(arg)), init, coll).res == res
    ensures arg.AReducer? ==> Abs(arg.r) == Peel(t, Semantics.Transduce(t, old(AbsArg(arg)), init, coll).chain)
    decreases ArgDepth(arg) + Layers(t), 4
  {
    var base := AsReducer(init, arg, None);
    AbsAsReducer(init, arg, None);
    AllocatedCells(base);
    var r := ApplyTo(t, base);
    assert Abs(r) == Apply(t, AsReducer(init, old(AbsArg(arg)), None));
    res := Drive(r, init, coll);
    AbsPeel(t, r);
  }

  /** The body of `transduce` once the chain `r` is built: the seed, then
      `transduce_string` for a string, the `each` loop for a list. */
  method Drive(r: Live, init: Value, coll: Value) returns (res: Result<Value>)
    requires Valid(r)
    modifies Cells(r)
    ensures Semantics.Drive(old(Abs(r)), init, coll).res == res
    ensures Semantics.Drive(old(Abs(r)), init, coll).chain == Abs(r)
    decreases Depth(r), 3
  {
    var result: Value;
    if init == InitNotSupplied {
      var seed := Init(r);
      if seed.None? {
        res := Err(NoMethodError("init"));
        return;
      }
      result := seed.value;
    } else {
      result := init;
    }
    if coll.Str? {
      res := TransduceString(r, result, coll.s);
      return;
    }
    if !coll.List? {
      res := Err(NoMethodError("each"));
      return;
    }
    var xs := coll.items;
    ghost var spec := Semantics.Run(Abs(r), result, xs);
    var i := 0;
    while i < |xs|
      invariant 0 <= i <= |xs|
      invariant Semantics.Run(Abs(r), result, xs[i..]) == spec
    {
      if result.Reduced? {
        res := Ok(result.val);
        return;
      }
      var step := StepChain(r, result, xs[i]);
      assert xs[i..][1..] == xs[i + 1..];
      if step.Err? {
        res := step;
        return;
      }
      result := step.value;
      i := i + 1;
    }
    res := Ok(result);
  }

  /** `transduce_string(reducer, result, str)`: the same loop over the
      characters of `str`. */
  method TransduceString(c: Live, result: Value, s: string) returns (res: Result<Value>)
    requires Valid(c)
    modifies Cells(c)
    ensures Semantics.Run(old(Abs(c)), result, Chars(s)) == Semantics.Outcome(res, Abs(c))
    decreases Depth(c), 2
  {
    var acc := result;
    var i := 0;
    while i < |s|
      invariant 0 <= i <= |s|
      invariant Semantics.Run(Abs(c), acc, Chars(s)[i..]) == Semantics.Run(old(Abs(c)), result, Chars(s))
    {
      if acc.Reduced? {
        res := Ok(acc.val);
        return;
      }
      var step := StepChain(c, acc, Str([s[i]]));
      assert Chars(s)[i..][1..] == Chars(s)[i + 1..];
      if step.Err? {
        res := step;
        return;
      }
      acc := step.value;
      i := i + 1;
    }
    res := Ok(acc);
  }
}

/** What a reduction computes (lib/transducers.rb:4-21 and the `step` methods),
    as functions that pass the chain's Taking counts along: a step returns
    its value together with the chain as it stands afterwards. */
module Semantics {
  import opened Values
  import opened Chains
  import opened Transducers

  /** The value of a step or a reduction, or the exception it raised; and the
      chain afterwards (its Taking counts may have moved, even on an error). */
  datatype Outcome = Outcome(res: Result<Value>, chain: Chain<int>)

  /** `@xform.xform(input)`: a `BlockXForm` calls its block, a `MethodXForm`
      sends its symbol to the input, an object answers `xform` itself, and
      nil has no `xform` method. */
  function Transform(xform: XForm, x: Value): (r: Result<Value>)
    ensures r.Err? <==> xform.NilXForm?
    ensures r.Err? ==> r.error == NoMethodError("xform")
    ensures xform.BlockXForm? ==> r == Ok(xform.block(x))
    ensures xform.MethodXForm? ==> r == Ok(xform.sym.impl(x))
    ensures xform.ObjectXForm? ==> r == Ok(xform.xform(x))
  {
    match xform
    case BlockXForm(f) => Ok(f(x))
    case MethodXForm(sym) => Ok(sym.impl(x))
    case ObjectXForm(f) => Ok(f(x))
    case NilXForm => Err(NoMethodError("xform"))
  }

  /** The condition of `BlockReducer#step` / `MethodReducer#step`, as Ruby
      reads it: anything but nil and false keeps the input; sending a nil
      predicate raises `TypeError`. */
  function Keeps(pred: Pred, x: Value): (r: Result<bool>)
    ensures r.Err? <==> pred == PredSend(None)
    ensures r.Err? ==> r.error == TypeError
    ensures pred.PredBlock? ==> r == Ok(Truthy(pred.block(x)))
    ensures pred.PredSend? && pred.pred.Some? ==> r == Ok(Truthy(pred.pred.value.impl(x)))
  {
    match pred
    case PredBlock(f) => Ok(Truthy(f(x)))
    case PredSend(Some(sym)) => Ok(Truthy(sym.impl(x)))
    case PredSend(None) => Err(TypeError)
  }

  /** `Reducer#step`: the symbol sent to the accumulator with the input as
      argument, or the block called with both; a `Reducer` built without
      symbol or block has nil as block, which has no `call`. */
  function Call(kind: StepKind, acc: Value, x: Value): (r: Result<Value>)
    ensures r.Err? <==> kind == BlockStep(None)
    ensures r.Err? ==> r.error == NoMethodError("call")
    ensures kind.SendStep? ==> r == Ok(kind.sym.impl(acc, x))
    ensures kind.BlockStep? && kind.block.Some? ==> r == Ok(kind.block.value(acc, x))
  {
    match kind
    case SendStep(sym) => Ok(sym.impl(acc, x))
    case BlockStep(Some(f)) => Ok(f(acc, x))
    case BlockStep(None) => Err(NoMethodError("call"))
  }

  /** `c.step(acc, x)`. A `TakingReducer` counts down first and answers
      `Reduced(acc)` without forwarding when its count reaches exactly -1;
      a `CattingReducer` runs the whole driver over `x` with the reducer it
      wraps and `acc` as seed, `PreservingReduced#apply` having handed that
      reducer back unchanged. */
  function Step(c: Chain<int>, acc: Value, x: Value): (o: Outcome)
    ensures Shape(o.chain) == Shape(c) && Depth(o.chain) == Depth(c)
    decreases Depth(c), 0, 0
  {
    match c
    case Reducer(_, kind) => Outcome(Call(kind, acc, x), c)
    case Foreign(_, step) => Outcome(Ok(step(acc, x)), c)
    case MappingReducer(inner, xform) =>
      (match Transform(xform, x)
       case Err(e) => Outcome(Err(e), c)
       case Ok(y) =>
         var o := Step(inner, acc, y);
         Outcome(o.res, MappingReducer(o.chain, xform)))
    case FilteringReducer(inner, pred) =>
      (match Keeps(pred, x)
       case Err(e) => Outcome(Err(e), c)
       case Ok(keep) =>
         if keep then
           var o := Step(inner, acc, x);
           Outcome(o.res, FilteringReducer(o.chain, pred))
         else Outcome(Ok(acc), c))
    case TakingReducer(n, inner) =>
      if n - 1 == -1 then Outcome(Ok(Reduced(acc)), TakingReducer(n - 1, inner))
      else
        var o := Step(inner, acc, x);
        Outcome(o.res, TakingReducer(n - 1, o.chain))
    case CattingReducer(inner) =>
      var o := Drive(inner, acc, x);
      Outcome(o.res, CattingReducer(o.chain))
  }

  /** The `each` loop: before every element, a `Reduced` accumulator ends the
      reduction with its `val`; after the last element the accumulator is
      returned as it is, `Reduced` or not. */
  function Run(c: Chain<int>, acc: Value, xs: seq<Value>): (o: Outcome)
    ensures Shape(o.chain) == Shape(c) && Depth(o.chain) == Depth(c)
    decreases Depth(c), 1, |xs|
  {
    if xs == [] then Outcome(Ok(acc), c)
    else if acc.Reduced? then Outcome(Ok(acc.val), c)
    else
      var o := Step(c, acc, xs[0]);
      if o.res.Err? then o else Run(o.chain, o.res.value, xs[1..])
  }

  /** `transduce` once the chain is built: the seed is `init` unless that is
      `:init_not_supplied`, in which case it is the chain's `init`; a string
      is walked character by character (`transduce_string`), a list element
      by element, and anything else has no `each`. */
  function Drive(c: Chain<int>, init: Value, coll: Value): (o: Outcome)
    ensures Shape(o.chain) == Shape(c) && Depth(o.chain) == Depth(c)
    decreases Depth(c), 2, 0
  {
    var start := if init == InitNotSupplied then Init(c) else Some(init);
    if start.None? then Outcome(Err(NoMethodError("init")), c)
    else if coll.Str? then Run(c, start.value, Chars(coll.s))
    else if coll.List? then Run(c, start.value, coll.items)
    else Outcome(Err(NoMethodError("each")), c)
  }

  /** `Transducers.transduce(t, reducer, init, coll)`; `init` is
      `InitNotSupplied` when the caller gave none. `transduce` takes no
      block, so a `reducer` that is neither a reducer nor a symbol builds a
      `Reducer` without one. */
  function Transduce(t: Transducer, arg: ReducerArg<int>, init: Value, coll: Value): (o: Outcome)
    ensures Shape(o.chain) == Shape(Apply(t, AsReducer(init, arg, None)))
    ensures init != InitNotSupplied && !coll.Str? && !coll.List? ==> o.res == Err(NoMethodError("each"))
    ensures init != InitNotSupplied && coll == List([]) ==> o.res == Ok(init)
  {
    var c := Apply(t, AsReducer(init, arg, None));
    assert Run(c, init, []) == Outcome(Ok(init), c);
    Drive(c, init, coll)
  }

  /** The value `PreservingReduced#step` returns for the inner step's `ret`:
      one more `Reduced` layer exactly when `ret` is reduced, so the
      driver's unwrapping gives `ret` back. */
  function Preserve(ret: Value): (r: Value)
    ensures r.Reduced? <==> ret.Reduced?
    ensures r.Reduced? ==> r.val == ret
    ensures !r.Reduced? ==> r == ret
  {
    if ret.Reduced? then Reduced(ret) else ret
  }
}

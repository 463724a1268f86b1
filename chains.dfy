/** Reducers and the chains transducers build out of them
    (lib/transducers.rb: `Reducer`, `reducer`, `BaseReducer` and the
    `*Reducer` decorators). */
module Chains {
  import opened Values

  /** A symbol sent to a receiver with `send`: its name and what the
      receiver's method does, given as a function. */
  datatype Selector<F> = Selector(name: string, impl: F)

  /** How a `Reducer` steps, fixed once when it is built: by sending its
      symbol to the accumulator, or by calling its block (possibly absent). */
  datatype StepKind =
    | SendStep(sym: Selector<(Value, Value) -> Value>)
    | BlockStep(block: Option<(Value, Value) -> Value>)

  /** The xform a `MappingTransducer` holds: a `BlockXForm`, a `MethodXForm`,
      an object given by the caller that answers `xform`, or nil. */
  datatype XForm =
    | BlockXForm(block: Value -> Value)
    | MethodXForm(sym: Selector<Value -> Value>)
    | ObjectXForm(xform: Value -> Value)
    | NilXForm

  /** The test a `FilteringTransducer` applies: its block (`BlockReducer`) or
      a symbol, possibly nil, sent to the input (`MethodReducer`). */
  datatype Pred =
    | PredBlock(block: Value -> Value)
    | PredSend(pred: Option<Selector<Value -> Value>>)

  /** A reducer chain. `C` is what holds a `TakingReducer`'s count: a plain
      integer in the specification, a heap cell in the imperative driver.
      `Reducer` is the class built by `reducer()`; `Foreign` is any other
      object answering `step`, with or without `init`; the rest are the
      decorators, each owning the reducer it wraps. */
  datatype Chain<C> =
    | Reducer(init: Value, kind: StepKind)
    | Foreign(seed: Option<Value>, step: (Value, Value) -> Value)
    | MappingReducer(inner: Chain<C>, xform: XForm)
    | FilteringReducer(inner: Chain<C>, pred: Pred)
    | TakingReducer(n: C, inner: Chain<C>)
    | CattingReducer(inner: Chain<C>)
  {
    /** The decorators: subclasses of `BaseReducer`. */
    predicate IsDecorator() {
      MappingReducer? || FilteringReducer? || TakingReducer? || CattingReducer?
    }
  }

  /** Number of decorators above the base reducer. */
  function Depth<C>(c: Chain<C>): nat {
    if c.IsDecorator() then 1 + Depth(c.inner) else 0
  }

  /** The chain with every Taking count forgotten: what a step never changes. */
  function Shape<C>(c: Chain<C>): (s: Chain<()>)
    ensures Depth(s) == Depth(c)
  {
    match c
    case Reducer(init, kind) => Reducer(init, kind)
    case Foreign(seed, step) => Foreign(seed, step)
    case MappingReducer(inner, xform) => MappingReducer(Shape(inner), xform)
    case FilteringReducer(inner, pred) => FilteringReducer(Shape(inner), pred)
    case TakingReducer(_, inner) => TakingReducer((), Shape(inner))
    case CattingReducer(inner) => CattingReducer(Shape(inner))
  }

  /** `init` of a chain; `None` when the object does not answer `init`.
      A decorator forwards to the reducer it wraps, or gives nil when that
      one has no `init` (`BaseReducer#init`). */
  function Init<C>(c: Chain<C>): (r: Option<Value>)
    ensures c.IsDecorator() ==> r.Some?
    ensures c.IsDecorator() && Init(c.inner).Some? ==> r == Init(c.inner)
    ensures c.IsDecorator() && Init(c.inner).None? ==> r == Some(Nil)
  {
    match c
    case Reducer(init, _) => Some(init)
    case Foreign(seed, _) => seed
    case _ => Some(Init(c.inner).GetOr(Nil))
  }

  /** The second argument of `reducer()`: an object answering `step`, a
      symbol, or nothing. */
  datatype ReducerArg<C> =
    | AReducer(r: Chain<C>)
    | ASymbol(sym: Selector<(Value, Value) -> Value>)
    | NoArg

  /** `Transducers.reducer(init, sym_or_reducer, &block)`: an argument that
      already answers `step` is returned as it is; otherwise a fresh `Reducer`
      holding `init`, stepping by the symbol when there is one and by the
      block otherwise. */
  function AsReducer<C>(init: Value, arg: ReducerArg<C>, block: Option<(Value, Value) -> Value>): (r: Chain<C>)
    ensures arg.AReducer? ==> r == arg.r
    ensures !arg.AReducer? ==> r.Reducer? && Init(r) == Some(init)
    ensures arg.ASymbol? ==> r.kind == SendStep(arg.sym)
    ensures arg.NoArg? ==> r.kind == BlockStep(block)
  {
    match arg
    case AReducer(r) => r
    case ASymbol(sym) => Reducer(init, SendStep(sym))
    case NoArg => Reducer(init, BlockStep(block))
  }
}

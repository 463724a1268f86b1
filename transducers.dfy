/** Transducers and how they decorate a reducer
    (lib/transducers.rb: the `*Transducer` classes, `PreservingReduced#apply`
    and the constructors `mapping` … `mapcat`). */
module Transducers {
  import opened Values
  import opened Chains

  /** A transducer. Every variant is immutable: `TakingTransducer` only keeps
      the count that each `apply` copies into a new `TakingReducer`.
      `Preserving` is a `PreservingReduced` instance used as a transducer. */
  datatype Transducer =
    | MappingTransducer(xform: XForm)
    | FilteringTransducer(pred: Pred)
    | TakingTransducer(n: int)
    | CattingTransducer
    | ComposedTransducer(transducers: seq<Transducer>)
    | Preserving

  /** How many decorators `t.apply` puts around a reducer. */
  function Layers(t: Transducer): nat
    decreases t
  {
    match t
    case ComposedTransducer(ts) => LayersFrom(ts, |ts|)
    case Preserving => 0
    case _ => 1
  }

  function LayersFrom(ts: seq<Transducer>, i: nat): nat
    requires i <= |ts|
    decreases ts, i
  {
    if i == 0 then 0 else LayersFrom(ts, i - 1) + Layers(ts[i - 1])
  }

  /** `t.apply(r)` on the specification's chains, where a Taking count is an
      integer. A `ComposedTransducer` folds its list from the last transducer
      to the first (`reverse.reduce`); `PreservingReduced#apply` returns the
      reducer it was given, since a Ruby assignment evaluates to its value. */
  function Apply(t: Transducer, r: Chain<int>): (c: Chain<int>)
    ensures Depth(c) == Depth(r) + Layers(t)
    decreases t
  {
    match t
    case MappingTransducer(xform) => MappingReducer(r, xform)
    case FilteringTransducer(pred) => FilteringReducer(r, pred)
    case TakingTransducer(n) => TakingReducer(n, r)
    case CattingTransducer => CattingReducer(r)
    case ComposedTransducer(ts) => ApplyReversed(ts, |ts|, r)
    case Preserving => r
  }

  /** `ts[..i].reverse.reduce(r) {|r, t| t.apply(r)}`. */
  function ApplyReversed(ts: seq<Transducer>, i: nat, r: Chain<int>): (c: Chain<int>)
    requires i <= |ts|
    ensures Depth(c) == Depth(r) + LayersFrom(ts, i)
    decreases ts, i
  {
    if i == 0 then r else ApplyReversed(ts, i - 1, Apply(ts[i - 1], r))
  }

  /** Takes off again the decorators `t.apply` put on: the reducer the chain
      was built around. Generic in the counter, so it reads no heap. */
  function Peel<C>(t: Transducer, c: Chain<C>): Chain<C>
    decreases t
  {
    match t
    case ComposedTransducer(ts) => PeelAll(ts, 0, c)
    case Preserving => c
    case _ => if c.IsDecorator() then c.inner else c
  }

  /** Peels `ts[i..]`, outermost (first-listed) first. */
  function PeelAll<C>(ts: seq<Transducer>, i: nat, c: Chain<C>): Chain<C>
    requires i <= |ts|
    decreases ts, |ts| - i
  {
    if i == |ts| then c else PeelAll(ts, i + 1, Peel(ts[i], c))
  }

  /** `mapping(xform, &block)`: a block wins; else a symbol becomes a
      `MethodXForm`; else the object given is used as the xform. */
  datatype XFormArg = SymbolArg(sym: Selector<Value -> Value>) | ObjectArg(xform: Value -> Value)

  function Mapping(xform: Option<XFormArg>, block: Option<Value -> Value>): (t: Transducer)
    ensures t.MappingTransducer?
    ensures block.Some? ==> t.xform == BlockXForm(block.value)
    ensures block.None? && xform.Some? && xform.value.SymbolArg? ==> t.xform == MethodXForm(xform.value.sym)
    ensures block.None? && xform.Some? && xform.value.ObjectArg? ==> t.xform == ObjectXForm(xform.value.xform)
    ensures block.None? && xform.None? ==> t.xform == NilXForm
  {
    MappingTransducer(
      if block.Some? then BlockXForm(block.value)
      else match xform
        case Some(SymbolArg(sym)) => MethodXForm(sym)
        case Some(ObjectArg(f)) => ObjectXForm(f)
        case None => NilXForm)
  }

  /** `filtering(pred, &block)`: a block builds `BlockReducer`s, otherwise
      `MethodReducer`s send `pred` (possibly nil) to each input. */
  function Filtering(pred: Option<Selector<Value -> Value>>, block: Option<Value -> Value>): (t: Transducer)
    ensures t.FilteringTransducer?
    ensures block.Some? ==> t.pred == PredBlock(block.value)
    ensures block.None? ==> t.pred == PredSend(pred)
  {
    FilteringTransducer(if block.Some? then PredBlock(block.value) else PredSend(pred))
  }

  /** `taking(n)`: every `apply` starts a new `TakingReducer` at `n`. */
  function Taking(n: int): (t: Transducer)
    ensures forall r :: Apply(t, r) == TakingReducer(n, r)
  {
    TakingTransducer(n)
  }

  /** `cat`: every `apply` wraps the reducer in a `CattingReducer`. */
  function Cat(): (t: Transducer)
    ensures forall r :: Apply(t, r) == CattingReducer(r)
  {
    CattingTransducer
  }

  /** The transducers of a list applied one inside the other, the first
      outermost: an independent reading of `compose`. */
  function Nest(ts: seq<Transducer>, r: Chain<int>): Chain<int> {
    if ts == [] then r else Apply(ts[0], Nest(ts[1..], r))
  }

  lemma {:induction false} ApplyReversedFirst(ts: seq<Transducer>, i: nat, r: Chain<int>)
    requires 0 < i <= |ts|
    ensures ApplyReversed(ts, i, r) == Apply(ts[0], ApplyReversed(ts[1..], i - 1, r))
    decreases i
  {
    if i > 1 {
      ApplyReversedFirst(ts, i - 1, Apply(ts[i - 1], r));
      assert ts[1..][i - 2] == ts[i - 1];
    }
  }

  /** Folding from the last transducer to the first (`reverse.reduce`) nests
      the list first-outermost. */
  lemma {:induction false} ComposeApply(ts: seq<Transducer>, r: Chain<int>)
    ensures ApplyReversed(ts, |ts|, r) == Nest(ts, r)
    decreases |ts|
  {
    if ts != [] {
      ApplyReversedFirst(ts, |ts|, r);
      ComposeApply(ts[1..], r);
    }
  }

  /** `compose(t1, …, tk)`: its `apply` is `t1.apply(t2.apply(… tk.apply(r)))`,
      and `compose()` hands `r` back. */
  function Compose(ts: seq<Transducer>): (t: Transducer)
    ensures forall r :: Apply(t, r) == Nest(ts, r)
    ensures ts == [] ==> forall r :: Apply(t, r) == r
  {
    assert forall r :: ApplyReversed(ts, |ts|, r) == Nest(ts, r) by {
      forall r ensures ApplyReversed(ts, |ts|, r) == Nest(ts, r) {
        ComposeApply(ts, r);
      }
    }
    ComposedTransducer(ts)
  }

  /** `mapcat(f, &b)` is `compose(mapping(f, &b), cat)`: its `apply` puts a
      `MappingReducer` over a `CattingReducer`, so each input is mapped, then
      flattened into the reducer. */
  function Mapcat(xform: Option<XFormArg>, block: Option<Value -> Value>): (t: Transducer)
    ensures forall r :: Apply(t, r) == MappingReducer(CattingReducer(r), Mapping(xform, block).xform)
  {
    var ts := [Mapping(xform, block), Cat()];
    assert ts[1..] == [Cat()] && [Cat()][1..] == [];
    assert forall r :: Nest(ts, r) == MappingReducer(CattingReducer(r), Mapping(xform, block).xform) by {
      forall r ensures Nest(ts, r) == MappingReducer(CattingReducer(r), Mapping(xform, block).xform) {
        assert Nest([Cat()], r) == Apply(Cat(), Nest([], r));
        assert Nest(ts, r) == Apply(ts[0], Nest([Cat()], r));
      }
    }
    Compose(ts)
  }
}

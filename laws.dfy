/** What the engine promises, proved about the functions of `Semantics`:
    where the seed comes from, when the driver stops, the order in which
    `compose` nests its transducers, and what each decorator does to the
    inputs the reducer it wraps gets to see. */
module Laws {
  import opened Values
  import opened Chains
  import opened Transducers
  import opened Semantics

  // ---------------------------------------------------------------------
  // Seeds

  /** `BaseReducer#init` through any number of decorators: the wrapped
      reducer's `init` when it has one, else nil as soon as there is at
      least one decorator. */
  lemma {:induction false} InitApply(t: Transducer, r: Chain<int>)
    ensures Init(r).Some? ==> Init(Apply(t, r)) == Init(r)
    ensures Init(r).None? ==> Init(Apply(t, r)) == (if Layers(t) == 0 then None else Some(Nil))
    decreases t, 1
  {
    match t
    case ComposedTransducer(ts) => InitApplyReversed(ts, |ts|, r);
    case Preserving =>
    case _ =>
  }

  lemma {:induction false} InitApplyReversed(ts: seq<Transducer>, i: nat, r: Chain<int>)
    requires i <= |ts|
    ensures Init(r).Some? ==> Init(ApplyReversed(ts, i, r)) == Init(r)
    ensures Init(r).None? ==> Init(ApplyReversed(ts, i, r)) == (if LayersFrom(ts, i) == 0 then None else Some(Nil))
    decreases ts, 0, i
  {
    if i > 0 {
      InitApply(ts[i - 1], r);
      InitApplyReversed(ts, i - 1, Apply(ts[i - 1], r));
    }
  }

  /** An empty collection is never stepped: `transduce` returns its seed,
      which is `init` when given; otherwise the `init` of the reducer passed
      in (nil when it has none but is decorated, `NoMethodError` when it has
      none and nothing decorates it); and for a symbol or a missing reducer,
      the seed is the symbol `:init_not_supplied` itself, which
      `reducer(init, …)` stored as the new `Reducer`'s `init`. */
  lemma TransduceEmpty(t: Transducer, arg: ReducerArg<int>, init: Value)
    ensures var o := Transduce(t, arg, init, List([]));
      && (init != InitNotSupplied ==> o.res == Ok(init))
      && (init == InitNotSupplied && !arg.AReducer? ==> o.res == Ok(InitNotSupplied))
      && (init == InitNotSupplied && arg.AReducer? && Init(arg.r).Some? ==> o.res == Ok(Init(arg.r).value))
      && (init == InitNotSupplied && arg.AReducer? && Init(arg.r).None? ==>
            o.res == (if Layers(t) == 0 then Err(NoMethodError("init")) else Ok(Nil)))
      && o.chain == Apply(t, AsReducer(init, arg, None))
  {
    var c := Apply(t, AsReducer(init, arg, None));
    InitApply(t, AsReducer(init, arg, None));
    var start := if init == InitNotSupplied then Init(c) else Some(init);
    assert Transduce(t, arg, init, List([])) == Drive(c, init, List([]));
    if start.Some? {
      assert Drive(c, init, List([])) == Run(c, start.value, []);
    }
  }

  /** Strings are walked as the list of their one-character strings. */
  lemma DriveString(c: Chain<int>, init: Value, s: string)
    ensures Drive(c, init, Str(s)) == Drive(c, init, List(Chars(s)))
    ensures |Chars(s)| == |s| && forall i :: 0 <= i < |s| ==> Chars(s)[i] == Str([s[i]])
  {
  }

  // ---------------------------------------------------------------------
  // The driver loop

  /** A step that answers `Reduced(v)` ends the loop: with more inputs left,
      none of them is stepped and `v` is returned; on the last input the
      `Reduced` itself is returned. */
  lemma ReducedStops(c: Chain<int>, acc: Value, x: Value, rest: seq<Value>)
    requires !acc.Reduced?
    requires Step(c, acc, x).res.Ok? && Step(c, acc, x).res.value.Reduced?
    ensures var s := Step(c, acc, x);
      Run(c, acc, [x] + rest) == Outcome(Ok(if rest == [] then s.res.value else s.res.value.val), s.chain)
  {
    assert ([x] + rest)[1..] == rest;
  }

  /** A chain whose every step succeeds, leaves the chain as it was, and
      answers neither `Reduced` nor the symbol `:init_not_supplied` (which
      a nested `transduce` would take for a missing seed). */
  ghost predicate Plain(c: Chain<int>) {
    forall a, x :: var s := Step(c, a, x);
      s.res.Ok? && s.chain == c && !s.res.value.Reduced? && s.res.value != InitNotSupplied
  }

  /** A plain chain is folded over every input: running over `xs + ys` is
      running over `ys` from where `xs` left off. */
  lemma {:induction false} RunAppend(c: Chain<int>, acc: Value, xs: seq<Value>, ys: seq<Value>)
    requires Plain(c) && !acc.Reduced? && acc != InitNotSupplied
    ensures Run(c, acc, xs).res.Ok?
    ensures !Run(c, acc, xs).res.value.Reduced? && Run(c, acc, xs).res.value != InitNotSupplied
    ensures Run(c, acc, xs).chain == c
    ensures Run(c, acc, xs + ys) == Run(c, Run(c, acc, xs).res.value, ys)
    decreases |xs|
  {
    if xs != [] {
      var s := Step(c, acc, xs[0]);
      var v := s.res.value;
      assert (xs + ys)[1..] == xs[1..] + ys;
      assert Run(c, acc, xs + ys) == Run(c, v, xs[1..] + ys);
      assert Run(c, acc, xs) == Run(c, v, xs[1..]);
      RunAppend(c, v, xs[1..], ys);
    } else {
      assert xs + ys == ys;
    }
  }

  // ---------------------------------------------------------------------
  // Mapping

  /** The value an xform other than nil gives for `x`. */
  function Image(xform: XForm, x: Value): Value
    requires !xform.NilXForm?
  {
    Transform(xform, x).value
  }

  function Mapped(xform: XForm, xs: seq<Value>): (ys: seq<Value>)
    requires !xform.NilXForm?
    ensures |ys| == |xs| && forall i :: 0 <= i < |xs| ==> ys[i] == Image(xform, xs[i])
  {
    seq(|xs|, i requires 0 <= i < |xs| => Image(xform, xs[i]))
  }

  /** A `MappingReducer` feeds the reducer it wraps the transformed inputs,
      one for one, and nothing else. */
  lemma {:induction false} MapLaw(c: Chain<int>, xform: XForm, acc: Value, xs: seq<Value>)
    requires !xform.NilXForm?
    ensures var i := Run(c, acc, Mapped(xform, xs));
      Run(MappingReducer(c, xform), acc, xs) == Outcome(i.res, MappingReducer(i.chain, xform))
    decreases |xs|
  {
    if xs != [] && !acc.Reduced? {
      var s := Step(c, acc, Image(xform, xs[0]));
      assert Mapped(xform, xs)[1..] == Mapped(xform, xs[1..]);
      if s.res.Ok? {
        MapLaw(s.chain, xform, s.res.value, xs[1..]);
      }
    }
  }

  /** Two mapping blocks in a row reduce like one mapping by their
      composite: `compose(mapping(f), mapping(g))` applies `f` first. */
  lemma MapFusion(c: Chain<int>, f: Value -> Value, g: Value -> Value, acc: Value, xs: seq<Value>)
    ensures Run(MappingReducer(MappingReducer(c, BlockXForm(g)), BlockXForm(f)), acc, xs).res
         == Run(MappingReducer(c, BlockXForm(x => g(f(x)))), acc, xs).res
  {
    var fx := Mapped(BlockXForm(f), xs);
    MapLaw(MappingReducer(c, BlockXForm(g)), BlockXForm(f), acc, xs);
    MapLaw(c, BlockXForm(g), acc, fx);
    MapLaw(c, BlockXForm(x => g(f(x))), acc, xs);
    assert Mapped(BlockXForm(g), fx) == Mapped(BlockXForm(x => g(f(x))), xs);
  }

  /** Map fusion through the constructors: the chain `compose` builds from
      two block mappings reduces like `mapping` by the composite block. */
  lemma ComposeMapFusion(c: Chain<int>, f: Value -> Value, g: Value -> Value, acc: Value, xs: seq<Value>)
    ensures Run(Apply(Compose([Mapping(None, Some(f)), Mapping(None, Some(g))]), c), acc, xs).res
         == Run(Apply(Mapping(None, Some(x => g(f(x)))), c), acc, xs).res
  {
    var ts := [Mapping(None, Some(f)), Mapping(None, Some(g))];
    assert ts[1..] == [Mapping(None, Some(g))] && ts[1..][1..] == [];
    var inner := Apply(Mapping(None, Some(g)), c);
    assert inner == MappingReducer(c, BlockXForm(g));
    assert Nest(ts[1..], c) == inner;
    assert Nest(ts, c) == Apply(Mapping(None, Some(f)), inner);
    assert Apply(Mapping(None, Some(f)), inner) == MappingReducer(inner, BlockXForm(f));
    assert Apply(Mapping(None, Some(x => g(f(x)))), c) == MappingReducer(c, BlockXForm(x => g(f(x))));
    MapFusion(c, f, g, acc, xs);
  }

  /** `mapping` with neither an xform nor a block fails on the first input. */
  lemma NilXFormFails(c: Chain<int>, acc: Value, xs: seq<Value>)
    requires xs != [] && !acc.Reduced?
    ensures Run(MappingReducer(c, NilXForm), acc, xs).res == Err(NoMethodError("xform"))
  {
  }

  // ---------------------------------------------------------------------
  // Filtering

  /** The inputs a block keeps, in order. */
  function Kept(p: Value -> Value, xs: seq<Value>): (ys: seq<Value>)
    ensures |ys| <= |xs|
  {
    if xs == [] then []
    else if Truthy(p(xs[0])) then [xs[0]] + Kept(p, xs[1..])
    else Kept(p, xs[1..])
  }

  /** A `BlockReducer` passes on exactly the inputs its block keeps, in
      order: the filtered run and the inner run over the kept inputs end
      with the same counters and the same error, and their values agree up
      to one `Reduced` layer, which the filtered run may already have
      unwrapped on meeting a rejected input after the reducing one.
      `FilterLastKept` shows they agree exactly when the last input is kept. */
  lemma {:induction false} FilterLaw(c: Chain<int>, p: Value -> Value, acc: Value, xs: seq<Value>)
    ensures var o := Run(FilteringReducer(c, PredBlock(p)), acc, xs);
      var i := Run(c, acc, Kept(p, xs));
      && o.chain == FilteringReducer(i.chain, PredBlock(p))
      && (i.res.Err? ==> o.res == i.res)
      && (i.res.Ok? ==> o.res.Ok? && (o.res.value == i.res.value ||
                                      (i.res.value.Reduced? && o.res.value == i.res.value.val)))
    decreases |xs|
  {
    var f := FilteringReducer(c, PredBlock(p));
    if xs != [] && !acc.Reduced? {
      if Truthy(p(xs[0])) {
        var s := Step(c, acc, xs[0]);
        assert Kept(p, xs) == [xs[0]] + Kept(p, xs[1..]);
        assert ([xs[0]] + Kept(p, xs[1..]))[1..] == Kept(p, xs[1..]);
        assert Step(f, acc, xs[0]) == Outcome(s.res, FilteringReducer(s.chain, PredBlock(p)));
        if s.res.Ok? {
          assert Run(c, acc, Kept(p, xs)) == Run(s.chain, s.res.value, Kept(p, xs[1..]));
          FilterLaw(s.chain, p, s.res.value, xs[1..]);
        }
      } else {
        assert Kept(p, xs) == Kept(p, xs[1..]);
        assert Run(f, acc, xs) == Run(f, acc, xs[1..]);
        FilterLaw(c, p, acc, xs[1..]);
      }
    }
  }

  /** The last input, when kept, is kept last. */
  lemma {:induction false} KeptLast(p: Value -> Value, xs: seq<Value>)
    requires xs != [] && Truthy(p(xs[|xs| - 1]))
    ensures Kept(p, xs) != []
    decreases |xs|
  {
    if |xs| > 1 && !Truthy(p(xs[0])) {
      assert xs[1..][|xs[1..]| - 1] == xs[|xs| - 1];
      KeptLast(p, xs[1..]);
    }
  }

  /** When the block keeps the last input, no rejected input comes after the
      last step, and the filtered run gives exactly the inner run's value. */
  lemma {:induction false} FilterLastKept(c: Chain<int>, p: Value -> Value, acc: Value, xs: seq<Value>)
    requires xs != [] && Truthy(p(xs[|xs| - 1]))
    ensures Run(FilteringReducer(c, PredBlock(p)), acc, xs).res == Run(c, acc, Kept(p, xs)).res
    decreases |xs|
  {
    var f := FilteringReducer(c, PredBlock(p));
    KeptLast(p, xs);
    if !acc.Reduced? {
      if |xs| > 1 {
        assert xs[1..][|xs[1..]| - 1] == xs[|xs| - 1];
      }
      if Truthy(p(xs[0])) {
        var s := Step(c, acc, xs[0]);
        assert Kept(p, xs) == [xs[0]] + Kept(p, xs[1..]);
        assert ([xs[0]] + Kept(p, xs[1..]))[1..] == Kept(p, xs[1..]);
        assert Step(f, acc, xs[0]) == Outcome(s.res, FilteringReducer(s.chain, PredBlock(p)));
        if s.res.Ok? {
          assert Run(c, acc, Kept(p, xs)) == Run(s.chain, s.res.value, Kept(p, xs[1..]));
          if |xs| > 1 {
            FilterLastKept(s.chain, p, s.res.value, xs[1..]);
          } else {
            assert Kept(p, xs[1..]) == [];
          }
        }
      } else {
        assert Kept(p, xs) == Kept(p, xs[1..]);
        assert Run(f, acc, xs) == Run(f, acc, xs[1..]);
        FilterLastKept(c, p, acc, xs[1..]);
      }
    }
  }

  /** `filtering` with neither a predicate nor a block raises on the first
      input (`send(nil)`). */
  lemma NilPredFails(c: Chain<int>, acc: Value, xs: seq<Value>)
    requires xs != [] && !acc.Reduced?
    ensures Run(FilteringReducer(c, PredSend(None)), acc, xs).res == Err(TypeError)
  {
  }

  // ---------------------------------------------------------------------
  // Taking

  /** A `TakingReducer` whose count cannot reach -1 within the inputs (it is
      at least their number, or already negative) is transparent. */
  lemma {:induction false} TakeTransparent(m: int, c: Chain<int>, acc: Value, xs: seq<Value>)
    requires m < 0 || |xs| <= m
    ensures var o := Run(TakingReducer(m, c), acc, xs);
      var i := Run(c, acc, xs);
      o.res == i.res && o.chain.TakingReducer? && o.chain.inner == i.chain && o.chain.n <= m
    decreases |xs|
  {
    if xs != [] && !acc.Reduced? {
      var s := Step(c, acc, xs[0]);
      if s.res.Ok? {
        TakeTransparent(m - 1, s.chain, s.res.value, xs[1..]);
      }
    }
  }

  /** The reducer that appends every input to a list. */
  function Append(acc: Value, x: Value): Value {
    if acc.List? then List(acc.items + [x]) else acc
  }

  const Collect: Chain<int> := Foreign(Some(List([])), Append)

  /** `taking(n)` over a collecting reducer: the first `n` inputs are kept;
      input `n + 1` is not forwarded but answers `Reduced`, which the driver
      unwraps when more inputs follow and returns as it is when that input
      was the last; the count ends at `n` minus the inputs stepped. */
  lemma {:induction false} TakeLaw(m: nat, p: seq<Value>, xs: seq<Value>)
    ensures var o := Run(TakingReducer(m, Collect), List(p), xs);
      && o.res == Ok(if |xs| <= m then List(p + xs)
                     else if |xs| == m + 1 then Reduced(List(p + xs[..m]))
                     else List(p + xs[..m]))
      && o.chain == TakingReducer(m - (if |xs| <= m then |xs| else m + 1), Collect)
    decreases |xs|
  {
    if xs == [] {
      assert p + xs == p;
    } else if m == 0 {
      assert Step(TakingReducer(m, Collect), List(p), xs[0]) == Outcome(Ok(Reduced(List(p))), TakingReducer(-1, Collect));
      assert p + xs[..0] == p;
    } else {
      var q := p + [xs[0]];
      assert Step(TakingReducer(m, Collect), List(p), xs[0]) == Outcome(Ok(List(q)), TakingReducer(m - 1, Collect));
      assert Run(TakingReducer(m, Collect), List(p), xs) == Run(TakingReducer(m - 1, Collect), List(q), xs[1..]);
      TakeLaw(m - 1, q, xs[1..]);
      assert q + xs[1..] == p + xs;
      if |xs| > m {
        assert q + xs[1..][..m - 1] == p + xs[..m];
      }
    }
  }

  // ---------------------------------------------------------------------
  // Catting

  /** `CattingReducer#step` is `transduce` with a fresh `PreservingReduced`,
      the wrapped reducer and the accumulator as seed; since
      `PreservingReduced#apply` hands the reducer back, that is the plain
      driver over the input with the wrapped reducer. */
  lemma CatStep(c: Chain<int>, acc: Value, x: Value)
    ensures Apply(Preserving, c) == c
    ensures Step(CattingReducer(c), acc, x).res == Transduce(Preserving, AReducer(c), acc, x).res
    ensures Step(CattingReducer(c), acc, x).chain == CattingReducer(Transduce(Preserving, AReducer(c), acc, x).chain)
  {
  }

  predicate AllLists(xss: seq<Value>) {
    forall k :: 0 <= k < |xss| ==> xss[k].List?
  }

  function Flatten(xss: seq<Value>): (ys: seq<Value>)
    requires AllLists(xss)
  {
    if xss == [] then [] else xss[0].items + Flatten(xss[1..])
  }

  /** Over a plain chain and a seed that is neither `Reduced` nor
      `:init_not_supplied`, `cat` feeds the chain the concatenation of the
      inner lists. */
  lemma {:induction false} CatLaw(c: Chain<int>, acc: Value, xss: seq<Value>)
    requires Plain(c) && !acc.Reduced? && acc != InitNotSupplied
    requires AllLists(xss)
    ensures Run(CattingReducer(c), acc, xss) == Outcome(Run(c, acc, Flatten(xss)).res, CattingReducer(c))
    decreases |xss|
  {
    if xss != [] {
      RunAppend(c, acc, xss[0].items, Flatten(xss[1..]));
      var a := Run(c, acc, xss[0].items).res.value;
      assert Step(CattingReducer(c), acc, xss[0]) == Outcome(Ok(a), CattingReducer(c));
      assert Run(CattingReducer(c), acc, xss) == Run(CattingReducer(c), a, xss[1..]);
      assert AllLists(xss[1..]) by {
        forall k | 0 <= k < |xss[1..]| ensures xss[1..][k].List? {
          assert xss[1..][k] == xss[k + 1];
        }
      }
      assert Flatten(xss) == xss[0].items + Flatten(xss[1..]);
      CatLaw(c, a, xss[1..]);
    }
  }

  // ---------------------------------------------------------------------
  // Summing with `:+`

  /** `Integer#+`, as the symbol `:+` sends it (other operands are not modelled). */
  function Add(a: Value, x: Value): Value {
    if a.Int? && x.Int? then Int(a.i + x.i) else Nil
  }

  const Plus: Selector<(Value, Value) -> Value> := Selector("+", Add)

  predicate AllInts(xs: seq<Value>) {
    forall k :: 0 <= k < |xs| ==> xs[k].Int?
  }

  function Total(xs: seq<Value>): int {
    if xs == [] then 0 else (if xs[0].Int? then xs[0].i else 0) + Total(xs[1..])
  }

  lemma PlusIsPlain(init: Value)
    ensures Plain(Reducer(init, SendStep(Plus)))
  {
  }

  /** `reducer(init, :+)` over integers sums them onto the seed. */
  lemma {:induction false} SumLaw(init: Value, a: int, xs: seq<Value>)
    requires AllInts(xs)
    ensures Run(Reducer(init, SendStep(Plus)), Int(a), xs) == Outcome(Ok(Int(a + Total(xs))), Reducer(init, SendStep(Plus)))
    decreases |xs|
  {
    if xs != [] {
      assert AllInts(xs[1..]) by {
        forall k | 0 <= k < |xs[1..]| ensures xs[1..][k].Int? {
          assert xs[1..][k] == xs[k + 1];
        }
      }
      SumLaw(init, a + xs[0].i, xs[1..]);
    }
  }

  /** `transduce(cat, :+, 0, lists)` is the sum of all the integers in the lists. */
  lemma CatSum(xss: seq<Value>)
    requires AllLists(xss) && AllInts(Flatten(xss))
    ensures Transduce(Cat(), ASymbol(Plus), Int(0), List(xss)).res == Ok(Int(Total(Flatten(xss))))
  {
    var c := Reducer(Int(0), SendStep(Plus));
    PlusIsPlain(Int(0));
    CatLaw(c, Int(0), xss);
    SumLaw(Int(0), 0, Flatten(xss));
  }

  // ---------------------------------------------------------------------
  // Whole pipelines

  function Double(v: Value): Value {
    if v.Int? then Int(2 * v.i) else v
  }

  function Over4(v: Value): Value {
    Bool(v.Int? && v.i > 4)
  }

  function PipelineSteps(): seq<Transducer> {
    [Mapping(None, Some(Double)), Filtering(None, Some(Over4)), Taking(2)]
  }

  lemma PipelineChain()
    ensures Apply(Compose(PipelineSteps()), Collect)
         == MappingReducer(FilteringReducer(TakingReducer(2, Collect), PredBlock(Over4)), BlockXForm(Double))
  {
    var ts := PipelineSteps();
    assert ts[1..][1..] == [Taking(2)] && ts[1..][1..][1..] == [];
    assert Nest(ts[1..][1..], Collect) == TakingReducer(2, Collect);
    assert Nest(ts[1..], Collect) == FilteringReducer(TakingReducer(2, Collect), PredBlock(Over4));
  }

  lemma PipelineKept()
    ensures Kept(Over4, [Int(2), Int(4), Int(6), Int(8), Int(10), Int(12)]) == [Int(6), Int(8), Int(10), Int(12)]
  {
    var ys := [Int(2), Int(4), Int(6), Int(8), Int(10), Int(12)];
    assert !Truthy(Over4(ys[0])) && !Truthy(Over4(ys[1]));
    assert Kept(Over4, ys) == Kept(Over4, ys[2..]);
    assert Kept(Over4, ys[2..]) == ys[2..] by {
      KeptAll(Over4, ys[2..]);
    }
  }

  /** Inputs that all pass the block are all kept. */
  lemma {:induction false} KeptAll(p: Value -> Value, xs: seq<Value>)
    requires forall k :: 0 <= k < |xs| ==> Truthy(p(xs[k]))
    ensures Kept(p, xs) == xs
    decreases |xs|
  {
    if xs != [] {
      assert forall k :: 0 <= k < |xs[1..]| ==> xs[1..][k] == xs[k + 1];
      KeptAll(p, xs[1..]);
    }
  }

  lemma PipelineMapped()
    ensures Mapped(BlockXForm(Double), [Int(1), Int(2), Int(3), Int(4), Int(5), Int(6)])
         == [Int(2), Int(4), Int(6), Int(8), Int(10), Int(12)]
  {
  }

  lemma PipelineDrive(xs: seq<Value>)
    ensures Transduce(Compose(PipelineSteps()), AReducer(Collect), List([]), List(xs))
         == Run(MappingReducer(FilteringReducer(TakingReducer(2, Collect), PredBlock(Over4)), BlockXForm(Double)),
                List([]), xs)
  {
    PipelineChain();
  }

  /** `transduce(compose(mapping {|x| 2*x}, filtering {|x| x > 4}, taking(2)),
      collect, [], [1, 2, 3, 4, 5, 6])` is `[6, 8]`: inputs flow through
      the transducers in the order they are listed, and the third kept
      input stops the reduction. */
  lemma ComposePipeline()
    ensures Transduce(Compose(PipelineSteps()), AReducer(Collect), List([]),
                      List([Int(1), Int(2), Int(3), Int(4), Int(5), Int(6)])).res
         == Ok(List([Int(6), Int(8)]))
  {
    var xs := [Int(1), Int(2), Int(3), Int(4), Int(5), Int(6)];
    var ys := [Int(2), Int(4), Int(6), Int(8), Int(10), Int(12)];
    var zs := [Int(6), Int(8), Int(10), Int(12)];
    var take := TakingReducer(2, Collect);
    var filter := FilteringReducer(take, PredBlock(Over4));
    TakeLaw(2, [], zs);
    assert [] + zs[..2] == [Int(6), Int(8)];
    var taken := Run(take, List([]), zs).res;
    assert taken == Ok(List([Int(6), Int(8)]));
    FilterLaw(take, Over4, List([]), ys);
    PipelineKept();
    assert Run(filter, List([]), ys).res == taken;
    MapLaw(filter, BlockXForm(Double), List([]), xs);
    PipelineMapped();
    assert Run(MappingReducer(filter, BlockXForm(Double)), List([]), xs).res == taken;
    PipelineDrive(xs);
  }

  /** The three inputs of the nested take below, one step each. */
  lemma OvershootFirst()
    ensures Step(CattingReducer(TakingReducer(3, Collect)), List([]), List([Int(1), Int(2)]))
         == Outcome(Ok(List([Int(1), Int(2)])), CattingReducer(TakingReducer(1, Collect)))
  {
    TakeLaw(3, [], [Int(1), Int(2)]);
    assert [] + [Int(1), Int(2)] == [Int(1), Int(2)];
  }

  lemma OvershootSecond()
    ensures Step(CattingReducer(TakingReducer(1, Collect)), List([Int(1), Int(2)]), List([Int(3), Int(4), Int(5)]))
         == Outcome(Ok(List([Int(1), Int(2), Int(3)])), CattingReducer(TakingReducer(-1, Collect)))
  {
    var b := [Int(3), Int(4), Int(5)];
    TakeLaw(1, [Int(1), Int(2)], b);
    assert [Int(1), Int(2)] + b[..1] == [Int(1), Int(2), Int(3)];
  }

  lemma OvershootThird()
    ensures Step(CattingReducer(TakingReducer(-1, Collect)), List([Int(1), Int(2), Int(3)]), List([Int(6)]))
         == Outcome(Ok(List([Int(1), Int(2), Int(3), Int(6)])), CattingReducer(TakingReducer(-2, Collect)))
  {
    var abc := [Int(1), Int(2), Int(3)];
    TakeTransparent(-1, Collect, List(abc), [Int(6)]);
    assert abc + [Int(6)] == [Int(1), Int(2), Int(3), Int(6)];
    assert Run(Collect, List(abc), [Int(6)]).res == Ok(List([Int(1), Int(2), Int(3), Int(6)]));
  }

  /** With `cat` outside `taking(3)`, every inner list is reduced by a nested
      `transduce` whose `Reduced` is unwrapped before the outer loop sees
      it, and the shared count goes on below -1, where it forwards again:
      `[[1, 2], [3, 4, 5], [6]]` collects `[1, 2, 3, 6]`. */
  lemma NestedTakeOvershoot()
    ensures Transduce(Compose([Cat(), Taking(3)]), AReducer(Collect), List([]),
                      List([List([Int(1), Int(2)]), List([Int(3), Int(4), Int(5)]), List([Int(6)])])).res
         == Ok(List([Int(1), Int(2), Int(3), Int(6)]))
  {
    var ts := [Cat(), Taking(3)];
    assert ts[1..] == [Taking(3)] && ts[1..][1..] == [];
    assert Nest(ts[1..], Collect) == TakingReducer(3, Collect);
    var xss := [List([Int(1), Int(2)]), List([Int(3), Int(4), Int(5)]), List([Int(6)])];
    assert Transduce(Compose(ts), AReducer(Collect), List([]), List(xss))
        == Run(CattingReducer(TakingReducer(3, Collect)), List([]), xss);
    OvershootFirst();
    OvershootSecond();
    OvershootThird();
    assert xss[1..][1..][1..] == [];
    assert Run(CattingReducer(TakingReducer(-1, Collect)), List([Int(1), Int(2), Int(3)]), xss[1..][1..]).res
        == Ok(List([Int(1), Int(2), Int(3), Int(6)]));
    assert Run(CattingReducer(TakingReducer(1, Collect)), List([Int(1), Int(2)]), xss[1..]).res
        == Ok(List([Int(1), Int(2), Int(3), Int(6)]));
  }

  /** The nested take reaches its `Reduced` on the last element of
      `[1, 2, 3]` and hands it back still wrapped. */
  lemma StopsOnLast()
    ensures Step(CattingReducer(TakingReducer(2, Collect)), List([]), List([Int(1), Int(2), Int(3)])).res
         == Ok(Reduced(List([Int(1), Int(2)])))
  {
    var abc := [Int(1), Int(2), Int(3)];
    TakeLaw(2, [], abc);
    assert [] + abc[..2] == [Int(1), Int(2)];
    assert Run(TakingReducer(2, Collect), List([]), abc).res == Ok(Reduced(List([Int(1), Int(2)])));
    assert Drive(TakingReducer(2, Collect), List([]), List(abc)) == Run(TakingReducer(2, Collect), List([]), abc);
  }

  /** When the `Reduced` comes from the last element of an inner list, the
      nested `transduce` returns it still wrapped, and the outer loop stops
      at its next element: `compose(cat, taking(2))` over
      `[[1, 2, 3], [4]]` collects `[1, 2]`, and over `[[1, 2, 3]]` it
      returns `Reduced([1, 2])`. */
  lemma NestedTakeStops()
    ensures Transduce(Compose([Cat(), Taking(2)]), AReducer(Collect), List([]),
                      List([List([Int(1), Int(2), Int(3)]), List([Int(4)])])).res
         == Ok(List([Int(1), Int(2)]))
    ensures Transduce(Compose([Cat(), Taking(2)]), AReducer(Collect), List([]),
                      List([List([Int(1), Int(2), Int(3)])])).res
         == Ok(Reduced(List([Int(1), Int(2)])))
  {
    var ts := [Cat(), Taking(2)];
    assert ts[1..] == [Taking(2)] && ts[1..][1..] == [];
    assert Nest(ts[1..], Collect) == TakingReducer(2, Collect);
    var cat2 := CattingReducer(TakingReducer(2, Collect));
    var abc := List([Int(1), Int(2), Int(3)]);
    var xss := [abc, List([Int(4)])];
    assert Transduce(Compose(ts), AReducer(Collect), List([]), List(xss)) == Run(cat2, List([]), xss);
    assert Transduce(Compose(ts), AReducer(Collect), List([]), List([abc])) == Run(cat2, List([]), [abc]);
    StopsOnLast();
    var o := Step(cat2, List([]), abc);
    assert Run(cat2, List([]), xss) == Run(o.chain, o.res.value, xss[1..]);
    assert xss[1..] != [];
    assert Run(cat2, List([]), [abc]) == Run(o.chain, o.res.value, [abc][1..]);
    assert [abc][1..] == [];
  }
}

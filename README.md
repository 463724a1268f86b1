# Transducers, modelled in Dafny

This project models the `Transducers` Ruby module (`lib/transducers.rb`).
It covers composable reducer decorators (mapping, filtering, taking, cat,
compose, mapcat) and the `transduce` driver that runs a decorated reducer
over an array or a string, stopping early when a step answers `Reduced`.

The model has five modules.

- `Values` (`values.dfy`): the Ruby values the engine handles, in one
  datatype. `Reduced(val)` is one of its variants. The default `init`
  argument of `transduce`, the symbol `:init_not_supplied`, is
  `InitNotSupplied`. The exceptions the engine itself raises are
  `NoMethodError(name)` and `TypeError`.
- `Chains` (`chains.dfy`): a reducer chain. It holds a `Reducer` built by
  `reducer()` or some other object answering `step` (`Foreign`), under any
  number of `MappingReducer`, `FilteringReducer`, `TakingReducer` and
  `CattingReducer` decorators. The chain is generic in what holds a Taking
  count: an `int` in the specification, a heap cell in the driver.
  `reducer()` and `init` are defined here.
- `Transducers` (`transducers.dfy`): the transducer values, the `apply`
  that builds a chain, and the constructor functions.
- `Semantics` (`semantics.dfy`): what a step, the `each` loop and
  `transduce` compute, as functions. Each returns its value together with
  the chain as it stands afterwards, since Taking counts move.
- `Driver` (`driver.dfy`): the engine as the Ruby code runs it.
  `transduce` and `transduce_string` are loops. Each `TakingReducer` owns a
  `TakingCounter` object holding its count, which the Taking step
  (`Driver.TakingStep`) decrements in place.
  `PreservingReduced` is a class whose `apply` stores its argument. The
  chain-building methods are proved to build what the functions of
  `Transducers` build, and the stepping and reducing methods to compute
  exactly what the functions of `Semantics` compute, counters included.
- `Laws` (`laws.dfy`): properties of `Semantics`. Among them: where the
  seed comes from, when the loop stops, the nesting order of `compose`,
  and what each decorator passes on.

Three behaviours of the code shape what a reduction returns:

- `PreservingReduced#apply` (lines 208-210) is a bare assignment, so it
  returns the reducer it was given, not the `PreservingReduced`.
  `CattingReducer#step` (lines 220-222) therefore runs the downstream
  reducer directly. A `Reduced` answer from an inner element other than the
  last is unwrapped by the nested loop and does not stop the outer one.
  Meanwhile the shared Taking count keeps falling below -1, where it
  forwards again (lines 186-190).
  `transduce(compose(cat, taking(3)), collect, [], [[1, 2], [3, 4, 5], [6]])`
  collects `[1, 2, 3, 6]` (`Laws.NestedTakeOvershoot`). A `Reduced` answer
  from the last element of an inner list comes back still wrapped
  (line 12), and the outer loop stops at its next element (line 9):
  `compose(cat, taking(2))` over `[[1, 2, 3], [4]]` collects `[1, 2]`
  (`Laws.NestedTakeStops`).
- The loop of `transduce` (lines 8-11) unwraps a `Reduced` only before it
  steps the next input. A `Reduced` answered by the last input is returned
  still wrapped (line 12). So `taking(n)` over exactly `n + 1` inputs
  returns `Reduced(first n)` (`Laws.TakeLaw`).
- `TakingTransducer#apply` (lines 198-200) passes its `n` to a new
  `TakingReducer`, whose count starts there and is decremented in place.
  Every chain built from one Taking transducer starts from `n`, however
  often an earlier chain has stepped (`Driver.ApplyTo`).

User blocks, symbols and objects are functions over `Value`:

- a block passed to `mapping` or `filtering`;
- a symbol sent to the input or to the accumulator;
- an object answering `xform`;
- a reducer answering `step`.

`respond_to?` and the singleton methods that `class_eval` installs become
datatype variants.

## Model

| member | source | states |
|---|---|---|
| Values.Chars | lib/transducers.rb:16 | `each_char` yields one one-character string per character, in order |
| Chains.Init | lib/transducers.rb:75-77 | a decorator always answers `init`: with its inner reducer's `init` when that one has it, and nil when it has none (only a foreign reducer that does not answer `init`; a `Reducer` always has one, `:init_not_supplied` when `transduce` got no `init`) |
| Chains.AsReducer | lib/transducers.rb:52-58 | an argument answering `step` is returned unchanged; otherwise a new `Reducer` whose `init` is the given seed, stepping by `send` when a symbol is given and by the block otherwise |
| Transducers.Apply | lib/transducers.rb:126-241 | every `apply` (Mapping 126-128, Filtering 162 and 167, Taking 198-200, `PreservingReduced` 208-210, Catting 225-227, Composed 239-241) puts exactly `Layers(t)` decorators around the reducer, none for a `PreservingReduced` |
| Transducers.ApplyReversed | lib/transducers.rb:239-241 | folding a composed list adds the layers of every transducer in it |
| Transducers.Mapping | lib/transducers.rb:116-124 | a block becomes a `BlockXForm` and wins over the xform argument; otherwise a symbol becomes a `MethodXForm` sending it, an object is used as its own xform, and with neither the xform is nil |
| Transducers.Filtering | lib/transducers.rb:158-170 | with a block, the transducer builds `BlockReducer`s over that block; without one, `MethodReducer`s sending the given predicate (nil when none was given) |
| Semantics.Call | lib/transducers.rb:32-42 | a `Reducer` built with a symbol sends it to the accumulator with the input; with a block it calls the block; with neither it raises `NoMethodError` on `call` and only then |
| Semantics.Transform | lib/transducers.rb:101-113 | a `BlockXForm` calls its block, a `MethodXForm` sends its symbol to the input; a nil xform, and only it, raises `NoMethodError` on `xform` |
| Semantics.Keeps | lib/transducers.rb:142-155 | a block keeps an input exactly when its answer is truthy; a nil predicate, and only it, raises `TypeError` |
| Semantics.Transduce | lib/transducers.rb:4-13 | the chain is `transducer.apply(reducer(...))`, its shape unchanged by the reduction; with an `init` given, an empty array returns it and a collection that is neither array nor string raises `NoMethodError` on `each` |
| Semantics.Step | lib/transducers.rb:33-222 | a step of any class (`Reducer` 33-42, `MappingReducer` 91-93, `BlockReducer`/`MethodReducer` 142-155, `TakingReducer` 184-191, `CattingReducer` 220-222) never changes the shape of the chain, only its Taking counts |
| Semantics.Run | lib/transducers.rb:8-19 | the `each` loop of `transduce` (8-11) and of `transduce_string` (16-19) never changes the shape of the chain |
| Semantics.Drive | lib/transducers.rb:6-12 | choosing the seed and traversing the collection never change the shape of the chain |
| Semantics.Preserve | lib/transducers.rb:212-215 | `PreservingReduced#step` adds exactly one `Reduced` layer, and only to a reduced answer |
| Driver.TakingCounter.constructor | lib/transducers.rb:179-182 | a new `TakingReducer` count starts at the given `n` |
| Driver.PreservingReduced.constructor | lib/transducers.rb:207-216 | a new `PreservingReduced` holds no reducer |
| Driver.PreservingReduced.Apply | lib/transducers.rb:208-210 | `apply` stores the reducer and returns that same reducer |
| Driver.PreservingReduced.Step | lib/transducers.rb:212-215 | with no reducer stored, `step` raises `NoMethodError`; otherwise it is the stored reducer's step, with a reduced answer wrapped once more |
| Driver.ApplyTo | lib/transducers.rb:198-200 | the built chain reads as `Apply(t, r)`; each Taking layer gets a fresh counter starting at the transducer's `n`; `r`'s counters are untouched and it stays the innermost reducer |
| Driver.ApplyComposed | lib/transducers.rb:239-241 | the loop from the last transducer to the first builds the same chain as `ApplyReversed` over the whole list |
| Driver.StepChain | lib/transducers.rb:28-222 | one step on a heap chain, dispatched to the `step` of `Reducer` (28-45), `MappingReducer` (91-93), `BlockReducer`/`MethodReducer` (142-155), `TakingReducer` (184-191) or `CattingReducer` (220-222), gives the value and the new counters `Semantics.Step` gives |
| Driver.MappingStep | lib/transducers.rb:91-93 | `MappingReducer#step` agrees with `Semantics.Step`: the inner step on the transformed input |
| Driver.FilteringStep | lib/transducers.rb:142-155 | `BlockReducer#step` and `MethodReducer#step` agree with `Semantics.Step` |
| Driver.TakingStep | lib/transducers.rb:184-191 | decrementing the counter in place, then answering `Reduced(acc)` at exactly -1 or forwarding, agrees with `Semantics.Step` |
| Driver.CattingStep | lib/transducers.rb:220-222 | a nested `transduce` with `PreservingReduced` agrees with `Semantics.Step` |
| Driver.Transduce | lib/transducers.rb:4-13 | the result is `Semantics.Transduce`'s; a chain passed in keeps the counters the reduction left it |
| Driver.Drive | lib/transducers.rb:6-12 | seed choice, the string branch and the `each` loop with its early return agree with `Semantics.Drive` |
| Driver.TransduceString | lib/transducers.rb:15-21 | the loop over characters agrees with `Semantics.Run` over `Chars(s)` |
| Laws.InitApply | lib/transducers.rb:75-77 | through any transducer, `init` is the base reducer's when it has one; otherwise nil when there is a decorator, and absent when there is none |
| Laws.TransduceEmpty | lib/transducers.rb:4-13 | an empty collection returns the seed: `init` when given; else the passed reducer's `init`, nil, or `NoMethodError`; and `:init_not_supplied` itself for a symbol or no reducer |
| Laws.DriveString | lib/transducers.rb:7 | a string is reduced as the list of its one-character strings |
| Laws.ReducedStops | lib/transducers.rb:8-11 | after a step answers `Reduced(v)` no further input is stepped; `v` is returned if inputs remained, `Reduced(v)` if it was the last |
| Laws.RunAppend | lib/transducers.rb:8-12 | for a chain that never answers `Reduced`, reducing `xs + ys` is reducing `ys` from the result over `xs` |
| Transducers.ComposeApply | lib/transducers.rb:239-241 | folding `compose(t1, …, tk)` from the last transducer nests the chain as `t1.apply(t2.apply(… tk.apply(r)))` |
| Transducers.Compose | lib/transducers.rb:244-246 | `compose(t1, …, tk).apply(r)` is `t1.apply(t2.apply(… tk.apply(r)))`, and `compose()` returns `r` |
| Transducers.Mapcat | lib/transducers.rb:248-250 | `mapcat(f)` builds a `MappingReducer` with `mapping(f)`'s xform over a `CattingReducer` over the reducer |
| Transducers.Taking | lib/transducers.rb:203-205 | `taking(n).apply(r)` is a `TakingReducer` over `r` whose count starts at `n` |
| Transducers.Cat | lib/transducers.rb:230-232 | `cat.apply(r)` is a `CattingReducer` over `r` |
| Laws.MapLaw | lib/transducers.rb:91-93 | a `MappingReducer` run equals the inner run over the transformed inputs, value and counters |
| Laws.MapFusion | lib/transducers.rb:91-93 | a `MappingReducer` by `f` over one by `g` reduces to the same value as a single `MappingReducer` by `x => g(f(x))` |
| Laws.ComposeMapFusion | lib/transducers.rb:244-246 | `compose(mapping(f), mapping(g)).apply(r)` reduces to the same value as `mapping { g(f(x)) }.apply(r)` |
| Laws.NilXFormFails | lib/transducers.rb:116-124 | `mapping` with neither xform nor block raises `NoMethodError` on the first input |
| Laws.FilterLaw | lib/transducers.rb:142-144 | a `BlockReducer` run and the inner run over the kept inputs end with the same counters and the same error, and their values are equal or differ by one `Reduced` layer |
| Laws.FilterLastKept | lib/transducers.rb:142-144 | when the block keeps the last input, the `BlockReducer` run returns exactly the inner run's value over the kept inputs |
| Laws.NilPredFails | lib/transducers.rb:153-155 | `filtering` with neither predicate nor block raises `TypeError` (`send(nil)`) on the first input |
| Laws.TakeTransparent | lib/transducers.rb:184-191 | a Taking count that cannot reach -1 within the inputs (at least their number, or negative, since it only falls) forwards every input to any inner chain, which ends with the same value and counters |
| Laws.TakeLaw | lib/transducers.rb:184-191 | `taking(n)` forwards the first `n` inputs; input `n + 1` is dropped and answers `Reduced`, left wrapped when it is the last; the count ends at `n` minus the inputs stepped |
| Laws.CatStep | lib/transducers.rb:220-222 | `CattingReducer#step` is `transduce` with a `PreservingReduced`, which hands the downstream reducer back |
| Laws.CatLaw | lib/transducers.rb:218-228 | over a chain that never answers `Reduced`, `cat` feeds it the concatenation of the inner lists |
| Laws.SumLaw | lib/transducers.rb:32-34 | `reducer(init, :+)` over integers adds them all onto the seed |
| Laws.CatSum | lib/transducers.rb:230-232 | `transduce(cat, :+, 0, lists)` is the sum of every integer in the lists |
| Laws.ComposePipeline | lib/transducers.rb:244-246 | `compose(mapping(2x), filtering(x > 4), taking(2))` over 1..6 collects `[6, 8]` |
| Laws.NestedTakeOvershoot | lib/transducers.rb:208-210 | `compose(cat, taking(3))` over `[[1, 2], [3, 4, 5], [6]]` collects `[1, 2, 3, 6]` |
| Laws.NestedTakeStops | lib/transducers.rb:8-12 | `compose(cat, taking(2))` over `[[1, 2, 3], [4]]` collects `[1, 2]`: the nested loop's wrapped `Reduced` stops the outer loop; over `[[1, 2, 3]]` it returns `Reduced([1, 2])` |

## Left out

- A caller's own transducer object answering `apply`, passed to `transduce` or `compose` (lines 5 and 240), is not modelled: the `Transducer` datatype has only the module's own transducers, whereas reducers do have a `Foreign` variant.
- `require "transducers/version"` (line 1): the version constant is not part of this model.
- `Reducer#result` and `BaseReducer#result` (lines 47-49 and 79-81) are not modelled, because nothing `transduce` reaches calls them: `transduce` never finalises, and `BaseReducer#result` (line 80) only forwards to the inner reducer's `result`.
- Exceptions raised inside user blocks, by sending a symbol the receiver does not answer, or by an object without `xform` are not modelled. User code is a total function here.
- Collections other than arrays and strings (hashes, ranges, enumerators) are not modelled. Any other value has no `each` and raises `NoMethodError`.
- `init == :init_not_supplied` is modelled as structural equality on values. A user `==` is not modelled.
- `taking` with a non-integer count is not modelled.
- One `TakingReducer` object shared by two places of a chain is not modelled. The driver's `Valid` excludes it. Chains built by `apply` never share one.
- Laws.TakeLaw: stated for a collecting reducer only. For an arbitrary inner chain, `Laws.TakeTransparent` covers the inputs before the count reaches -1.
- Laws.CatLaw: stated only for chains that never answer `Reduced` or `:init_not_supplied`. With a `Reduced`, the behaviour is the one `Laws.NestedTakeOvershoot` and `Laws.NestedTakeStops` exhibit.
- Laws.FilterLaw: stated for block predicates (and `Laws.FilterLastKept` likewise). A symbol predicate behaves alike, since `Semantics.Keeps` treats both the same way.

/** Ruby objects as seen by the transducer engine: the accumulators, the
    elements of a collection and the `Reduced` sentinel all live in one
    universe of values. */
module Values {

  datatype Option<+T> = None | Some(value: T) {
    function GetOr(default: T): T {
      match this
      case Some(v) => v
      case None => default
    }
  }

  /** A Ruby value. `Reduced(val)` is an instance of `Transducers::Reduced`;
      `Sym(name)` is a Ruby symbol; a `Str` of length one is what
      `each_char` yields. */
  datatype Value =
    | Nil
    | Bool(b: bool)
    | Int(i: int)
    | Str(s: string)
    | Sym(name: string)
    | List(items: seq<Value>)
    | Reduced(val: Value)

  /** The default of `transduce`'s `init` parameter: the symbol `:init_not_supplied`. */
  const InitNotSupplied: Value := Sym("init_not_supplied")

  /** The exceptions the engine itself raises: a missing method (`each` on a
      value that is not a collection, `init` on a reducer without one, `xform`
      on nil, `call` on a missing block) or `send(nil)`. */
  datatype Error = NoMethodError(name: string) | TypeError

  datatype Result<+T> = Ok(value: T) | Err(error: Error)

  /** Ruby truthiness: everything but `nil` and `false`. */
  predicate Truthy(v: Value) {
    v != Nil && v != Bool(false)
  }

  /** The elements `String#each_char` yields, in order. */
  function Chars(s: string): (r: seq<Value>)
    ensures |r| == |s|
    ensures forall i :: 0 <= i < |s| ==> r[i] == Str([s[i]])
  {
    seq(|s|, i requires 0 <= i < |s| => Str([s[i]]))
  }
}

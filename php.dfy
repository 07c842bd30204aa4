/** The PHP values, keys and exceptions the library works with. */
module Php {

  /** A PHP array key: arrays are keyed by integers or by strings. */
  datatype Key = IntKey(i: int) | StrKey(s: string)

  /** A PHP value, as far as the library looks at one (floats and objects are not modelled). */
  datatype Value =
    | Null
    | Bool(b: bool)
    | Int(i: int)
    | Str(s: string)
    | Array(entries: seq<Entry>)

  /** One `key => value` slot of a PHP array, in insertion order. */
  datatype Entry = Entry(key: Key, value: Value)

  datatype Option<T> = None | Some(value: T)

  /** The three exception classes of the library, each carrying its message. */
  datatype Error =
    | NullPointer(message: string)
    | IllegalArgument(message: string)
    | IllegalState(message: string)

  /** A call that either returns a value or throws one of the library's exceptions. */
  datatype Result<T> = Ok(value: T) | Err(error: Error)

  /** PHP's loose truthiness, the test behind `if ($v)` and `!$v`. */
  predicate Truthy(v: Value) {
    match v
    case Null => false
    case Bool(b) => b
    case Int(i) => i != 0
    case Str(s) => s != "" && s != "0"
    case Array(es) => es != []
  }

  /** The values of a list of entries, keys dropped. */
  function Values(es: seq<Entry>): (vs: seq<Value>)
    ensures |vs| == |es|
    ensures forall i {:trigger vs[i]} :: 0 <= i < |es| ==> vs[i] == es[i].value
  {
    if es == [] then [] else [es[0].value] + Values(es[1..])
  }

  /** The entries of a PHP list literal `[v0, v1, ...]`: the keys are 0 .. n-1. */
  function ListOf(vs: seq<Value>): (es: seq<Entry>)
    ensures Values(es) == vs
    ensures forall i :: 0 <= i < |es| ==> es[i].key == IntKey(i)
  {
    seq(|vs|, i requires 0 <= i < |vs| => Entry(IntKey(i), vs[i]))
  }
}

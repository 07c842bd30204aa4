/**
 * The cursor protocol of EloquentIterable (rewind / valid / current / key / next) as a
 * state machine over values. A `Cursor` is the whole mutable state of one pipeline: the
 * position of every array iterator in it, the `index` of every limit stage and the
 * `onFirst` flag of every append stage. Each function below is one protocol call of the
 * PHP class of the same name, returning the new state where the call changes state.
 */
module CursorModel {
  import opened Php

  datatype Cursor =
    | ArrayIt(entries: seq<Entry>, pos: nat)                  // PHP's ArrayIterator
    | Basic(iterable: Cursor)                                 // BasicEloquentIterable
    | Filtered(iter: Cursor, pred: Value -> bool)             // FilteredEloquentIterable
    | Transform(iter: Cursor, transformation: Value -> Value) // TransformEloquentIterable
    | Limited(iter: Cursor, maxSize: int, index: int)         // LimitedEloquentIterator
    | Appended(first: Cursor, second: Cursor, onFirst: bool)  // AppendedEloquentIterable

  function Max(a: nat, b: nat): nat { if a < b then b else a }

  /** Nesting depth of the pipeline; no protocol call changes it. */
  function Depth(c: Cursor): nat {
    match c
    case ArrayIt(_, _) => 0
    case Basic(it) => Depth(it) + 1
    case Filtered(it, _) => Depth(it) + 1
    case Transform(it, _) => Depth(it) + 1
    case Limited(it, _, _) => Depth(it) + 1
    case Appended(a, b, _) => Max(Depth(a), Depth(b)) + 1
  }

  /** `valid()` would answer true without changing anything. */
  predicate Live(c: Cursor) {
    match c
    case ArrayIt(es, pos) => pos < |es|
    case Basic(it) => Live(it)
    case Filtered(it, _) => Live(it)
    case Transform(it, _) => Live(it)
    case Limited(it, m, i) => i < m && Live(it)
    case Appended(a, b, onFirst) => if onFirst then Live(a) else Live(b)
  }

  /** An upper bound on the number of `next()` calls left before the cursor is exhausted. */
  function Remaining(c: Cursor): nat {
    match c
    case ArrayIt(es, pos) => if pos < |es| then |es| - pos else 0
    case Basic(it) => Remaining(it)
    case Filtered(it, _) => Remaining(it)
    case Transform(it, _) => Remaining(it)
    case Limited(it, _, _) => Remaining(it)
    case Appended(a, b, onFirst) => if onFirst then Remaining(a) + Remaining(b) + 1 else Remaining(b)
  }

  /** Pipelines without an append stage. */
  predicate NoAppend(c: Cursor) {
    match c
    case ArrayIt(_, _) => true
    case Basic(it) => NoAppend(it)
    case Filtered(it, _) => NoAppend(it)
    case Transform(it, _) => NoAppend(it)
    case Limited(it, _, _) => NoAppend(it)
    case Appended(_, _, _) => false
  }

  /**
   * `valid()`: the answer and the new state. Only an append stage changes state here:
   * when its first side is exhausted it switches to the second side for good.
   * A limit stage asks its inner cursor only when `index < maxSize` (PHP's `&&`).
   */
  function Valid(c: Cursor): (r: (bool, Cursor))
    ensures r.0 == Live(r.1)
    ensures Live(c) ==> r == (true, c)
    ensures Depth(r.1) == Depth(c) && Remaining(r.1) <= Remaining(c)
    ensures NoAppend(r.1) == NoAppend(c)
    ensures NoAppend(c) ==> r == (Live(c), c)
  {
    match c
    case ArrayIt(es, pos) => (pos < |es|, c)
    case Basic(it) =>
      var (b, it') := Valid(it); (b, Basic(it'))
    case Filtered(it, p) =>
      var (b, it') := Valid(it); (b, Filtered(it', p))
    case Transform(it, f) =>
      var (b, it') := Valid(it); (b, Transform(it', f))
    case Limited(it, m, i) =>
      if i < m then var (b, it') := Valid(it); (b, Limited(it', m, i)) else (false, c)
    case Appended(a, b, onFirst) =>
      if onFirst then
        var (va, a') := Valid(a);
        if va then (true, Appended(a', b, true))
        else var (vb, b') := Valid(b); (vb, Appended(a', b', false))
      else
        var (vb, b') := Valid(b); (vb, Appended(a, b', false))
  }

  /** `current()`: past the end an ArrayIterator answers null, and so does every stage over it. */
  function Current(c: Cursor): Value {
    match c
    case ArrayIt(es, pos) => if pos < |es| then es[pos].value else Null
    case Basic(it) => Current(it)
    case Filtered(it, _) => Current(it)
    case Transform(it, f) => f(Current(it))
    case Limited(it, _, _) => Current(it)
    case Appended(a, b, onFirst) => if onFirst then Current(a) else Current(b)
  }

  /** `key()`: None stands for PHP's null key past the end. */
  function CurrentKey(c: Cursor): (k: Option<Key>)
    ensures Live(c) ==> k.Some?
  {
    match c
    case ArrayIt(es, pos) => if pos < |es| then Some(es[pos].key) else None
    case Basic(it) => CurrentKey(it)
    case Filtered(it, _) => CurrentKey(it)
    case Transform(it, _) => CurrentKey(it)
    case Limited(it, _, _) => CurrentKey(it)
    case Appended(a, b, onFirst) => if onFirst then CurrentKey(a) else CurrentKey(b)
  }

  /**
   * `next()`. A limit stage only moves its inner cursor (its index stays as it is); an
   * append stage moves the side its flag selects; a filter stage runs its skip loop.
   */
  function Next(c: Cursor): (r: Cursor)
    ensures Depth(r) == Depth(c)
    ensures Remaining(r) <= Remaining(c)
    ensures Live(c) ==> Remaining(r) < Remaining(c)
    ensures NoAppend(r) == NoAppend(c)
    decreases Depth(c), 0, 0
  {
    match c
    case ArrayIt(es, pos) => ArrayIt(es, if pos < |es| then pos + 1 else pos)
    case Basic(it) => Basic(Next(it))
    case Filtered(it, p) => Filtered(SkipLoop(it, p), p)
    case Transform(it, f) => Transform(Next(it), f)
    case Limited(it, m, i) => Limited(Next(it), m, i)
    case Appended(a, b, onFirst) =>
      if onFirst then Appended(Next(a), b, true) else Appended(a, Next(b), false)
  }

  /**
   * The loop of FilteredEloquentIterable::next on its inner cursor: while the inner cursor
   * is valid, step it once and stop if the predicate holds of its `current()`.
   */
  function SkipLoop(c: Cursor, p: Value -> bool): (r: Cursor)
    ensures Depth(r) == Depth(c)
    ensures Remaining(r) <= Remaining(c)
    ensures Live(c) ==> Remaining(r) < Remaining(c)
    ensures NoAppend(r) == NoAppend(c)
    decreases Depth(c), 1, Remaining(c)
  {
    var (more, c1) := Valid(c);
    if !more then c1
    else
      var c2 := Next(c1);
      if p(Current(c2)) then c2 else SkipLoop(c2, p)
  }

  /**
   * The look-ahead of the FilteredEloquentIterable constructor and of its rewind: test the
   * inner `current()` once and run the skip loop if it fails.
   */
  function Probe(c: Cursor, p: Value -> bool): (r: Cursor)
    ensures Depth(r) == Depth(c)
    ensures NoAppend(r) == NoAppend(c)
  {
    if p(Current(c)) then c else SkipLoop(c, p)
  }

  /**
   * `rewind()`: array iterators go back to 0, a limit stage resets its index, an append
   * stage rewinds both sides and goes back to the first, a filter stage rewinds its inner
   * cursor and looks ahead.
   */
  function Rewind(c: Cursor): (r: Cursor)
    ensures Depth(r) == Depth(c)
    ensures NoAppend(r) == NoAppend(c)
  {
    match c
    case ArrayIt(es, _) => ArrayIt(es, 0)
    case Basic(it) => Basic(Rewind(it))
    case Filtered(it, p) => Filtered(Probe(Rewind(it), p), p)
    case Transform(it, f) => Transform(Rewind(it), f)
    case Limited(it, m, _) => Limited(Rewind(it), m, 0)
    case Appended(a, b, _) => Appended(Rewind(a), Rewind(b), true)
  }

  /**
   * The pairs a `foreach` loop without `rewind` sees from state `c`:
   * while `valid()`, read `key()` and `current()`, then `next()`.
   */
  function Drain(c: Cursor): seq<Entry>
    decreases Remaining(c)
  {
    var (more, c1) := Valid(c);
    if !more then []
    else [Entry(CurrentKey(c1).value, Current(c1))] + Drain(Next(c1))
  }

  /** The pairs `foreach ($it as $key => $value)` visits: rewind, then drain. */
  function Elements(c: Cursor): seq<Entry> {
    Drain(Rewind(c))
  }

  /** When a terminal operation leaves its `foreach` early. */
  datatype StopRule =
    | Never                                   // size, toArray, toMap, toSet
    | Always                                  // first: returns at the first element
    | OnNull                                  // last: Optional::of throws on a null element
    | OnMatch(p: Value -> bool, polarity: bool) // allMatch (polarity false), anyMatch (true)

  predicate Stops(rule: StopRule, v: Value) {
    match rule
    case Never => false
    case Always => true
    case OnNull => v == Null
    case OnMatch(p, polarity) => p(v) == polarity
  }

  /** One `foreach` pass: what it visited, the element it stopped at if any, and the final state. */
  datatype Traversal = Traversal(visited: seq<Entry>, stoppedAt: Option<Entry>, final: Cursor)

  /** A `foreach` pass from state `c` (no rewind) that leaves at the first element `rule` stops on. */
  function Foreach(c: Cursor, rule: StopRule): Traversal
    decreases Remaining(c)
  {
    var (more, c1) := Valid(c);
    if !more then Traversal([], None, c1)
    else
      var e := Entry(CurrentKey(c1).value, Current(c1));
      if Stops(rule, e.value) then Traversal([], Some(e), c1)
      else
        var t := Foreach(Next(c1), rule);
        Traversal([e] + t.visited, t.stoppedAt, t.final)
  }

  /** The entries of `es` whose value satisfies `p`, in order, with their keys. */
  function FilterEntries(p: Value -> bool, es: seq<Entry>): seq<Entry> {
    if es == [] then []
    else (if p(es[0].value) then [es[0]] else []) + FilterEntries(p, es[1..])
  }

  /** `es` with `f` applied to every value and every key kept. */
  function MapEntries(f: Value -> Value, es: seq<Entry>): seq<Entry> {
    if es == [] then [] else [Entry(es[0].key, f(es[0].value))] + MapEntries(f, es[1..])
  }

  /**
   * What a pipeline yields after `rewind`, stated declaratively: an array yields its
   * entries, a filter the matching inner entries, a transform the mapped ones, an append
   * both sides in turn. A limit stage, as written, yields nothing when `maxSize <= 0` and
   * its whole inner sequence otherwise, because `next()` never advances its index.
   */
  function Yield(c: Cursor): seq<Entry> {
    match c
    case ArrayIt(es, _) => es
    case Basic(it) => Yield(it)
    case Filtered(it, p) => FilterEntries(p, Yield(it))
    case Transform(it, f) => MapEntries(f, Yield(it))
    case Limited(it, m, _) => if 0 < m then Yield(it) else []
    case Appended(a, b, _) => Yield(a) + Yield(b)
  }

  /**
   * Pipelines in which no filter stage sits over an append stage. A filter reads its
   * inner `current()` right after `next()`, before asking `valid()`, and an append stage
   * only switches to its second side inside `valid()`; see Findings.FilterOverAppendSkipsElement and
   * Findings.CheckedFilterMatches.
   */
  predicate FilterSafe(c: Cursor) {
    match c
    case ArrayIt(_, _) => true
    case Basic(it) => FilterSafe(it)
    case Filtered(it, _) => NoAppend(it)
    case Transform(it, _) => FilterSafe(it)
    case Limited(it, _, _) => FilterSafe(it)
    case Appended(a, b, _) => FilterSafe(a) && FilterSafe(b)
  }
}

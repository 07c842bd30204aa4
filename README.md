# tadgola: lazy iterable pipelines, Optional, Preconditions and Objects

This project models the core of the PHP library tadgola:

- **The iterator engine of `src/Collect`.** `EloquentIterable::wrap` puts a PHP array into an
  `ArrayIterator` inside a `BasicEloquentIterable`. The builders then stack one adapter object
  on another: `filter`, `transform`, `limit`, `appendIterator` and `appendElements`. The terminal
  operations run a `foreach` loop over the cursor protocol (`rewind`, then `valid` / `current` /
  `key` / `next`):
  - `allMatch`, `anyMatch`;
  - `first`, `last`, `firstMatch`;
  - `isEmpty`, `size`;
  - `toArray`, `toMap`, `toSet`.
- **The value helpers.** `Optional`, the three `Preconditions` checks and `Objects::firstNonNull`.

The model has two layers.

- **`CursorModel`** is a pure state machine. A `Cursor` value is the whole mutable state of one
  pipeline:
  - the position of every array iterator in it;
  - the `$index` of every limit stage;
  - the `$onFirst` flag of every append stage.

  Each protocol call of each PHP class is a function from a state to an answer and a new state.
  `Drain` is what a `foreach` visits from a state, and `Elements` is `Drain` after `rewind`.
  `Foreach` is a pass that leaves at the first element a `StopRule` picks.
- **`Adapters`** holds one Dafny class per PHP class, plus PHP's `ArrayIterator`. Each class keeps
  the same fields as the PHP class:
  - the wrapped iterator;
  - the predicate or transformation closure;
  - `$maxSize` and `$index`;
  - `$first`, `$second` and `$onFirst`.

  Each protocol method changes those fields in place. Its contract says the object's ghost
  `Model()` moves exactly as the `CursorModel` function of the same name says.

The terminal operations in `EloquentIterable` are methods over these objects. Each result is
proved against the pipeline's `Elements` before the call.
- `size()`, `toArray()`, `toMap()`, `toSet()`, `last()`, `allMatch()` and `anyMatch()` run
  `while` loops. Each one's final cursor state is proved against `Foreach` with the rule by
  which its loop leaves.
- `first()` and `isEmpty()` have no loop: they rewind and call `valid()` once. `first()` states
  its final state as `Foreach` with the rule that leaves at once. `isEmpty()` states it as the
  state `valid()` leaves after the rewind.
- `firstMatch()` states its final state through the filter stage it builds.

PHP values are modelled as follows:
- `Value` is null, bool, int, string or array.
- `Key` is an int or string key; `None` stands for the null key past the end.
- A thrown exception is `Err` of `NullPointer`, `IllegalArgument` or `IllegalState`, carrying its
  message.

## Model

| member | source | states |
|---|---|---|
| Php.Values | src/Collect/EloquentIterable.php:281-288 | the values of a list of entries, same length, i-th value is the i-th entry's value (keys dropped) |
| Php.ListOf | src/Collect/EloquentIterable.php:101-105 | a PHP list literal: keys 0..n-1 and `Values` gives back exactly the listed values |
| Optionals.Of | src/Optional/Optional.php:38-41 | present with the reference when it is not null; a NullPointer "Null reference given" for null; what it builds is well formed |
| Optionals.FromNullable | src/Optional/Optional.php:50-53 | present exactly for a non-null reference, and then equal to what `of` builds; absent for null |
| Optionals.IsPresent | src/Optional/Optional.php:69-72 | true exactly when the Optional is not the absent one |
| Optionals.Get | src/Optional/Optional.php:79-86 | succeeds exactly when present, with the held value; otherwise IllegalState "Get called on absent Optional" |
| Optionals.GetOrNull | src/Optional/Optional.php:93-99 | the held value when present; for a well-formed Optional null exactly when absent |
| Optionals.GetOrElse | src/Optional/Optional.php:107-114 | fails with NullPointer exactly when the default is null, even when present; otherwise the value if present, else the default |
| Optionals.OfThenGet | src/Optional/Optional.php:38-86 | `get(of(x)) == x` for every non-null `x` |
| Optionals.NullableRoundTrip | src/Optional/Optional.php:50-99 | `getOrNull(fromNullable(v)) == v` for every value and `fromNullable(getOrNull(o)) == o` for every well-formed Optional |
| Optionals.GetOrElseAgreesWithGet | src/Optional/Optional.php:79-114 | with a non-null default, `getOrElse` is `get` when present and the default when absent |
| Preconditions.OrDefaultMessage | src/Preconditions/Preconditions.php:76-79 | the caller's message when given, the default when the caller passed null |
| Preconditions.CheckArgument | src/Preconditions/Preconditions.php:25-32 | fails exactly on the boolean false (`=== false`), with IllegalArgument and the message or "Illegal argument received" |
| Preconditions.CheckNotNull | src/Preconditions/Preconditions.php:42-51 | returns the reference unchanged exactly when it is not null; otherwise NullPointer with the message or "Null reference given" |
| Preconditions.CheckState | src/Preconditions/Preconditions.php:60-67 | fails exactly on a falsy value (`!$e`), with IllegalState and the message or "Illegal argument received" |
| Preconditions.StateStricterThanArgument | src/Preconditions/Preconditions.php:25-67 | whatever `checkArgument` rejects `checkState` rejects; falsy values other than false pass `checkArgument` and fail `checkState` |
| Preconditions.FalsyValuesAreNotNull | src/Preconditions/Preconditions.php:42-51 | 0, false and '' pass `checkNotNull` unchanged |
| Objects.FirstNonNull | src/Util/Objects.php:20-31 | succeeds exactly when some argument is non-null; the result is a non-null argument all of whose predecessors are null; otherwise NullPointer "No non null references passed in" (no arguments included) |
| CursorModel.Valid | src/Collect/Impl/AppendedEloquentIterable.php:94-106 | the answer is whether the new state is live; a live state is left unchanged; only an append stage changes state; it never changes the nesting depth and never increases the work left |
| CursorModel.CurrentKey | src/Collect/Impl/AppendedEloquentIterable.php:78-85 | a live cursor always has a key (null only past the end) |
| CursorModel.Next | src/Collect/Impl/AppendedEloquentIterable.php:63-70 | never adds work, and strictly reduces the work left from a live state |
| CursorModel.SkipLoop | src/Collect/Impl/FilteredEloquentIterable.php:61-71 | the filter's skip loop terminates, never increases the work left, and from a live inner cursor advances at least once |
| CursorFacts.SkipLoopAdvances | src/Collect/Impl/FilteredEloquentIterable.php:61-71 | from any inner cursor whose `valid()` is true, including an append stage about to switch sides, the skip loop advances at least once |
| CursorModel.Probe | src/Collect/Impl/FilteredEloquentIterable.php:31-41 | the look-ahead keeps the pipeline's shape (depth, no append stage) |
| CursorModel.Rewind | src/Collect/Impl/AppendedEloquentIterable.php:114-119 | rewind keeps the pipeline's shape (depth, no append stage) |
| CursorFacts.ValidIdempotent | src/Collect/Impl/AppendedEloquentIterable.php:94-106 | asking `valid()` twice is the same as asking once: the flag switch happens at most once |
| CursorFacts.DrainAfterValid | src/Collect/Impl/AppendedEloquentIterable.php:94-106 | a `valid()` call does not change what the rest of a pass visits |
| CursorFacts.DrainArray | src/Collect/EloquentIterable.php:29-31 | an array iterator at `pos` visits the entries from `pos` on, keys included |
| CursorFacts.DrainBasic | src/Collect/Impl/BasicEloquentIterable.php:35-83 | the basic wrapper visits exactly what the wrapped iterator visits |
| CursorFacts.DrainTransform | src/Collect/Impl/TransformEloquentIterable.php:38-87 | a transform stage visits the inner entries with the same keys and `f` applied to each value |
| CursorFacts.DrainLimited | src/Collect/Impl/LimitedEloquentIterator.php:49-75 | a limit stage visits the whole inner pass when `index < maxSize` and nothing otherwise |
| CursorFacts.DrainAppendedSecond | src/Collect/Impl/AppendedEloquentIterable.php:94-106 | once switched to the second side, an append stage visits the second side's pass |
| CursorFacts.DrainAppended | src/Collect/Impl/AppendedEloquentIterable.php:48-106 | an append stage on its first side visits the first side's pass, then the second's |
| CursorFacts.DrainFiltered | src/Collect/Impl/FilteredEloquentIterable.php:50-94 | over an inner pipeline without an append stage, a filter whose current element matches visits exactly the matching inner entries |
| CursorFacts.DrainSkipLoop | src/Collect/Impl/FilteredEloquentIterable.php:61-71 | with no append stage inside and a live current element, after the skip loop the filter visits exactly the matches after the current inner element |
| CursorFacts.DrainProbe | src/Collect/Impl/FilteredEloquentIterable.php:31-41 | after the look-ahead, the filter visits exactly the matching inner entries (no append stage inside) |
| CursorFacts.WrapElements | src/Collect/EloquentIterable.php:27-33 | a wrapped array yields exactly its entries, in order, with its own keys |
| CursorFacts.FilterElements | src/Collect/Impl/FilteredEloquentIterable.php:102-110 | without an append stage inside, a filter yields the matching entries of its inner pipeline |
| CursorFacts.TransformElements | src/Collect/Impl/TransformEloquentIterable.php:38-87 | a transform yields the inner elements, keys kept, with `f` applied to each value |
| CursorFacts.LimitElements | src/Collect/Impl/LimitedEloquentIterator.php:72-87 | a limit stage yields nothing when `maxSize <= 0` and the whole inner sequence otherwise |
| CursorFacts.AppendElements | src/Collect/Impl/AppendedEloquentIterable.php:34-119 | an append stage yields the first pipeline's elements followed by the second's, whatever its flag |
| CursorFacts.ElementsAreYield | src/Collect/EloquentIterable.php:107-179 | on pipelines with no filter over an append stage, the elements are the declarative filter / map / concatenation of the sources |
| CursorFacts.RewindValid | src/Collect/Impl/AppendedEloquentIterable.php:94-119 | `rewind()` after `valid()` is `rewind()` alone |
| CursorFacts.RewindNext | src/Collect/Impl/LimitedEloquentIterator.php:49-87 | `rewind()` after `next()` is `rewind()` alone |
| CursorFacts.RewindSkipLoop | src/Collect/Impl/FilteredEloquentIterable.php:61-110 | `rewind()` after the filter's skip loop is `rewind()` alone |
| CursorFacts.RewindRewind | src/Collect/Impl/AppendedEloquentIterable.php:114-119 | `rewind()` is idempotent |
| CursorFacts.RewindForeach | src/Collect/EloquentIterable.php:233-240 | rewinding after any pass gives the same state as rewinding before it |
| CursorFacts.TraversalRepeatable | src/Collect/EloquentIterable.php:281-288 | every terminal operation leaves the pipeline with the same elements, so calling one twice sees the same sequence |
| CursorFacts.ForeachSplits | src/Collect/EloquentIterable.php:66-94 | a pass visits a prefix of the elements on which the rule does not stop, and leaves exactly at the first element it stops on |
| CursorFacts.ForeachNever | src/Collect/EloquentIterable.php:233-240 | a pass that never leaves visits every element |
| CursorFacts.StationStep | src/Collect/EloquentIterable.php:233-240 | the k-th loop head of a pass either ends it, leaves it at the element it stops on, or reads its k-th visited element and leads to the next loop head |
| CursorFacts.SkipLoopLands | src/Collect/Impl/FilteredEloquentIterable.php:61-71 | the skip loop ends with the inner cursor not live or on a matching element; without an append stage inside, `valid()` is false or `current()` matches (over an append stage, not live does not mean exhausted) |
| CursorFacts.FilterStageLands | src/Collect/Impl/FilteredEloquentIterable.php:31-110 | construction, `rewind()` and `next()` all leave the inner cursor not live or on a matching element; without an append stage inside, `valid()` is false or `current()` matches |
| CursorFacts.RewindProbe | src/Collect/Impl/FilteredEloquentIterable.php:31-41 | the constructor's look-ahead does not change what the pipeline yields after rewind |
| CursorFacts.RewindFilteredProbe | src/Collect/Impl/FilteredEloquentIterable.php:31-41 | a filter stage built with its look-ahead rewinds to the same state as one built without it |
| CursorFacts.ProbeDeterminesRewind | src/Collect/Impl/FilteredEloquentIterable.php:31-41 | two cursors whose rewound states look ahead to the same state rewind to the same state |
| CursorFacts.BasicElements | src/Collect/Impl/BasicEloquentIterable.php:23-83 | wrapping a library iterator yields exactly its elements |
| CursorFacts.ValidIffElements | src/Collect/EloquentIterable.php:184-188 | after `rewind()`, `valid()` holds exactly when the pipeline yields something |
| EntryFacts.FilterEntriesMembers | src/Collect/EloquentIterable.php:170-179 | an entry survives the filter exactly when it is an input entry whose value matches |
| EntryFacts.FilterEntriesLength | src/Collect/EloquentIterable.php:170-179 | filtering never lengthens, and keeps the length exactly when every value matches |
| EntryFacts.FilterEntriesEmpty | src/Collect/EloquentIterable.php:170-179 | the filtered sequence is empty exactly when no value matches |
| EntryFacts.FilterPartition | src/Collect/EloquentIterable.php:170-179 | the matches of `p` and of its negation together number the input's length |
| EntryFacts.FilterIdempotent | src/Collect/EloquentIterable.php:170-179 | filtering twice by the same predicate is filtering once |
| EntryFacts.FilterEntriesHead | src/Collect/EloquentIterable.php:146-155 | the first match is an input entry that matches and before which no entry matches |
| EntryFacts.MapEntriesPointwise | src/Collect/EloquentIterable.php:290-299 | mapping keeps the length and each key and applies `f` to each value |
| EntryFacts.MapEntriesCompose | src/Collect/Impl/TransformEloquentIterable.php:38-42 | `transform(f)->transform(g)` yields what `transform(g . f)` yields |
| Adapters.RewindOf | src/Collect/EloquentIterable.php:190-196 | the dispatched `rewind()` moves the model as `CursorModel.Rewind` |
| Adapters.ValidOf | src/Collect/EloquentIterable.php:198-205 | the dispatched `valid()` answers and moves the model as `CursorModel.Valid` |
| Adapters.NextOf | src/Collect/EloquentIterable.php:44-50 | the dispatched `next()` moves the model as `CursorModel.Next` |
| Adapters.CurrentOf | src/Collect/EloquentIterable.php:35-42 | the dispatched `current()` is `CursorModel.Current` of the model |
| Adapters.CurrentKeyOf | src/Collect/EloquentIterable.php:52-58 | the dispatched `key()` is `CursorModel.CurrentKey` of the model |
| Adapters.ArrayIterator.constructor | src/Collect/EloquentIterable.php:29-31 | a fresh iterator at position 0 of the array |
| Adapters.ArrayIterator.Rewind | src/Collect/EloquentIterable.php:29-31 | back to position 0 |
| Adapters.ArrayIterator.Valid | src/Collect/EloquentIterable.php:29-31 | true exactly while the position is inside the array; no state change |
| Adapters.ArrayIterator.Next | src/Collect/EloquentIterable.php:29-31 | one entry on, and no further past the end |
| Adapters.ArrayIterator.Current | src/Collect/EloquentIterable.php:29-31 | the value at the position, null past the end |
| Adapters.ArrayIterator.CurrentKey | src/Collect/EloquentIterable.php:29-31 | the key at the position exactly while inside the array |
| Adapters.BasicEloquentIterable.constructor | src/Collect/Impl/BasicEloquentIterable.php:23-26 | stores the wrapped iterator and nothing else; the model is the wrapped model |
| Adapters.BasicEloquentIterable.Rewind | src/Collect/Impl/BasicEloquentIterable.php:80-83 | forwards to the wrapped iterator |
| Adapters.BasicEloquentIterable.Valid | src/Collect/Impl/BasicEloquentIterable.php:69-72 | forwards to the wrapped iterator |
| Adapters.BasicEloquentIterable.Next | src/Collect/Impl/BasicEloquentIterable.php:46-49 | forwards to the wrapped iterator |
| Adapters.BasicEloquentIterable.Current | src/Collect/Impl/BasicEloquentIterable.php:35-38 | the wrapped iterator's current value |
| Adapters.BasicEloquentIterable.CurrentKey | src/Collect/Impl/BasicEloquentIterable.php:57-60 | the wrapped iterator's key |
| Adapters.FilteredEloquentIterable.constructor | src/Collect/Impl/FilteredEloquentIterable.php:31-41 | stores iterator and predicate and runs the look-ahead on the inner cursor, without rewinding it |
| Adapters.FilteredEloquentIterable.Rewind | src/Collect/Impl/FilteredEloquentIterable.php:102-110 | rewinds the inner cursor, then runs the look-ahead |
| Adapters.FilteredEloquentIterable.Valid | src/Collect/Impl/FilteredEloquentIterable.php:91-94 | the inner cursor's `valid()` |
| Adapters.FilteredEloquentIterable.Next | src/Collect/Impl/FilteredEloquentIterable.php:61-71 | runs the skip loop: while the inner cursor is valid, step it and stop when its current value matches |
| Adapters.FilteredEloquentIterable.Current | src/Collect/Impl/FilteredEloquentIterable.php:50-53 | the inner cursor's current value |
| Adapters.FilteredEloquentIterable.CurrentKey | src/Collect/Impl/FilteredEloquentIterable.php:79-82 | the inner cursor's key, so surviving elements keep their keys |
| Adapters.TransformEloquentIterable.constructor | src/Collect/Impl/TransformEloquentIterable.php:25-29 | stores the iterator and the closure; no traversal |
| Adapters.TransformEloquentIterable.Rewind | src/Collect/Impl/TransformEloquentIterable.php:84-87 | forwards to the inner cursor |
| Adapters.TransformEloquentIterable.Valid | src/Collect/Impl/TransformEloquentIterable.php:73-76 | forwards to the inner cursor |
| Adapters.TransformEloquentIterable.Next | src/Collect/Impl/TransformEloquentIterable.php:50-53 | forwards to the inner cursor |
| Adapters.TransformEloquentIterable.Current | src/Collect/Impl/TransformEloquentIterable.php:38-42 | the closure applied to the inner current value, recomputed on each call |
| Adapters.TransformEloquentIterable.CurrentKey | src/Collect/Impl/TransformEloquentIterable.php:61-64 | the inner key |
| Adapters.LimitedEloquentIterator.constructor | src/Collect/Impl/LimitedEloquentIterator.php:24-29 | accepts any `maxSize`, negative included, with `index` 0 |
| Adapters.LimitedEloquentIterator.Rewind | src/Collect/Impl/LimitedEloquentIterator.php:83-87 | rewinds the inner cursor and resets `index` to 0 |
| Adapters.LimitedEloquentIterator.Valid | src/Collect/Impl/LimitedEloquentIterator.php:72-75 | `index < maxSize && inner.valid()`, the inner cursor asked only when the first conjunct holds; `index` unchanged |
| Adapters.LimitedEloquentIterator.Next | src/Collect/Impl/LimitedEloquentIterator.php:49-52 | moves only the inner cursor; `index` unchanged |
| Adapters.LimitedEloquentIterator.Current | src/Collect/Impl/LimitedEloquentIterator.php:38-41 | the inner current value |
| Adapters.LimitedEloquentIterator.CurrentKey | src/Collect/Impl/LimitedEloquentIterator.php:60-63 | the inner key |
| Adapters.AppendedEloquentIterable.constructor | src/Collect/Impl/AppendedEloquentIterable.php:34-39 | stores both sides with `onFirst` true |
| Adapters.AppendedEloquentIterable.Rewind | src/Collect/Impl/AppendedEloquentIterable.php:114-119 | rewinds both sides and sets `onFirst` back to true |
| Adapters.AppendedEloquentIterable.Valid | src/Collect/Impl/AppendedEloquentIterable.php:94-106 | on the first side, true if it is valid, else switches to the second side for good and answers its `valid()` |
| Adapters.AppendedEloquentIterable.Next | src/Collect/Impl/AppendedEloquentIterable.php:63-70 | moves the side the flag selects; the flag unchanged |
| Adapters.AppendedEloquentIterable.Current | src/Collect/Impl/AppendedEloquentIterable.php:48-55 | the selected side's current value |
| Adapters.AppendedEloquentIterable.CurrentKey | src/Collect/Impl/AppendedEloquentIterable.php:78-85 | the selected side's key, so keys may repeat across the boundary |
| EloquentIterable.DistinctUpToIsSet | src/Collect/EloquentIterable.php:260-267 | the prefix's distinct values: the same members as the prefix, none repeated |
| EloquentIterable.DistinctIsSet | src/Collect/EloquentIterable.php:260-267 | `toSet`'s list holds every element exactly once and nothing else |
| EloquentIterable.DistinctUpToOfDistinct | src/Collect/EloquentIterable.php:260-267 | on a list without repeats the prefix's distinct values are the prefix |
| EloquentIterable.DistinctOfDistinct | src/Collect/EloquentIterable.php:260-267 | a list without repeats is its own `toSet`, order kept |
| EloquentIterable.AssignUpToMaps | src/Collect/EloquentIterable.php:248-255 | the prefix's array has the prefix's values as keys, each mapped to `f` of itself |
| EloquentIterable.AssignEachMaps | src/Collect/EloquentIterable.php:248-255 | `toMap`'s array has exactly the elements as keys and maps each to `f` of itself |
| EloquentIterable.ForeachOnNull | src/Collect/EloquentIterable.php:210-217 | a pass calling `Optional::of` on each element leaves exactly when some element is null, and otherwise visits all |
| EloquentIterable.ForeachOnMatch | src/Collect/EloquentIterable.php:66-94 | a pass that returns on the first element with `p(v) == polarity` runs to the end exactly when no element is such |
| EloquentIterable.Wrap | src/Collect/EloquentIterable.php:27-33 | a fresh pipeline yielding exactly the array's entries with its own keys |
| EloquentIterable.WrapIterator | src/Collect/EloquentIterable.php:27-33 | wrapping a library iterator adds one forwarding layer and yields the same elements |
| EloquentIterable.Filter | src/Collect/EloquentIterable.php:176-179 | the result is a filter stage wrapping this pipeline with `p`; the constructor's look-ahead leaves the inner elements as they were; over a pipeline without an append stage the result yields exactly the matching entries |
| EloquentIterable.Transform | src/Collect/EloquentIterable.php:296-299 | the result yields the inner entries, keys kept, with `f` applied to each value |
| EloquentIterable.Limit | src/Collect/EloquentIterable.php:225-228 | the result yields nothing when `maxSize <= 0` and everything otherwise (as written) |
| EloquentIterable.AppendIterator | src/Collect/EloquentIterable.php:113-119 | the result yields this pipeline's entries followed by the other's |
| EloquentIterable.AppendArray | src/Collect/EloquentIterable.php:113-119 | an array argument goes into a fresh ArrayIterator; its entries follow, keys kept |
| EloquentIterable.AppendElements | src/Collect/EloquentIterable.php:101-105 | the argument list keyed 0..n-1 is appended, so an array argument is one element |
| EloquentIterable.ForeachStep | src/Collect/EloquentIterable.php:233-240 | one `foreach` iteration: the pass ends, leaves at this element, or yields its k-th visited element and moves on |
| EloquentIterable.AllMatch | src/Collect/EloquentIterable.php:66-76 | true exactly when every element satisfies `p` (so on an empty pipeline); the final state is that of a pass leaving at the first failure |
| EloquentIterable.AnyMatch | src/Collect/EloquentIterable.php:84-94 | true exactly when some element satisfies `p` (so false on an empty pipeline); the final state is that of a pass leaving at the first match |
| EloquentIterable.First | src/Collect/EloquentIterable.php:162-168 | absent for no elements, otherwise `Optional::of` the first element (NullPointer when it is null) |
| EloquentIterable.Last | src/Collect/EloquentIterable.php:210-217 | NullPointer exactly when some element is null; otherwise absent for no elements and present with the last element |
| EloquentIterable.FirstMatch | src/Collect/EloquentIterable.php:152-155 | for every pipeline, `Optional::of` the first element the filter stage over it yields, absent if none; over a pipeline without an append stage, that is the first element satisfying `p`; the pipeline is left in the filter stage's final state and still yields the same elements |
| EloquentIterable.IsEmpty | src/Collect/EloquentIterable.php:184-188 | true exactly when the pipeline yields nothing; the state is that of one `rewind()` and one `valid()` |
| EloquentIterable.Size | src/Collect/EloquentIterable.php:233-240 | the number of elements |
| EloquentIterable.ToArray | src/Collect/EloquentIterable.php:281-288 | the element values in iteration order, keys dropped |
| EloquentIterable.ToMap | src/Collect/EloquentIterable.php:248-255 | the array built by assigning `f(v)` to key `v` for each element in turn (see AssignEachMaps) |
| EloquentIterable.ToSet | src/Collect/EloquentIterable.php:260-267 | the distinct element values in order of first occurrence (see DistinctIsSet) |
| Findings.FilterOverEmptyAppend | src/Collect/Impl/FilteredEloquentIterable.php:102-110 | on `wrap([])->appendIterator([a, b])->filter(p)` the rewound state is the look-ahead over the fresh append, and the intended yield is `filter(p, [a, b])` |
| Findings.SkipOverBoundary | src/Collect/Impl/FilteredEloquentIterable.php:61-71 | with an empty first side and `!p(null)`, the look-ahead lands on the second side's second element, never testing its head |
| Findings.DrainLast | src/Collect/Impl/FilteredEloquentIterable.php:61-71 | from the second side's last element, the filtered pass yields it and stops |
| Findings.FilterOverAppendSkipsElement | src/Collect/Impl/FilteredEloquentIterable.php:61-71 | `wrap([])->appendIterator([4, 5])->filter($v > 0)` yields only 5, where 4 and 5 are intended |
| Findings.DrainAdmitsHead | src/Collect/Impl/FilteredEloquentIterable.php:31-41 | with an empty first side and `p(null)`, the filtered pass yields the second side's head untested |
| Findings.FilterOverAppendAdmitsMismatch | src/Collect/Impl/FilteredEloquentIterable.php:31-41 | `wrap([])->appendIterator([5, 6])->filter($v < 5)` yields 5, where nothing is intended |
| Findings.CheckedFilterMatches | src/Collect/Impl/FilteredEloquentIterable.php:61-71 | the filter stage corrected to ask `valid()` before `current()` visits exactly the matching inner entries over every cursor, append stages included |
| Findings.CheckedDrainMatching | src/Collect/Impl/FilteredEloquentIterable.php:61-71 | the corrected stage on a matching current element visits exactly the matches |
| Findings.CheckedSkipDrain | src/Collect/Impl/FilteredEloquentIterable.php:61-71 | the corrected skip loop leads to exactly the matches after the current element |
| Findings.LimitDoesNotTruncate | src/Collect/Impl/LimitedEloquentIterator.php:49-52 | `wrap([1, 2, 3])->limit(1)` yields three elements |
| Findings.CountedLimitTruncates | src/Collect/Impl/LimitedEloquentIterator.php:72-75 | a limit stage whose `next()` also increments `index` visits exactly the first `maxSize - index` inner entries, or all of them when there are fewer |
| Findings.CountedLimitSize | src/Collect/Impl/LimitedEloquentIterator.php:72-75 | so the corrected `limit(n)` yields `min(n, size)` elements after rewind |

## Left out

- `cycle()` and `CyclingEloquentIterable`: the class's source is not part of this model, so its behaviour is not stated.
- `toSortedArray()`: it returns the boolean result of PHP's built-in `sort`, a foreign call.
- `contains()`: `!$other == $value` compares the negated argument with each element under PHP's loose equality. That is not membership, and loose equality between arbitrary values is not modelled.
- PHP array-key coercion in `toMap` and `toSet`: keys are modelled as whole `Value`s in a `map` or a duplicate-free list. The int/string juggling of array keys and the failure on non-scalar keys are not modelled.
- Wrapping arbitrary external `Iterator` objects: only array sources and this library's own iterators are modelled, because an external iterator's behaviour is unknown.
- Floats and objects as values: `Value` has null, bool, int, string and array only.
- The `Preconditions::checkNotNull($predicate)` guard of `allMatch` and `anyMatch`: closures are Dafny functions and cannot be null.
- Closures are pure Dafny functions: a predicate or transformation with side effects, or one that throws, is not modelled.
- Aliasing: each iterator object owns the iterators it wraps. So `AppendIterator` requires the two sides to share no object, and appending a pipeline to itself is not modelled.
- EloquentIterable.FirstMatch: its result is stated as "the first element satisfying `p`" only for pipelines without an append stage, because a filter over an append stage can skip or admit elements (see Findings); for other pipelines it is stated as the first element the filter stage yields.
- EloquentIterable.Filter: its yield is stated only for pipelines without an append stage, for the same reason; its look-ahead state is stated for every pipeline.
- The exception classes are constructors of `Error` carrying the message; their stack traces and class hierarchy are not modelled.
- The rest of the model follows the code as written. The corrected filter and limit stages of the Findings are stated and proved next to it, not substituted into the pipeline.

## Findings

| source | as written | input that shows it | evidently intended | confidence | as-written member | corrected member |
|---|---|---|---|---|---|---|
| src/Collect/Impl/FilteredEloquentIterable.php:61-71 | `next()` reads the inner `current()` right after the inner `next()`, before asking `valid()`; an append stage switches to its second side only inside `valid()`, so at the boundary the filter tests the exhausted first side's null | `wrap([])->appendIterator([4, 5])->filter($v > 0)` yields only 5; `wrap([])->appendIterator([5, 6])->filter($v < 5)` yields 5 | the filter yields exactly the matching elements of its inner sequence | not executed | Findings.FilterOverAppendSkipsElement, Findings.FilterOverAppendAdmitsMismatch | Findings.CheckedFilterMatches |
| src/Collect/Impl/LimitedEloquentIterator.php:49-52 | `next()` never increments `$index`, so `valid()` compares 0 with `$maxSize` for ever | `wrap([1, 2, 3])->limit(1)` yields three elements | `limit(n)` yields at most `n` elements (`min(n, size)`) | not executed | Findings.LimitDoesNotTruncate | Findings.CountedLimitTruncates |

/**
 * src/Collect/EloquentIterable.php: `wrap`, the builders that stack one more stage on a
 * pipeline, and the terminal operations, each a `foreach` loop over the cursor protocol
 * (`rewind`, then `valid` / `current` / `key` / `next` until `valid` is false or the
 * loop returns early).
 *
 * Every terminal operation is specified by the pipeline's `Elements` before the call,
 * and its final cursor state by `Foreach` of the rule it leaves the loop by.
 */
module EloquentIterable {
  import opened Php
  import opened CursorModel
  import opened CursorFacts
  import opened Adapters
  import opened Optionals
  import Preconditions

  // ---------------------------------------------------------------------------------
  // Specification functions for the results that are collections.
  // ---------------------------------------------------------------------------------

  /** The distinct values among the first `k` of `vs`, each at the place it first occurs. */
  function DistinctUpTo(vs: seq<Value>, k: nat): seq<Value>
    requires k <= |vs|
  {
    if k == 0 then []
    else
      var d := DistinctUpTo(vs, k - 1);
      if vs[k - 1] in d then d else d + [vs[k - 1]]
  }

  /** The distinct values of `vs`, each at the place it first occurs. */
  function Distinct(vs: seq<Value>): seq<Value> {
    DistinctUpTo(vs, |vs|)
  }

  /** The PHP array built by `$result[$v] = f($v)` for each of the first `k` values `$v` of `vs` in turn. */
  function AssignUpTo(f: Value -> Value, vs: seq<Value>, k: nat): map<Value, Value>
    requires k <= |vs|
  {
    if k == 0 then map[] else AssignUpTo(f, vs, k - 1)[vs[k - 1] := f(vs[k - 1])]
  }

  /** The PHP array built by `$result[$v] = f($v)` for each `$v` of `vs` in turn. */
  function AssignEach(f: Value -> Value, vs: seq<Value>): map<Value, Value> {
    AssignUpTo(f, vs, |vs|)
  }

  lemma {:induction false} DistinctUpToIsSet(vs: seq<Value>, k: nat)
    requires k <= |vs|
    ensures forall v :: v in DistinctUpTo(vs, k) <==> v in vs[..k]
    ensures forall i, j :: 0 <= i < j < |DistinctUpTo(vs, k)| ==> DistinctUpTo(vs, k)[i] != DistinctUpTo(vs, k)[j]
  {
    if k > 0 {
      DistinctUpToIsSet(vs, k - 1);
      assert vs[..k] == vs[..k - 1] + [vs[k - 1]];
    }
  }

  /** `Distinct` lists every value of `vs` exactly once and nothing else. */
  lemma DistinctIsSet(vs: seq<Value>)
    ensures forall v :: v in Distinct(vs) <==> v in vs
    ensures forall i, j :: 0 <= i < j < |Distinct(vs)| ==> Distinct(vs)[i] != Distinct(vs)[j]
  {
    DistinctUpToIsSet(vs, |vs|);
    assert vs[..|vs|] == vs;
  }

  lemma {:induction false} DistinctUpToOfDistinct(vs: seq<Value>, k: nat)
    requires k <= |vs|
    requires forall i, j :: 0 <= i < j < |vs| ==> vs[i] != vs[j]
    ensures DistinctUpTo(vs, k) == vs[..k]
  {
    if k > 0 {
      DistinctUpToOfDistinct(vs, k - 1);
      assert vs[..k] == vs[..k - 1] + [vs[k - 1]];
      assert vs[k - 1] !in vs[..k - 1];
    }
  }

  /** A list without repeats is its own `Distinct`. */
  lemma DistinctOfDistinct(vs: seq<Value>)
    requires forall i, j :: 0 <= i < j < |vs| ==> vs[i] != vs[j]
    ensures Distinct(vs) == vs
  {
    DistinctUpToOfDistinct(vs, |vs|);
    assert vs[..|vs|] == vs;
  }

  lemma {:induction false} AssignUpToMaps(f: Value -> Value, vs: seq<Value>, k: nat)
    requires k <= |vs|
    ensures forall v :: v in AssignUpTo(f, vs, k) <==> v in vs[..k]
    ensures forall v :: v in AssignUpTo(f, vs, k) ==> AssignUpTo(f, vs, k)[v] == f(v)
  {
    if k > 0 {
      AssignUpToMaps(f, vs, k - 1);
      assert vs[..k] == vs[..k - 1] + [vs[k - 1]];
    }
  }

  /** `toMap`'s array has the distinct values as keys and maps each to `f` of itself. */
  lemma AssignEachMaps(f: Value -> Value, vs: seq<Value>)
    ensures forall v :: v in AssignEach(f, vs) <==> v in vs
    ensures forall v :: v in AssignEach(f, vs) ==> AssignEach(f, vs)[v] == f(v)
  {
    AssignUpToMaps(f, vs, |vs|);
    assert vs[..|vs|] == vs;
  }

  /**
   * How a `foreach` that calls `Optional::of` on every element ends: at the first null
   * element if there is one, and after visiting everything otherwise.
   */
  lemma ForeachOnNull(c: Cursor)
    ensures var t := Foreach(c, OnNull); var d := Drain(c);
      && (t.stoppedAt.None? <==> forall i :: 0 <= i < |d| ==> d[i].value != Null)
      && (t.stoppedAt.None? ==> t.visited == d)
  {
    ForeachSplits(c, OnNull);
  }

  /**
   * How a `foreach` that returns at the first element on which `p` is `polarity` ends:
   * without returning exactly when no element is such.
   */
  lemma ForeachOnMatch(c: Cursor, p: Value -> bool, polarity: bool)
    ensures var t := Foreach(c, OnMatch(p, polarity)); var d := Drain(c);
      t.stoppedAt.None? <==> forall i :: 0 <= i < |d| ==> p(d[i].value) != polarity
  {
    ForeachSplits(c, OnMatch(p, polarity));
  }

  // One-step facts the loops below use to keep their accumulator invariants.

  lemma PrefixSnoc<T>(xs: seq<T>, k: nat)
    requires k < |xs|
    ensures xs[..k + 1] == xs[..k] + [xs[k]]
  { }

  lemma AssignStep(f: Value -> Value, vs: seq<Value>, k: nat)
    requires k < |vs|
    ensures AssignUpTo(f, vs, k + 1) == AssignUpTo(f, vs, k)[vs[k] := f(vs[k])]
  { }

  lemma DistinctStep(vs: seq<Value>, k: nat)
    requires k < |vs|
    ensures DistinctUpTo(vs, k + 1) ==
      if vs[k] in DistinctUpTo(vs, k) then DistinctUpTo(vs, k) else DistinctUpTo(vs, k) + [vs[k]]
  { }

  lemma PrefixAll<T>(xs: seq<T>, k: nat)
    requires k == |xs|
    ensures xs[..k] == xs
  { }

  // ---------------------------------------------------------------------------------
  // Building pipelines.
  // ---------------------------------------------------------------------------------

  /** `EloquentIterable::wrap($array)`: an ArrayIterator over the array inside a BasicEloquentIterable. */
  method Wrap(entries: seq<Entry>) returns (it: Iter)
    ensures InvOf(it) && fresh(ReprOf(it))
    ensures ModelOf(it) == Basic(ArrayIt(entries, 0))
    ensures Elements(ModelOf(it)) == entries
  {
    var source := new ArrayIterator(entries);
    var basic := new BasicEloquentIterable(OfArray(source));
    it := OfBasic(basic);
    WrapElements(entries, 0);
  }

  /** `EloquentIterable::wrap($iterator)` for an iterator of this library: one more forwarding layer. */
  method WrapIterator(inner: Iter) returns (it: Iter)
    requires InvOf(inner)
    ensures InvOf(it) && ReprOf(inner) <= ReprOf(it) && fresh(ReprOf(it) - ReprOf(inner))
    ensures ModelOf(it) == Basic(ModelOf(inner))
    ensures Elements(ModelOf(it)) == Elements(ModelOf(inner))
  {
    var basic := new BasicEloquentIterable(inner);
    it := OfBasic(basic);
    BasicElements(ModelOf(inner));
  }

  /**
   * `filter($p)`. Its constructor already moves `it` to the first match. Over a pipeline
   * without an append stage the result yields exactly the matching entries.
   */
  method Filter(it: Iter, p: Value -> bool) returns (r: Iter)
    requires InvOf(it)
    modifies ReprOf(it)
    ensures InvOf(r) && ReprOf(it) <= ReprOf(r) && fresh(ReprOf(r) - ReprOf(it))
    ensures r.OfFiltered? && r.filtered.iter == it && r.filtered.pred == p
    ensures ModelOf(r) == Filtered(Probe(old(ModelOf(it)), p), p)
    ensures Elements(ModelOf(it)) == Elements(old(ModelOf(it)))
    ensures NoAppend(old(ModelOf(it))) ==>
      Elements(ModelOf(r)) == FilterEntries(p, Elements(old(ModelOf(it))))
  {
    var f := new FilteredEloquentIterable(it, p);
    r := OfFiltered(f);
    RewindProbe(old(ModelOf(it)), p);
    if NoAppend(old(ModelOf(it))) {
      FilterElements(Probe(old(ModelOf(it)), p), p);
    }
  }

  /** `transform($f)`: yields the same keys with `f` applied to each value. */
  method Transform(it: Iter, f: Value -> Value) returns (r: Iter)
    requires InvOf(it)
    ensures InvOf(r) && ReprOf(it) <= ReprOf(r) && fresh(ReprOf(r) - ReprOf(it))
    ensures ModelOf(r) == CursorModel.Transform(ModelOf(it), f)
    ensures Elements(ModelOf(r)) == MapEntries(f, Elements(ModelOf(it)))
  {
    var t := new TransformEloquentIterable(it, f);
    r := OfTransform(t);
    TransformElements(ModelOf(it), f);
  }

  /** `limit($maxSize)`: as written, yields nothing when `maxSize <= 0` and everything otherwise. */
  method Limit(it: Iter, maxSize: int) returns (r: Iter)
    requires InvOf(it)
    ensures InvOf(r) && ReprOf(it) <= ReprOf(r) && fresh(ReprOf(r) - ReprOf(it))
    ensures ModelOf(r) == Limited(ModelOf(it), maxSize, 0)
    ensures Elements(ModelOf(r)) == if 0 < maxSize then Elements(ModelOf(it)) else []
  {
    var l := new LimitedEloquentIterator(it, maxSize);
    r := OfLimited(l);
    LimitElements(ModelOf(it), maxSize, 0);
  }

  /** `appendIterator($iterator)`: this pipeline's entries followed by the other's. */
  method AppendIterator(it: Iter, other: Iter) returns (r: Iter)
    requires InvOf(it) && InvOf(other)
    requires ReprOf(it) !! ReprOf(other)
    ensures InvOf(r) && ReprOf(it) + ReprOf(other) <= ReprOf(r)
    ensures fresh(ReprOf(r) - ReprOf(it) - ReprOf(other))
    ensures ModelOf(r) == Appended(ModelOf(it), ModelOf(other), true)
    ensures Elements(ModelOf(r)) == Elements(ModelOf(it)) + Elements(ModelOf(other))
  {
    var ap := new AppendedEloquentIterable(it, other);
    r := OfAppended(ap);
    CursorFacts.AppendElements(ModelOf(it), ModelOf(other), true);
  }

  /** `appendIterator($array)`: the array goes into a fresh ArrayIterator first. */
  method AppendArray(it: Iter, entries: seq<Entry>) returns (r: Iter)
    requires InvOf(it)
    ensures InvOf(r) && ReprOf(it) <= ReprOf(r) && fresh(ReprOf(r) - ReprOf(it))
    ensures ModelOf(r) == Appended(ModelOf(it), ArrayIt(entries, 0), true)
    ensures Elements(ModelOf(r)) == Elements(ModelOf(it)) + entries
  {
    var source := new ArrayIterator(entries);
    r := AppendIterator(it, OfArray(source));
    DrainArray(entries, 0);
    assert entries[0..] == entries;
  }

  /**
   * `appendElements($a, $b, ...)`: the argument list, keyed 0, 1, ..., is appended as an
   * array, so `appendElements([4, 5])` appends one element, the array `[4, 5]`.
   */
  method AppendElements(it: Iter, args: seq<Value>) returns (r: Iter)
    requires InvOf(it)
    ensures InvOf(r) && ReprOf(it) <= ReprOf(r) && fresh(ReprOf(r) - ReprOf(it))
    ensures Elements(ModelOf(r)) == Elements(ModelOf(it)) + ListOf(args)
    ensures Values(Elements(ModelOf(r))[|Elements(ModelOf(it))|..]) == args
  {
    r := AppendArray(it, ListOf(args));
    var before := Elements(ModelOf(it));
    assert Elements(ModelOf(r))[|before|..] == ListOf(args);
  }

  // ---------------------------------------------------------------------------------
  // Terminal operations.
  // ---------------------------------------------------------------------------------

  /**
   * The `k`-th iteration of a `foreach` pass from `start`, whose body breaks out when
   * `rule` says so: `valid()` and, when it holds, `key()` and `current()`, then `next()`
   * unless the body breaks. The pass is over, or it leaves at this element, or this is
   * its `k`-th element and the iterator is at the following station.
   */
  method ForeachStep(it: Iter, ghost start: Cursor, rule: StopRule, ghost k: nat)
      returns (head: Option<Entry>)
    requires InvOf(it)
    requires k < |Stations(start, rule)| && ModelOf(it) == Stations(start, rule)[k]
    modifies ReprOf(it)
    ensures var t := Foreach(start, rule);
      head.None? ==> k == |t.visited| && t.stoppedAt == None && ModelOf(it) == t.final
    ensures var t := Foreach(start, rule);
      head.Some? && Stops(rule, head.value.value) ==>
        k == |t.visited| && t.stoppedAt == head && ModelOf(it) == t.final
    ensures var t := Foreach(start, rule); var s := Stations(start, rule);
      head.Some? && !Stops(rule, head.value.value) ==>
        k < |t.visited| && head.value == t.visited[k] && ModelOf(it) == s[k + 1]
  {
    StationStep(start, rule, k);
    var more := ValidOf(it);
    if more {
      head := Some(Entry(CurrentKeyOf(it).value, CurrentOf(it)));
      if !Stops(rule, head.value.value) {
        NextOf(it);
      }
    } else {
      head := None;
    }
  }

  /**
   * `allMatch($p)`: true exactly when every element satisfies `p` (so on an empty
   * pipeline); the loop returns at the first element that fails.
   */
  method AllMatch(it: Iter, p: Value -> bool) returns (all: bool)
    requires InvOf(it)
    modifies ReprOf(it)
    ensures var es := Elements(old(ModelOf(it)));
      all <==> forall i :: 0 <= i < |es| ==> p(es[i].value)
    ensures ModelOf(it) == Foreach(Rewind(old(ModelOf(it))), OnMatch(p, false)).final
  {
    ghost var es := Elements(ModelOf(it));
    RewindOf(it);
    assert Drain(ModelOf(it)) == es;
    var rule := OnMatch(p, false);
    ghost var t := Foreach(ModelOf(it), rule);
    ForeachOnMatch(ModelOf(it), p, false);
    ghost var start := ModelOf(it);
    ghost var s := Stations(start, rule);
    ghost var k := 0;
    while true
      invariant InvOf(it) && k < |s| && ModelOf(it) == s[k] && k <= |t.visited|
      decreases |s| - k
    {
      var head := ForeachStep(it, start, rule, k);
      if head.None? {
        all := true;
        break;
      }
      if !p(head.value.value) {
        all := false;
        break;
      }
      k := k + 1;
    }
  }

  /**
   * `anyMatch($p)`: true exactly when some element satisfies `p` (so false on an empty
   * pipeline); the loop returns at the first match.
   */
  method AnyMatch(it: Iter, p: Value -> bool) returns (any: bool)
    requires InvOf(it)
    modifies ReprOf(it)
    ensures var es := Elements(old(ModelOf(it)));
      any <==> exists i :: 0 <= i < |es| && p(es[i].value)
    ensures ModelOf(it) == Foreach(Rewind(old(ModelOf(it))), OnMatch(p, true)).final
  {
    ghost var es := Elements(ModelOf(it));
    RewindOf(it);
    assert Drain(ModelOf(it)) == es;
    var rule := OnMatch(p, true);
    ghost var t := Foreach(ModelOf(it), rule);
    ForeachOnMatch(ModelOf(it), p, true);
    ghost var start := ModelOf(it);
    ghost var s := Stations(start, rule);
    ghost var k := 0;
    while true
      invariant InvOf(it) && k < |s| && ModelOf(it) == s[k] && k <= |t.visited|
      decreases |s| - k
    {
      var head := ForeachStep(it, start, rule, k);
      if head.None? {
        any := false;
        break;
      }
      if p(head.value.value) {
        any := true;
        break;
      }
      k := k + 1;
    }
  }

  /**
   * `first()`: `Optional::of` the first element, absent when there is none; a null
   * first element makes `Optional::of` throw.
   */
  method First(it: Iter) returns (r: Result<Optional>)
    requires InvOf(it)
    modifies ReprOf(it)
    ensures var es := Elements(old(ModelOf(it)));
      r == if es == [] then Ok(Absent) else Of(es[0].value)
    ensures ModelOf(it) == Foreach(Rewind(old(ModelOf(it))), Always).final
  {
    RewindOf(it);
    ghost var start := ModelOf(it);
    ForeachSplits(start, Always);
    var head := ForeachStep(it, start, Always, 0);
    if head.Some? {
      r := Of(head.value.value);
    } else {
      r := Ok(Absent);
    }
  }

  /**
   * `last()`: `Optional::of` the last element, absent when there is none. Every element
   * goes through `Optional::of`, so the first null element ends the loop with a NullPointer.
   */
  method Last(it: Iter) returns (r: Result<Optional>)
    requires InvOf(it)
    modifies ReprOf(it)
    ensures var es := Elements(old(ModelOf(it)));
      r.Err? <==> exists i :: 0 <= i < |es| && es[i].value == Null
    ensures r.Err? ==> r.error == NullPointer(Preconditions.NullReferenceGiven)
    ensures var es := Elements(old(ModelOf(it)));
      r.Ok? ==> r.value == if es == [] then Absent else Present(es[|es| - 1].value)
    ensures ModelOf(it) == Foreach(Rewind(old(ModelOf(it))), OnNull).final
  {
    ghost var es := Elements(ModelOf(it));
    RewindOf(it);
    assert Drain(ModelOf(it)) == es;
    ghost var t := Foreach(ModelOf(it), OnNull);
    ForeachOnNull(ModelOf(it));
    ghost var start := ModelOf(it);
    ghost var s := Stations(start, OnNull);
    ghost var k := 0;
    var result := Absent;
    while true
      invariant InvOf(it) && k < |s| && ModelOf(it) == s[k] && k <= |t.visited|
      invariant result == if k == 0 then Absent else Present(t.visited[k - 1].value)
      decreases |s| - k
    {
      var head := ForeachStep(it, start, OnNull, k);
      if head.None? {
        assert t.visited == Drain(start);
        r := Ok(result);
        break;
      }
      var o := Of(head.value.value);
      if o.Err? {
        assert t.stoppedAt.Some?;
        r := Err(o.error);
        break;
      }
      result := o.value;
      k := k + 1;
    }
  }

  /**
   * `firstMatch($p)` is `filter($p)->first()`: `Optional::of` the first element the filter
   * stage over this pipeline yields, absent if none. Over a pipeline without an append
   * stage that is the first element satisfying `p`. The pipeline is left inside the
   * filter stage's final state and still yields the same elements.
   */
  method FirstMatch(it: Iter, p: Value -> bool) returns (r: Result<Optional>)
    requires InvOf(it)
    modifies ReprOf(it)
    ensures var ms := Elements(Filtered(old(ModelOf(it)), p));
      r == if ms == [] then Ok(Absent) else Of(ms[0].value)
    ensures NoAppend(old(ModelOf(it))) ==>
      var ms := FilterEntries(p, Elements(old(ModelOf(it))));
      r == if ms == [] then Ok(Absent) else Of(ms[0].value)
    ensures Filtered(ModelOf(it), p) == Foreach(Rewind(Filtered(old(ModelOf(it)), p)), Always).final
    ensures Elements(ModelOf(it)) == Elements(old(ModelOf(it)))
  {
    ghost var m0 := ModelOf(it);
    var filtered := Filter(it, p);
    RewindFilteredProbe(m0, p);
    r := First(filtered);
    assert ModelOf(filtered) == Filtered(ModelOf(it), p);
    RewindForeach(Rewind(Filtered(m0, p)), Always);
    RewindRewind(Filtered(m0, p));
    assert Rewind(Filtered(ModelOf(it), p)) == Rewind(Filtered(m0, p));
    ProbeDeterminesRewind(ModelOf(it), m0, p);
    if NoAppend(m0) {
      FilterElements(m0, p);
    }
  }

  /** `isEmpty()`: rewinds and asks `valid()` once; true exactly when nothing is yielded. */
  method IsEmpty(it: Iter) returns (empty: bool)
    requires InvOf(it)
    modifies ReprOf(it)
    ensures empty <==> Elements(old(ModelOf(it))) == []
    ensures ModelOf(it) == Valid(Rewind(old(ModelOf(it)))).1
  {
    RewindOf(it);
    var more := ValidOf(it);
    empty := !more;
    ValidIffElements(old(ModelOf(it)));
  }

  /** `size()`: the number of elements a full traversal visits. */
  method Size(it: Iter) returns (size: nat)
    requires InvOf(it)
    modifies ReprOf(it)
    ensures size == |Elements(old(ModelOf(it)))|
    ensures ModelOf(it) == Foreach(Rewind(old(ModelOf(it))), Never).final
  {
    ghost var es := Elements(ModelOf(it));
    RewindOf(it);
    assert Drain(ModelOf(it)) == es;
    ghost var t := Foreach(ModelOf(it), Never);
    ForeachNever(ModelOf(it));
    ghost var start := ModelOf(it);
    ghost var s := Stations(start, Never);
    size := 0;
    while true
      invariant InvOf(it) && size < |s| && ModelOf(it) == s[size] && size <= |t.visited|
      decreases |s| - size
    {
      var head := ForeachStep(it, start, Never, size);
      if head.None? {
        break;
      }
      size := size + 1;
    }
  }

  /** `toArray()`: the values in iteration order, keys discarded (renumbered 0, 1, ...). */
  method ToArray(it: Iter) returns (result: seq<Value>)
    requires InvOf(it)
    modifies ReprOf(it)
    ensures result == Values(Elements(old(ModelOf(it))))
    ensures ModelOf(it) == Foreach(Rewind(old(ModelOf(it))), Never).final
  {
    ghost var es := Elements(ModelOf(it));
    RewindOf(it);
    assert Drain(ModelOf(it)) == es;
    ghost var start := ModelOf(it);
    ghost var s := Stations(start, Never);
    ghost var t := Foreach(start, Never);
    ForeachNever(start);
    ghost var vs := Values(t.visited);
    ghost var k := 0;
    result := [];
    while true
      invariant InvOf(it) && k < |s| && ModelOf(it) == s[k] && k <= |t.visited|
      invariant result == vs[..k]
      decreases |s| - k
    {
      var head := ForeachStep(it, start, Never, k);
      if head.None? {
        PrefixAll(vs, k);
        break;
      }
      PrefixSnoc(vs, k);
      result := result + [head.value.value];
      k := k + 1;
    }
  }

  /**
   * `toMap($f)`: `$result[$v] = $f($v)` for each element in turn, so a repeated element
   * overwrites its earlier entry (AssignEachMaps states what the array holds).
   */
  method ToMap(it: Iter, f: Value -> Value) returns (result: map<Value, Value>)
    requires InvOf(it)
    modifies ReprOf(it)
    ensures result == AssignEach(f, Values(Elements(old(ModelOf(it)))))
    ensures ModelOf(it) == Foreach(Rewind(old(ModelOf(it))), Never).final
  {
    ghost var es := Elements(ModelOf(it));
    RewindOf(it);
    assert Drain(ModelOf(it)) == es;
    ghost var start := ModelOf(it);
    ghost var s := Stations(start, Never);
    ghost var t := Foreach(start, Never);
    ForeachNever(start);
    ghost var vs := Values(t.visited);
    ghost var k := 0;
    result := map[];
    while true
      invariant InvOf(it) && k < |s| && ModelOf(it) == s[k] && k <= |t.visited|
      invariant result == AssignUpTo(f, vs, k)
      decreases |s| - k
    {
      var head := ForeachStep(it, start, Never, k);
      if head.None? {
        break;
      }
      var v := head.value.value;
      AssignStep(f, vs, k);
      result := result[v := f(v)];
      k := k + 1;
    }
  }

  /**
   * `toSet()`: `$result[$v] = 1` for each element, then `array_keys`: every element
   * once, in the order of first occurrence (DistinctIsSet states the set property).
   */
  method ToSet(it: Iter) returns (result: seq<Value>)
    requires InvOf(it)
    modifies ReprOf(it)
    ensures result == Distinct(Values(Elements(old(ModelOf(it)))))
    ensures ModelOf(it) == Foreach(Rewind(old(ModelOf(it))), Never).final
  {
    ghost var es := Elements(ModelOf(it));
    RewindOf(it);
    assert Drain(ModelOf(it)) == es;
    ghost var start := ModelOf(it);
    ghost var s := Stations(start, Never);
    ghost var t := Foreach(start, Never);
    ForeachNever(start);
    ghost var vs := Values(t.visited);
    ghost var k := 0;
    result := [];
    while true
      invariant InvOf(it) && k < |s| && ModelOf(it) == s[k] && k <= |t.visited|
      invariant result == DistinctUpTo(vs, k)
      decreases |s| - k
    {
      var head := ForeachStep(it, start, Never, k);
      if head.None? {
        break;
      }
      var v := head.value.value;
      DistinctStep(vs, k);
      if v !in result {
        result := result + [v];
      }
      k := k + 1;
    }
  }
}

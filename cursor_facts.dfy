/**
 * What a traversal of each kind of stage yields, proved from the protocol functions of
 * CursorModel, and the declarative meaning (`Yield`) that follows for whole pipelines.
 */
module CursorFacts {
  import opened Php
  import opened CursorModel

  /** Asking `valid()` twice in a row changes nothing the second time. */
  lemma {:induction false} ValidIdempotent(c: Cursor)
    ensures Valid(Valid(c).1) == Valid(c)
  {
    match c
    case ArrayIt(_, _) =>
    case Basic(it) => ValidIdempotent(it);
    case Filtered(it, _) => ValidIdempotent(it);
    case Transform(it, _) => ValidIdempotent(it);
    case Limited(it, m, i) => if i < m { ValidIdempotent(it); }
    case Appended(a, b, onFirst) =>
      ValidIdempotent(b);
      if onFirst {
        ValidIdempotent(a);
        var (va, a') := Valid(a);
        if !va {
          var (vb, b') := Valid(b);
          assert Valid(Appended(a', b', false)).1 == Appended(a', Valid(b').1, false);
        }
      }
  }

  /** A traversal does not depend on whether `valid()` was already asked once. */
  lemma DrainAfterValid(c: Cursor)
    ensures Drain(Valid(c).1) == Drain(c)
  {
    ValidIdempotent(c);
  }

  // ---------------------------------------------------------------------------------
  // One lemma per stage: what a traversal from any state of that stage visits.
  // ---------------------------------------------------------------------------------

  /** An ArrayIterator at position `pos` visits the entries from `pos` on, in order, with their keys. */
  lemma {:induction false} DrainArray(es: seq<Entry>, pos: nat)
    ensures Drain(ArrayIt(es, pos)) == if pos < |es| then es[pos..] else []
    decreases |es| - pos
  {
    if pos < |es| {
      DrainArray(es, pos + 1);
      assert es[pos..] == [es[pos]] + es[pos + 1..];
    }
  }

  /** BasicEloquentIterable forwards every call: it visits exactly what its iterator visits. */
  lemma {:induction false} DrainBasic(it: Cursor)
    ensures Drain(Basic(it)) == Drain(it)
    decreases Remaining(it)
  {
    var (more, it1) := Valid(it);
    if more {
      DrainBasic(Next(it1));
    }
  }

  /** A transform stage visits the inner entries with the closure applied to each value and the keys kept. */
  lemma {:induction false} DrainTransform(it: Cursor, f: Value -> Value)
    ensures Drain(Transform(it, f)) == MapEntries(f, Drain(it))
    decreases Remaining(it)
  {
    var (more, it1) := Valid(it);
    if more {
      DrainTransform(Next(it1), f);
      var e := Entry(CurrentKey(it1).value, Current(it1));
      assert Drain(it) == [e] + Drain(Next(it1));
      assert ([e] + Drain(Next(it1)))[1..] == Drain(Next(it1));
    }
  }

  /** A limit stage visits nothing when `index >= maxSize`, and otherwise all of its inner cursor. */
  lemma {:induction false} DrainLimited(it: Cursor, maxSize: int, index: int)
    ensures Drain(Limited(it, maxSize, index)) == if index < maxSize then Drain(it) else []
    decreases Remaining(it)
  {
    if index < maxSize {
      var (more, it1) := Valid(it);
      if more {
        DrainLimited(Next(it1), maxSize, index);
      }
    }
  }

  /** Once switched to its second side, an append stage visits what the second side visits. */
  lemma {:induction false} DrainAppendedSecond(a: Cursor, b: Cursor)
    ensures Drain(Appended(a, b, false)) == Drain(b)
    decreases Remaining(b)
  {
    var (more, b1) := Valid(b);
    if more {
      DrainAppendedSecond(a, Next(b1));
    }
  }

  /** On its first side, an append stage visits the first side's entries and then the second's. */
  lemma {:induction false} DrainAppended(a: Cursor, b: Cursor)
    ensures Drain(Appended(a, b, true)) == Drain(a) + Drain(b)
    decreases Remaining(a)
  {
    var (va, a1) := Valid(a);
    if va {
      DrainAppended(Next(a1), b);
      var e := Entry(CurrentKey(a1).value, Current(a1));
      assert Drain(a) == [e] + Drain(Next(a1));
    } else {
      var (vb, b1) := Valid(b);
      if vb {
        DrainAppendedSecond(a1, Next(b1));
      }
    }
  }

  /** Unfolding FilterEntries at the front of a list. */
  lemma FilterEntriesCons(p: Value -> bool, e: Entry, es: seq<Entry>)
    ensures FilterEntries(p, [e] + es) == (if p(e.value) then [e] else []) + FilterEntries(p, es)
  {
    assert ([e] + es)[1..] == es;
  }

  /**
   * A filter stage over an append-free cursor whose current element matches (or that is
   * exhausted) visits exactly the matching inner entries, in order, with their keys.
   */
  lemma {:induction false} DrainFiltered(x: Cursor, p: Value -> bool)
    requires NoAppend(x)
    requires Live(x) ==> p(Current(x))
    ensures Drain(Filtered(x, p)) == FilterEntries(p, Drain(x))
    decreases Remaining(x), 1
  {
    if Live(x) {
      var e := Entry(CurrentKey(x).value, Current(x));
      assert Drain(x) == [e] + Drain(Next(x));
      FilterEntriesCons(p, e, Drain(Next(x)));
      DrainSkipLoop(x, p);
    }
  }

  /** The skip loop from a valid append-free cursor leads to a stage that visits the matches after it. */
  lemma {:induction false} DrainSkipLoop(x: Cursor, p: Value -> bool)
    requires NoAppend(x) && Live(x)
    ensures Drain(Filtered(SkipLoop(x, p), p)) == FilterEntries(p, Drain(Next(x)))
    decreases Remaining(x), 0
  {
    var x2 := Next(x);
    if p(Current(x2)) {
      DrainFiltered(x2, p);
    } else if Live(x2) {
      var e := Entry(CurrentKey(x2).value, Current(x2));
      assert Drain(x2) == [e] + Drain(Next(x2));
      FilterEntriesCons(p, e, Drain(Next(x2)));
      DrainSkipLoop(x2, p);
    }
  }

  /** After the look-ahead of the constructor or of `rewind`, a filter stage visits exactly the matches. */
  lemma DrainProbe(x: Cursor, p: Value -> bool)
    requires NoAppend(x)
    ensures Drain(Filtered(Probe(x, p), p)) == FilterEntries(p, Drain(x))
  {
    if p(Current(x)) {
      DrainFiltered(x, p);
    } else if Live(x) {
      var e := Entry(CurrentKey(x).value, Current(x));
      assert Drain(x) == [e] + Drain(Next(x));
      FilterEntriesCons(p, e, Drain(Next(x)));
      DrainSkipLoop(x, p);
    } else {
      assert SkipLoop(x, p) == x;
      assert Drain(x) == [];
      assert Drain(Filtered(x, p)) == [];
    }
  }

  // ---------------------------------------------------------------------------------
  // What each stage yields after rewind.
  // ---------------------------------------------------------------------------------

  /** `wrap($array)` yields the array's entries in order, with the array's own keys. */
  lemma WrapElements(es: seq<Entry>, pos: nat)
    ensures Elements(Basic(ArrayIt(es, pos))) == es
  {
    assert Rewind(Basic(ArrayIt(es, pos))) == Basic(ArrayIt(es, 0));
    DrainBasic(ArrayIt(es, 0));
    DrainArray(es, 0);
    assert es[0..] == es;
  }

  /** A filter stage over an append-free pipeline yields exactly the matching entries, in order. */
  lemma FilterElements(c: Cursor, p: Value -> bool)
    requires NoAppend(c)
    ensures Elements(Filtered(c, p)) == FilterEntries(p, Elements(c))
  {
    DrainProbe(Rewind(c), p);
  }

  /** A transform stage yields the inner entries with each value mapped and the keys kept. */
  lemma TransformElements(c: Cursor, f: Value -> Value)
    ensures Elements(Transform(c, f)) == MapEntries(f, Elements(c))
  {
    DrainTransform(Rewind(c), f);
  }

  /** A limit stage yields nothing when `maxSize <= 0` and the whole inner sequence otherwise. */
  lemma LimitElements(c: Cursor, maxSize: int, index: int)
    ensures Elements(Limited(c, maxSize, index)) == if 0 < maxSize then Elements(c) else []
  {
    DrainLimited(Rewind(c), maxSize, 0);
  }

  /** An append stage yields its first side's entries followed by its second side's. */
  lemma AppendElements(a: Cursor, b: Cursor, onFirst: bool)
    ensures Elements(Appended(a, b, onFirst)) == Elements(a) + Elements(b)
  {
    DrainAppended(Rewind(a), Rewind(b));
  }

  /** Every pipeline in which no filter sits over an append stage yields its declarative meaning. */
  lemma {:induction false} ElementsAreYield(c: Cursor)
    requires FilterSafe(c)
    ensures Elements(c) == Yield(c)
  {
    match c
    case ArrayIt(es, _) =>
      DrainArray(es, 0);
    case Basic(it) =>
      ElementsAreYield(it);
      DrainBasic(Rewind(it));
    case Filtered(it, p) =>
      NoAppendIsFilterSafe(it);
      ElementsAreYield(it);
      FilterElements(it, p);
    case Transform(it, f) =>
      ElementsAreYield(it);
      TransformElements(it, f);
    case Limited(it, m, i) =>
      ElementsAreYield(it);
      LimitElements(it, m, i);
    case Appended(a, b, onFirst) =>
      ElementsAreYield(a);
      ElementsAreYield(b);
      AppendElements(a, b, onFirst);
  }

  lemma {:induction false} NoAppendIsFilterSafe(c: Cursor)
    requires NoAppend(c)
    ensures FilterSafe(c)
  {
    match c
    case ArrayIt(_, _) =>
    case Basic(it) => NoAppendIsFilterSafe(it);
    case Filtered(it, _) =>
    case Transform(it, _) => NoAppendIsFilterSafe(it);
    case Limited(it, _, _) => NoAppendIsFilterSafe(it);
  }

  // ---------------------------------------------------------------------------------
  // Rewind forgets the position: every traversal that starts with rewind sees the same.
  // ---------------------------------------------------------------------------------

  lemma {:induction false} RewindValid(c: Cursor)
    ensures Rewind(Valid(c).1) == Rewind(c)
  {
    match c
    case ArrayIt(_, _) =>
    case Basic(it) => RewindValid(it);
    case Filtered(it, _) => RewindValid(it);
    case Transform(it, _) => RewindValid(it);
    case Limited(it, m, i) => if i < m { RewindValid(it); }
    case Appended(a, b, onFirst) =>
      RewindValid(a);
      RewindValid(b);
  }

  lemma {:induction false} RewindNext(c: Cursor)
    ensures Rewind(Next(c)) == Rewind(c)
    decreases Depth(c), 0, 0
  {
    match c
    case ArrayIt(_, _) =>
    case Basic(it) => RewindNext(it);
    case Filtered(it, p) => RewindSkipLoop(it, p);
    case Transform(it, _) => RewindNext(it);
    case Limited(it, _, _) => RewindNext(it);
    case Appended(a, b, onFirst) =>
      if onFirst { RewindNext(a); } else { RewindNext(b); }
  }

  lemma {:induction false} RewindSkipLoop(c: Cursor, p: Value -> bool)
    ensures Rewind(SkipLoop(c, p)) == Rewind(c)
    decreases Depth(c), 1, Remaining(c)
  {
    RewindValid(c);
    var (more, c1) := Valid(c);
    if more {
      var c2 := Next(c1);
      RewindNext(c1);
      if !p(Current(c2)) {
        RewindSkipLoop(c2, p);
      }
    }
  }

  /** Rewinding twice is rewinding once. */
  lemma {:induction false} RewindRewind(c: Cursor)
    ensures Rewind(Rewind(c)) == Rewind(c)
  {
    match c
    case ArrayIt(_, _) =>
    case Basic(it) => RewindRewind(it);
    case Filtered(it, p) =>
      RewindRewind(it);
      var x := Rewind(it);
      if !p(Current(x)) { RewindSkipLoop(x, p); }
    case Transform(it, _) => RewindRewind(it);
    case Limited(it, _, _) => RewindRewind(it);
    case Appended(a, b, _) => RewindRewind(a); RewindRewind(b);
  }

  /** Whatever state a `foreach` pass leaves behind rewinds to the same state it started from. */
  lemma {:induction false} RewindForeach(c: Cursor, rule: StopRule)
    ensures Rewind(Foreach(c, rule).final) == Rewind(c)
    decreases Remaining(c)
  {
    RewindValid(c);
    var (more, c1) := Valid(c);
    if more && !Stops(rule, Current(c1)) {
      RewindNext(c1);
      RewindForeach(Next(c1), rule);
    }
  }

  /**
   * Every terminal operation starts with `rewind`, so running one (to the end or leaving
   * early) does not change what the next one sees: calling `toArray()` twice gives the same list.
   */
  lemma TraversalRepeatable(c: Cursor, rule: StopRule)
    ensures Elements(Foreach(Rewind(c), rule).final) == Elements(c)
  {
    RewindForeach(Rewind(c), rule);
    RewindRewind(c);
  }

  // ---------------------------------------------------------------------------------
  // A `foreach` with an early return sees a prefix of the full traversal.
  // ---------------------------------------------------------------------------------

  /**
   * A pass that leaves at the first element `rule` stops on visits exactly the elements
   * before it; it runs to the end exactly when no element stops it.
   */
  lemma {:induction false} ForeachSplits(c: Cursor, rule: StopRule)
    ensures var t := Foreach(c, rule);
      var d := Drain(c);
      var k := |t.visited|;
      && k <= |d|
      && t.visited == d[..k]
      && (forall i :: 0 <= i < k ==> !Stops(rule, d[i].value))
      && (t.stoppedAt.None? <==> k == |d|)
      && (t.stoppedAt.Some? ==> k < |d| && t.stoppedAt.value == d[k] && Stops(rule, d[k].value))
    decreases Remaining(c)
  {
    var (more, c1) := Valid(c);
    if more {
      var e := Entry(CurrentKey(c1).value, Current(c1));
      assert Drain(c) == [e] + Drain(Next(c1));
      if !Stops(rule, e.value) {
        ForeachSplits(Next(c1), rule);
        var d' := Drain(Next(c1));
        var t' := Foreach(Next(c1), rule);
        assert forall i :: 1 <= i < |d'| + 1 ==> Drain(c)[i] == d'[i - 1];
      }
    }
  }

  /** Corollary: a pass that never stops visits the whole traversal. */
  lemma ForeachNever(c: Cursor)
    ensures Foreach(c, Never).stoppedAt == None
    ensures Foreach(c, Never).visited == Drain(c)
  {
    ForeachSplits(c, Never);
  }

  /** How one iteration of a `foreach` pass that begins in state `c` turns out. */
  datatype Iteration =
    | Ends(final: Cursor)               // `valid()` is false: the pass is over
    | Leaves(e: Entry, final: Cursor)   // the element read is the one the pass stops on
    | Continues(e: Entry, next: Cursor) // the element is visited, then `next()`

  ghost function Iterate(c: Cursor, rule: StopRule): (r: Iteration)
    ensures r.Continues? ==> Remaining(r.next) < Remaining(c)
  {
    var (more, c1) := Valid(c);
    if !more then Ends(c1)
    else
      var e := Entry(CurrentKey(c1).value, Current(c1));
      if Stops(rule, e.value) then Leaves(e, c1) else Continues(e, Next(c1))
  }

  /** `Foreach` unfolded by one iteration. */
  lemma ForeachIterate(c: Cursor, rule: StopRule)
    ensures match Iterate(c, rule)
      case Ends(final) => Foreach(c, rule) == Traversal([], None, final)
      case Leaves(e, final) => Foreach(c, rule) == Traversal([], Some(e), final)
      case Continues(e, next) =>
        var t := Foreach(next, rule); Foreach(c, rule) == Traversal([e] + t.visited, t.stoppedAt, t.final)
  {
  }

  /**
   * The states in which the iterations of a `foreach` pass from `c` begin (each one a
   * `valid()` call): one per element visited, and one more for the call that ends the pass.
   */
  ghost function Stations(c: Cursor, rule: StopRule): (s: seq<Cursor>)
    ensures |s| == |Foreach(c, rule).visited| + 1
    ensures s[0] == c
    decreases Remaining(c)
  {
    match Iterate(c, rule)
    case Continues(_, next) => [c] + Stations(next, rule)
    case _ => [c]
  }

  /** The `k`-th station `s[k]` of a pass agrees with the pass `t`: what it visits, where it stops, where it ends. */
  ghost predicate AgreesAt(s: seq<Cursor>, t: Traversal, rule: StopRule, k: nat)
    requires k < |s| == |t.visited| + 1
  {
    match Iterate(s[k], rule)
    case Ends(final) => k == |t.visited| && t.stoppedAt == None && t.final == final
    case Leaves(e, final) => k == |t.visited| && t.stoppedAt == Some(e) && t.final == final
    case Continues(e, next) => k < |t.visited| && t.visited[k] == e && s[k + 1] == next
  }

  /** Agreement at station `k - 1` of a pass carries over to station `k` of the pass one iteration earlier. */
  lemma AgreesShift(c: Cursor, e: Entry, s: seq<Cursor>, t: Traversal, rule: StopRule, k: nat)
    requires 0 < k < |s| + 1 && |s| == |t.visited| + 1
    requires AgreesAt(s, t, rule, k - 1)
    ensures AgreesAt([c] + s, Traversal([e] + t.visited, t.stoppedAt, t.final), rule, k)
  {
    assert ([c] + s)[k] == s[k - 1];
    if k < |s| {
      assert ([c] + s)[k + 1] == s[k];
    }
  }

  /** The `k`-th iteration of a pass agrees with the pass. */
  lemma {:induction false} StationStep(c: Cursor, rule: StopRule, k: nat)
    requires k < |Stations(c, rule)|
    ensures AgreesAt(Stations(c, rule), Foreach(c, rule), rule, k)
    decreases Remaining(c)
  {
    ForeachIterate(c, rule);
    match Iterate(c, rule)
    case Continues(e, next) =>
      if k > 0 {
        StationStep(next, rule, k - 1);
        AgreesShift(c, e, Stations(next, rule), Foreach(next, rule), rule, k);
      }
    case _ =>
  }

  // ---------------------------------------------------------------------------------
  // The filter stage's invariant: its inner cursor is not live or is on a match. Without
  // an append stage inside, not live means exhausted; an append stage on its exhausted
  // first side is not live although its second side may still be valid.
  // ---------------------------------------------------------------------------------

  /** From a valid inner cursor, live or an append stage about to switch sides, the skip loop advances. */
  lemma SkipLoopAdvances(c: Cursor, p: Value -> bool)
    requires Valid(c).0
    ensures Remaining(SkipLoop(c, p)) < Remaining(c)
  {
    ValidIdempotent(c);
  }

  /** The skip loop stops on a match or on an inner cursor that is not live. */
  lemma {:induction false} SkipLoopLands(c: Cursor, p: Value -> bool)
    ensures var r := SkipLoop(c, p); Live(r) ==> p(Current(r))
    ensures var r := SkipLoop(c, p); NoAppend(c) ==> !Valid(r).0 || p(Current(r))
    decreases Remaining(c)
  {
    var (more, c1) := Valid(c);
    if more {
      var c2 := Next(c1);
      if !p(Current(c2)) {
        SkipLoopLands(c2, p);
      }
    }
  }

  /**
   * After the constructor, `rewind` or `next`, a filter stage's inner cursor is either
   * not live or on an element the predicate accepts; without an append stage inside,
   * either `valid()` is false or the predicate accepts `current()`.
   */
  lemma FilterStageLands(c: Cursor, p: Value -> bool)
    ensures var r := Probe(c, p); Live(r) ==> p(Current(r))
    ensures var r := Rewind(Filtered(c, p)).iter; Live(r) ==> p(Current(r))
    ensures var r := Next(Filtered(c, p)).iter; Live(r) ==> p(Current(r))
    ensures var r := Probe(c, p); NoAppend(c) ==> !Valid(r).0 || p(Current(r))
    ensures var r := Rewind(Filtered(c, p)).iter; NoAppend(c) ==> !Valid(r).0 || p(Current(r))
    ensures var r := Next(Filtered(c, p)).iter; NoAppend(c) ==> !Valid(r).0 || p(Current(r))
  {
    SkipLoopLands(c, p);
    SkipLoopLands(Rewind(c), p);
  }

  /** A filter stage built with its look-ahead rewinds to the same state as one built without. */
  lemma RewindFilteredProbe(c: Cursor, p: Value -> bool)
    ensures Rewind(Filtered(Probe(c, p), p)) == Rewind(Filtered(c, p))
  {
    RewindProbe(c, p);
  }

  /** Cursors whose rewound states look ahead to the same state rewind alike. */
  lemma ProbeDeterminesRewind(m: Cursor, o: Cursor, p: Value -> bool)
    requires Probe(Rewind(m), p) == Probe(Rewind(o), p)
    ensures Rewind(m) == Rewind(o)
  {
    RewindProbe(Rewind(m), p);
    RewindProbe(Rewind(o), p);
    RewindRewind(m);
    RewindRewind(o);
  }

  /** The look-ahead does not change what a later traversal sees. */
  lemma RewindProbe(c: Cursor, p: Value -> bool)
    ensures Rewind(Probe(c, p)) == Rewind(c)
    ensures Elements(Probe(c, p)) == Elements(c)
  {
    RewindSkipLoop(c, p);
  }

  /** A pipeline wrapped once more in BasicEloquentIterable yields the same. */
  lemma BasicElements(c: Cursor)
    ensures Elements(Basic(c)) == Elements(c)
  {
    DrainBasic(Rewind(c));
  }

  /** `isEmpty()` asks `valid()` right after `rewind()`: that answer is false exactly when nothing is yielded. */
  lemma ValidIffElements(c: Cursor)
    ensures Valid(Rewind(c)).0 <==> Elements(c) != []
  {
  }
}

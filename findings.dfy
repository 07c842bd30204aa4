/**
 * Two places where the code does not do what it evidently means to, each shown on a
 * concrete pipeline, next to a corrected stage whose intended property is proved.
 */
module Findings {
  import opened Php
  import opened CursorModel
  import opened CursorFacts

  /** The tests' closure `$value > 0`, on the integers and the null it is given (`null > 0` is false). */
  function Positive(v: Value): bool {
    match v
    case Int(i) => i > 0
    case _ => false
  }

  /** The closure `$value < 5` on integers and null (`null < 5` is true under PHP's loose comparison). */
  function BelowFive(v: Value): bool {
    match v
    case Int(i) => i < 5
    case Null => true
    case _ => false
  }

  /**
   * The pipeline `EloquentIterable::wrap($first)->appendIterator($second)->filter($p)`. A
   * `foreach` rewinds it first, so its elements do not depend on the constructor's look-ahead.
   */
  function FilterOverAppend(first: seq<Value>, second: seq<Value>, p: Value -> bool): Cursor {
    Filtered(Appended(Basic(ArrayIt(ListOf(first), 0)), ArrayIt(ListOf(second), 0), true), p)
  }

  // ---------------------------------------------------------------------------------
  // Finding 1: a filter over an appended iterable tests the wrong element at the boundary.
  // FilteredEloquentIterable reads the inner current() right after next() and before
  // valid(); AppendedEloquentIterable only moves to its second side inside valid(), so
  // the filter tests the exhausted first side's null instead of the second side's head.
  // ---------------------------------------------------------------------------------

  /** The entries of the list literal `[a, b]`. */
  function Pair(a: Value, b: Value): seq<Entry> {
    [Entry(IntKey(0), a), Entry(IntKey(1), b)]
  }

  lemma PairList(a: Value, b: Value)
    ensures ListOf([a, b]) == Pair(a, b)
  {
    var es := ListOf([a, b]);
    assert |es| == 2 && Values(es)[0] == a && Values(es)[1] == b;
  }

  /** The filter-over-append pipeline with an empty first side, right after construction. */
  lemma FilterOverEmptyAppend(a: Value, b: Value, p: Value -> bool)
    ensures Rewind(FilterOverAppend([], [a, b], p))
         == Filtered(Probe(Appended(Basic(ArrayIt([], 0)), ArrayIt(Pair(a, b), 0), true), p), p)
    ensures Yield(FilterOverAppend([], [a, b], p)) == FilterEntries(p, Pair(a, b))
  {
    PairList(a, b);
    assert ListOf([]) == [];
    var ap := Appended(Basic(ArrayIt([], 0)), ArrayIt(Pair(a, b), 0), true);
    assert FilterOverAppend([], [a, b], p) == Filtered(ap, p);
    assert Rewind(ap) == ap;
    assert Yield(ap) == [] + Pair(a, b) == Pair(a, b);
  }

  /** With an empty first side, the skip loop's first step lands on the second side's head, untested. */
  lemma SkipOverBoundary(a: Value, b: Value, p: Value -> bool)
    requires !p(Null)
    ensures Probe(Appended(Basic(ArrayIt([], 0)), ArrayIt(Pair(a, b), 0), true), p)
         == (if p(b) then Appended(Basic(ArrayIt([], 0)), ArrayIt(Pair(a, b), 1), false)
             else Appended(Basic(ArrayIt([], 0)), ArrayIt(Pair(a, b), 2), false))
  {
    var e := Basic(ArrayIt([], 0));
    var start := Appended(e, ArrayIt(Pair(a, b), 0), true);
    assert Current(start) == Null;
    assert Valid(start) == (true, Appended(e, ArrayIt(Pair(a, b), 0), false));
    var at1 := Appended(e, ArrayIt(Pair(a, b), 1), false);
    assert Next(Appended(e, ArrayIt(Pair(a, b), 0), false)) == at1;
    assert Current(at1) == b;
    if !p(b) {
      var past := Appended(e, ArrayIt(Pair(a, b), 2), false);
      assert Valid(at1) == (true, at1);
      assert Next(at1) == past;
      assert Current(past) == Null;
      assert SkipLoop(at1, p) == past;
    }
  }

  /** An exhausted second side ends the filtered pass. */
  lemma DrainPast(a: Value, b: Value, p: Value -> bool)
    ensures Drain(Filtered(Appended(Basic(ArrayIt([], 0)), ArrayIt(Pair(a, b), 2), false), p)) == []
  {
    var past := Appended(Basic(ArrayIt([], 0)), ArrayIt(Pair(a, b), 2), false);
    assert |Pair(a, b)| == 2;
    assert Valid(ArrayIt(Pair(a, b), 2)) == (false, ArrayIt(Pair(a, b), 2));
    assert Valid(Filtered(past, p)).0 == false;
  }

  /** From the second side's last element, the filtered pass yields it and stops, given `!p(null)`. */
  lemma DrainLast(a: Value, b: Value, p: Value -> bool)
    requires !p(Null)
    ensures Drain(Filtered(Appended(Basic(ArrayIt([], 0)), ArrayIt(Pair(a, b), 1), false), p))
         == [Entry(IntKey(1), b)]
  {
    var e := Basic(ArrayIt([], 0));
    var at1 := Appended(e, ArrayIt(Pair(a, b), 1), false);
    var past := Appended(e, ArrayIt(Pair(a, b), 2), false);
    assert Valid(at1) == (true, at1);
    assert Next(at1) == past;
    assert Current(past) == Null;
    assert SkipLoop(at1, p) == past;
    assert CurrentKey(at1) == Some(IntKey(1));
    assert Valid(Filtered(at1, p)) == (true, Filtered(at1, p));
    assert Next(Filtered(at1, p)) == Filtered(past, p);
    DrainPast(a, b, p);
    assert Pair(a, b)[1] == Entry(IntKey(1), b);
    assert Current(ArrayIt(Pair(a, b), 1)) == b;
    assert Current(at1) == b;
    assert Current(Filtered(at1, p)) == b && CurrentKey(Filtered(at1, p)) == Some(IntKey(1));
    assert Drain(Filtered(at1, p)) == [Entry(IntKey(1), b)] + Drain(Filtered(past, p));
  }

  /** wrap([])->appendIterator([4, 5])->filter($v > 0) yields only 5: the 4 is skipped untested. */
  lemma FilterOverAppendSkipsElement()
    ensures Yield(FilterOverAppend([], [Int(4), Int(5)], Positive))
         == [Entry(IntKey(0), Int(4)), Entry(IntKey(1), Int(5))]
    ensures Elements(FilterOverAppend([], [Int(4), Int(5)], Positive))
         == [Entry(IntKey(1), Int(5))]
  {
    FilterOverEmptyAppend(Int(4), Int(5), Positive);
    assert FilterEntries(Positive, Pair(Int(4), Int(5))) == Pair(Int(4), Int(5));
    SkipOverBoundary(Int(4), Int(5), Positive);
    DrainLast(Int(4), Int(5), Positive);
  }

  /** With an empty first side and `p(null)`, the construction leaves the append on its first side. */
  lemma DrainAdmitsHead(a: Value, b: Value, p: Value -> bool)
    requires p(Null) && !p(b)
    ensures Drain(Filtered(Probe(Appended(Basic(ArrayIt([], 0)), ArrayIt(Pair(a, b), 0), true), p), p))
         == [Entry(IntKey(0), a)]
  {
    var e := Basic(ArrayIt([], 0));
    var start := Appended(e, ArrayIt(Pair(a, b), 0), true);
    assert Current(start) == Null;
    assert Probe(start, p) == start;
    var at0 := Appended(e, ArrayIt(Pair(a, b), 0), false);
    assert Valid(start) == (true, at0);
    assert Valid(Filtered(start, p)) == (true, Filtered(at0, p));
    assert Current(at0) == a && CurrentKey(at0) == Some(IntKey(0));
    var at1 := Appended(e, ArrayIt(Pair(a, b), 1), false);
    var past := Appended(e, ArrayIt(Pair(a, b), 2), false);
    assert Valid(at0) == (true, at0);
    assert Next(at0) == at1;
    assert Current(at1) == b;
    assert Valid(at1) == (true, at1);
    assert Next(at1) == past;
    assert Current(past) == Null;
    assert SkipLoop(at1, p) == past;
    assert SkipLoop(at0, p) == past;
    assert Next(Filtered(at0, p)) == Filtered(past, p);
    DrainPast(a, b, p);
  }

  /** wrap([])->appendIterator([5, 6])->filter($v < 5) yields 5, which the predicate rejects. */
  lemma FilterOverAppendAdmitsMismatch()
    ensures Yield(FilterOverAppend([], [Int(5), Int(6)], BelowFive)) == []
    ensures Elements(FilterOverAppend([], [Int(5), Int(6)], BelowFive)) == [Entry(IntKey(0), Int(5))]
  {
    FilterOverEmptyAppend(Int(5), Int(6), BelowFive);
    assert FilterEntries(BelowFive, Pair(Int(5), Int(6))) == [];
    DrainAdmitsHead(Int(5), Int(6), BelowFive);
  }

  /**
   * The corrected skip loop asks the inner cursor `valid()` before reading its
   * `current()`: `while (valid()) { next(); if (valid() && p(current())) break; }`.
   */
  function CheckedSkip(c: Cursor, p: Value -> bool): (r: Cursor)
    ensures Remaining(r) <= Remaining(c)
    decreases Remaining(c)
  {
    var (more, c1) := Valid(c);
    if !more then c1
    else
      var (more2, c2) := Valid(Next(c1));
      if !more2 || p(Current(c2)) then c2 else CheckedSkip(c2, p)
  }

  /** The corrected look-ahead: `if (valid() && !p(current())) next();`. */
  function CheckedProbe(c: Cursor, p: Value -> bool): Cursor {
    var (more, c1) := Valid(c);
    if !more || p(Current(c1)) then c1 else CheckedSkip(c1, p)
  }

  /** What the corrected filter stage visits from inner state `c` (its current element already tested). */
  function CheckedFilterDrain(c: Cursor, p: Value -> bool): seq<Entry>
    decreases Remaining(c)
  {
    var (more, c1) := Valid(c);
    if !more then []
    else [Entry(CurrentKey(c1).value, Current(c1))] + CheckedFilterDrain(CheckedSkip(c1, p), p)
  }

  /** The corrected filter visits exactly the matching inner entries over every cursor, appended ones included. */
  lemma CheckedFilterMatches(c: Cursor, p: Value -> bool)
    ensures CheckedFilterDrain(CheckedProbe(c, p), p) == FilterEntries(p, Drain(c))
  {
    DrainAfterValid(c);
    var (more, c1) := Valid(c);
    ValidIdempotent(c);
    if more {
      var e := Entry(CurrentKey(c1).value, Current(c1));
      assert Drain(c1) == [e] + Drain(Next(c1));
      FilterEntriesCons(p, e, Drain(Next(c1)));
      if p(Current(c1)) {
        CheckedDrainMatching(c1, p);
      } else {
        CheckedSkipDrain(c1, p);
      }
    }
  }

  /** From a valid inner state whose current element matches, the corrected stage visits the matches. */
  lemma {:induction false} CheckedDrainMatching(x: Cursor, p: Value -> bool)
    requires Live(x) && p(Current(x))
    ensures CheckedFilterDrain(x, p) == FilterEntries(p, Drain(x))
    decreases Remaining(x), 1
  {
    var e := Entry(CurrentKey(x).value, Current(x));
    assert Drain(x) == [e] + Drain(Next(x));
    FilterEntriesCons(p, e, Drain(Next(x)));
    CheckedSkipDrain(x, p);
  }

  /** The corrected skip loop from a valid state leads to the matches after the current element. */
  lemma {:induction false} CheckedSkipDrain(x: Cursor, p: Value -> bool)
    requires Live(x)
    ensures CheckedFilterDrain(CheckedSkip(x, p), p) == FilterEntries(p, Drain(Next(x)))
    decreases Remaining(x), 0
  {
    var n := Next(x);
    DrainAfterValid(n);
    ValidIdempotent(n);
    var (more2, x2) := Valid(n);
    if more2 {
      var e := Entry(CurrentKey(x2).value, Current(x2));
      assert Drain(x2) == [e] + Drain(Next(x2));
      FilterEntriesCons(p, e, Drain(Next(x2)));
      if p(Current(x2)) {
        CheckedDrainMatching(x2, p);
      } else {
        CheckedSkipDrain(x2, p);
      }
    }
  }

  // ---------------------------------------------------------------------------------
  // Finding 2: limit(n) does not limit. LimitedEloquentIterator::next never advances
  // $index, so `valid()` only compares 0 with maxSize.
  // ---------------------------------------------------------------------------------

  /** wrap([1, 2, 3])->limit(1) still yields all three elements. */
  lemma LimitDoesNotTruncate()
    ensures |Elements(Limited(Basic(ArrayIt(ListOf([Int(1), Int(2), Int(3)]), 0)), 1, 0))| == 3
  {
    var es := ListOf([Int(1), Int(2), Int(3)]);
    LimitElements(Basic(ArrayIt(es, 0)), 1, 0);
    WrapElements(es, 0);
  }

  /** What a limit stage whose `next()` also does `$this->index++` visits from state (`c`, `index`). */
  function CountedDrain(c: Cursor, maxSize: int, index: int): seq<Entry>
    decreases Remaining(c)
  {
    if index < maxSize then
      var (more, c1) := Valid(c);
      if !more then []
      else [Entry(CurrentKey(c1).value, Current(c1))] + CountedDrain(Next(c1), maxSize, index + 1)
    else []
  }

  function Min(a: int, b: int): int { if a < b then a else b }

  /** The corrected limit stage visits the first `maxSize - index` inner entries, or all if there are fewer. */
  lemma {:induction false} CountedLimitTruncates(c: Cursor, maxSize: int, index: int)
    ensures var d := Drain(c);
      CountedDrain(c, maxSize, index) == d[..Min(if index < maxSize then maxSize - index else 0, |d|)]
    decreases Remaining(c)
  {
    if index < maxSize {
      var (more, c1) := Valid(c);
      if more {
        var e := Entry(CurrentKey(c1).value, Current(c1));
        assert Drain(c) == [e] + Drain(Next(c1));
        CountedLimitTruncates(Next(c1), maxSize, index + 1);
      }
    }
  }

  /** So after rewind, the corrected `limit(n)` yields `min(n, size)` elements. */
  lemma CountedLimitSize(c: Cursor, n: int)
    ensures |CountedDrain(Rewind(c), n, 0)| == Min(if 0 < n then n else 0, |Elements(c)|)
  {
    CountedLimitTruncates(Rewind(c), n, 0);
  }
}

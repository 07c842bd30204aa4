/**
 * The iterator objects of a pipeline, one class per PHP class of src/Collect/Impl plus
 * PHP's own ArrayIterator. Every object owns the objects it wraps (its `Repr`), and its
 * ghost `Model()` is the `CursorModel.Cursor` of the whole sub-pipeline. Each protocol
 * method is proved to move the model exactly as the function of the same name in
 * `CursorModel` says, so every property proved there holds of these objects.
 *
 * PHP dispatches `rewind / valid / current / key / next` on the run-time class of the
 * wrapped `Iterator`; here the datatype `Iter` names which class an inner object has.
 */
module Adapters {
  import opened Php
  import CursorModel

  /** An iterator object of one of the classes below. */
  datatype Iter =
    | OfArray(source: ArrayIterator)
    | OfBasic(basic: BasicEloquentIterable)
    | OfFiltered(filtered: FilteredEloquentIterable)
    | OfTransform(transform: TransformEloquentIterable)
    | OfLimited(limited: LimitedEloquentIterator)
    | OfAppended(appended: AppendedEloquentIterable)

  /** The objects `it` owns: itself and everything it wraps. */
  ghost function ReprOf(it: Iter): set<object> {
    match it
    case OfArray(a) => a.Repr
    case OfBasic(b) => b.Repr
    case OfFiltered(f) => f.Repr
    case OfTransform(t) => t.Repr
    case OfLimited(l) => l.Repr
    case OfAppended(ap) => ap.Repr
  }

  ghost predicate InvOf(it: Iter)
    decreases ReprOf(it), 1
  {
    match it
    case OfArray(a) => a.Invariant()
    case OfBasic(b) => b.Invariant()
    case OfFiltered(f) => f.Invariant()
    case OfTransform(t) => t.Invariant()
    case OfLimited(l) => l.Invariant()
    case OfAppended(ap) => ap.Invariant()
  }

  /** The cursor state of the pipeline `it` heads. */
  ghost function ModelOf(it: Iter): CursorModel.Cursor
    reads ReprOf(it)
    requires InvOf(it)
    decreases ReprOf(it), 1
  {
    match it
    case OfArray(a) => a.Model()
    case OfBasic(b) => b.Model()
    case OfFiltered(f) => f.Model()
    case OfTransform(t) => t.Model()
    case OfLimited(l) => l.Model()
    case OfAppended(ap) => ap.Model()
  }

  /** `$it->rewind()`. */
  method RewindOf(it: Iter)
    requires InvOf(it)
    modifies ReprOf(it)
    ensures ModelOf(it) == CursorModel.Rewind(old(ModelOf(it)))
    decreases ReprOf(it), 2
  {
    match it
    case OfArray(a) => a.Rewind();
    case OfBasic(b) => b.Rewind();
    case OfFiltered(f) => f.Rewind();
    case OfTransform(t) => t.Rewind();
    case OfLimited(l) => l.Rewind();
    case OfAppended(ap) => ap.Rewind();
  }

  /** `$it->valid()`: the answer, and the new state (only an append stage changes here). */
  method ValidOf(it: Iter) returns (more: bool)
    requires InvOf(it)
    modifies ReprOf(it)
    ensures (more, ModelOf(it)) == CursorModel.Valid(old(ModelOf(it)))
    decreases ReprOf(it), 2
  {
    match it
    case OfArray(a) => more := a.Valid();
    case OfBasic(b) => more := b.Valid();
    case OfFiltered(f) => more := f.Valid();
    case OfTransform(t) => more := t.Valid();
    case OfLimited(l) => more := l.Valid();
    case OfAppended(ap) => more := ap.Valid();
  }

  /** `$it->next()`. */
  method NextOf(it: Iter)
    requires InvOf(it)
    modifies ReprOf(it)
    ensures ModelOf(it) == CursorModel.Next(old(ModelOf(it)))
    decreases ReprOf(it), 2
  {
    match it
    case OfArray(a) => a.Next();
    case OfBasic(b) => b.Next();
    case OfFiltered(f) => f.Next();
    case OfTransform(t) => t.Next();
    case OfLimited(l) => l.Next();
    case OfAppended(ap) => ap.Next();
  }

  /** `$it->current()`. */
  function CurrentOf(it: Iter): (v: Value)
    reads ReprOf(it)
    requires InvOf(it)
    ensures v == CursorModel.Current(ModelOf(it))
    decreases ReprOf(it), 1
  {
    match it
    case OfArray(a) => a.Current()
    case OfBasic(b) => b.Current()
    case OfFiltered(f) => f.Current()
    case OfTransform(t) => t.Current()
    case OfLimited(l) => l.Current()
    case OfAppended(ap) => ap.Current()
  }

  /** `$it->key()`; None is PHP's null key past the end. */
  function CurrentKeyOf(it: Iter): (k: Option<Key>)
    reads ReprOf(it)
    requires InvOf(it)
    ensures k == CursorModel.CurrentKey(ModelOf(it))
    decreases ReprOf(it), 1
  {
    match it
    case OfArray(a) => a.CurrentKey()
    case OfBasic(b) => b.CurrentKey()
    case OfFiltered(f) => f.CurrentKey()
    case OfTransform(t) => t.CurrentKey()
    case OfLimited(l) => l.CurrentKey()
    case OfAppended(ap) => ap.CurrentKey()
  }

  /** PHP's ArrayIterator over a copy of an array: its entries and a position in them. */
  class ArrayIterator {
    const entries: seq<Entry>
    var pos: nat
    ghost const Repr: set<object>

    ghost predicate Invariant() {
      Repr == {this}
    }

    ghost function Model(): CursorModel.Cursor
      reads Repr
      requires Invariant()
    {
      CursorModel.ArrayIt(entries, pos)
    }

    constructor (entries: seq<Entry>)
      ensures Invariant() && fresh(Repr)
      ensures Model() == CursorModel.ArrayIt(entries, 0)
    {
      this.entries := entries;
      pos := 0;
      Repr := {this};
    }

    method Rewind()
      requires Invariant()
      modifies Repr
      ensures Model() == CursorModel.Rewind(old(Model()))
    {
      pos := 0;
    }

    /** An array iterator is valid while its position is inside the array. */
    method Valid() returns (more: bool)
      requires Invariant()
      ensures more <==> pos < |entries|
      ensures (more, Model()) == CursorModel.Valid(Model())
    {
      more := pos < |entries|;
    }

    /** Moves one entry on; past the end it stays where it is. */
    method Next()
      requires Invariant()
      modifies Repr
      ensures pos == if old(pos) < |entries| then old(pos) + 1 else old(pos)
      ensures Model() == CursorModel.Next(old(Model()))
    {
      if pos < |entries| {
        pos := pos + 1;
      }
    }

    /** The value at the position, or null past the end. */
    function Current(): (v: Value)
      reads Repr
      requires Invariant()
      ensures v == CursorModel.Current(Model())
      ensures pos < |entries| ==> v == entries[pos].value
      ensures pos >= |entries| ==> v == Null
    {
      if pos < |entries| then entries[pos].value else Null
    }

    /** The key at the position, or null past the end. */
    function CurrentKey(): (k: Option<Key>)
      reads Repr
      requires Invariant()
      ensures k == CursorModel.CurrentKey(Model())
      ensures k.Some? <==> pos < |entries|
      ensures k.Some? ==> k.value == entries[pos].key
    {
      if pos < |entries| then Some(entries[pos].key) else None
    }
  }

  /** BasicEloquentIterable: forwards every call to the iterator it wraps. */
  class BasicEloquentIterable {
    const iterable: Iter
    ghost const Repr: set<object>

    ghost predicate Invariant()
      decreases Repr, 0
    {
      this in Repr && ReprOf(iterable) <= Repr && this !in ReprOf(iterable) && InvOf(iterable)
    }

    ghost function Model(): CursorModel.Cursor
      reads Repr
      requires Invariant()
      decreases Repr, 0
    {
      CursorModel.Basic(ModelOf(iterable))
    }

    constructor (iterable: Iter)
      requires InvOf(iterable)
      ensures Invariant() && this.iterable == iterable
      ensures Repr == {this} + ReprOf(iterable)
      ensures Model() == CursorModel.Basic(ModelOf(iterable))
    {
      this.iterable := iterable;
      Repr := {this} + ReprOf(iterable);
    }

    method Rewind()
      requires Invariant()
      modifies Repr
      ensures Model() == CursorModel.Rewind(old(Model()))
      decreases Repr, 0
    {
      RewindOf(iterable);
    }

    method Valid() returns (more: bool)
      requires Invariant()
      modifies Repr
      ensures (more, Model()) == CursorModel.Valid(old(Model()))
      decreases Repr, 0
    {
      more := ValidOf(iterable);
    }

    method Next()
      requires Invariant()
      modifies Repr
      ensures Model() == CursorModel.Next(old(Model()))
      decreases Repr, 0
    {
      NextOf(iterable);
    }

    function Current(): (v: Value)
      reads Repr
      requires Invariant()
      ensures v == CursorModel.Current(Model())
      decreases Repr, 0
    {
      CurrentOf(iterable)
    }

    function CurrentKey(): (k: Option<Key>)
      reads Repr
      requires Invariant()
      ensures k == CursorModel.CurrentKey(Model())
      decreases Repr, 0
    {
      CurrentKeyOf(iterable)
    }
  }

  /**
   * FilteredEloquentIterable: keeps its inner cursor on a matching element. The
   * constructor and `rewind` test the inner `current()` once and skip ahead if it fails;
   * `next` steps the inner cursor until its `current()` matches or it is exhausted.
   */
  class FilteredEloquentIterable {
    const iter: Iter
    const pred: Value -> bool
    ghost const Repr: set<object>

    ghost predicate Invariant()
      decreases Repr, 0
    {
      this in Repr && ReprOf(iter) <= Repr && this !in ReprOf(iter) && InvOf(iter)
    }

    ghost function Model(): CursorModel.Cursor
      reads Repr
      requires Invariant()
      decreases Repr, 0
    {
      CursorModel.Filtered(ModelOf(iter), pred)
    }

    /** Probes from the inner cursor's current position, without rewinding it first. */
    constructor (iter: Iter, pred: Value -> bool)
      requires InvOf(iter)
      modifies ReprOf(iter)
      ensures Invariant() && this.iter == iter && this.pred == pred
      ensures Repr == {this} + ReprOf(iter)
      ensures Model() == CursorModel.Filtered(CursorModel.Probe(old(ModelOf(iter)), pred), pred)
    {
      this.iter := iter;
      this.pred := pred;
      Repr := {this} + ReprOf(iter);
      new;
      if !pred(CurrentOf(iter)) {
        Next();
      }
    }

    method Rewind()
      requires Invariant()
      modifies Repr
      ensures Model() == CursorModel.Rewind(old(Model()))
      decreases Repr, 1
    {
      RewindOf(iter);
      if !pred(CurrentOf(iter)) {
        Next();
      }
    }

    method Valid() returns (more: bool)
      requires Invariant()
      modifies Repr
      ensures (more, Model()) == CursorModel.Valid(old(Model()))
      decreases Repr, 0
    {
      more := ValidOf(iter);
    }

    /** The skip loop: while the inner cursor is valid, step it and stop on a match. */
    method Next()
      requires Invariant()
      modifies Repr
      ensures Model() == CursorModel.Next(old(Model()))
      decreases Repr, 0
    {
      ghost var target := CursorModel.SkipLoop(ModelOf(iter), pred);
      while true
        invariant InvOf(iter)
        invariant CursorModel.SkipLoop(ModelOf(iter), pred) == target
        decreases CursorModel.Remaining(ModelOf(iter))
      {
        var more := ValidOf(iter);
        if !more {
          break;
        }
        NextOf(iter);
        if pred(CurrentOf(iter)) {
          break;
        }
      }
    }

    function Current(): (v: Value)
      reads Repr
      requires Invariant()
      ensures v == CursorModel.Current(Model())
      decreases Repr, 0
    {
      CurrentOf(iter)
    }

    function CurrentKey(): (k: Option<Key>)
      reads Repr
      requires Invariant()
      ensures k == CursorModel.CurrentKey(Model())
      decreases Repr, 0
    {
      CurrentKeyOf(iter)
    }
  }

  /** TransformEloquentIterable: applies its closure to the inner `current()` on every call. */
  class TransformEloquentIterable {
    const iter: Iter
    const transformation: Value -> Value
    ghost const Repr: set<object>

    ghost predicate Invariant()
      decreases Repr, 0
    {
      this in Repr && ReprOf(iter) <= Repr && this !in ReprOf(iter) && InvOf(iter)
    }

    ghost function Model(): CursorModel.Cursor
      reads Repr
      requires Invariant()
      decreases Repr, 0
    {
      CursorModel.Transform(ModelOf(iter), transformation)
    }

    constructor (iter: Iter, transformation: Value -> Value)
      requires InvOf(iter)
      ensures Invariant() && this.iter == iter
      ensures Repr == {this} + ReprOf(iter)
      ensures Model() == CursorModel.Transform(ModelOf(iter), transformation)
    {
      this.iter := iter;
      this.transformation := transformation;
      Repr := {this} + ReprOf(iter);
    }

    method Rewind()
      requires Invariant()
      modifies Repr
      ensures Model() == CursorModel.Rewind(old(Model()))
      decreases Repr, 0
    {
      RewindOf(iter);
    }

    method Valid() returns (more: bool)
      requires Invariant()
      modifies Repr
      ensures (more, Model()) == CursorModel.Valid(old(Model()))
      decreases Repr, 0
    {
      more := ValidOf(iter);
    }

    method Next()
      requires Invariant()
      modifies Repr
      ensures Model() == CursorModel.Next(old(Model()))
      decreases Repr, 0
    {
      NextOf(iter);
    }

    function Current(): (v: Value)
      reads Repr
      requires Invariant()
      ensures v == CursorModel.Current(Model())
      ensures v == transformation(CurrentOf(iter))
      decreases Repr, 0
    {
      transformation(CurrentOf(iter))
    }

    function CurrentKey(): (k: Option<Key>)
      reads Repr
      requires Invariant()
      ensures k == CursorModel.CurrentKey(Model())
      decreases Repr, 0
    {
      CurrentKeyOf(iter)
    }
  }

  /**
   * LimitedEloquentIterator: `valid()` is `index < maxSize && inner.valid()`; `rewind`
   * resets `index` to 0 and `next` leaves it alone.
   */
  class LimitedEloquentIterator {
    const iter: Iter
    const maxSize: int
    var index: int
    ghost const Repr: set<object>

    ghost predicate Invariant()
      decreases Repr, 0
    {
      this in Repr && ReprOf(iter) <= Repr && this !in ReprOf(iter) && InvOf(iter)
    }

    ghost function Model(): CursorModel.Cursor
      reads Repr
      requires Invariant()
      decreases Repr, 0
    {
      CursorModel.Limited(ModelOf(iter), maxSize, index)
    }

    /** Any `maxSize` is accepted, negative ones included. */
    constructor (iter: Iter, maxSize: int)
      requires InvOf(iter)
      ensures Invariant() && this.iter == iter
      ensures Repr == {this} + ReprOf(iter)
      ensures Model() == CursorModel.Limited(ModelOf(iter), maxSize, 0)
    {
      this.iter := iter;
      this.maxSize := maxSize;
      index := 0;
      Repr := {this} + ReprOf(iter);
    }

    method Rewind()
      requires Invariant()
      modifies Repr
      ensures index == 0
      ensures Model() == CursorModel.Rewind(old(Model()))
      decreases Repr, 0
    {
      RewindOf(iter);
      index := 0;
    }

    method Valid() returns (more: bool)
      requires Invariant()
      modifies Repr
      ensures index == old(index)
      ensures (more, Model()) == CursorModel.Valid(old(Model()))
      decreases Repr, 0
    {
      if index < maxSize {
        more := ValidOf(iter);
      } else {
        more := false;
      }
    }

    method Next()
      requires Invariant()
      modifies Repr
      ensures index == old(index)
      ensures Model() == CursorModel.Next(old(Model()))
      decreases Repr, 0
    {
      NextOf(iter);
    }

    function Current(): (v: Value)
      reads Repr
      requires Invariant()
      ensures v == CursorModel.Current(Model())
      decreases Repr, 0
    {
      CurrentOf(iter)
    }

    function CurrentKey(): (k: Option<Key>)
      reads Repr
      requires Invariant()
      ensures k == CursorModel.CurrentKey(Model())
      decreases Repr, 0
    {
      CurrentKeyOf(iter)
    }
  }

  /**
   * AppendedEloquentIterable: reads from `first` while `onFirst`, then from `second`.
   * The flag is cleared inside `valid()` once `first` is exhausted and set again only
   * by `rewind`. The two sides are distinct objects (see README).
   */
  class AppendedEloquentIterable {
    const first: Iter
    const second: Iter
    var onFirst: bool
    ghost const Repr: set<object>

    ghost predicate Invariant()
      decreases Repr, 0
    {
      && this in Repr
      && ReprOf(first) <= Repr && this !in ReprOf(first)
      && ReprOf(second) <= Repr && this !in ReprOf(second)
      && ReprOf(first) !! ReprOf(second)
      && InvOf(first) && InvOf(second)
    }

    ghost function Model(): CursorModel.Cursor
      reads Repr
      requires Invariant()
      decreases Repr, 0
    {
      CursorModel.Appended(ModelOf(first), ModelOf(second), onFirst)
    }

    constructor (first: Iter, second: Iter)
      requires InvOf(first) && InvOf(second)
      requires ReprOf(first) !! ReprOf(second)
      ensures Invariant() && this.first == first && this.second == second && onFirst
      ensures Repr == {this} + ReprOf(first) + ReprOf(second)
      ensures Model() == CursorModel.Appended(ModelOf(first), ModelOf(second), true)
    {
      this.first := first;
      this.second := second;
      onFirst := true;
      Repr := {this} + ReprOf(first) + ReprOf(second);
    }

    method Rewind()
      requires Invariant()
      modifies Repr
      ensures onFirst
      ensures Model() == CursorModel.Rewind(old(Model()))
      decreases Repr, 0
    {
      RewindOf(first);
      RewindOf(second);
      onFirst := true;
    }

    method Valid() returns (more: bool)
      requires Invariant()
      modifies Repr
      ensures (more, Model()) == CursorModel.Valid(old(Model()))
      decreases Repr, 0
    {
      if onFirst {
        var onA := ValidOf(first);
        if onA {
          more := true;
        } else {
          onFirst := false;
          more := ValidOf(second);
        }
      } else {
        more := ValidOf(second);
      }
    }

    method Next()
      requires Invariant()
      modifies Repr
      ensures onFirst == old(onFirst)
      ensures Model() == CursorModel.Next(old(Model()))
      decreases Repr, 0
    {
      if onFirst {
        NextOf(first);
      } else {
        NextOf(second);
      }
    }

    function Current(): (v: Value)
      reads Repr
      requires Invariant()
      ensures v == CursorModel.Current(Model())
      decreases Repr, 0
    {
      if onFirst then CurrentOf(first) else CurrentOf(second)
    }

    function CurrentKey(): (k: Option<Key>)
      reads Repr
      requires Invariant()
      ensures k == CursorModel.CurrentKey(Model())
      decreases Repr, 0
    {
      if onFirst then CurrentKeyOf(first) else CurrentKeyOf(second)
    }
  }
}

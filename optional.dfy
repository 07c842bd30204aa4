/**
 * src/Optional/Optional.php: an immutable box that either holds a non-null value or is
 * absent. The only ways to build one are `of`, `fromNullable` and `absent`.
 */
module Optionals {
  import opened Php
  import Preconditions

  datatype Optional = Absent | Present(value: Value)

  /** What every Optional the class can build satisfies: a present value is never null. */
  predicate WellFormed(o: Optional) {
    o.Present? ==> o.value != Null
  }

  const GetCalledOnAbsent := "Get called on absent Optional"

  /** `Optional::of`: present with `reference`, or a NullPointer for null. */
  function Of(reference: Value): (r: Result<Optional>)
    ensures reference != Null ==> r == Ok(Present(reference))
    ensures reference == Null ==> r == Err(NullPointer(Preconditions.NullReferenceGiven))
    ensures r.Ok? ==> WellFormed(r.value)
  {
    match Preconditions.CheckNotNull(reference, None)
    case Ok(v) => Ok(Present(v))
    case Err(e) => Err(e)
  }

  /** `Optional::fromNullable`: absent for null, otherwise what `of` builds. */
  function FromNullable(reference: Value): (o: Optional)
    ensures WellFormed(o)
    ensures o.Present? <==> reference != Null
    ensures reference != Null ==> Of(reference) == Ok(o)
  {
    if reference == Null then Absent else Of(reference).value
  }

  function IsPresent(o: Optional): (b: bool)
    ensures b <==> o != Absent
  {
    o.Present?
  }

  /** `get()`: the value, or an IllegalState for an absent Optional. */
  function Get(o: Optional): (r: Result<Value>)
    ensures r.Ok? <==> IsPresent(o)
    ensures r.Ok? ==> o == Present(r.value)
    ensures r.Err? ==> r.error == IllegalState(GetCalledOnAbsent)
  {
    if o.Present? then Ok(o.value) else Err(IllegalState(GetCalledOnAbsent))
  }

  /** `getOrNull()`: the value, or null for an absent Optional. */
  function GetOrNull(o: Optional): (v: Value)
    ensures WellFormed(o) ==> (v == Null <==> o == Absent)
    ensures o.Present? ==> v == o.value
  {
    if o.Present? then o.value else Null
  }

  /**
   * `getOrElse($d)`: checks `$d` against null first, even when the Optional is present,
   * then returns the value or `$d`.
   */
  function GetOrElse(o: Optional, defaultValue: Value): (r: Result<Value>)
    ensures r.Err? <==> defaultValue == Null
    ensures r.Err? ==> r.error == NullPointer(Preconditions.NullReferenceGiven)
    ensures r.Ok? ==> r.value == if o.Present? then o.value else defaultValue
  {
    match Preconditions.CheckNotNull(defaultValue, None)
    case Err(e) => Err(e)
    case Ok(_) => if o.Present? then Ok(o.value) else Ok(defaultValue)
  }

  /** `of` followed by `get` gives back the value. */
  lemma OfThenGet(x: Value)
    requires x != Null
    ensures Of(x).Ok? && Get(Of(x).value) == Ok(x)
  {
  }

  /** `fromNullable` and `getOrNull` are inverse: null is exactly the absent Optional. */
  lemma NullableRoundTrip(v: Value, o: Optional)
    requires WellFormed(o)
    ensures GetOrNull(FromNullable(v)) == v
    ensures FromNullable(GetOrNull(o)) == o
  {
  }

  /** On a present Optional, `getOrElse` with a non-null default agrees with `get`. */
  lemma GetOrElseAgreesWithGet(o: Optional, d: Value)
    requires d != Null
    ensures GetOrElse(o, d) == if IsPresent(o) then Get(o) else Ok(d)
  {
  }
}

/**
 * The three argument checks of src/Preconditions/Preconditions.php. Each either passes
 * or throws one exception, with the caller's message or, when the caller passes null,
 * a default one. They differ in what counts as failing: `checkArgument` only rejects
 * the boolean `false` (`=== false`), `checkState` rejects every falsy value (`!$e`),
 * and `checkNotNull` only rejects null.
 */
module Preconditions {
  import opened Php

  const NullReferenceGiven := "Null reference given"
  const IllegalArgumentReceived := "Illegal argument received"

  /** The outcome of a check that returns nothing. */
  datatype Outcome = Pass | Fail(error: Error)

  /** The caller's message, or the default when the caller passed null (None). */
  function OrDefaultMessage(errorMessage: Option<string>, defaultMessage: string): (m: string)
    ensures errorMessage.Some? ==> m == errorMessage.value
    ensures errorMessage.None? ==> m == defaultMessage
  {
    if errorMessage.None? then defaultMessage else errorMessage.value
  }

  /** Fails with IllegalArgument exactly when `expression` is the boolean false. */
  function CheckArgument(expression: Value, errorMessage: Option<string>): (r: Outcome)
    ensures r.Fail? <==> expression == Bool(false)
    ensures r.Fail? ==> r.error == IllegalArgument(OrDefaultMessage(errorMessage, IllegalArgumentReceived))
  {
    var message := OrDefaultMessage(errorMessage, IllegalArgumentReceived);
    if expression == Bool(false) then Fail(IllegalArgument(message)) else Pass
  }

  /** Returns `reference` itself unless it is null, which fails with NullPointer. */
  function CheckNotNull(reference: Value, errorMessage: Option<string>): (r: Result<Value>)
    ensures r.Ok? <==> reference != Null
    ensures r.Ok? ==> r.value == reference
    ensures r.Err? ==> r.error == NullPointer(OrDefaultMessage(errorMessage, NullReferenceGiven))
  {
    var message := OrDefaultMessage(errorMessage, NullReferenceGiven);
    if reference == Null then Err(NullPointer(message)) else Ok(reference)
  }

  /** Fails with IllegalState exactly when `expression` is falsy. */
  function CheckState(expression: Value, errorMessage: Option<string>): (r: Outcome)
    ensures r.Fail? <==> !Truthy(expression)
    ensures r.Fail? ==> r.error == IllegalState(OrDefaultMessage(errorMessage, IllegalArgumentReceived))
  {
    var message := OrDefaultMessage(errorMessage, IllegalArgumentReceived);
    if !Truthy(expression) then Fail(IllegalState(message)) else Pass
  }

  /**
   * `checkState` is strictly stricter than `checkArgument`: whatever `checkArgument`
   * rejects `checkState` rejects too, but 0, "", "0", [] and null pass `checkArgument`
   * and fail `checkState`.
   */
  lemma StateStricterThanArgument(e: Value, m: Option<string>)
    ensures CheckArgument(e, m).Fail? ==> CheckState(e, m).Fail?
    ensures !Truthy(e) && e != Bool(false) ==> CheckArgument(e, m).Pass? && CheckState(e, m).Fail?
  {
  }

  /** The falsy values other than null pass `checkNotNull` unchanged. */
  lemma FalsyValuesAreNotNull(m: Option<string>)
    ensures CheckNotNull(Int(0), m) == Ok(Int(0))
    ensures CheckNotNull(Bool(false), m) == Ok(Bool(false))
    ensures CheckNotNull(Str(""), m) == Ok(Str(""))
  {
  }
}

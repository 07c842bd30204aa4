/** src/Util/Objects.php. */
module Objects {
  import opened Php

  const NoNonNullReferences := "No non null references passed in"

  /**
   * `Objects::firstNonNull(...$args)`: the first argument that is not null, or a
   * NullPointer when there is none (no arguments at all included).
   */
  function FirstNonNull(args: seq<Value>): (r: Result<Value>)
    ensures r.Ok? <==> exists i :: 0 <= i < |args| && args[i] != Null
    ensures r.Ok? ==> exists k :: 0 <= k < |args| && args[k] == r.value && r.value != Null
                                   && forall j :: 0 <= j < k ==> args[j] == Null
    ensures r.Err? ==> r.error == NullPointer(NoNonNullReferences)
  {
    if args == [] then Err(NullPointer(NoNonNullReferences))
    else if args[0] != Null then Ok(args[0])
    else
      var r := FirstNonNull(args[1..]);
      assert forall i :: 1 <= i < |args| ==> args[i] == args[1..][i - 1];
      r
  }
}

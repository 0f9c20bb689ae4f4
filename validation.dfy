/** The request validators: each `check(field, message).not().isEmpty()`
    rejects a field that is absent or an empty string, and the handler answers
    with the collected messages before touching the store. Only the field as
    it arrives in the request body is consulted. */
module Validation {
  import opened Js

  /** One required-field check: the field's value and the message it reports. */
  datatype Check = Check(value: Option<string>, message: string)

  /** The messages of the failing checks, in the order the checks are listed.
      For a field that is absent or a string, "empty" is exactly "not truthy". */
  function Errors(checks: seq<Check>): (r: seq<string>)
    ensures |r| <= |checks|
    ensures r == [] <==> forall i :: 0 <= i < |checks| ==> Truthy(checks[i].value)
    ensures forall i :: 0 <= i < |checks| && !Truthy(checks[i].value) ==> checks[i].message in r
    ensures forall m :: m in r ==>
      exists i :: 0 <= i < |checks| && !Truthy(checks[i].value) && checks[i].message == m
  {
    if checks == [] then []
    else
      var rest := Errors(checks[1..]);
      assert forall i :: 1 <= i < |checks| ==> checks[i] == checks[1..][i - 1];
      if Truthy(checks[0].value) then rest else [checks[0].message] + rest
  }
}

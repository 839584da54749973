/** internal/util/simple_validator.go: the full-scan `strongPassword` loop
    and the message list of `ValidateStruct`. The recognisers, the tag
    messages and the field map it shares with validator.go are in module
    Validation. */
module SimpleValidator {
  import opened Wrappers
  import opened Validation

  /** `strongPassword`: scans every rune setting one flag per class, then
      requires all four. */
  method StrongPassword(password: string) returns (ok: bool)
    ensures ok == IsStrong(password)
  {
    var hasUpper, hasLower, hasNumber, hasSpecial := false, false, false, false;
    for i := 0 to |password|
      invariant hasUpper == exists j :: 0 <= j < i && KindOf(password[j]) == Upper
      invariant hasLower == exists j :: 0 <= j < i && KindOf(password[j]) == Lower
      invariant hasNumber == exists j :: 0 <= j < i && KindOf(password[j]) == Number
      invariant hasSpecial == exists j :: 0 <= j < i && KindOf(password[j]) == Special
    {
      match KindOf(password[i]) {
        case Upper => hasUpper := true;
        case Lower => hasLower := true;
        case Number => hasNumber := true;
        case Special => hasSpecial := true;
        case Plain =>
      }
    }
    ok := hasUpper && hasLower && hasNumber && hasSpecial;
  }

  /** `ValidateStruct`: nil when valid; the error text alone for an error
      that is not `ValidationErrors`; otherwise one `field message` per
      field error, in the library's order, appended to a nil slice (which
      stays nil when the list is empty). */
  method ValidateStruct(check: Check) returns (r: Option<seq<string>>)
    ensures check.Passed? ==> r.None?
    ensures check.Broken? ==> r == Some([check.message])
    ensures check.Invalid? ==> (r.None? <==> check.errs == [])
    ensures check.Invalid? && r.Some? ==>
      |r.value| == |check.errs| &&
      forall i :: 0 <= i < |check.errs| ==> r.value[i] == FieldMessage(check.errs[i])
  {
    match check
    case Passed =>
      r := None;
    case Broken(message) =>
      r := Some([message]);
    case Invalid(errs) =>
      var messages: Option<seq<string>> := None;
      for i := 0 to |errs|
        invariant i == 0 <==> messages.None?
        invariant messages.Some? ==>
          |messages.value| == i &&
          forall k :: 0 <= k < i ==> messages.value[k] == FieldMessage(errs[k])
      {
        var sofar := if messages.None? then [] else messages.value;
        messages := Some(sofar + [FieldMessage(errs[i])]);
      }
      r := messages;
  }
}

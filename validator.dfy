/** internal/util/validator.go: the early-exit `strongPassword` loop. The
    recognisers, the tag messages and the field map it shares with
    simple_validator.go are in module Validation. */
module Validator {
  import opened Validation

  /** `strongPassword`: scans the runes setting one flag per class, and
      returns true as soon as all four are set. */
  method StrongPassword(password: string) returns (ok: bool)
    ensures ok == IsStrong(password)
  {
    var hasUpper, hasLower, hasNumber, hasSpecial := false, false, false, false;
    var i := 0;
    while i < |password|
      invariant 0 <= i <= |password|
      invariant hasUpper == exists j :: 0 <= j < i && KindOf(password[j]) == Upper
      invariant hasLower == exists j :: 0 <= j < i && KindOf(password[j]) == Lower
      invariant hasNumber == exists j :: 0 <= j < i && KindOf(password[j]) == Number
      invariant hasSpecial == exists j :: 0 <= j < i && KindOf(password[j]) == Special
    {
      match KindOf(password[i]) {
        case Upper => hasUpper := true;
        case Lower => hasLower := true;
        case Number => hasNumber := true;
        case Special => hasSpecial := true;
        case Plain =>
      }
      if hasUpper && hasLower && hasNumber && hasSpecial {
        return true;
      }
      i := i + 1;
    }
    return hasUpper && hasLower && hasNumber && hasSpecial;
  }
}

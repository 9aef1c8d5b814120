/** The password checks shared by the sign-up and reset-password forms:
    the two entries must match, and then be at least six characters long.
    Length counts Dafny characters (Unicode scalar values). */
module PasswordRules {
  import opened Oracle

  const MinPasswordLength := 6
  const MismatchError := "Passwords do not match"
  const LengthError := "Password must be at least 6 characters long"

  /** The first failing check's message, or None when both pass. */
  function PasswordError(password: string, confirm: string): (r: Option<string>)
    ensures r.None? <==> password == confirm && |password| >= MinPasswordLength
    ensures password != confirm ==> r == Some(MismatchError)
    ensures password == confirm && |password| < MinPasswordLength ==> r == Some(LengthError)
  {
    if password != confirm then Some(MismatchError)
    else if |password| < MinPasswordLength then Some(LengthError)
    else None
  }

  /** The mismatch is reported first: a short pair that does not match
      gets the mismatch message, never the length message. */
  lemma MismatchReportedFirst(password: string, confirm: string)
    requires |password| < MinPasswordLength && password != confirm
    ensures PasswordError(password, confirm) == Some(MismatchError)
    ensures PasswordError(password, confirm) != Some(LengthError)
  {
  }
}

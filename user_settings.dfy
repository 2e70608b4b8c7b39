/**
 * The account settings form: the new password and its confirmation, checked before
 * the (not yet implemented) update is reported as done.
 */
module UserSettings {
  import opened Common
  import opened Notices

  /** Why a password change is refused. */
  datatype PasswordProblem = Mismatch | TooShort

  const MinPasswordLength := 6

  /** The checks of `handlePasswordChange`, in order: the two entries must agree, then be at least six characters long. */
  function PasswordCheck(newPassword: string, confirmPassword: string): (r: Option<PasswordProblem>)
    ensures r == Some(Mismatch) <==> newPassword != confirmPassword
    ensures r == Some(TooShort) <==> newPassword == confirmPassword && |newPassword| < MinPasswordLength
    ensures r.None? <==> newPassword == confirmPassword && |newPassword| >= MinPasswordLength
  {
    if newPassword != confirmPassword then Some(Mismatch)
    else if |newPassword| < MinPasswordLength then Some(TooShort)
    else None
  }

  function ProblemToast(p: PasswordProblem): Toast {
    match p
    case Mismatch => ErrorToast("Passwords do not match", "")
    case TooShort => ErrorToast("Password must be at least 6 characters", "")
  }

  const UpdatedToast := InfoToast("Your account has been updated", "")

  /** A mismatch is reported even when the new password is also too short. */
  lemma MismatchFirst()
    ensures PasswordCheck("abc", "abd") == Some(Mismatch)
    ensures PasswordCheck("abcdef", "abcdef").None?
  {
  }

  class UserSettingsForm {
    var newPassword: string
    var confirmPassword: string
    var isSubmitting: bool
    var toasts: seq<Toast>

    constructor ()
      ensures newPassword == "" && confirmPassword == "" && !isSubmitting && toasts == []
    {
      newPassword := "";
      confirmPassword := "";
      isSubmitting := false;
      toasts := [];
    }

    method SetNewPassword(input: string)
      modifies this
      ensures newPassword == input
      ensures confirmPassword == old(confirmPassword) && isSubmitting == old(isSubmitting) && toasts == old(toasts)
    {
      newPassword := input;
    }

    method SetConfirmPassword(input: string)
      modifies this
      ensures confirmPassword == input
      ensures newPassword == old(newPassword) && isSubmitting == old(isSubmitting) && toasts == old(toasts)
    {
      confirmPassword := input;
    }

    /**
     * `handlePasswordChange`: a refused change only raises its toast and returns before
     * `isSubmitting` is set; an accepted one reports success, clears both entries and
     * ends with `isSubmitting` false.
     */
    method HandlePasswordChange()
      modifies this
      ensures var problem := PasswordCheck(old(newPassword), old(confirmPassword));
        && (problem.Some? ==>
              && toasts == old(toasts) + [ProblemToast(problem.value)]
              && newPassword == old(newPassword) && confirmPassword == old(confirmPassword)
              && isSubmitting == old(isSubmitting))
        && (problem.None? ==>
              && toasts == old(toasts) + [UpdatedToast]
              && newPassword == "" && confirmPassword == "" && !isSubmitting)
    {
      var problem := PasswordCheck(newPassword, confirmPassword);
      if problem.Some? {
        toasts := toasts + [ProblemToast(problem.value)];
        return;
      }
      isSubmitting := true;
      toasts := toasts + [UpdatedToast];
      newPassword := "";
      confirmPassword := "";
      isSubmitting := false;
    }
  }
}

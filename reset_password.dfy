/** The ResetPassword screen: three password fields, the error object
    `validateForm` fills in, and the request it allows. */
module ResetPassword {
  import opened Outcomes
  import opened JsString

  /** The keys of the `errors` object. */
  datatype Field = CurrentPassword | NewPassword | ConfirmPassword

  const CurrentRequired := "Current password is required"
  const NewRequired := "New password is required"
  const NewTooShort := "Password must be at least 8 characters long"
  const ConfirmRequired := "Please confirm your new password"
  const Mismatch := "Passwords do not match"

  /** The body of `POST /auth/reset-password`: the passwords as typed. */
  datatype ResetBody = ResetBody(currentPassword: string, newPassword: string)

  const ResetFallback := "Failed to reset password. Please try again."
  const ResetDone := Alert("Success", "Password updated successfully")

  /** The fields `validateForm` accepts: exactly those for which the request
      is well formed, with a non-blank current password, a new password of
      at least eight characters, and a matching confirmation. */
  predicate Acceptable(current: string, next: string, confirm: string) {
    !IsBlank(current) && !IsBlank(next) && |next| >= 8 && confirm == next
  }

  /** The error object `validateForm` builds: one entry per failing field,
      blankness checked on the trimmed text, the length and the match on the
      text as typed. No key is set exactly when the fields are acceptable. */
  function ResetErrors(current: string, next: string, confirm: string): (e: map<Field, string>)
    ensures e.Keys <= {CurrentPassword, NewPassword, ConfirmPassword}
    ensures CurrentPassword in e <==> IsBlank(current)
    ensures CurrentPassword in e ==> e[CurrentPassword] == CurrentRequired
    ensures NewPassword in e <==> IsBlank(next) || |next| < 8
    ensures NewPassword in e ==> e[NewPassword] == (if IsBlank(next) then NewRequired else NewTooShort)
    ensures ConfirmPassword in e <==> IsBlank(confirm) || confirm != next
    ensures ConfirmPassword in e ==> e[ConfirmPassword] == (if IsBlank(confirm) then ConfirmRequired else Mismatch)
    ensures e.Keys == {} <==> Acceptable(current, next, confirm)
  {
    var withCurrent := if IsBlank(current) then map[CurrentPassword := CurrentRequired] else map[];
    var withNext :=
      if IsBlank(next) then withCurrent[NewPassword := NewRequired]
      else if |next| < 8 then withCurrent[NewPassword := NewTooShort]
      else withCurrent;
    if IsBlank(confirm) then withNext[ConfirmPassword := ConfirmRequired]
    else if confirm != next then withNext[ConfirmPassword := Mismatch]
    else withNext
  }

  /** The form's state. */
  class PasswordForm {
    var currentPassword: string
    var newPassword: string
    var confirmPassword: string
    var errors: map<Field, string>

    constructor()
      ensures currentPassword == "" && newPassword == "" && confirmPassword == "" && errors == map[]
    {
      currentPassword, newPassword, confirmPassword := "", "", "";
      errors := map[];
    }

    /** `validateForm`: a fresh error object with one entry per failing
      field; blankness is checked on the trimmed text, the length and the
      match on the text as typed. The form is valid when no key is set. */
    method ValidateForm() returns (isValid: bool)
      modifies this
      ensures currentPassword == old(currentPassword) && newPassword == old(newPassword)
      ensures confirmPassword == old(confirmPassword)
      ensures errors == ResetErrors(currentPassword, newPassword, confirmPassword)
      ensures isValid <==> errors.Keys == {}
      ensures isValid <==> Acceptable(currentPassword, newPassword, confirmPassword)
    {
      var newErrors: map<Field, string> := map[];
      if IsBlank(currentPassword) {
        newErrors := newErrors[CurrentPassword := CurrentRequired];
      }
      if IsBlank(newPassword) {
        newErrors := newErrors[NewPassword := NewRequired];
      } else if |newPassword| < 8 {
        newErrors := newErrors[NewPassword := NewTooShort];
      }
      if IsBlank(confirmPassword) {
        newErrors := newErrors[ConfirmPassword := ConfirmRequired];
      } else if confirmPassword != newPassword {
        newErrors := newErrors[ConfirmPassword := Mismatch];
      }
      errors := newErrors;
      isValid := newErrors.Keys == {};
    }

    /** `handleResetPassword`: nothing is sent unless the form is valid;
      `posted` is the POST's outcome through `handleApiResponse`. */
    method HandleResetPassword(posted: Result<()>) returns (request: Option<ResetBody>, alert: Option<Alert>)
      modifies this
      ensures currentPassword == old(currentPassword) && newPassword == old(newPassword)
      ensures confirmPassword == old(confirmPassword)
      ensures errors == ResetErrors(currentPassword, newPassword, confirmPassword)
      ensures request.Some? <==> errors.Keys == {}
      ensures request.Some? <==> Acceptable(currentPassword, newPassword, confirmPassword)
      ensures request.Some? ==> request.value == ResetBody(currentPassword, newPassword)
      ensures request.None? ==> alert.None?
      ensures request.Some? ==> alert == Some(if posted.Ok? then ResetDone else Alert("Error", OrElse(posted.message, ResetFallback)))
    {
      var ok := ValidateForm();
      if !ok {
        return None, None;
      }
      request := Some(ResetBody(currentPassword, newPassword));
      if posted.Ok? {
        alert := Some(ResetDone);
      } else {
        alert := Some(Alert("Error", OrElse(posted.message, ResetFallback)));
      }
    }
  }
}

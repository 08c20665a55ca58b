/**
  The signup form's client-side validation: one message per failing field,
  the email and password each giving their first failing rule, and the
  confirmation checked on its own.
*/
module SignupPage {
  import opened Wrappers
  import opened Text
  import opened Patterns

  datatype Form = Form(email: string, password: string, confirmPassword: string)

  /** The error record: a message under each failing field's key, no key otherwise. */
  datatype Errors = Errors(email: Option<string>, password: Option<string>, confirmPassword: Option<string>)

  const NoErrors := Errors(None, None, None)

  const PasswordRequired := "Password is required"
  const PasswordTooShort := "Password must be at least 8 characters"
  const PasswordsDiffer := "Passwords do not match"

  /** The password field's message: required when empty, otherwise too short under 8 characters. */
  function PasswordFieldError(password: string): Option<string> {
    if password == [] then Some(PasswordRequired)
    else if |password| < 8 then Some(PasswordTooShort)
    else None
  }

  /** The confirmation's message: given whenever it differs from the password. */
  function ConfirmFieldError(f: Form): Option<string> {
    if f.password != f.confirmPassword then Some(PasswordsDiffer) else None
  }

  /** Fills the error record field by field and clears the validity flag on each failure. */
  method ValidateForm(f: Form) returns (isValid: bool, errors: Errors)
    ensures errors.email == EmailFieldError(f.email)
    ensures errors.password == PasswordFieldError(f.password)
    ensures errors.confirmPassword == ConfirmFieldError(f)
    ensures isValid <==> errors == NoErrors
  {
    errors := NoErrors;
    isValid := true;

    if Trim(f.email) == [] {
      errors := errors.(email := Some(EmailRequired));
      isValid := false;
    } else if !EmailShaped(f.email) {
      errors := errors.(email := Some(EmailInvalid));
      isValid := false;
    }

    if f.password == [] {
      errors := errors.(password := Some(PasswordRequired));
      isValid := false;
    } else if |f.password| < 8 {
      errors := errors.(password := Some(PasswordTooShort));
      isValid := false;
    }

    if f.password != f.confirmPassword {
      errors := errors.(confirmPassword := Some(PasswordsDiffer));
      isValid := false;
    }
  }

  // ---- properties ----

  /** Each password message is given exactly in its case. */
  lemma PasswordFieldMessages(password: string)
    ensures PasswordFieldError(password) == Some(PasswordRequired) <==> password == []
    ensures PasswordFieldError(password) == Some(PasswordTooShort) <==> 0 < |password| < 8
    ensures PasswordFieldError(password).None? <==> |password| >= 8
  {
  }

  /** The form is valid exactly for an accepted address, a long enough password and a matching confirmation. */
  lemma ValidExactly(f: Form)
    ensures EmailFieldError(f.email).None? && PasswordFieldError(f.password).None? && ConfirmFieldError(f).None?
      <==> EmailShaped(f.email) && |f.password| >= 8 && f.password == f.confirmPassword
  {
    assert EmailFieldError(f.email).None? == EmailShaped(f.email) by {
      EmailFieldMessages(f.email);
    }
    assert PasswordFieldError(f.password).None? == (|f.password| >= 8);
    assert ConfirmFieldError(f).None? == (f.password == f.confirmPassword);
  }
}

/**
  The login form: client-side validation, where each field reports only its
  first failing rule, and the page the user is sent to after signing in.
*/
module LoginPage {
  import opened Wrappers
  import opened Text
  import opened Patterns
  import Middleware

  datatype Errors = Errors(email: Option<string>, password: Option<string>)

  const NoErrors := Errors(None, None)

  const PasswordRequired := "Password is required"
  const PasswordTooShort := "Password must be at least 8 characters"
  const NeedsUpper := "Password must contain at least one uppercase letter"
  const NeedsDigit := "Password must contain at least one number"

  /** The password rules, in the order they are tried; the first that fails gives the message. */
  function PasswordFieldError(password: string): Option<string> {
    if password == [] then Some(PasswordRequired)
    else if |password| < 8 then Some(PasswordTooShort)
    else if !HasUpper(password) then Some(NeedsUpper)
    else if !HasDigit(password) then Some(NeedsDigit)
    else None
  }

  /** Records at most one message per field and clears the validity flag on each failure. */
  method ValidateForm(email: string, password: string) returns (isValid: bool, errors: Errors)
    ensures errors.email == EmailFieldError(email)
    ensures errors.password == PasswordFieldError(password)
    ensures isValid <==> errors == NoErrors
  {
    errors := NoErrors;
    isValid := true;

    if Trim(email) == [] {
      errors := errors.(email := Some(EmailRequired));
      isValid := false;
    } else if !EmailShaped(email) {
      errors := errors.(email := Some(EmailInvalid));
      isValid := false;
    }

    if password == [] {
      errors := errors.(password := Some(PasswordRequired));
      isValid := false;
    } else if |password| < 8 {
      errors := errors.(password := Some(PasswordTooShort));
      isValid := false;
    } else if !HasUpper(password) {
      errors := errors.(password := Some(NeedsUpper));
      isValid := false;
    } else if !HasDigit(password) {
      errors := errors.(password := Some(NeedsDigit));
      isValid := false;
    }
  }

  /** After signing in: the `redirect` query parameter when non-empty, otherwise the generator page. */
  function RedirectTarget(redirectParam: Option<string>): (r: string)
    ensures r != []
  {
    if redirectParam.Some? && redirectParam.value != "" then redirectParam.value else "/generate"
  }

  // ---- properties ----

  /** The password is accepted exactly when it has 8 characters or more, an upper-case letter and a digit. */
  lemma PasswordAccepted(password: string)
    ensures PasswordFieldError(password).None? <==> |password| >= 8 && HasUpper(password) && HasDigit(password)
  {
  }

  /** The rules are tried in order: a later message is given only when every earlier rule holds. */
  lemma PasswordRuleOrder(password: string)
    ensures PasswordFieldError(password) == Some(PasswordTooShort) ==> password != []
    ensures PasswordFieldError(password) == Some(NeedsUpper) ==> |password| >= 8
    ensures PasswordFieldError(password) == Some(NeedsDigit) ==> |password| >= 8 && HasUpper(password)
  {
  }

  /** A short password gets the length message even when it also lacks a capital and a digit. */
  lemma ShortReportedFirst(password: string)
    requires 0 < |password| < 8
    ensures PasswordFieldError(password) == Some(PasswordTooShort)
  {
  }

  /** The form is valid exactly for an accepted address and a password that passes every rule. */
  lemma ValidExactly(email: string, password: string)
    ensures EmailFieldError(email).None? && PasswordFieldError(password).None?
      <==> EmailShaped(email) && |password| >= 8 && HasUpper(password) && HasDigit(password)
  {
    EmailFieldMessages(email);
  }

  /** Without a usable parameter the user lands on the generator page. */
  lemma DefaultTarget(redirectParam: Option<string>)
    requires redirectParam.None? || redirectParam.value == ""
    ensures RedirectTarget(redirectParam) == "/generate"
  {
  }

  /**
    A guest sent to the login page from a guarded page returns to that page
    after signing in, and with a token that page then passes the guard. (A
    URL's path is never empty: it is at least "/".)
  */
  lemma ReturnsToGuardedPage(pathname: string, token: string)
    requires pathname != "" && pathname !in Middleware.PublicPaths && token != ""
    ensures Middleware.Decide(None, pathname).Redirect?
    ensures RedirectTarget(Middleware.Decide(None, pathname).redirectParam) == pathname
    ensures Middleware.Decide(Some(token), RedirectTarget(Middleware.Decide(None, pathname).redirectParam)) == Middleware.Next
  {
  }
}

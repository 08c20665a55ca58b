/**
  The regular expressions the forms and the signup route test, each stated
  as the set of strings it accepts.
*/
module Patterns {
  import opened Wrappers
  import opened Text

  /** A character allowed by `[^\s@]`. */
  predicate EmailChar(c: char) {
    !IsSpace(c) && c != '@'
  }

  predicate AllEmailChars(s: string) {
    forall k :: 0 <= k < |s| ==> EmailChar(s[k])
  }

  /**
    `/^[^\s@]+@[^\s@]+\.[^\s@]+$/`: a non-empty local part, '@', a non-empty
    part, '.', a non-empty part, none of them holding white space or '@'.
    The parts after '@' may hold further dots: `i` is the '@', `j` some dot.
  */
  predicate EmailShaped(s: string) {
    exists i, j :: 0 < i && i + 1 < j && j + 1 < |s| && s[i] == '@' && s[j] == '.'
      && AllEmailChars(s[..i]) && AllEmailChars(s[i + 1..j]) && AllEmailChars(s[j + 1..])
  }

  predicate HasLower(s: string) {
    exists k :: 0 <= k < |s| && 'a' <= s[k] <= 'z'
  }

  /** `/[A-Z]/`. */
  predicate HasUpper(s: string) {
    exists k :: 0 <= k < |s| && 'A' <= s[k] <= 'Z'
  }

  /** `/[0-9]/`, and `\d`. */
  predicate HasDigit(s: string) {
    exists k :: 0 <= k < |s| && '0' <= s[k] <= '9'
  }

  predicate NoLineTerminator(s: string) {
    forall k :: 0 <= k < |s| ==> !IsLineTerminator(s[k])
  }

  /**
    `/^(?=.*[a-z])(?=.*[A-Z])(?=.*\d).{8,}$/`: `.` does not match a line
    terminator, so the whole string is at least 8 characters without one, and
    each look-ahead finds its class somewhere in it.
  */
  predicate StrongPassword(s: string) {
    |s| >= 8 && NoLineTerminator(s) && HasLower(s) && HasUpper(s) && HasDigit(s)
  }

  // ---- properties ----

  /** Any three non-empty parts without white space or '@' form an accepted address. */
  lemma EmailFromParts(a: string, b: string, c: string)
    requires a != [] && b != [] && c != []
    requires AllEmailChars(a) && AllEmailChars(b) && AllEmailChars(c)
    ensures EmailShaped(a + "@" + b + "." + c)
  {
    var s := a + "@" + b + "." + c;
    var i, j := |a|, |a| + 1 + |b|;
    assert s[i] == '@' && s[j] == '.';
    assert s[..i] == a;
    assert s[i + 1..j] == b;
    assert s[j + 1..] == c;
  }

  /** An accepted address holds no white space and exactly one '@'. */
  lemma EmailShapedChars(s: string)
    ensures EmailShaped(s) ==> forall k :: 0 <= k < |s| ==> !IsSpace(s[k])
    ensures EmailShaped(s) ==>
      exists i :: 0 <= i < |s| && s[i] == '@' && forall k :: 0 <= k < |s| && s[k] == '@' ==> k == i
  {
    if EmailShaped(s) {
      var i, j :| 0 < i && i + 1 < j && j + 1 < |s| && s[i] == '@' && s[j] == '.'
        && AllEmailChars(s[..i]) && AllEmailChars(s[i + 1..j]) && AllEmailChars(s[j + 1..]);
      forall k | 0 <= k < |s|
        ensures !IsSpace(s[k]) && (s[k] == '@' ==> k == i)
      {
        if k < i {
          assert s[k] == s[..i][k];
        } else if i < k < j {
          assert s[k] == s[i + 1..j][k - i - 1];
        } else if j < k {
          assert s[k] == s[j + 1..][k - j - 1];
        }
      }
    }
  }

  /** An address with white space around it is rejected, though it trims to a non-empty string. */
  lemma PaddedEmailRejected(w: char, s: string)
    requires IsSpace(w)
    ensures !EmailShaped([w] + s) && !EmailShaped(s + [w])
  {
    assert ([w] + s)[0] == w;
    assert (s + [w])[|s|] == w;
    EmailShapedChars([w] + s);
    EmailShapedChars(s + [w]);
  }

  /** An accepted address is never blank, so it passes the "required" test first. */
  lemma EmailShapedNotBlank(s: string)
    requires EmailShaped(s)
    ensures Trim(s) != []
  {
    EmailShapedChars(s);
    TrimEmpty(s);
    assert !IsSpace(s[0]);
  }

  /** A password with a line break is never strong, even if long enough and mixed. */
  lemma LineBreakNotStrong(a: string, b: string)
    ensures !StrongPassword(a + "\n" + b)
  {
    assert (a + "\n" + b)[|a|] == '\n';
  }

  // ---- the email field check shared by the signup and login forms ----

  const EmailRequired := "Email is required"
  const EmailInvalid := "Please enter a valid email"

  /**
    The email field's message: required when blank after trimming, otherwise
    invalid when the untrimmed text fails the pattern.
  */
  function EmailFieldError(email: string): Option<string> {
    if Trim(email) == [] then Some(EmailRequired)
    else if !EmailShaped(email) then Some(EmailInvalid)
    else None
  }

  /** Each email message is given exactly in its case, and none exactly for accepted addresses. */
  lemma EmailFieldMessages(email: string)
    ensures EmailFieldError(email) == Some(EmailRequired) <==> AllSpace(email)
    ensures EmailFieldError(email) == Some(EmailInvalid) <==> !AllSpace(email) && !EmailShaped(email)
    ensures EmailFieldError(email).None? <==> EmailShaped(email)
  {
    TrimEmpty(email);
    if EmailShaped(email) {
      EmailShapedNotBlank(email);
    }
  }

  /** An address with white space in front is not blank, so it gets the "valid email" message. */
  lemma PaddedEmailInvalid(w: char, email: string)
    requires IsSpace(w) && EmailShaped(email)
    ensures EmailFieldError([w] + email) == Some(EmailInvalid)
  {
    PaddedEmailRejected(w, email);
    EmailFieldMessages([w] + email);
    EmailShapedChars(email);
    assert ([w] + email)[1] == email[0];
    assert !IsSpace(([w] + email)[1]);
  }
}

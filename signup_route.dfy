/**
  The signup endpoint: a chain of guards with early returns, then the
  duplicate-email check and the insert. The user collection is modelled as
  the set of registered email addresses; password hashing is not modelled.
  The user schema trims and lower-cases the address, both when it is saved
  and when it is looked up.
*/
module SignupRoute {
  import opened Wrappers
  import opened Text
  import opened Patterns

  /** The three fields of the request body. */
  datatype Body = Body(email: string, password: string, confirmPassword: string)

  /** Why a request is refused. */
  datatype Failure =
    | MissingField
    | InvalidEmail
    | WeakPassword
    | TooShort
    | Mismatch
    | AlreadyRegistered
    | ServerError

  datatype Response = Rejected(failure: Failure) | Created(id: string, email: string)

  /** The response and the registered addresses after the request. */
  datatype Outcome = Outcome(response: Response, registered: set<string>)

  function Status(r: Response): (code: nat)
    ensures code == 201 <==> r.Created?
    ensures code == 500 <==> r == Rejected(ServerError)
  {
    match r
    case Created(_, _) => 201
    case Rejected(ServerError) => 500
    case Rejected(_) => 400
  }

  function Message(f: Failure): string {
    match f
    case MissingField => "All fields are required"
    case InvalidEmail => "Invalid email address"
    case WeakPassword =>
      "Password must contain at least one uppercase letter, "
      + "one lowercase letter, and one digit"
    case TooShort => "Password must be at least 8 characters long"
    case Mismatch => "Passwords do not match"
    case AlreadyRegistered => "This email is already registered"
    case ServerError => "Server error occurred"
  }

  /** The address as the user schema stores and queries it: trimmed, then lower-cased. */
  function StoredEmail(email: string): string {
    ToLower(Trim(email))
  }

  /**
    Handles a request; `None` is a body that is not JSON (the parse throws and
    the error handler answers 500); `newId` is the id the database assigns.
  */
  function Post(body: Option<Body>, registered: set<string>, newId: string): Outcome {
    if body.None? then Outcome(Rejected(ServerError), registered)
    else
      var b := body.value;
      if b.email == "" || b.password == "" || b.confirmPassword == "" then Outcome(Rejected(MissingField), registered)
      else if !EmailShaped(b.email) then Outcome(Rejected(InvalidEmail), registered)
      else if !StrongPassword(b.password) then Outcome(Rejected(WeakPassword), registered)
      else if |b.password| < 8 then Outcome(Rejected(TooShort), registered)
      else if b.password != b.confirmPassword then Outcome(Rejected(Mismatch), registered)
      else
        var email := StoredEmail(b.email);
        if email in registered then Outcome(Rejected(AlreadyRegistered), registered)
        else Outcome(Created(newId, email), registered + {email})
  }

  // ---- properties ----

  /** A request is accepted exactly when every check passes and the address is new. */
  lemma CreatedExactly(body: Option<Body>, registered: set<string>, newId: string)
    ensures Post(body, registered, newId).response.Created? <==>
      && body.Some?
      && EmailShaped(body.value.email)
      && StrongPassword(body.value.password)
      && body.value.password == body.value.confirmPassword
      && StoredEmail(body.value.email) !in registered
  {
  }

  /**
    A success registers exactly the new address, in its stored form, and
    answers only the new id and that address.
  */
  lemma CreatedRegistersEmail(b: Body, registered: set<string>, newId: string)
    requires Post(Some(b), registered, newId).response.Created?
    ensures Post(Some(b), registered, newId).registered == registered + {StoredEmail(b.email)}
    ensures Post(Some(b), registered, newId).response == Created(newId, StoredEmail(b.email))
    ensures StoredEmail(b.email) !in registered
  {
  }

  /** An accepted address has no white space to trim, so it is stored lower-cased and otherwise as given. */
  lemma AcceptedEmailLowercased(email: string)
    requires EmailShaped(email)
    ensures StoredEmail(email) == ToLower(email)
    ensures |StoredEmail(email)| == |email|
  {
    EmailShapedChars(email);
    assert TrimStart(email) == email;
    assert TrimEnd(email) == email;
  }

  /**
    Addresses that differ only in the case of their letters are one account:
    after one of them signs up, the other is refused as already registered.
  */
  lemma CaseVariantRefused(b: Body, b2: Body, registered: set<string>, id1: string, id2: string)
    requires Post(Some(b), registered, id1).response.Created?
    requires Post(Some(b2), registered, id2).response.Created?
    requires ToLower(b2.email) == ToLower(b.email)
    ensures Post(Some(b2), Post(Some(b), registered, id1).registered, id2)
         == Outcome(Rejected(AlreadyRegistered), registered + {StoredEmail(b.email)})
  {
    CreatedExactly(Some(b), registered, id1);
    CreatedExactly(Some(b2), registered, id2);
    AcceptedEmailLowercased(b.email);
    AcceptedEmailLowercased(b2.email);
    CreatedRegistersEmail(b, registered, id1);
    RegisteredRefused(b2, registered, registered + {StoredEmail(b.email)}, id2, id2);
  }

  /**
    A request that would have been accepted is refused as a duplicate, with
    nothing registered, once its stored address is taken.
  */
  lemma RegisteredRefused(b: Body, registered: set<string>, taken: set<string>, id1: string, id2: string)
    requires Post(Some(b), registered, id1).response.Created?
    requires StoredEmail(b.email) in taken
    ensures Post(Some(b), taken, id2) == Outcome(Rejected(AlreadyRegistered), taken)
  {
  }

  /** A refused request registers nothing. */
  lemma RejectedChangesNothing(body: Option<Body>, registered: set<string>, newId: string)
    requires Post(body, registered, newId).response.Rejected?
    ensures Post(body, registered, newId).registered == registered
  {
  }

  /** The empty-field check comes first: it wins over every other failure. */
  lemma MissingFieldFirst(b: Body, registered: set<string>, newId: string)
    requires b.email == "" || b.password == "" || b.confirmPassword == ""
    ensures Post(Some(b), registered, newId) == Outcome(Rejected(MissingField), registered)
  {
  }

  /** The length check is dead: the password pattern already demands 8 characters. */
  lemma LengthCheckUnreachable(body: Option<Body>, registered: set<string>, newId: string)
    ensures Post(body, registered, newId).response != Rejected(TooShort)
  {
  }

  /** A mismatch is reported only for an accepted address and a strong password. */
  lemma MismatchAfterFormat(b: Body, registered: set<string>, newId: string)
    ensures Post(Some(b), registered, newId).response == Rejected(Mismatch) <==>
      && b.email != "" && b.confirmPassword != ""
      && EmailShaped(b.email) && StrongPassword(b.password)
      && b.password != b.confirmPassword
  {
  }

  /** The same request sent again after a success is refused as a duplicate. */
  lemma SecondSignupRefused(b: Body, registered: set<string>, id1: string, id2: string)
    requires Post(Some(b), registered, id1).response.Created?
    ensures Post(Some(b), Post(Some(b), registered, id1).registered, id2)
         == Outcome(Rejected(AlreadyRegistered), registered + {StoredEmail(b.email)})
  {
  }

  /** Every refusal but the server error answers 400. */
  lemma ClientErrorsAre400(f: Failure)
    requires f != ServerError
    ensures Status(Rejected(f)) == 400
  {
  }
}

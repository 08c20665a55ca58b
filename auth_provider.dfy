/**
  The client-side auth state: a login that looks the address up in the user
  list saved in browser storage, and a logout. The cookie is modelled by the
  address it records.
*/
module AuthProvider {
  import opened Wrappers
  import opened Json

  datatype StoredUser = StoredUser(email: string, password: string)

  /** User `i` is the first with the address. */
  predicate FirstMatch(users: seq<StoredUser>, email: string, i: int) {
    0 <= i < |users| && users[i].email == email && forall j :: 0 <= j < i ==> users[j].email != email
  }

  /** `users.find(u => u.email === email)`: the first user with the address. */
  function Find(users: seq<StoredUser>, email: string): (r: Option<StoredUser>)
    ensures r.None? <==> forall i :: 0 <= i < |users| ==> users[i].email != email
    ensures r.Some? ==> exists i :: FirstMatch(users, email, i) && users[i] == r.value
  {
    if users == [] then None
    else if users[0].email == email then Some(users[0])
    else
      var r := Find(users[1..], email);
      if r.Some? then
        var i :| FirstMatch(users[1..], email, i) && users[1..][i] == r.value;
        assert FirstMatch(users, email, i + 1) && users[i + 1] == r.value;
        Some(r.value)
      else
        assert forall i :: 1 <= i < |users| ==> users[i].email == users[1..][i - 1].email;
        None
  }

  /**
    Whether a login succeeds. An empty or absent entry reads as an empty
    list; text that does not parse, or a parsed value without `find`, throws
    and the error handler answers false.
  */
  function Accepts(stored: Stored<StoredUser>, email: string, password: string): bool {
    match stored
    case Items(users) =>
      var u := Find(users, email);
      u.Some? && u.value.password == password
    case _ => false
  }

  class AuthState {
    var isAuthenticated: bool
    /** The address recorded in the `currentUser` cookie, when there is one. */
    var cookie: Option<string>

    /** On mount, signed in exactly when the cookie is there. */
    constructor(cookie: Option<string>)
      ensures this.cookie == cookie && (isAuthenticated <==> cookie.Some?)
    {
      this.cookie := cookie;
      isAuthenticated := cookie.Some?;
    }

    method Login(stored: Stored<StoredUser>, email: string, password: string) returns (ok: bool)
      modifies this
      ensures ok == Accepts(stored, email, password)
      ensures ok ==> cookie == Some(email) && isAuthenticated
      ensures !ok ==> cookie == old(cookie) && isAuthenticated == old(isAuthenticated)
    {
      if !stored.Items? {
        return false;
      }
      var user := Find(stored.items, email);
      if user.None? || user.value.password != password {
        return false;
      }
      cookie := Some(user.value.email);
      isAuthenticated := true;
      return true;
    }

    method Logout()
      modifies this
      ensures cookie.None? && !isAuthenticated
    {
      cookie := None;
      isAuthenticated := false;
    }
  }

  // ---- properties ----

  /**
    A login succeeds exactly when the first saved user with the address has
    the password given.
  */
  lemma AcceptsExactly(users: seq<StoredUser>, email: string, password: string)
    ensures Accepts(Items(users), email, password) <==>
      exists i :: FirstMatch(users, email, i) && users[i].password == password
  {
    var u := Find(users, email);
    if u.Some? {
      var k :| FirstMatch(users, email, k) && users[k] == u.value;
      forall i | FirstMatch(users, email, i)
        ensures i == k
      {
        FirstMatchUnique(users, email, i, k);
      }
    }
  }

  /** There is only one first user with an address. */
  lemma FirstMatchUnique(users: seq<StoredUser>, email: string, i: int, k: int)
    requires FirstMatch(users, email, i) && FirstMatch(users, email, k)
    ensures i == k
  {
  }

  /** A later user with the same address is never consulted. */
  lemma ShadowedUserIgnored(first: StoredUser, rest: seq<StoredUser>, password: string)
    requires first.password != password
    ensures !Accepts(Items([first] + rest), first.email, password)
  {
  }

  /** Storage that cannot be read as a list never lets anyone in. */
  lemma UnreadableStorageRefuses(stored: Stored<StoredUser>, email: string, password: string)
    requires stored.Unparsable? || stored.NotAnArray? || stored.Absent?
    ensures !Accepts(stored, email, password)
  {
  }
}

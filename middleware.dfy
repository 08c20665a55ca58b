/**
  The route guard run before every page request: signed-in users are sent
  away from the login and signup pages, guests are sent to the login page
  with the requested path remembered, and everything else passes.
*/
module Middleware {
  import opened Wrappers

  const PublicPaths := ["/login", "/signup", "/"]

  /** Pass the request on, or redirect to `to` with an optional `redirect` query parameter. */
  datatype Decision = Next | Redirect(to: string, redirectParam: Option<string>)

  /** The `auth-token` cookie is truthy: present and not empty. */
  predicate HasToken(token: Option<string>) {
    token.Some? && token.value != ""
  }

  function Decide(token: Option<string>, pathname: string): Decision {
    if HasToken(token) && pathname in PublicPaths then
      if pathname == "/" then Next else Redirect("/generate", None)
    else if !HasToken(token) && pathname !in PublicPaths then
      Redirect("/login", Some(pathname))
    else Next
  }

  // ---- properties ----

  /** A signed-in user asking for the login or signup page goes to the generator page. */
  lemma SignedInLeavesAuthPages(token: Option<string>, pathname: string)
    requires HasToken(token) && (pathname == "/login" || pathname == "/signup")
    ensures Decide(token, pathname) == Redirect("/generate", None)
  {
  }

  /** The home page always passes, with or without a token. */
  lemma RootAlwaysPasses(token: Option<string>)
    ensures Decide(token, "/") == Next
  {
  }

  /** A guest asking for any other page goes to the login page, which remembers the page. */
  lemma GuestSentToLogin(token: Option<string>, pathname: string)
    requires !HasToken(token) && pathname !in PublicPaths
    ensures Decide(token, pathname) == Redirect("/login", Some(pathname))
  {
  }

  /** A request is redirected exactly in those two cases; every other one passes. */
  lemma RedirectsExactly(token: Option<string>, pathname: string)
    ensures Decide(token, pathname).Redirect? <==>
      (HasToken(token) && (pathname == "/login" || pathname == "/signup"))
      || (!HasToken(token) && pathname !in PublicPaths)
  {
  }

  /** An empty token is no token. */
  lemma EmptyTokenIsNone(pathname: string)
    ensures Decide(Some(""), pathname) == Decide(None, pathname)
  {
  }

  /** Following a redirect with the same cookie always passes: there are no redirect loops. */
  lemma NoRedirectLoop(token: Option<string>, pathname: string)
    ensures Decide(token, pathname).Redirect? ==> Decide(token, Decide(token, pathname).to) == Next
  {
    if Decide(token, pathname).Redirect? {
      if HasToken(token) {
        assert "/generate" !in PublicPaths;
      } else {
        assert "/login" in PublicPaths;
      }
    }
  }
}

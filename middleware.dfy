/**
 * The route guard run before every matched request: signed-in users are sent from the public
 * pages to the dashboard, signed-out users from the protected pages to the login page, and
 * every other request passes through.
 */
module Middleware {
  import opened JsText

  datatype Decision = RedirectTo(path: string) | PassThrough

  /** The pages a signed-in user has no business on. */
  predicate IsEntryPage(pathname: string) {
    pathname == "/" || StartsWith(pathname, "/login") || StartsWith(pathname, "/register")
  }

  /** The pages a signed-out user may see. */
  predicate IsPublic(pathname: string) {
    pathname == "/" || StartsWith(pathname, "/login") || StartsWith(pathname, "/register") || StartsWith(pathname, "/auth")
  }

  function Route(signedIn: bool, pathname: string): (d: Decision)
    ensures d == RedirectTo("/dashboard") <==> signedIn && IsEntryPage(pathname)
    ensures d == RedirectTo("/login") <==> !signedIn && !IsPublic(pathname)
    ensures d == PassThrough <==> (signedIn && !IsEntryPage(pathname)) || (!signedIn && IsPublic(pathname))
  {
    if signedIn && IsEntryPage(pathname) then RedirectTo("/dashboard")
    else if !signedIn && !IsPublic(pathname) then RedirectTo("/login")
    else PassThrough
  }

  /** A text that differs from a prefix at some position does not start with it. */
  lemma NotPrefixAt(s: string, prefix: string, k: nat)
    requires k < |prefix| && k < |s| && s[k] != prefix[k]
    ensures !StartsWith(s, prefix)
  {
    if |prefix| <= |s| {
      assert s[..|prefix|][k] == s[k];
    }
  }

  /** Following a redirect never redirects again. */
  lemma NoRedirectLoop(signedIn: bool, pathname: string)
    ensures Route(signedIn, pathname).RedirectTo? ==> Route(signedIn, Route(signedIn, pathname).path) == PassThrough
  {
    NotPrefixAt("/dashboard", "/login", 1);
    NotPrefixAt("/dashboard", "/register", 1);
    assert StartsWith("/login", "/login");
  }

  /** A signed-out user is let through on every public page, and a signed-in user on every other page. */
  lemma PublicAndProtectedPagesPass(pathname: string)
    ensures IsPublic(pathname) ==> Route(false, pathname) == PassThrough
    ensures !IsPublic(pathname) ==> Route(true, pathname) == PassThrough
  {
  }

  /** `/auth` pages, such as the sign-in callback, pass for signed-in and signed-out users alike. */
  lemma AuthPagesPassForEveryone(signedIn: bool, rest: string)
    ensures Route(signedIn, "/auth" + rest) == PassThrough
  {
    var p := "/auth" + rest;
    assert p[..5] == "/auth";
    NotPrefixAt(p, "/login", 1);
    NotPrefixAt(p, "/register", 1);
    assert StartsWith(p, "/auth");
  }
}

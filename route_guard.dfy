/**
 * The navigation guard that runs before every route change: a signed-in user is kept away
 * from the login page, and a signed-out user may only open the pages of the white list;
 * every other page sends them to the login page with the page they wanted in the query.
 */
module RouteGuard {
  import opened Wrappers

  /** The pages open without a token. */
  const WhiteList: seq<string> := ["/login"]

  const LoginPath := "/login"
  const HomePath := "/"

  /** What the guard tells the router: go on, or go to `location` instead. */
  datatype Decision = Proceed | Redirect(location: string)

  /** A stored token counts only when it is present and not the empty string. */
  predicate HasToken(token: Option<string>) {
    token.Some? && token.value != ""
  }

  /** The location the guard sends a signed-out user to, remembering the page they wanted. */
  function LoginRedirect(path: string): string {
    LoginPath + "?redirect=" + path
  }

  /**
   * The guard's decision for a navigation to `path`.  It lets the navigation go on exactly
   * when the user has a token or the page is white-listed, but not both (a signed-in user
   * is turned away from the login page); a redirect lands on "/" or on the login page.
   */
  function Guard(token: Option<string>, path: string): (d: Decision)
    ensures d.Proceed? <==> HasToken(token) != (path in WhiteList)
    ensures d.Redirect? && HasToken(token) ==> d.location == HomePath
    ensures d.Redirect? && !HasToken(token) ==> PathOf(d.location) == LoginPath
  {
    if HasToken(token) then
      if path == LoginPath then Redirect(HomePath) else Proceed
    else if path in WhiteList then Proceed
    else
      assert '?' !in LoginPath && '#' !in LoginPath;
      QueryIsNotPath(LoginPath, "redirect=" + path);
      assert LoginRedirect(path) == LoginPath + "?" + ("redirect=" + path);
      Redirect(LoginRedirect(path))
  }

  /** The path part of a location: everything before its first '?' or '#'. */
  function PathOf(location: string): (p: string)
    ensures p <= location
  {
    if location == [] || location[0] == '?' || location[0] == '#' then []
    else [location[0]] + PathOf(location[1..])
  }

  /** A path with no '?' or '#' followed by a query is read back as that path. */
  lemma {:induction false} QueryIsNotPath(path: string, query: string)
    requires '?' !in path && '#' !in path
    ensures PathOf(path + "?" + query) == path
  {
    if path != [] {
      assert (path + "?" + query)[1..] == path[1..] + "?" + query;
      QueryIsNotPath(path[1..], query);
    }
  }

  /**
   * With the token unchanged, following a redirect of the guard always reaches a page the
   * guard lets through, so navigation never loops.
   */
  lemma NoRedirectLoop(token: Option<string>, path: string)
    ensures var d := Guard(token, path);
      d.Redirect? ==> Guard(token, PathOf(d.location)) == Proceed
  {
    var d := Guard(token, path);
    if d.Redirect? && HasToken(token) {
      assert PathOf(HomePath) == HomePath;
    }
  }

  /** An empty token is no token: the guard decides as if the user were signed out. */
  lemma EmptyTokenIsNoToken(path: string)
    ensures Guard(Some(""), path) == Guard(None, path)
  {
  }

  /** The four outcomes of the guard, one per combination of token and white list. */
  lemma GuardOutcomes(token: Option<string>, path: string)
    ensures HasToken(token) && path == LoginPath ==> Guard(token, path) == Redirect(HomePath)
    ensures HasToken(token) && path != LoginPath ==> Guard(token, path) == Proceed
    ensures !HasToken(token) && path == LoginPath ==> Guard(token, path) == Proceed
    ensures !HasToken(token) && path != LoginPath ==> Guard(token, path) == Redirect("/login?redirect=" + path)
  {
  }
}

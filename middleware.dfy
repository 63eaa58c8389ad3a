/** The route guard that runs before `/admin`, `/auth`, `/profile` and `/cart`
    pages: signed-in users are sent away from the sign-in pages, non-admins
    away from the admin pages, and anonymous visitors to the sign-in page
    when they open their profile or cart. */
module Middleware {
  import opened Domain

  predicate StartsWith(s: string, prefix: string)
  {
    |prefix| <= |s| && s[..|prefix|] == prefix
  }

  /** `NextResponse.next()` or a redirect to the given path. */
  datatype Decision = Next | Redirect(target: string)

  predicate IsAuthPath(path: string) { StartsWith(path, "/auth") }
  predicate IsAdminPath(path: string) { StartsWith(path, "/admin") }
  predicate IsProtectedPath(path: string) { StartsWith(path, "/profile") || StartsWith(path, "/cart") }

  /** The decision for a request to `path`; `token` is the role in the
      session token, `None` when there is no token. */
  function Decide(path: string, token: Option<Role>): (d: Decision)
    ensures d.Redirect? ==> d.target == "/" || d.target == "/auth/login"
    ensures d == Redirect("/") <==>
      (IsAuthPath(path) && token.Some?) || (IsAdminPath(path) && token != Some(Admin))
    ensures d == Redirect("/auth/login") <==>
      !(IsAuthPath(path) && token.Some?) && !IsAdminPath(path) && token.None? && IsProtectedPath(path)
    ensures d == Next <==>
      !(IsAuthPath(path) && token.Some?) && !(IsAdminPath(path) && token != Some(Admin))
      && !(token.None? && IsProtectedPath(path))
  {
    var isAuthenticated := token.Some?;
    var isAdmin := token == Some(Admin);
    if IsAuthPath(path) && isAuthenticated then Redirect("/")
    else if IsAdminPath(path) && !isAdmin then Redirect("/")
    else if !isAuthenticated && IsProtectedPath(path) then Redirect("/auth/login")
    else Next
  }

  /** Only an administrator reaches an admin page. */
  lemma AdminPagesNeedAdmin(path: string, token: Option<Role>)
    requires IsAdminPath(path)
    ensures Decide(path, token) == Next <==> token == Some(Admin)
  {
    assert path[2] == "/admin"[2] == 'd';
  }

  /** An anonymous visitor never reaches the profile or the cart. */
  lemma ProtectedPagesNeedSession(path: string)
    requires IsProtectedPath(path)
    ensures Decide(path, None) == Redirect("/auth/login")
  {
    assert path[1] == 'p' || path[1] == 'c';
  }

  /** Following a redirect with the same token is let through, so the guard
      never redirects twice in a row. */
  lemma RedirectTargetsAreFinal(path: string, token: Option<Role>)
    ensures var d := Decide(path, token);
      d.Redirect? ==> Decide(d.target, token) == Next
  {
    assert !IsAuthPath("/") && !IsAdminPath("/") && !IsProtectedPath("/");
    var t := "/auth/login";
    assert IsAuthPath(t) && !IsAdminPath(t) && !IsProtectedPath(t) by {
      assert t[..5] == "/auth";
      assert t[2] == 'u' && t[1] == 'a';
    }
  }
}

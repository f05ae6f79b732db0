/** The route guard of src/middleware.ts. It runs only on the paths its
    matcher lists. There, signed-out visitors of the private areas are sent
    to the sign-in page, signed-in visitors of the sign-in page are sent on
    to where they were going, and everything else passes. Whether a session
    token is present is a parameter. */
module Middleware {
  import opened Wrappers
  import opened Strings

  const SignInPath: string := "/auth/signin"
  const DashboardPath: string := "/dashboard"

  /** What the guard does with a request. */
  datatype Decision =
    | Next                              // the request proceeds unchanged
    | ToSignIn(callbackUrl: string)     // `/auth/signin?callbackUrl=...`
    | RedirectTo(url: string)           // a redirect to `url`, read against the site's origin

  predicate IsAuthPage(pathname: string) {
    StartsWith(pathname, SignInPath)
  }

  /** A plain prefix test: `/chatroom` and `/settingsx` pass it too, but
      the matcher below never hands them to the guard. */
  predicate IsProtectedRoute(pathname: string) {
    StartsWith(pathname, DashboardPath) || StartsWith(pathname, "/chat") || StartsWith(pathname, "/settings")
  }

  /** JavaScript truthiness of a query parameter: present and non-empty. */
  predicate Truthy(s: Option<string>) {
    s.Some? && s.value != ""
  }

  /** No sign-in page is a protected route, so the two redirects of the
      guard never compete. */
  lemma AuthPageNotProtected(pathname: string)
    requires IsAuthPage(pathname)
    ensures !IsProtectedRoute(pathname)
  {
    assert pathname[1] == SignInPath[1] == 'a';
  }

  /** `middleware` for a request to `pathname` with the given `callbackUrl`
      query parameter. */
  function Decide(isAuthenticated: bool, pathname: string, callbackUrl: Option<string>): (d: Decision)
    ensures d.ToSignIn? <==> IsProtectedRoute(pathname) && !isAuthenticated
    ensures d.ToSignIn? ==> d.callbackUrl == pathname
    ensures d.RedirectTo? <==> isAuthenticated && IsAuthPage(pathname)
    ensures d.RedirectTo? && Truthy(callbackUrl) && callbackUrl.value != SignInPath ==>
              d.url == callbackUrl.value
    ensures d.RedirectTo? && !(Truthy(callbackUrl) && callbackUrl.value != SignInPath) ==>
              d.url == DashboardPath
    ensures d.Next? <==> (isAuthenticated || !IsProtectedRoute(pathname)) && !(isAuthenticated && IsAuthPage(pathname))
    ensures d.RedirectTo? ==> d.url != SignInPath
  {
    if IsProtectedRoute(pathname) && !isAuthenticated then
      ToSignIn(pathname)
    else if isAuthenticated && IsAuthPage(pathname) then
      if Truthy(callbackUrl) && callbackUrl.value != SignInPath then RedirectTo(callbackUrl.value)
      else RedirectTo(DashboardPath)
    else
      Next
  }

  /** A signed-out visitor is never sent anywhere but the sign-in page,
      a signed-in visitor never gets the `ToSignIn` decision, and a
      redirect target is never the bare sign-in path. A `callbackUrl` such
      as `/auth/signin?x=1` still sends a signed-in visitor back to the
      sign-in page, which then sends them on to the dashboard. */
  lemma NoRedirectLoop(pathname: string, callbackUrl: Option<string>)
    ensures !Decide(false, pathname, callbackUrl).RedirectTo?
    ensures !Decide(true, pathname, callbackUrl).ToSignIn?
    ensures IsAuthPage(pathname) ==> Decide(false, pathname, callbackUrl) == Next
    ensures Decide(true, pathname, callbackUrl).RedirectTo? ==> Decide(true, pathname, callbackUrl).url != SignInPath
  {
    if IsAuthPage(pathname) {
      AuthPageNotProtected(pathname);
    }
  }

  /** `pathname` is `base` itself or lies below it: the paths a matcher
      entry `base/:path*` selects. */
  predicate Below(pathname: string, base: string) {
    pathname == base || StartsWith(pathname, base + "/")
  }

  /** `config.matcher`: the only paths on which the guard runs. */
  predicate Matched(pathname: string) {
    Below(pathname, DashboardPath) || Below(pathname, "/chat") || Below(pathname, "/settings")
    || pathname == SignInPath || Below(pathname, "/api/chat")
  }

  /** The whole middleware: a path outside the matcher passes untouched,
      one inside it gets the guard's decision. */
  function Guard(isAuthenticated: bool, pathname: string, callbackUrl: Option<string>): (d: Decision)
    ensures d.ToSignIn? <==> Matched(pathname) && IsProtectedRoute(pathname) && !isAuthenticated
    ensures d.ToSignIn? ==> d.callbackUrl == pathname
    ensures d.RedirectTo? <==> isAuthenticated && pathname == SignInPath
    ensures d.RedirectTo? ==> d.url != SignInPath
  {
    if Matched(pathname) then
      MatchedAuthPage(pathname);
      Decide(isAuthenticated, pathname, callbackUrl)
    else
      Next
  }

  /** The only sign-in path the matcher selects is `/auth/signin` itself. */
  lemma MatchedAuthPage(pathname: string)
    requires Matched(pathname)
    ensures IsAuthPage(pathname) <==> pathname == SignInPath
  {
    if IsAuthPage(pathname) && pathname != SignInPath {
      assert pathname[1] == 'a' && pathname[2] == 'u';
      if Below(pathname, DashboardPath) {
        BelowStartsWith(pathname, DashboardPath);
      } else if Below(pathname, "/chat") {
        BelowStartsWith(pathname, "/chat");
      } else if Below(pathname, "/settings") {
        BelowStartsWith(pathname, "/settings");
      } else {
        BelowStartsWith(pathname, "/api/chat");
      }
    }
  }

  /** Every matched path that is not the sign-in page is a protected route,
      except the chat API: a signed-out request to `/api/chat/...` passes,
      and a signed-in request to any matched path other than the sign-in
      page passes. */
  lemma {:induction false} MatchedShape(isAuthenticated: bool, pathname: string, callbackUrl: Option<string>)
    requires Matched(pathname) && pathname != SignInPath
    ensures Below(pathname, "/api/chat") <==> !IsProtectedRoute(pathname)
    ensures isAuthenticated ==> Guard(isAuthenticated, pathname, callbackUrl) == Next
    ensures !isAuthenticated && !Below(pathname, "/api/chat") ==> Guard(isAuthenticated, pathname, callbackUrl) == ToSignIn(pathname)
  {
    if Below(pathname, "/api/chat") {
      assert pathname[1] == 'a';
    } else if Below(pathname, DashboardPath) {
      BelowStartsWith(pathname, DashboardPath);
    } else if Below(pathname, "/chat") {
      BelowStartsWith(pathname, "/chat");
    } else {
      BelowStartsWith(pathname, "/settings");
    }
  }

  lemma BelowStartsWith(pathname: string, base: string)
    requires Below(pathname, base)
    ensures StartsWith(pathname, base)
  {
    if pathname != base {
      assert pathname[..|base|] == (base + "/")[..|base|];
    }
  }
}

/** The frontend's route table and its two guards.

    The guards call `isAuthenticated()`, but the provider publishes
    `isAuthenticated` as a boolean, and calling a boolean throws a TypeError.
    `ProtectedRouteAsWritten`/`PublicRouteAsWritten`/`RouteAsWritten` model the
    code as it stands; `ProtectedRoute`/`PublicRoute`/`Route` read the boolean,
    as evidently intended, and are what the rest of the model uses. */
module AppRoutes {
  import opened Common
  import AuthRoutes
  import AuthContext

  datatype Page = LoginPage | RegisterPage | DashboardPage

  /** What a route element produces: a page, a `<Navigate replace>` to a
      path, or an exception thrown while rendering. */
  datatype View = Render(page: Page) | Redirect(to: string) | Crash(error: string)

  const LoginPath := "/login"
  const RegisterPath := "/register"
  const DashboardPath := "/dashboard"

  /** `ProtectedRoute`: the child for a signed-in user, otherwise a redirect to the login page. */
  function ProtectedRoute(isAuthenticated: bool, child: Page): (v: View)
    ensures v == Render(child) <==> isAuthenticated
    ensures !isAuthenticated ==> v == Redirect(LoginPath)
  {
    if !isAuthenticated then Redirect(LoginPath) else Render(child)
  }

  /** `PublicRoute`: the child for a signed-out user, otherwise a redirect to the dashboard. */
  function PublicRoute(isAuthenticated: bool, child: Page): (v: View)
    ensures v == Render(child) <==> !isAuthenticated
    ensures isAuthenticated ==> v == Redirect(DashboardPath)
  {
    if isAuthenticated then Redirect(DashboardPath) else Render(child)
  }

  /** For any value of the flag, exactly one of the two guards shows its child. */
  lemma GuardsComplementary(isAuthenticated: bool, child: Page)
    ensures ProtectedRoute(isAuthenticated, child).Render? != PublicRoute(isAuthenticated, child).Render?
  {
  }

  predicate KnownPath(path: string) {
    path == LoginPath || path == RegisterPath || path == DashboardPath
  }

  /** The `<Routes>` table. */
  function Route(path: string, isAuthenticated: bool): (v: View)
    ensures !KnownPath(path) ==> v == Redirect(LoginPath)
    ensures v.Render? ==> (v.page == DashboardPage <==> isAuthenticated)
    ensures v.Redirect? ==> KnownPath(v.to) && v.to != RegisterPath
    ensures !v.Crash?
  {
    if path == LoginPath then PublicRoute(isAuthenticated, LoginPage)
    else if path == RegisterPath then PublicRoute(isAuthenticated, RegisterPage)
    else if path == DashboardPath then ProtectedRoute(isAuthenticated, DashboardPage)
    else Redirect(LoginPath)
  }

  /** The login and registration pages are guarded identically. */
  lemma LoginAndRegisterGuardedAlike(isAuthenticated: bool)
    ensures Route(LoginPath, isAuthenticated).Render? == Route(RegisterPath, isAuthenticated).Render?
    ensures !Route(LoginPath, isAuthenticated).Render? ==>
      Route(LoginPath, isAuthenticated) == Route(RegisterPath, isAuthenticated)
  {
  }

  /** Follow redirects, at most `hops` of them. */
  function Navigate(path: string, isAuthenticated: bool, hops: nat): View
    decreases hops
  {
    var v := Route(path, isAuthenticated);
    if v.Redirect? && hops > 0 then Navigate(v.to, isAuthenticated, hops - 1) else v
  }

  /** Two redirects are always enough to reach a page. A signed-in user always
      ends on the dashboard; a signed-out user never does, and ends on the
      registration page exactly when that is where they were going. */
  lemma NavigationSettles(path: string, isAuthenticated: bool)
    ensures Navigate(path, isAuthenticated, 2).Render?
    ensures isAuthenticated ==> Navigate(path, isAuthenticated, 2) == Render(DashboardPage)
    ensures !isAuthenticated ==>
      Navigate(path, isAuthenticated, 2) == (if path == RegisterPath then Render(RegisterPage) else Render(LoginPage))
  {
    var v := Route(path, isAuthenticated);
    if v.Redirect? {
      var w := Route(v.to, isAuthenticated);
      if w.Redirect? {
        assert Route(w.to, isAuthenticated).Render?;
        assert Navigate(w.to, isAuthenticated, 0) == Route(w.to, isAuthenticated);
      }
      assert Navigate(v.to, isAuthenticated, 1) == (if w.Redirect? then Navigate(w.to, isAuthenticated, 0) else w);
    }
  }

  /** Two hops are sometimes needed: `/` for a signed-in user goes to the
      login page and from there to the dashboard. */
  lemma RootNeedsTwoHops()
    ensures Navigate("/", true, 1) == Redirect(DashboardPath)
    ensures Navigate("/", true, 2) == Render(DashboardPage)
  {
    assert Navigate(LoginPath, true, 0) == Redirect(DashboardPath);
    assert Navigate(LoginPath, true, 1) == Navigate(DashboardPath, true, 0);
  }

  /** The guards do not wait for `loading`: on a reload with a stored token
      the dashboard first redirects to the login page, and only once the
      verification succeeds does the login page send the user back. */
  lemma FirstRenderIgnoresLoading(token: AuthContext.Token, user: Option<AuthRoutes.PublicUser>)
    requires token != ""
    ensures var c := AuthContext.Run(AuthContext.Boot(Some(token)), [AuthContext.Mount]);
            c.auth.loading && Route(DashboardPath, c.auth.isAuthenticated) == Redirect(LoginPath)
    ensures var c := AuthContext.Run(AuthContext.Boot(Some(token)), [AuthContext.Mount, AuthContext.Settle(0, AuthContext.Verified(user))]);
            Route(LoginPath, c.auth.isAuthenticated) == Redirect(DashboardPath)
  {
    AuthContext.ColdStartVerified(token, user);
  }

  // ---------------------------------------------------------------------------
  // The guards as written
  // ---------------------------------------------------------------------------

  /** A member of the context value as the guards find it: a plain value, or
      a zero-argument function returning a boolean. */
  datatype Member = Plain(value: bool) | Callable(result: bool)

  const NotAFunction := "isAuthenticated is not a function"

  /** `m()` in JavaScript: calling anything but a function throws a TypeError. */
  function Invoke(m: Member): (r: Result<bool>)
    ensures r.Failure? <==> m.Plain?
    ensures m.Callable? ==> r == Success(m.result)
  {
    match m
    case Plain(_) => Failure(NotAFunction)
    case Callable(b) => Success(b)
  }

  /** What the provider publishes under `isAuthenticated`: the boolean itself. */
  function PublishedFlag(c: AuthContext.Client): (m: Member)
    ensures m == Plain(c.auth.isAuthenticated)
  {
    Plain(AuthContext.Provide(c).isAuthenticated)
  }

  function ProtectedRouteAsWritten(isAuthenticated: Member, child: Page): (v: View)
    ensures isAuthenticated.Plain? ==> v == Crash(NotAFunction)
    ensures isAuthenticated.Callable? ==> v == ProtectedRoute(isAuthenticated.result, child)
  {
    match Invoke(isAuthenticated)
    case Failure(e) => Crash(e)
    case Success(b) => if !b then Redirect(LoginPath) else Render(child)
  }

  function PublicRouteAsWritten(isAuthenticated: Member, child: Page): (v: View)
    ensures isAuthenticated.Plain? ==> v == Crash(NotAFunction)
    ensures isAuthenticated.Callable? ==> v == PublicRoute(isAuthenticated.result, child)
  {
    match Invoke(isAuthenticated)
    case Failure(e) => Crash(e)
    case Success(b) => if b then Redirect(DashboardPath) else Render(child)
  }

  function RouteAsWritten(path: string, isAuthenticated: Member): (v: View)
    ensures isAuthenticated.Callable? ==> v == Route(path, isAuthenticated.result)
  {
    if path == LoginPath then PublicRouteAsWritten(isAuthenticated, LoginPage)
    else if path == RegisterPath then PublicRouteAsWritten(isAuthenticated, RegisterPage)
    else if path == DashboardPath then ProtectedRouteAsWritten(isAuthenticated, DashboardPage)
    else Redirect(LoginPath)
  }

  /** As written, in every provider state, each guarded path throws, and every
      other path redirects to one that throws: no page is ever shown. */
  lemma AsWrittenNeverRenders(c: AuthContext.Client, path: string)
    ensures KnownPath(path) ==> RouteAsWritten(path, PublishedFlag(c)) == Crash(NotAFunction)
    ensures !KnownPath(path) ==> RouteAsWritten(path, PublishedFlag(c)) == Redirect(LoginPath)
                                 && RouteAsWritten(LoginPath, PublishedFlag(c)) == Crash(NotAFunction)
  {
  }
}

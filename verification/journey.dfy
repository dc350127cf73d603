/** Whole journeys across the backend routes, the frontend provider and the
    route table: a sign-up that lands on the dashboard, and a page load with a
    token the server refuses. */
module Journey {
  import opened Common
  import AuthRoutes
  import AuthContext
  import AppRoutes

  /** The bearer-token middleware, which is not part of this model, reduced to
      its decision: the token decodes to a user id, or the request is refused. */
  function BearerGuard(decode: AuthRoutes.Token -> Option<AuthRoutes.UserId>, token: AuthRoutes.Token): (g: AuthRoutes.Guard)
    ensures g.Authorized? <==> decode(token).Some?
    ensures g.Authorized? ==> g.userId == decode(token).value
  {
    match decode(token)
    case None => AuthRoutes.Unauthorized
    case Some(id) => AuthRoutes.Authorized(id)
  }

  /** While fresh, a signed token decodes to the id it was signed for. */
  ghost predicate SignedTokensDecode(crypto: AuthRoutes.Crypto, decode: AuthRoutes.Token -> Option<AuthRoutes.UserId>) {
    forall claim, token :: crypto.sign(claim) == Some(token) ==> decode(token) == Some(claim.userId)
  }

  /** The provider reads every reply of the verify endpoint as the server
      meant it: it resolves exactly when the token was admitted and the lookup
      did not throw, and then with the stored account minus its password, or
      null for an id with no record. */
  lemma VerifyReplyRead(guard: AuthRoutes.Guard, db: AuthRoutes.Store, fault: AuthRoutes.StoreFault)
    ensures var r := AuthContext.ReadVerifyResponse(AuthRoutes.VerifyUser(guard, db, fault).response);
            && (r.Verified? <==> guard.Authorized? && fault != AuthRoutes.LookupFails)
            && (r.Verified? ==> AuthRoutes.ShowsAccount(db, guard.userId, r.user))
  {
  }

  /** A successful sign-up hands its token to `login`; the verify endpoint
      then returns the new account without its password, the provider holds
      that account, and every path leads to the dashboard. */
  lemma SignUpReachesDashboard(body: AuthRoutes.RequestBody, db: AuthRoutes.Store, crypto: AuthRoutes.Crypto,
                               decode: AuthRoutes.Token -> Option<AuthRoutes.UserId>, nonce: nat,
                               c: AuthContext.Client, path: string)
    requires SignedTokensDecode(crypto, decode)
    requires AuthRoutes.Register(body, db, crypto, AuthRoutes.Healthy, nonce).response.status == 201
    ensures
      var reg := AuthRoutes.Register(body, db, crypto, AuthRoutes.Healthy, nonce);
      var token := reg.response.body.token;
      var c1 := AuthContext.Step(c, AuthContext.LogIn(token));
      var resp := AuthRoutes.VerifyUser(BearerGuard(decode, token), reg.store, AuthRoutes.Healthy).response;
      var c2 := AuthContext.Step(c1, AuthContext.Settle(|c.inflight|, AuthContext.ReadVerifyResponse(resp)));
      && c1.inflight[|c.inflight|] == token
      && resp.status == 200
      && c2.auth.isAuthenticated && c2.storage == Some(token)
      && c2.auth.user == Some(AuthRoutes.Strip(reg.store[|db|]))
      && AppRoutes.Navigate(path, c2.auth.isAuthenticated, 2) == AppRoutes.Render(AppRoutes.DashboardPage)
  {
    var reg := AuthRoutes.Register(body, db, crypto, AuthRoutes.Healthy, nonce);
    var token := reg.response.body.token;
    var u := reg.store[|db|];
    assert decode(token) == Some(u.id);
    var found := AuthRoutes.FindById(reg.store, u.id);
    assert found.Some? by { assert reg.store[|db|].id == u.id; }
    var k :| 0 <= k < |reg.store| && reg.store[k] == found.value;
    assert k == |db|;
    AppRoutes.NavigationSettles(path, true);
  }

  /** A reload with a token the server refuses ends signed out, with the
      token removed, and every path then leads to a public page. */
  lemma RefusedTokenSignsOut(token: AuthRoutes.Token, decode: AuthRoutes.Token -> Option<AuthRoutes.UserId>,
                             db: AuthRoutes.Store, fault: AuthRoutes.StoreFault, path: string)
    requires token != "" && decode(token).None?
    ensures
      var resp := AuthRoutes.VerifyUser(BearerGuard(decode, token), db, fault).response;
      var c := AuthContext.Run(AuthContext.Boot(Some(token)),
                               [AuthContext.Mount, AuthContext.Settle(0, AuthContext.ReadVerifyResponse(resp))]);
      && resp.status == 401
      && c.storage.None? && !c.auth.isAuthenticated && !c.auth.loading
      && AppRoutes.Navigate(path, c.auth.isAuthenticated, 2) != AppRoutes.Render(AppRoutes.DashboardPage)
  {
    AuthContext.ColdStartRejected(token);
    AppRoutes.NavigationSettles(path, false);
  }
}

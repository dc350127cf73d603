/** The frontend's authentication provider as a state machine.

    The React state is (`isAuthenticated`, `user`, `loading`). Alongside it the
    model keeps what the provider reads and writes outside React: the `token`
    entry of local storage, whether the mount effect has run, and the
    verification requests still in flight, each named by the token it sends.
    Starting a verification appends to `inflight`; its answer is a separate
    `Settle` event that may arrive in any order. Answers are applied without
    checking which token they were for, as the provider does. */
module AuthContext {
  import opened Common
  import AuthRoutes

  type Token = string

  datatype AuthState = AuthState(isAuthenticated: bool, user: Option<AuthRoutes.PublicUser>, loading: bool)

  datatype Client = Client(auth: AuthState, storage: Option<Token>, mounted: bool, inflight: seq<Token>)

  /** How a call to the verify endpoint ended: resolved with the response's
      `user` (possibly null), or rejected for any reason. */
  datatype VerifyResult = Verified(user: Option<AuthRoutes.PublicUser>) | Failed

  datatype Event =
    | Mount
    | Settle(request: nat, result: VerifyResult)
    | LogIn(token: Token)
    | LogOut

  /** The provider as first rendered, over whatever local storage holds. */
  function Boot(storage: Option<Token>): (c: Client)
    ensures !c.auth.isAuthenticated && c.auth.user.None? && c.auth.loading
    ensures c.storage == storage && !c.mounted && c.inflight == []
  {
    Client(AuthState(false, None, true), storage, false, [])
  }

  /** `verifyToken(token)` up to the network call: the request is in flight. */
  function StartVerify(c: Client, token: Token): (c': Client)
    ensures c'.inflight == c.inflight + [token]
    ensures c'.auth == c.auth && c'.storage == c.storage && c'.mounted == c.mounted
  {
    c.(inflight := c.inflight + [token])
  }

  /** The mount effect, which runs once: a truthy stored token is sent for
      verification; otherwise loading ends at once. */
  function MountEffect(c: Client): (c': Client)
    ensures c'.mounted && c'.storage == c.storage
    ensures c'.auth.isAuthenticated == c.auth.isAuthenticated && c'.auth.user == c.auth.user
    ensures c.mounted ==> c' == c
    ensures !c.mounted && Truthy(c.storage) ==>
      c'.inflight == c.inflight + [c.storage.value] && c'.auth.loading == c.auth.loading
    ensures !c.mounted && !Truthy(c.storage) ==>
      c'.inflight == c.inflight && !c'.auth.loading
  {
    if c.mounted then c
    else if Truthy(c.storage) then StartVerify(c, c.storage.value).(mounted := true)
    else c.(mounted := true, auth := c.auth.(loading := false))
  }

  /** The answer to in-flight request number `request` arrives. Success
      authenticates with the returned user and leaves storage alone; failure
      clears the stored token and the session. Either way loading ends. */
  function SettleVerify(c: Client, request: nat, result: VerifyResult): (c': Client)
    ensures request >= |c.inflight| ==> c' == c
    ensures request < |c.inflight| ==>
      && c'.inflight == c.inflight[..request] + c.inflight[request + 1..]
      && !c'.auth.loading && c'.mounted == c.mounted
    ensures request < |c.inflight| && result.Verified? ==>
      c'.auth.isAuthenticated && c'.auth.user == result.user && c'.storage == c.storage
    ensures request < |c.inflight| && result.Failed? ==>
      c'.storage.None? && !c'.auth.isAuthenticated && c'.auth.user.None?
  {
    if request >= |c.inflight| then c
    else
      var rest := c.inflight[..request] + c.inflight[request + 1..];
      match result
      case Verified(user) => c.(auth := AuthState(true, user, false), inflight := rest)
      case Failed => c.(auth := AuthState(false, None, false), storage := None, inflight := rest)
  }

  /** `login(token)`: store it, authenticate at once, then verify it. */
  function Login(c: Client, token: Token): (c': Client)
    ensures c'.storage == Some(token) && c'.auth.isAuthenticated
    ensures c'.auth.user == c.auth.user && c'.auth.loading == c.auth.loading
    ensures c'.inflight == c.inflight + [token] && c'.mounted == c.mounted
  {
    StartVerify(c.(storage := Some(token), auth := c.auth.(isAuthenticated := true)), token)
  }

  /** `logout()`: forget the token and the user; no request is made and
      `loading` is left as it was. */
  function Logout(c: Client): (c': Client)
    ensures c'.storage.None? && !c'.auth.isAuthenticated && c'.auth.user.None?
    ensures c'.auth.loading == c.auth.loading && c'.inflight == c.inflight && c'.mounted == c.mounted
  {
    c.(storage := None, auth := c.auth.(isAuthenticated := false, user := None))
  }

  function Step(c: Client, e: Event): Client {
    match e
    case Mount => MountEffect(c)
    case Settle(request, result) => SettleVerify(c, request, result)
    case LogIn(token) => Login(c, token)
    case LogOut => Logout(c)
  }

  function Run(c: Client, events: seq<Event>): Client
    decreases |events|
  {
    if events == [] then c else Run(Step(c, events[0]), events[1..])
  }

  // ---------------------------------------------------------------------------
  // Invariants over every sequence of events
  // ---------------------------------------------------------------------------

  /** A user is only ever held while authenticated, and once mounted the
      provider is loading only while a verification is in flight. */
  ghost predicate Consistent(c: Client) {
    && (c.auth.user.Some? ==> c.auth.isAuthenticated)
    && (c.mounted && c.auth.loading ==> |c.inflight| > 0)
  }

  lemma StepKeepsConsistent(c: Client, e: Event)
    requires Consistent(c)
    ensures Consistent(Step(c, e))
  {
  }

  lemma {:induction false} RunKeepsConsistent(c: Client, events: seq<Event>)
    requires Consistent(c)
    ensures Consistent(Run(c, events))
    decreases |events|
  {
    if events != [] {
      StepKeepsConsistent(c, events[0]);
      RunKeepsConsistent(Step(c, events[0]), events[1..]);
    }
  }

  /** Every state reachable from a fresh page load holds a user only while authenticated. */
  lemma ReachableConsistent(storage: Option<Token>, events: seq<Event>)
    ensures var c := Run(Boot(storage), events);
            c.auth.user.Some? ==> c.auth.isAuthenticated
  {
    RunKeepsConsistent(Boot(storage), events);
  }

  /** Once loading has ended it never starts again. */
  lemma {:induction false} LoadingNeverRestarts(c: Client, events: seq<Event>)
    requires !c.auth.loading
    ensures !Run(c, events).auth.loading
    decreases |events|
  {
    if events != [] {
      LoadingNeverRestarts(Step(c, events[0]), events[1..]);
    }
  }

  // ---------------------------------------------------------------------------
  // Page loads
  // ---------------------------------------------------------------------------

  /** No usable stored token: loading ends and nothing is sent. */
  lemma ColdStartWithoutToken(storage: Option<Token>)
    requires !Truthy(storage)
    ensures Run(Boot(storage), [Mount]) == Client(AuthState(false, None, false), storage, true, [])
  {
  }

  /** A stored token is sent for verification, exactly that token, and the
      provider stays loading; a successful answer authenticates with the
      returned user and keeps the token. */
  lemma ColdStartVerified(token: Token, user: Option<AuthRoutes.PublicUser>)
    requires token != ""
    ensures Run(Boot(Some(token)), [Mount]) == Client(AuthState(false, None, true), Some(token), true, [token])
    ensures Run(Boot(Some(token)), [Mount, Settle(0, Verified(user))])
            == Client(AuthState(true, user, false), Some(token), true, [])
  {
    var c1 := Step(Boot(Some(token)), Mount);
    assert [Mount, Settle(0, Verified(user))][1..] == [Settle(0, Verified(user))];
    assert [token][..0] + [token][1..] == [];
    assert Run(c1, [Settle(0, Verified(user))]) == Step(c1, Settle(0, Verified(user)));
  }

  /** A stored token the server rejects is removed, and the provider settles
      signed out. */
  lemma ColdStartRejected(token: Token)
    requires token != ""
    ensures Run(Boot(Some(token)), [Mount, Settle(0, Failed)])
            == Client(AuthState(false, None, false), None, true, [])
  {
    var c1 := Step(Boot(Some(token)), Mount);
    assert [Mount, Settle(0, Failed)][1..] == [Settle(0, Failed)];
    assert [token][..0] + [token][1..] == [];
    assert Run(c1, [Settle(0, Failed)]) == Step(c1, Settle(0, Failed));
  }

  // ---------------------------------------------------------------------------
  // Consequences of untagged verification answers
  // ---------------------------------------------------------------------------

  /** `login` authenticates before the server has answered, and on a provider
      that has finished loading it does not set `loading` again although a
      verification is now in flight. */
  lemma LoginIsOptimistic(c: Client, token: Token)
    requires !c.auth.loading
    ensures var c' := Step(c, LogIn(token));
            c'.auth.isAuthenticated && !c'.auth.loading && c'.inflight[|c'.inflight| - 1] == token
  {
  }

  /** Three events in a row. */
  lemma RunThree(c: Client, a: Event, b: Event, d: Event)
    ensures Run(c, [a, b, d]) == Step(Step(Step(c, a), b), d)
  {
    var c1, c2, c3 := Step(c, a), Step(Step(c, a), b), Step(Step(Step(c, a), b), d);
    assert [a, b, d][1..] == [b, d] && [b, d][1..] == [d] && [d][1..] == [];
    assert Run(c2, [d]) == Run(c3, []) == c3;
    assert Run(c1, [b, d]) == Run(c2, [d]);
  }

  /** A success answer arriving after `logout` signs the user back in,
      although no token is stored any more. */
  lemma StaleSuccessAfterLogout(c: Client, token: Token, user: Option<AuthRoutes.PublicUser>)
    ensures var c' := Run(c, [LogIn(token), LogOut, Settle(|c.inflight|, Verified(user))]);
            c'.auth.isAuthenticated && c'.storage.None?
  {
    RunThree(c, LogIn(token), LogOut, Settle(|c.inflight|, Verified(user)));
  }

  /** A failure answer for an earlier token clears a token stored by a later
      `login`: after logging in with `first` and then `second`, the request
      for `first` fails and the stored `second` is gone. */
  lemma StaleFailureClearsNewToken(c: Client, first: Token, second: Token)
    ensures var c2 := Step(Step(c, LogIn(first)), LogIn(second));
            && c2.storage == Some(second)
            && c2.inflight[|c.inflight|] == first
            && var c' := Run(c, [LogIn(first), LogIn(second), Settle(|c.inflight|, Failed)]);
               c'.storage.None? && !c'.auth.isAuthenticated
  {
    RunThree(c, LogIn(first), LogIn(second), Settle(|c.inflight|, Failed));
  }

  // ---------------------------------------------------------------------------
  // The verify call and the hook
  // ---------------------------------------------------------------------------

  /** How `verifyToken` reads the verify endpoint's response: a non-2xx
      status rejects; otherwise the provider reads `response.data.user`,
      which throws (and so takes the failure branch) when the body is JSON
      `null`, and is undefined for a body without a `user` field. */
  function ReadVerifyResponse(resp: AuthRoutes.Response): (r: VerifyResult)
    ensures r.Verified? <==> 200 <= resp.status < 300 && resp.body != AuthRoutes.UserJson(None)
    ensures resp.body == AuthRoutes.UserJson(None) ==> r == Failed
    ensures r.Verified? && resp.body.VerifiedJson? ==> r.user == resp.body.user
    ensures r.Verified? && !resp.body.VerifiedJson? ==> r.user.None?
  {
    if !(200 <= resp.status < 300) then Failed
    else
      match resp.body
      case VerifiedJson(user) => Verified(user)
      case UserJson(None) => Failed
      case _ => Verified(None)
  }

  /** What the provider publishes to its consumers. */
  datatype ContextValue = ContextValue(isAuthenticated: bool, user: Option<AuthRoutes.PublicUser>, loading: bool)

  function Provide(c: Client): (v: ContextValue)
    ensures v.isAuthenticated == c.auth.isAuthenticated && v.user == c.auth.user && v.loading == c.auth.loading
  {
    ContextValue(c.auth.isAuthenticated, c.auth.user, c.auth.loading)
  }

  const OutsideProvider := "useAuth must be used within an AuthProvider"

  /** `useAuth`: the nearest provider's value, or a thrown error when there is none. */
  function UseAuth(context: Option<ContextValue>): (r: Result<ContextValue>)
    ensures r.Failure? <==> context.None?
    ensures r.Failure? ==> r.error == OutsideProvider
    ensures context.Some? ==> r == Success(context.value)
  {
    match context
    case None => Failure(OutsideProvider)
    case Some(v) => Success(v)
  }
}

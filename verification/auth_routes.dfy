/** The `/api/auth` router of the backend: registration, login, profile and
    token verification, each a pure function from a request and a user store
    to a response and the store afterwards.

    Password hashing, token signing and the bearer-token middleware are not
    implemented here: hashing and signing are function-valued parameters
    (`Crypto`), the middleware's verdict is an input (`Guard`), and a failing
    database call is an input (`StoreFault`). */
module AuthRoutes {
  import opened Common

  type UserId = nat
  type Digest = string
  type Token = string

  datatype Profile = Profile(department: string, semester: string)

  /** A stored account; `password` holds the hash, never the plaintext. */
  datatype UserRecord = UserRecord(id: UserId, name: string, email: string, password: Digest, profile: Profile)

  /** An account as sent to clients: the record without its password field. */
  datatype PublicUser = PublicUser(id: UserId, name: string, email: string, profile: Profile)

  /** The user collection, in insertion order. */
  type Store = seq<UserRecord>

  /** bcrypt's cost factor together with the random salt it draws. */
  datatype Salt = Salt(rounds: nat, nonce: nat)
  const SaltRounds: nat := 10

  /** The token payload: only the user id, with the lifetime handed to the signer. */
  datatype Claim = Claim(userId: UserId, expiresIn: string)
  const TokenLifetime := "1h"

  /** bcrypt `hash`/`compare` and `jwt.sign` (which may report an error). */
  datatype Crypto = Crypto(
    hash: (string, Salt) -> Digest,
    compare: (string, Digest) -> bool,
    sign: Claim -> Option<Token>)

  /** What bcrypt guarantees: a password matches every hash made from it. */
  ghost predicate HashCompareSound(crypto: Crypto) {
    forall password, salt :: crypto.compare(password, crypto.hash(password, salt))
  }

  /** Which database call, if any, throws during the request. */
  datatype StoreFault = Healthy | LookupFails | SaveFails

  /** The JSON request body; every field may be absent. */
  datatype RequestBody = RequestBody(
    name: Option<string>,
    email: Option<string>,
    password: Option<string>,
    department: Option<string>,
    semester: Option<string>)

  /** JSON response bodies. `Denied` is the bearer-token middleware's own
      rejection, whose text is not part of this model. */
  datatype Body =
    | Message(text: string)
    | Registered(token: Token, text: string)
    | Issued(token: Token)
    | UserJson(user: Option<PublicUser>)
    | VerifiedJson(user: Option<PublicUser>)
    | Denied
    | Omitted

  datatype Response = Response(status: nat, body: Body)

  datatype Outcome = Outcome(response: Response, store: Store)

  /** The bearer-token middleware's verdict: the user id it decoded, or a rejection. */
  datatype Guard = Authorized(userId: UserId) | Unauthorized

  const MissingFields := "Missing required fields"
  const UserExists := "User already exists"
  const RegisteredMessage := "User registered successfully"
  const TokenError := "Error generating token"
  const RegisterServerError := "Server error during registration"
  const InvalidCredentials := "Invalid credentials"
  const LoginServerError := "Server error during login"
  const ProfileServerError := "Server error during profile retrieval"
  const AuthenticationFailed := "Authentication failed"
  const RouteNotFound := "Route not found"

  // ---------------------------------------------------------------------------
  // The store
  // ---------------------------------------------------------------------------

  predicate EmailTaken(db: Store, email: string) {
    exists i :: 0 <= i < |db| && db[i].email == email
  }

  predicate IdKnown(db: Store, id: UserId) {
    exists i :: 0 <= i < |db| && db[i].id == id
  }

  /** No two records share an e-mail address. */
  ghost predicate UniqueEmails(db: Store) {
    forall i, j :: 0 <= i < j < |db| ==> db[i].email != db[j].email
  }

  /** No two records share an id. */
  ghost predicate UniqueIds(db: Store) {
    forall i, j :: 0 <= i < j < |db| ==> db[i].id != db[j].id
  }

  /** `User.findOne({ email })`: exact match on the address. */
  function FindByEmail(db: Store, email: string): (r: Option<UserRecord>)
    ensures r.None? <==> !EmailTaken(db, email)
    ensures r.Some? ==> r.value in db && r.value.email == email
  {
    match FirstIndex(db, (u: UserRecord) => u.email == email)
    case None => None
    case Some(i) => Some(db[i])
  }

  /** `User.findById(id)`. */
  function FindById(db: Store, id: UserId): (r: Option<UserRecord>)
    ensures r.None? <==> !IdKnown(db, id)
    ensures r.Some? ==> r.value in db && r.value.id == id
  {
    match FirstIndex(db, (u: UserRecord) => u.id == id)
    case None => None
    case Some(i) => Some(db[i])
  }

  /** The id the store gives a new document: one not used by any record. */
  function FreshId(db: Store): (id: UserId)
    ensures forall i :: 0 <= i < |db| ==> db[i].id < id
  {
    if |db| == 0 then 0
    else
      var rest := FreshId(db[1..]);
      assert forall i :: 1 <= i < |db| ==> db[i] == db[1..][i - 1];
      if db[0].id < rest then rest else db[0].id + 1
  }

  /** `.select('-password')`. */
  function Strip(u: UserRecord): (v: PublicUser)
    ensures v.id == u.id && v.name == u.name && v.email == u.email && v.profile == u.profile
  {
    PublicUser(u.id, u.name, u.email, u.profile)
  }

  /** Two records look the same to a client exactly when they differ at most
      in their password hash. */
  lemma StripHidesOnlyPassword(u: UserRecord, v: UserRecord)
    ensures Strip(u) == Strip(v) <==> u.(password := v.password) == v
  {
  }

  // ---------------------------------------------------------------------------
  // POST /register
  // ---------------------------------------------------------------------------

  predicate RegisterFieldsPresent(body: RequestBody) {
    && Truthy(body.name) && Truthy(body.email) && Truthy(body.password)
    && Truthy(body.department) && Truthy(body.semester)
  }

  /** `after` is `before` with one record appended that carries the submitted
      name, e-mail and profile, the given password hash, and an id no earlier
      record has. */
  ghost predicate AppendsAccount(before: Store, after: Store, body: RequestBody, digest: Digest)
    requires RegisterFieldsPresent(body)
  {
    && |after| == |before| + 1
    && after[..|before|] == before
    && var u := after[|before|];
    && u.name == body.name.value
    && u.email == body.email.value
    && u.password == digest
    && u.profile == Profile(body.department.value, body.semester.value)
    && forall i :: 0 <= i < |before| ==> before[i].id != u.id
  }

  function Register(body: RequestBody, db: Store, crypto: Crypto, fault: StoreFault, nonce: nat): (r: Outcome)
    ensures !RegisterFieldsPresent(body) ==> r == Outcome(Response(400, Message(MissingFields)), db)
    ensures RegisterFieldsPresent(body) && fault == LookupFails ==>
                  r == Outcome(Response(500, Message(RegisterServerError)), db)
    ensures RegisterFieldsPresent(body) && fault != LookupFails && EmailTaken(db, body.email.value) ==>
                  r == Outcome(Response(400, Message(UserExists)), db)
    ensures RegisterFieldsPresent(body) && fault == SaveFails && !EmailTaken(db, body.email.value) ==>
                  r == Outcome(Response(500, Message(RegisterServerError)), db)
    ensures r.store != db <==> RegisterFieldsPresent(body) && fault == Healthy && !EmailTaken(db, body.email.value)
    ensures r.store != db ==> AppendsAccount(db, r.store, body, crypto.hash(body.password.value, Salt(SaltRounds, nonce)))
    ensures r.response.status == 201 ==>
              && r.store != db && r.response.body.Registered?
              && r.response.body.text == RegisteredMessage
              && crypto.sign(Claim(r.store[|db|].id, TokenLifetime)) == Some(r.response.body.token)
    ensures r.store != db && crypto.sign(Claim(r.store[|db|].id, TokenLifetime)).None? ==>
                  r.response == Response(500, Message(TokenError))
    ensures r.store != db && crypto.sign(Claim(r.store[|db|].id, TokenLifetime)).Some? ==>
                  r.response.status == 201
    ensures r.response.status in {201, 400, 500}
  {
    if !RegisterFieldsPresent(body) then
      Outcome(Response(400, Message(MissingFields)), db)
    else if fault == LookupFails then
      Outcome(Response(500, Message(RegisterServerError)), db)
    else if FindByEmail(db, body.email.value).Some? then
      Outcome(Response(400, Message(UserExists)), db)
    else if fault == SaveFails then
      Outcome(Response(500, Message(RegisterServerError)), db)
    else
      var user := UserRecord(FreshId(db), body.name.value, body.email.value,
                             crypto.hash(body.password.value, Salt(SaltRounds, nonce)),
                             Profile(body.department.value, body.semester.value));
      var saved := db + [user];
      assert saved[..|db|] == db && saved != db;
      assert fault == Healthy && !EmailTaken(db, body.email.value);
      match crypto.sign(Claim(user.id, TokenLifetime))
      case None => Outcome(Response(500, Message(TokenError)), saved)
      case Some(token) => Outcome(Response(201, Registered(token, RegisteredMessage)), saved)
  }

  /** Registration keeps e-mail addresses and ids unique. */
  lemma RegisterKeepsStoreUnique(body: RequestBody, db: Store, crypto: Crypto, fault: StoreFault, nonce: nat)
    requires UniqueEmails(db) && UniqueIds(db)
    ensures UniqueEmails(Register(body, db, crypto, fault, nonce).store)
    ensures UniqueIds(Register(body, db, crypto, fault, nonce).store)
  {
    var after := Register(body, db, crypto, fault, nonce).store;
    if after != db {
      assert forall i :: 0 <= i < |db| ==> after[i] == db[i];
    }
  }

  /** Once an address is registered, registering it again is refused and
      changes nothing, whatever the other fields say. */
  lemma RegisterTwiceRefused(first: RequestBody, second: RequestBody, db: Store, crypto: Crypto, fault: StoreFault, nonce: nat, nonce': nat)
    requires Register(first, db, crypto, Healthy, nonce).store != db
    requires RegisterFieldsPresent(second) && second.email == first.email
    requires fault != LookupFails
    ensures var after := Register(first, db, crypto, Healthy, nonce).store;
            Register(second, after, crypto, fault, nonce') == Outcome(Response(400, Message(UserExists)), after)
  {
    var after := Register(first, db, crypto, Healthy, nonce).store;
    assert after[|db|].email == second.email.value;
  }

  // ---------------------------------------------------------------------------
  // POST /login
  // ---------------------------------------------------------------------------

  /** A stored account whose address is `email` and whose hash accepts `password`. */
  predicate Accepts(crypto: Crypto, u: UserRecord, email: string, password: string) {
    u.email == email && crypto.compare(password, u.password)
  }

  function Login(body: RequestBody, db: Store, crypto: Crypto, fault: StoreFault): (r: Outcome)
    ensures r.store == db
    ensures !(Truthy(body.email) && Truthy(body.password)) ==> r.response == Response(400, Message(MissingFields))
    ensures Truthy(body.email) && Truthy(body.password) && fault == LookupFails ==>
                  r.response == Response(500, Message(LoginServerError))
    ensures r.response.status == 200 ==>
              && r.response.body.Issued?
              && exists i :: 0 <= i < |db| && Accepts(crypto, db[i], body.email.value, body.password.value)
                                            && crypto.sign(Claim(db[i].id, TokenLifetime)) == Some(r.response.body.token)
    ensures r.response.status == 400 && Truthy(body.email) && Truthy(body.password) ==>
                  r.response.body == Message(InvalidCredentials)
    ensures Truthy(body.email) && Truthy(body.password) && fault != LookupFails ==>
              var found := FindByEmail(db, body.email.value);
              found.Some? && crypto.compare(body.password.value, found.value.password)
              && crypto.sign(Claim(found.value.id, TokenLifetime)).None? ==>
                r.response == Response(500, Message(TokenError))
    ensures r.response.status in {200, 400, 500}
  {
    if !Truthy(body.email) || !Truthy(body.password) then
      Outcome(Response(400, Message(MissingFields)), db)
    else if fault == LookupFails then
      Outcome(Response(500, Message(LoginServerError)), db)
    else
      match FindByEmail(db, body.email.value)
      case None => Outcome(Response(400, Message(InvalidCredentials)), db)
      case Some(user) =>
        if !crypto.compare(body.password.value, user.password) then
          Outcome(Response(400, Message(InvalidCredentials)), db)
        else
          match crypto.sign(Claim(user.id, TokenLifetime))
          case None => Outcome(Response(500, Message(TokenError)), db)
          case Some(token) => Outcome(Response(200, Issued(token)), db)
  }

  /** With unique addresses, login succeeds exactly when the account exists,
      its hash accepts the password, and the token can be signed. */
  lemma LoginSucceedsIff(body: RequestBody, db: Store, crypto: Crypto, fault: StoreFault)
    requires UniqueEmails(db)
    requires Truthy(body.email) && Truthy(body.password) && fault != LookupFails
    ensures Login(body, db, crypto, fault).response.status == 200 <==>
              exists i :: 0 <= i < |db| && Accepts(crypto, db[i], body.email.value, body.password.value)
                                        && crypto.sign(Claim(db[i].id, TokenLifetime)).Some?
  {
    var e, p := body.email.value, body.password.value;
    if i :| 0 <= i < |db| && Accepts(crypto, db[i], e, p) && crypto.sign(Claim(db[i].id, TokenLifetime)).Some? {
      var u := FindByEmail(db, e).value;
      var k :| 0 <= k < |db| && db[k] == u;
      assert k == i;
    }
  }

  /** An unknown address and a wrong password get the very same answer, so
      the reply does not reveal which addresses have accounts. */
  lemma LoginRejectionUniform(body: RequestBody, db: Store, crypto: Crypto, fault: StoreFault)
    requires Truthy(body.email) && Truthy(body.password) && fault != LookupFails
    requires forall i :: 0 <= i < |db| && db[i].email == body.email.value ==>
                   !crypto.compare(body.password.value, db[i].password)
    ensures Login(body, db, crypto, fault) == Outcome(Response(400, Message(InvalidCredentials)), db)
  {
    match FindByEmail(db, body.email.value)
    case None =>
    case Some(u) =>
      var k :| 0 <= k < |db| && db[k] == u;
  }

  /** After a registration that stored the account, logging in with the same
      address and password succeeds, with a token for the new id. */
  lemma RegisterThenLogin(body: RequestBody, db: Store, crypto: Crypto, nonce: nat, fault: StoreFault)
    requires HashCompareSound(crypto)
    requires Register(body, db, crypto, Healthy, nonce).store != db
    requires fault != LookupFails
    ensures var after := Register(body, db, crypto, Healthy, nonce).store;
            var login := Login(body, after, crypto, fault).response;
            && (crypto.sign(Claim(after[|db|].id, TokenLifetime)).Some? ==> login.status == 200)
            && (login.status == 200 ==> crypto.sign(Claim(after[|db|].id, TokenLifetime)) == Some(login.body.token))
  {
    var after := Register(body, db, crypto, Healthy, nonce).store;
    var u := after[|db|];
    assert crypto.compare(body.password.value, crypto.hash(body.password.value, Salt(SaltRounds, nonce)));
    var found := FindByEmail(after, body.email.value);
    assert found.Some? by { assert after[|db|].email == body.email.value; }
    var k :| 0 <= k < |after| && after[k] == found.value;
    assert k == |db|;
  }

  // ---------------------------------------------------------------------------
  // GET /profile and GET /verify
  // ---------------------------------------------------------------------------

  /** `view` is what the store holds under `id`, minus the password: null
      when no record has that id. */
  ghost predicate ShowsAccount(db: Store, id: UserId, view: Option<PublicUser>) {
    && (view.None? <==> !IdKnown(db, id))
    && (view.Some? ==> exists i :: 0 <= i < |db| && db[i].id == id && view.value == Strip(db[i]))
  }

  function GetProfile(guard: Guard, db: Store, fault: StoreFault): (r: Outcome)
    ensures r.store == db
    ensures guard.Unauthorized? ==> r.response == Response(401, Denied)
    ensures guard.Authorized? && fault == LookupFails ==> r.response == Response(500, Message(ProfileServerError))
    ensures r.response.status == 200 <==> guard.Authorized? && fault != LookupFails
    ensures r.response.status == 200 ==> r.response.body.UserJson? && ShowsAccount(db, guard.userId, r.response.body.user)
  {
    match guard
    case Unauthorized => Outcome(Response(401, Denied), db)
    case Authorized(id) =>
      if fault == LookupFails then Outcome(Response(500, Message(ProfileServerError)), db)
      else
        var found := FindById(db, id);
        Outcome(Response(200, UserJson(if found.Some? then Some(Strip(found.value)) else None)), db)
  }

  function VerifyUser(guard: Guard, db: Store, fault: StoreFault): (r: Outcome)
    ensures r.store == db
    ensures guard.Unauthorized? ==> r.response == Response(401, Denied)
    ensures guard.Authorized? && fault == LookupFails ==> r.response == Response(401, Message(AuthenticationFailed))
    ensures r.response.status == 200 <==> guard.Authorized? && fault != LookupFails
    ensures r.response.status == 200 ==> r.response.body.VerifiedJson? && ShowsAccount(db, guard.userId, r.response.body.user)
  {
    match guard
    case Unauthorized => Outcome(Response(401, Denied), db)
    case Authorized(id) =>
      if fault == LookupFails then Outcome(Response(401, Message(AuthenticationFailed)), db)
      else
        var found := FindById(db, id);
        Outcome(Response(200, VerifiedJson(if found.Some? then Some(Strip(found.value)) else None)), db)
  }

  // ---------------------------------------------------------------------------
  // The router
  // ---------------------------------------------------------------------------

  datatype Method = Get | Head | Post | OtherMethod(name: string)

  /** A request as the router sees it; `guard` is what the bearer-token
      middleware would decide for its `Authorization` header. */
  datatype Request = Request(verb: Method, path: string, body: RequestBody, guard: Guard)

  /** The routes with a handler of their own. Express lets a `get` route also
      serve HEAD requests when no `head` route is declared. */
  predicate IsAuthRoute(verb: Method, path: string) {
    || (verb == Post && (path == "/register" || path == "/login"))
    || ((verb == Get || verb == Head) && (path == "/profile" || path == "/verify"))
  }

  /** The answer to a HEAD request: the status and the store effect of the
      same request made with GET, with no body sent. */
  function HeadReply(o: Outcome): (h: Outcome)
    ensures h.store == o.store && h.response.status == o.response.status && h.response.body == Omitted
  {
    Outcome(Response(o.response.status, Omitted), o.store)
  }

  /** The router: the four routes, and the catch-all's 404 for everything else. */
  function Handle(req: Request, db: Store, crypto: Crypto, fault: StoreFault, nonce: nat): (r: Outcome)
    decreases if req.verb == Head then 1 else 0
    ensures r.store != db ==> req.verb == Post && req.path == "/register"
    ensures !IsAuthRoute(req.verb, req.path) ==>
              r == Outcome(Response(404, if req.verb == Head then Omitted else Message(RouteNotFound)), db)
    ensures req.verb == Post && req.path == "/register" ==> r == Register(req.body, db, crypto, fault, nonce)
    ensures req.verb == Post && req.path == "/login" ==> r == Login(req.body, db, crypto, fault)
    ensures req.verb == Get && req.path == "/profile" ==> r == GetProfile(req.guard, db, fault)
    ensures req.verb == Get && req.path == "/verify" ==> r == VerifyUser(req.guard, db, fault)
    ensures req.verb == Head && req.path == "/profile" ==>
              r == Outcome(Response(GetProfile(req.guard, db, fault).response.status, Omitted), db)
    ensures req.verb == Head && req.path == "/verify" ==>
              r == Outcome(Response(VerifyUser(req.guard, db, fault).response.status, Omitted), db)
    ensures r.response.status == 201 ==> req.verb == Post && req.path == "/register"
  {
    match req.verb
    case Post =>
      if req.path == "/register" then Register(req.body, db, crypto, fault, nonce)
      else if req.path == "/login" then Login(req.body, db, crypto, fault)
      else Outcome(Response(404, Message(RouteNotFound)), db)
    case Get =>
      if req.path == "/profile" then GetProfile(req.guard, db, fault)
      else if req.path == "/verify" then VerifyUser(req.guard, db, fault)
      else Outcome(Response(404, Message(RouteNotFound)), db)
    case Head => HeadReply(Handle(req.(verb := Get), db, crypto, fault, nonce))
    case OtherMethod(_) => Outcome(Response(404, Message(RouteNotFound)), db)
  }
}

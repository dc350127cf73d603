# Student dashboard authentication core, in Dafny

This project models the authentication logic of a small student-dashboard web
application and proves properties of it. The application has an Express
backend with a `/api/auth` router and a React frontend with an authentication
provider and a route table. The model covers five parts:

- **Input validators** (`validation.dfy`, module `Validation`): the e-mail
  regular expression applied to the lower-cased input, the password strength
  regular expression, and the registration validator that builds an error map.
  Each regular expression is given its own declarative language
  (`MatchesEmailPattern`, `MatchesPasswordPattern`), and the checking function
  is proved to accept exactly that language. For e-mail, a second
  address-shaped description is proved equivalent.
- **Auth routes** (`auth_routes.dfy`, module `AuthRoutes`): `POST /register`,
  `POST /login`, `GET /profile`, `GET /verify` and the 404 catch-all. Each is
  a pure function from a request and a user store (a sequence of records) to
  a response and the store afterwards. bcrypt `hash`/`compare` and `jwt.sign`
  are function-valued fields of a `Crypto` record. bcrypt's promise that a
  password matches its own hash is the predicate `HashCompareSound`, which the
  lemmas that need it take as a precondition. The random salt is an explicit
  `nonce`. A database call that throws is the input `StoreFault`. The
  bearer-token middleware's verdict is the input `Guard`.
- **Error middleware** (`error_middleware.dfy`, module `ErrorMiddleware`): the
  JSON error envelope, the 404 handler, and the environment default.
- **Client auth state machine** (`auth_context.dfy`, module `AuthContext`):
  the React state (`isAuthenticated`, `user`, `loading`), plus the stored
  token, whether the mount effect has run, and the verification requests in
  flight. Starting a verification and receiving its answer are separate
  events. Answers may arrive in any order and are applied without checking
  which token they were for, as in the provider.
- **Route table and guards** (`app_routes.dfy`, module `AppRoutes`): the
  guards as written (which throw, see Findings), the guards over the boolean
  flag, the route table, and redirect following.

`journey.dfy` (module `Journey`) connects the parts: a sign-up whose token
goes to `login` ends authenticated on the dashboard, and a reload with a
refused token ends signed out. `common.dfy` holds `Option`, `Result`,
JavaScript truthiness of an optional string, and first-match search.

Behaviour of the code worth noting, all of it modelled as written:

- A signing error in `/register` happens after the record is saved. The reply
  is 500 "Error generating token", but the account stays stored.
- `/profile` and `/verify` for an id with no record reply 200 with `null` (or
  `{user: null}`), not with a not-found error. A 2xx reply whose body is
  `null` makes the provider's read of `response.data.user` throw, so the
  provider treats it as a failed verification.
- `login` sets `isAuthenticated` before any verification and does not raise
  `loading`, so a verification can be in flight while `loading` is false.
  The model proves the direction that does hold: once mounted, `loading`
  implies a verification in flight.
- Verification answers are not tagged. A late failure clears a newer token,
  and a late success after `logout` signs the user back in.
- The router's `/register` checks only that the five fields are present.
  `validateRegistrationInput` is never called by it. E-mail addresses are
  matched exactly and are not normalised.
- Tokens are signed inline with a `1h` lifetime. The `30d` helper in
  `backend/src/utils/jwt.js` is not used by the router.
- A HEAD request to `/profile` or `/verify` runs the GET handler, because
  Express lets a `get` route serve HEAD; it gets that handler's status with
  no body. Every other unmatched method and path reaches the catch-all 404.
- The guards do not consult `loading`. On a reload with a stored token,
  `/dashboard` first redirects to `/login`.

## Model

| member | source | states |
|---|---|---|
| Validation.ValidateEmail | backend/src/utils/validation.js:1-4 | accepts exactly when the lower-cased input is in the language of `^[^\s@]+@[^\s@]+\.[^\s@]+$`, and equally exactly when it has no whitespace, a single `@` with something before it, and a `.` inside the domain that is neither its first nor its last character |
| Validation.PatternIffAddress | backend/src/utils/validation.js:2 | the regular expression's three-run language equals the address-shaped description (one `@`, no whitespace, inner dot in the domain) |
| Validation.ValidateEmailIgnoresCase | backend/src/utils/validation.js:3 | lower-casing never changes the verdict: the result is the pattern applied to the raw input, and validating the lower-cased input gives the same answer |
| Validation.ValidatePassword | backend/src/utils/validation.js:6-10 | accepts exactly when the length is at least 8, every character is in `[a-zA-Z0-9]`, and there is a lower-case letter, an upper-case letter and a digit |
| Validation.ValidatePasswordMatchesPattern | backend/src/utils/validation.js:8 | the single-pass check accepts exactly the language of the look-ahead regular expression, where each look-ahead must reach its class without crossing a line terminator |
| Validation.PasswordRejectsSymbols | backend/src/utils/validation.js:8 | any character outside `[a-zA-Z0-9]` rejects the password, whatever its length and classes |
| Validation.TrimEmptyIffBlank | backend/src/utils/validation.js:15 | `trim()` yields the empty string exactly for strings made only of whitespace |
| Validation.ValidateRegistrationInput | backend/src/utils/validation.js:12-31 | `isValid` holds exactly when the error map is empty; the keys lie within name, email and password; each key is present exactly when its check fails (name missing or blank; email missing or invalid; password missing or invalid), and each carries its fixed message |
| Validation.RegistrationIgnoresProfile | backend/src/utils/validation.js:12-26 | department and semester never influence the result |
| AuthRoutes.FindByEmail | backend/src/routes/auth.js:33 | finds nothing exactly when no record has that exact address; otherwise returns a stored record with that address |
| AuthRoutes.FindById | backend/src/routes/auth.js:129 | finds nothing exactly when no record has that id; otherwise returns a stored record with that id |
| AuthRoutes.FreshId | backend/src/routes/auth.js:38-45 | the id given to a new record differs from every stored id |
| AuthRoutes.Strip | backend/src/routes/auth.js:129 | the client view keeps id, name, e-mail and profile and has no password field |
| AuthRoutes.StripHidesOnlyPassword | backend/src/routes/auth.js:129 | two records have the same client view exactly when they differ at most in the password hash |
| AuthRoutes.Register | backend/src/routes/auth.js:22-74 | any missing or empty field gives 400 "Missing required fields"; a taken address gives 400 "User already exists"; a throwing lookup or save gives 500 "Server error during registration"; in all these the store is unchanged. The store changes exactly when all fields are present, the address is free and the database works, and then exactly one record is appended with the given name, e-mail, profile, the hash of the password and a fresh id. 201 with the signed token for `{id, 1h}` and "User registered successfully" comes exactly when that append happened and signing succeeded; a signing error gives 500 "Error generating token" with the record kept |
| AuthRoutes.RegisterKeepsStoreUnique | backend/src/routes/auth.js:33-45 | registration preserves the invariants that no two records share an address or an id |
| AuthRoutes.RegisterTwiceRefused | backend/src/routes/auth.js:33-36 | once an address is registered, registering it again gives 400 "User already exists" and leaves the store unchanged |
| AuthRoutes.Login | backend/src/routes/auth.js:78-123 | never changes the store; a missing field gives 400 "Missing required fields"; a throwing lookup gives 500 "Server error during login"; an accepted password whose token cannot be signed gives 500 "Error generating token"; 200 only with a token signed for a stored record with that address whose hash accepts the password; every other 400 after the field check is exactly "Invalid credentials" |
| AuthRoutes.LoginSucceedsIff | backend/src/routes/auth.js:89-117 | with unique addresses, login succeeds exactly when a record with that address exists, its hash accepts the password, and the token for its id can be signed |
| AuthRoutes.LoginRejectionUniform | backend/src/routes/auth.js:89-97 | an unknown address and a wrong password produce the identical outcome, 400 "Invalid credentials" with the store unchanged |
| AuthRoutes.RegisterThenLogin | backend/src/routes/auth.js:38-117 | after a registration that stored the account, login with the same address and password succeeds whenever the new id's token can be signed, and returns that token |
| AuthRoutes.GetProfile | backend/src/routes/auth.js:127-136 | never changes the store; a refused token gives 401; a throwing lookup gives 500 "Server error during profile retrieval"; otherwise 200 with the record under that id minus its password, or null when there is none |
| AuthRoutes.VerifyUser | backend/src/routes/auth.js:140-149 | never changes the store; a refused token gives 401; a throwing lookup gives 401 "Authentication failed"; otherwise 200 with `{user}`, the record minus its password or null |
| AuthRoutes.Handle | backend/src/routes/auth.js:22-159 | `POST /register`, `POST /login`, `GET /profile` and `GET /verify` are answered by their handlers; `HEAD /profile` and `HEAD /verify` get the GET handler's status with no body; only `POST /register` can change the store or answer 201; every other method and path gets 404 "Route not found" (no body for HEAD) with the store unchanged |
| ErrorMiddleware.Environment | backend/src/config/environment.js:8 | the environment is `NODE_ENV` when set and non-empty, and "development" otherwise |
| ErrorMiddleware.StatusOf | backend/src/middleware/errorMiddleware.js:4 | the status is the error's `statusCode` when truthy, else 500, and never 0 |
| ErrorMiddleware.MessageOf | backend/src/middleware/errorMiddleware.js:5 | the message is the error's message when non-empty, else "Internal Server Error", and never empty |
| ErrorMiddleware.ErrorHandler | backend/src/middleware/errorMiddleware.js:3-18 | the body is `{status: "error", statusCode, message}` with the HTTP status equal to the body's `statusCode`; the code is non-zero and the message non-empty; a stack is present exactly in development when the error has one, and it is the error's own |
| ErrorMiddleware.NotFound | backend/src/middleware/errorMiddleware.js:20-24 | the forwarded error has status 404 and message "Not Found - " followed by the original URL |
| ErrorMiddleware.NotFoundEnvelope | backend/src/middleware/errorMiddleware.js:3-24 | an unmatched URL ends as a 404 envelope whose message names the URL, with its stack exactly in development |
| ErrorMiddleware.DefaultConfigurationExposesStack | backend/src/middleware/errorMiddleware.js:16 | a property of the handler on its own: with `NODE_ENV` unset, it puts an error's stack trace in the reply; the bootstrap files shown never mount the handler (backend/index.js:29-30 mounts only the auth router) |
| AuthContext.Boot | frontend/src/context/AuthContext.jsx:11-13 | the provider starts signed out, with no user and loading, over whatever storage holds, with nothing in flight |
| AuthContext.StartVerify | frontend/src/context/AuthContext.jsx:24-31 | starting a verification adds exactly that token's request and changes nothing else |
| AuthContext.MountEffect | frontend/src/context/AuthContext.jsx:15-22 | the effect runs once; with a truthy stored token it issues verification of exactly that token and stays loading; otherwise it ends loading and issues nothing; it never touches the session or storage |
| AuthContext.SettleVerify | frontend/src/context/AuthContext.jsx:24-42 | an answer to an in-flight request ends loading and retires that request; success authenticates with the returned user and keeps storage; failure removes the stored token and signs out; an answer to no request changes nothing |
| AuthContext.Login | frontend/src/context/AuthContext.jsx:44-48 | stores the token, authenticates at once, and issues verification of that token, leaving user and loading as they were |
| AuthContext.Logout | frontend/src/context/AuthContext.jsx:50-54 | clears the stored token, signs out, drops the user, leaves loading unchanged and issues no request |
| AuthContext.StepKeepsConsistent | frontend/src/context/AuthContext.jsx:11-54 | every transition keeps "a user is held only while authenticated" and "once mounted, loading only while a verification is in flight" |
| AuthContext.RunKeepsConsistent | frontend/src/context/AuthContext.jsx:11-54 | those two invariants hold after any sequence of events |
| AuthContext.ReachableConsistent | frontend/src/context/AuthContext.jsx:11-54 | in every state reachable from a page load, a non-null user implies `isAuthenticated` |
| AuthContext.LoadingNeverRestarts | frontend/src/context/AuthContext.jsx:13-54 | once loading has ended, no sequence of events sets it again |
| AuthContext.ColdStartWithoutToken | frontend/src/context/AuthContext.jsx:15-22 | with no truthy stored token, mounting settles signed out, not loading, with nothing sent |
| AuthContext.ColdStartVerified | frontend/src/context/AuthContext.jsx:15-35 | with a stored token, mounting sends exactly that token and stays loading; a success then leaves the user authenticated with the returned user, the token kept and loading over |
| AuthContext.ColdStartRejected | frontend/src/context/AuthContext.jsx:15-41 | with a stored token the server refuses, the provider settles signed out, not loading, with the token removed |
| AuthContext.LoginIsOptimistic | frontend/src/context/AuthContext.jsx:44-48 | after `login` the provider is authenticated before any answer, and a provider that had finished loading stays not loading although the new token's verification is in flight |
| AuthContext.StaleSuccessAfterLogout | frontend/src/context/AuthContext.jsx:24-54 | a success answer that arrives after `logout` signs the user back in with no token stored |
| AuthContext.StaleFailureClearsNewToken | frontend/src/context/AuthContext.jsx:36-48 | a failure answer for an earlier token removes a newer token stored by a later `login` and signs out |
| AuthContext.ReadVerifyResponse | frontend/src/context/AuthContext.jsx:26-41 | a non-2xx status rejects; a 2xx reply resolves with the body's `user`, except that a body of JSON `null` makes reading `user` throw and so rejects; a body without a `user` field resolves with none |
| AuthContext.Provide | frontend/src/context/AuthContext.jsx:57-63 | the published value carries the provider's flag, user and loading state |
| AuthContext.UseAuth | frontend/src/context/AuthContext.jsx:69-75 | outside a provider it throws "useAuth must be used within an AuthProvider"; inside it returns the provider's value |
| AppRoutes.ProtectedRoute | frontend/src/App.jsx:14-23 | renders its child exactly when authenticated, and otherwise redirects to `/login` |
| AppRoutes.PublicRoute | frontend/src/App.jsx:26-35 | renders its child exactly when not authenticated, and otherwise redirects to `/dashboard` |
| AppRoutes.GuardsComplementary | frontend/src/App.jsx:14-35 | for any flag, exactly one of the two guards renders its child |
| AppRoutes.Route | frontend/src/App.jsx:44-81 | `/` and every unmatched path redirect to `/login` whatever the flag; a rendered page is the dashboard exactly when authenticated; redirects only go to `/login` or `/dashboard` |
| AppRoutes.LoginAndRegisterGuardedAlike | frontend/src/App.jsx:44-59 | `/login` and `/register` render or redirect under the same condition and redirect to the same place |
| AppRoutes.NavigationSettles | frontend/src/App.jsx:14-81 | after at most two redirects every path reaches a page; an authenticated user always ends on the dashboard; an unauthenticated user never does, and ends on the registration page exactly when that was the path |
| AppRoutes.RootNeedsTwoHops | frontend/src/App.jsx:44-75 | two redirects are sometimes needed: `/` when authenticated goes through `/login` to the dashboard |
| AppRoutes.FirstRenderIgnoresLoading | frontend/src/App.jsx:14-23 | on a reload with a stored token, while still loading, `/dashboard` redirects to `/login`; after a successful verification `/login` redirects to `/dashboard` |
| AppRoutes.Invoke | frontend/src/App.jsx:18 | calling a value that is not a function throws; calling a function returns its result |
| AppRoutes.PublishedFlag | frontend/src/context/AuthContext.jsx:57-63 | the provider publishes `isAuthenticated` as a plain boolean, not a function |
| AppRoutes.ProtectedRouteAsWritten | frontend/src/App.jsx:14-23 | with a plain boolean flag the guard throws; with a function it behaves as `ProtectedRoute` on the function's result |
| AppRoutes.PublicRouteAsWritten | frontend/src/App.jsx:26-35 | with a plain boolean flag the guard throws; with a function it behaves as `PublicRoute` on the function's result |
| AppRoutes.RouteAsWritten | frontend/src/App.jsx:44-81 | with a function-valued flag the written table agrees with the corrected one |
| AppRoutes.AsWrittenNeverRenders | frontend/src/App.jsx:14-81 | as written, in every provider state, each guarded path throws and every other path redirects to `/login`, which throws: no page is ever shown |
| Journey.VerifyReplyRead | frontend/src/context/AuthContext.jsx:26-41 | the provider resolves a reply of the verify endpoint exactly when the token was admitted and the lookup did not throw, and then holds the stored account minus its password, or null for an unknown id |
| Journey.BearerGuard | backend/src/routes/auth.js:140 | the middleware admits a request exactly when its token decodes, and passes on the decoded id |
| Journey.SignUpReachesDashboard | frontend/src/components/Register.jsx:45-52 | a sign-up answered 201 hands its token to `login`, which verifies exactly that token; the verify endpoint answers 200 with the new account minus its password; the provider then holds that account with the token stored, and every path leads to the dashboard |
| Journey.RefusedTokenSignsOut | frontend/src/context/AuthContext.jsx:15-41 | a reload with a token the middleware refuses gets 401 from the verify endpoint and ends signed out, not loading, with the token removed, and no path reaches the dashboard |

## Findings

| source | as written | input that shows it | evidently intended | confidence | as-written member | corrected member |
|---|---|---|---|---|---|---|
| frontend/src/App.jsx:18 | both guards call `isAuthenticated()`, but the provider publishes `isAuthenticated` as a boolean, so the call throws a TypeError | rendering `/login`, `/register` or `/dashboard` inside the provider, in any auth state | the guards read the boolean: `if (!isAuthenticated)` and `if (isAuthenticated)` | high; not executed | AppRoutes.AsWrittenNeverRenders | AppRoutes.NavigationSettles |

`ProtectedRouteAsWritten`, `PublicRouteAsWritten` and `RouteAsWritten` model
the code as it stands. `ProtectedRoute`, `PublicRoute` and `Route` read the
boolean. The route table, the journeys and every guard property use the
corrected guards.

## Left out

- bcrypt and JWT cryptography: hashing, comparison and signing are uninterpreted function values. Token expiry in wall-clock time and clock skew are not modelled. `Journey.SignedTokensDecode` stands for "a fresh token decodes to its signed id".
- The bearer-token middleware (`../middleware/auth`) and the `User` schema are not part of this model. The middleware is reduced to its verdict (`Guard`), and its rejection is a 401 whose body is not modelled (`Denied`). Store lookup is exact matching, with no schema-level normalisation, casting or unique index.
- `backend/src/utils/jwt.js` is not modelled: the router signs tokens inline with a `1h` lifetime and does not use it.
- Request logging in the router, and the logging in the catch-all route and the error handler, are side effects only.
- `backend/index.js`, `backend/src/app.js`, CORS, database connection and process bootstrap are not modelled. The environment enters the error handler as a parameter.
- The `Register`, `Login` and `Dashboard` components are UI, HTTP calls and logging. Their password/confirm comparison and error-message fallback chain are not modelled.
- Concurrency on the server: the model handles requests one at a time, so the race between the duplicate check and the save is not modelled.
- React scheduling and state batching: each transition is one atomic event. Stale-response filtering is not added, because the provider does not do it.
- Request body fields are absent or strings. Other JSON values (numbers, booleans, objects), and their truthiness and coercions, are not modelled.
- Validation.ValidateEmail: lower-casing is modelled for ASCII letters only, because JavaScript's full Unicode case mapping is not modelled.
- Validation.ValidatePassword: the input is a string; the coercion of non-string values by `RegExp.prototype.test` is not modelled.
- AuthRoutes.Handle: paths are matched exactly, because Express's case-insensitive and trailing-slash-tolerant matching is not modelled. Of Express's method handling only HEAD served by a `get` route is modelled; requests answered before the router (a CORS preflight, say) are not part of the router.
- AppRoutes.Route: paths are matched exactly, because React Router's path normalisation is not modelled.
- ErrorMiddleware.ErrorHandler: Express's rejection of out-of-range status codes is not modelled, and `statusCode` is modelled as an optional integer.
- The login and logout functions published by the provider are the transitions `AuthContext.Login` and `AuthContext.Logout`, not fields of `ContextValue`.

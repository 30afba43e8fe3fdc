# F1session core in Dafny

F1session is a Formula 1 companion app. It has two parts:

- an Express backend. It proxies a public F1 statistics API and keeps a user table with registration, login and a profile.
- a React Native client, which keeps its state in Redux slices.

This project models the parts of both that follow clear rules, and proves those rules.

Backend:

- the bearer-token gate in front of `/user`;
- the proxy's route table, with Express's first-match dispatch;
- the path rewrite `fetchFromF1Api` applies before it calls upstream;
- the register and login schemas;
- the auth service and the auth and user controllers, over an in-memory user table.

Client:

- the auth slice: the persisted-token slot, the axios error mapping, the three thunks' decisions and every reducer case;
- the results, drivers and teams slices, including the `byId` record derived from `items`;
- the pure helpers of the driver-detail, register, settings, standings and results screens.

Collaborators the model cannot see are parameters of the operations that use them:

- bcrypt's `hash` and `compare`;
- jsonwebtoken's `sign` and `verify`;
- zod's email check;
- the upstream HTTP call;
- the client's network responses;
- the thunk the settings screen calls;
- the current year.

AsyncStorage is one `TokenSlot` object. Prisma's user table is the `Users.UserTable` class: a sequence of rows plus the autoincrement counter. Points are integers. A missing standings position is a `Rank` above every number.

Module layout follows the source, one module per core file:

- `AuthMiddleware`, `F1Proxy`, `AuthDto`, `AuthService`, `AuthController`, `UserController`;
- `AuthSlice`, `ResultsSlice`, `DriversSlice`, `TeamsSlice`;
- `DriverDetail`, `RegisterScreen`, `SettingsScreen`, `StandingsScreen`, `ResultsScreen`.

The shared modules are:

- `Wrappers` and `Http`: Option, Result and the reply shape;
- `Strings`: JavaScript's split, trim, ASCII lower-casing, includes, filter and UTF-16 length;
- `Users`: the user table;
- `ClientTypes`: the client's record shapes;
- `ById`: the `byId` reduce;
- `StableSort`: `Array.prototype.sort` with a consistent comparator.

Code that changes state in place is modelled as classes whose methods carry `modifies` clauses:

- the reducers;
- the token slot;
- the user table;
- the gate's request and response objects;
- the settings form.

Each method's `ensures` gives its whole new state. Loops become methods with invariants; the `byId` reduce is `ById.BuildIndex`. Pure code becomes functions and lemmas.

## Model

| member | source | states |
|---|---|---|
| AuthMiddleware.BearerToken | backend/src/middlewares/auth.middleware.ts:17-21 | Splitting on " " gives exactly two parts with the first exactly "Bearer" iff the header starts with "Bearer " (case-sensitive) and the rest has no space. The token is that rest, which may be empty. |
| AuthMiddleware.Decide | backend/src/middlewares/auth.middleware.ts:13-31 | A missing or empty header gets 401 "No Authorization header". A malformed one gets 401 "Invalid Authorization format". Every rejection is a 401 with one of the three messages. The request passes iff the token verifies, and then `req.user` is `{id: userId, username}` from the payload. |
| AuthMiddleware.FailedVerification | backend/src/middlewares/auth.middleware.ts:23-30 | A well-formed header whose token fails verification gets 401 "Invalid token". |
| AuthMiddleware.MalformedHeaders | backend/src/middlewares/auth.middleware.ts:17-19 | "bearer x", "Bearer", "Bearer a b" and "Bearer  x" each get 401 "Invalid Authorization format". |
| AuthMiddleware.TokenHandedToVerify | backend/src/middlewares/auth.middleware.ts:21-24 | "Bearer " followed by a space-free token hands exactly that token to verification, so "Bearer " hands over "". |
| AuthMiddleware.Exchange.Authenticate | backend/src/middlewares/auth.middleware.ts:13-31 | On success it sets `req.user`, calls `next` exactly once and writes no response. On rejection it writes the 401 reply and leaves `req.user` and `next` untouched. |
| F1Proxy.StripLeadingSlashes | backend/src/routes/f1api.routes.ts:16 | The result is a suffix of the input with no leading '/', and everything removed was '/'. |
| F1Proxy.CleanPath | backend/src/routes/f1api.routes.ts:16-20 | The result is a suffix of the input path, with a missing path taken as "". A path without "search" (in any case) is only stripped of slashes; otherwise at most one leading "current/" (in any case) is removed. |
| F1Proxy.MissingPathIsEmpty | backend/src/routes/f1api.routes.ts:16 | A missing path is requested as "". |
| F1Proxy.OneCurrentDropped | backend/src/routes/f1api.routes.ts:18-20 | A path that mentions "search" and is behind a "current/" prefix, spelt in any case, loses exactly that prefix. |
| F1Proxy.NotIdempotent | backend/src/routes/f1api.routes.ts:18-20 | "current/current/…search" loses one prefix per application, so applying the rewrite twice differs from applying it once. |
| F1Proxy.FirstMatch | backend/src/routes/f1api.routes.ts:41-127 | The index found is that of a matching route, and no earlier route matches. No index means no route matches. |
| F1Proxy.Dispatch | backend/src/routes/f1api.routes.ts:41-127 | The route chosen matches the request path. |
| F1Proxy.DispatchFirst | backend/src/routes/f1api.routes.ts:41-127 | The route chosen is the first in the registration order whose pattern matches the request path: it matches and no earlier route does. There is no route iff no route in the table matches. |
| F1Proxy.SearchPlan | backend/src/routes/f1api.routes.ts:49-56 | A missing or empty `q` is answered 400 "Missing search query (?q=...)" iff it is missing or empty. Otherwise upstream gets "<resource>/search?q=" + q, with q unencoded. |
| F1Proxy.Forward | backend/src/routes/f1api.routes.ts:26-34 | The upstream body is forwarded unchanged with 200. Any failure is 502 with the fixed message, which does not depend on the path. |
| F1Proxy.Serve | backend/src/routes/f1api.routes.ts:13-127 | There is no reply iff no route matches. A BadRequest plan is answered 400 with the missing-query message, and a Fetch plan is forwarded. |
| F1Proxy.BadRequestIsMissingQuery | backend/src/routes/f1api.routes.ts:49-80 | The only request a handler refuses itself is a search without a query, with the missing-query message. |
| F1Proxy.SearchShadowed | backend/src/routes/f1api.routes.ts:44-49 | Every path the search routes match is also matched by `/drivers/:driverId` or `/teams/:teamId`. |
| F1Proxy.SearchRoutesUnreachable | backend/src/routes/f1api.routes.ts:44-81 | No request path is ever dispatched to either search handler. |
| F1Proxy.SearchPathsDispatch | backend/src/routes/f1api.routes.ts:44-47 | GET /drivers/search reaches the `:driverId` route, and GET /teams/search reaches the `:teamId` route. |
| F1Proxy.SearchPathRewritten | backend/src/routes/f1api.routes.ts:18-20 | "current/<resource>search" is rewritten to "<resource>search", and "<resource>search" is kept. |
| F1Proxy.DriverSearchCaptured | backend/src/routes/f1api.routes.ts:44-47 | GET /drivers/search is answered by forwarding "current/drivers/search", which is requested upstream as "drivers/search", without the query. |
| F1Proxy.TeamSearchCaptured | backend/src/routes/f1api.routes.ts:64-67 | GET /teams/search is answered by forwarding "current/teams/search", requested upstream as "teams/search". |
| F1Proxy.DriversRoute | backend/src/routes/f1api.routes.ts:41-43 | GET /drivers asks upstream for "current/drivers". |
| F1Proxy.DriverRoute | backend/src/routes/f1api.routes.ts:44-47 | GET /drivers/:id asks for "current/drivers/{id}". |
| F1Proxy.TeamsRoute | backend/src/routes/f1api.routes.ts:60-62 | GET /teams asks for "current/teams". |
| F1Proxy.TeamRoute | backend/src/routes/f1api.routes.ts:64-67 | GET /teams/:id asks for "current/teams/{id}". |
| F1Proxy.TeamDriversRoute | backend/src/routes/f1api.routes.ts:69-72 | GET /teams/:id/drivers asks for "current/teams/{id}/drivers". |
| F1Proxy.LastRoutes | backend/src/routes/f1api.routes.ts:86-106 | Each GET /last/<session> asks for "current/last/<session>". The two sprint sessions sit under "current/last/sprint/". |
| F1Proxy.StandingsTeamsRoute | backend/src/routes/f1api.routes.ts:110-112 | GET /standings/teams asks for "current/constructors-championship". |
| F1Proxy.StandingsDriversRoute | backend/src/routes/f1api.routes.ts:113-115 | GET /standings/drivers asks for "current/drivers-championship". |
| F1Proxy.RacesRoutes | backend/src/routes/f1api.routes.ts:119-127 | GET /races, /races/last and /races/next ask for "current", "current/last" and "current/next". |
| F1Proxy.ForwardSameUpstream | backend/src/routes/f1api.routes.ts:16-33 | Two paths that are rewritten to the same upstream path get the same reply. |
| AuthDto.LengthIssues | backend/src/dto/auth.dto.ts:6-7 | There are no issues iff the value is a string whose length in UTF-16 code units is within the bounds. A missing value gives "Required", a value of another JSON type gives "Expected string, received <type>", and a string too short or too long gives exactly the minimum or the maximum message. There is at most one issue. |
| AuthDto.EmailIssues | backend/src/dto/auth.dto.ts:5 | There are no issues iff the email is a string that passes the email check. Otherwise the issue is "Required", the type message or "Invalid email". |
| AuthDto.ParseRegister | backend/src/dto/auth.dto.ts:3-10 | Parsing succeeds iff the email passes, the username is 3 to 30 UTF-16 code units, the password 6 to 100, and neither singular favourite is a value of a non-string type. On success the data is these fields plus the singular favourites when they are strings. On failure the issues are exactly the per-field ones, email first, then username, password and the favourites, and there is at least one. |
| AuthDto.ParseLogin | backend/src/dto/auth.dto.ts:12-15 | Parsing succeeds iff both fields are non-empty strings, with no upper bound. On success the data is the two strings. On failure there are one or two issues. |
| AuthDto.UsernameBoundaries | backend/src/dto/auth.dto.ts:6 | Usernames of 2 and 31 UTF-16 code units are refused; 3 and 30 are accepted by the username rule. |
| AuthDto.PasswordBoundaries | backend/src/dto/auth.dto.ts:7 | Passwords of 5 and 101 UTF-16 code units are refused; 6 to 100 pass the password rule and, with a valid email and username, the whole schema. |
| AuthDto.EmptyRegisterBody | backend/src/dto/auth.dto.ts:3-10 | An empty body reports "Required" three times, in schema order. |
| AuthDto.FavouritesDoNotMatter | backend/src/dto/auth.dto.ts:8-9 | Whether a body parses does not depend on the value of a singular favourite, only on whether it is a value of a non-string type. Such a value (a JSON null, say) makes parsing fail with the type message. The plural lists never matter: they are stripped. |
| AuthDto.AstralUsernameAccepted | backend/src/dto/auth.dto.ts:6 | A username of two characters outside the Basic Multilingual Plane is four UTF-16 code units and so passes the username rule. |
| AuthDto.NullIsNotMissing | backend/src/dto/auth.dto.ts:6-14 | A JSON null is not a missing key: it gives "Expected string, received null" in place of "Required", and a null login identifier fails parsing. |
| Users.FindIndex | backend/src/services/auth.service.ts:34-38 | The position found is that of the first row satisfying the test. No position means no row satisfies it. |
| Users.WithUsernameOrEmail | backend/src/services/auth.service.ts:34-38 | The row found is the earliest row having the identifier as its username or its email. None means no row has it as either. |
| Users.UniqueLookups | backend/src/controllers/user.controller.ts:45-57 | Under the table's constraints, the lookup by email, username or id finds exactly the row holding it. |
| Users.Apply | backend/src/controllers/user.controller.ts:59-69 | Each given field is replaced; the id and every other field keep their values. |
| Users.UserTable.Create | backend/src/services/auth.service.ts:19-28 | A row is added iff neither its email nor its username is taken. The row is appended with the next id, and the counter advances. |
| Users.UserTable.Update | backend/src/controllers/user.controller.ts:69-81 | A missing id changes nothing. Otherwise exactly that row is replaced by the patched row, and every other row is kept. |
| AuthService.Register | backend/src/services/auth.service.ts:11-31 | A taken email fails with 409 "Email already in use", checked before the username, and adds nothing. A taken username fails with 409 "Username already in use" and adds nothing. Otherwise exactly one row is appended, with the email, the username and the hashed password, and it is returned without a password. The singular favourites are discarded. Only the two plural lists are stored, and since the service passes them undefined they take their column default, modelled as empty. |
| AuthService.SingularFavouritesDiscarded | backend/src/services/auth.service.ts:19-28 | The stored row does not depend on the singular favourites of the parsed body, and both of its favourite lists are empty. |
| AuthService.Login | backend/src/services/auth.service.ts:33-49 | Every failure is {401, "Invalid credentials"}. Login succeeds iff the row the lookup returns (modelled as the earliest row matching by username or email) passes `compare`. The session is signed over that same row's id and username and carries that row without its password. |
| AuthService.LoginFailuresAlike | backend/src/services/auth.service.ts:39-44 | An unknown identifier and a wrong password produce identical results. |
| AuthService.LoginByUsername | backend/src/services/auth.service.ts:34-48 | A user whose username is no row's email logs in by username with a token over their own id and username. |
| AuthService.UsernameShadowedByEmail | backend/src/services/auth.service.ts:34-38 | When an older user's email is a newer user's username, that identifier logs in as the older user, with the lookup resolved to the earliest row. |
| AuthController.ErrorReplies | backend/src/controllers/auth.controller.ts:15-32 | The service's 409s and 401 pass through with their messages. An error lacking both status and message becomes 500 with the fallback. |
| AuthController.Register | backend/src/controllers/auth.controller.ts:8-19 | A bad body gets 400 with the issues joined by ", " and no table access. The 409s come in the service's order. Otherwise the reply is 201 with the new user, and exactly that row is appended. |
| AuthController.Login | backend/src/controllers/auth.controller.ts:21-33 | A bad body gets 400 with the joined issues. A failed login gets 401 "Invalid credentials". Otherwise the reply is 200 with the session. No other status occurs. |
| AuthController.EmptyLoginBody | backend/src/controllers/auth.controller.ts:22-23 | A login body with neither field gets 400 "Required, Required". |
| UserController.GetMe | backend/src/controllers/user.controller.ts:6-34 | There is a 401 iff there is no user id. The reply is 404 iff no row has that id. A 200 carries that row without its password. |
| UserController.ConflictIff | backend/src/controllers/user.controller.ts:45-57 | The email conflict arises iff another user holds the given truthy email. The username conflict arises iff there is no email conflict and another user holds the given truthy username. |
| UserController.Conflict | backend/src/controllers/user.controller.ts:45-57 | A conflict is the email message for a truthy email or the username message for a truthy username. Without a truthy email or username there is none. |
| UserController.PatchOf | backend/src/controllers/user.controller.ts:59-67 | For a body without nulls, a key is in `data` iff the body gives it, and a given password is stored as its hash. |
| UserController.OwnDetailsAllowed | backend/src/controllers/user.controller.ts:45-57 | Sending back one's own email and username is never a conflict. |
| UserController.OnlyGivenFieldsWritten | backend/src/controllers/user.controller.ts:59-67 | For a body without nulls, only the keys present in the body are written, and a given password is written as its hash. The id and the absent keys are kept. |
| UserController.EmptyEmailSkipsCheck | backend/src/controllers/user.controller.ts:45-60 | An email of "" skips the conflict check but is still written, so it can break the constraint when another user already holds "". |
| UserController.BuildPatch | backend/src/controllers/user.controller.ts:59-67 | The key-by-key filling of `data` is refused iff some key of the body is a JSON null, which the write cannot store. Otherwise it yields exactly the patch the lemmas describe. |
| UserController.NullEmailFails | backend/src/controllers/user.controller.ts:45-86 | A null email is falsy: with no truthy username there is no conflict, and the body has a null key, which the update answers with 500. |
| UserController.UpdateUser | backend/src/controllers/user.controller.ts:36-88 | Without a user id the reply is 401 and the table is unchanged. A conflict gets its 409 and the table is unchanged. A body with a null key and no conflict gets 500 with the table unchanged. Otherwise exactly the user's row is patched and returned without its password (200). A missing row or a write that breaks a constraint gets 500 with the table unchanged. |
| AuthSlice.Stored | screens/authSlice.ts:8-18 | The slot holds a token iff the token is truthy. An absent or empty token empties the slot. |
| AuthSlice.SaveStoredIdempotent | screens/authSlice.ts:8-18 | Saving what the slot holds leaves it unchanged. |
| AuthSlice.TokenSlot.Save | screens/authSlice.ts:8-18 | After `saveToken` the slot holds exactly `Stored(token)`. |
| AuthSlice.ErrorMessage | screens/authSlice.ts:29-37 | No error gives "Unknown error". A non-empty string body is returned as is. For an object body, the message is its truthy `message`, else its truthy `error`, else its JSON. Without a body, it is the truthy `error.message`, else `String(error)`. |
| AuthSlice.BackendMessageShown | screens/authSlice.ts:29-37 | A backend `{ message }` reply with a non-empty message reaches the client as exactly that message. |
| AuthSlice.RegisterUser | screens/authSlice.ts:50-63 | It fulfils iff the request succeeds, with the response body as the user. Otherwise it is rejected with the error's message. |
| AuthSlice.LoginUser | screens/authSlice.ts:65-87 | A missing token or user is rejected with the fixed message, and the slot is not written. A failed request is rejected with the error's message, slot untouched. Otherwise the slot holds the token and the thunk fulfils with token and user. |
| AuthSlice.FetchMe | screens/authSlice.ts:89-109 | The token is the state's, else the slot's. With no truthy token it is rejected with "No token" and sends no request. Otherwise it sends "Bearer <token>". A failure is rejected with the error's message, and a 401 response also empties the slot. |
| AuthSlice.ClientHeaderAccepted | screens/authSlice.ts:98-100 | The header `fetchMe` sends is accepted by the backend's gate, which hands verification exactly the client's space-free token. |
| AuthSlice.LoadTokenFromStorage | screens/authSlice.ts:39-48 | The thunk returns the slot's token and dispatches `fetchMe` iff that token is truthy. |
| AuthSlice.AuthStore.constructor | screens/authSlice.ts:111-116 | The initial state has no token, no user, status "idle" and no error. |
| AuthSlice.AuthStore.Dispatch | screens/authSlice.ts:122-186 | Each case reducer's in-place writes give exactly `Reduce(old state, action)`, and its `saveToken` calls leave the slot at `SlotAfter`. |
| AuthSlice.Reduce | screens/authSlice.ts:122-186 | The token changes only on setUser, logout, the stored-token load, a fulfilled login, or a session-ending fetchMe rejection that clears it. The user changes only on setUser, logout, a fulfilled login or fetchMe, or that same rejection. Pending cases set loading and clear the error. Rejections set failed with an error, and no other case sets one except the token load, which keeps the old one. |
| AuthSlice.SlotAfter | screens/authSlice.ts:122-186 | The persisted slot changes only on setUser, logout, or a session-ending fetchMe rejection that empties it. A changed slot is empty or holds a non-empty token, and logout always empties it. |
| AuthSlice.LogoutIdempotent | screens/authSlice.ts:128-134 | `logout` resets token, user, status and error and empties the slot. A second logout changes nothing. |
| AuthSlice.PendingTouchesOnlyStatus | screens/authSlice.ts:141-172 | Every pending case sets "loading" and clears the error, and nothing else: not the slot either. |
| AuthSlice.RejectionSetsError | screens/authSlice.ts:149-186 | Every rejection sets "failed" and an error: the payload when there is one. Token, user and slot are kept unless a `fetchMe` rejection ends the session. |
| AuthSlice.FulfilledSessions | screens/authSlice.ts:145-163 | A successful login sets token and user, "succeeded" and no error. A successful registration leaves token and user untouched. |
| AuthSlice.GateMessagesLackWord | backend/src/middlewares/auth.middleware.ts:13-31 | None of the gate's three 401 messages contains "unauthorized" in any case, so none of them ends the session. |
| AuthSlice.HandlerMessageEndsSession | screens/authSlice.ts:178-186 | The profile handler's own "Unauthorized" does end the session. |
| AuthSlice.GateRejectionKeepsToken | screens/authSlice.ts:178-186 | A `fetchMe` rejected by the gate keeps the in-memory token and user (while the thunk has already emptied the slot). |
| AuthSlice.KeptUnlessEnding | screens/authSlice.ts:178-186 | A `fetchMe` rejection whose payload does not say "unauthorized" keeps token, user and slot. |
| ResultsSlice.FetchRejection | screens/resultsSlice.ts:28-47 | Both thunks reject with `err.message ?? "Error"` and no status. |
| ResultsSlice.EmptyMessageKept | screens/resultsSlice.ts:28-74 | `??` keeps an empty `err.message`, so that rejection leaves an empty error. |
| ResultsSlice.ResultsStore.constructor | screens/resultsSlice.ts:13-19 | Both data fields are null, both statuses "idle", and there is no error. |
| ResultsSlice.ResultsStore.ClearSession | screens/resultsSlice.ts:56-60 | It resets session data, session status and error, and keeps the season and its status. |
| ResultsSlice.ResultsStore.RacesPending | screens/resultsSlice.ts:64-67 | It sets "loading" and no error, and touches no session field. |
| ResultsSlice.ResultsStore.RacesFulfilled | screens/resultsSlice.ts:68-71 | It sets "succeeded" and the payload, and leaves the error and the session fields. |
| ResultsSlice.ResultsStore.RacesRejected | screens/resultsSlice.ts:72-75 | It sets "failed" and overwrites the shared error with this rejection's message. |
| ResultsSlice.ResultsStore.SessionPending | screens/resultsSlice.ts:76-79 | It sets session "loading" and no error, and touches no season field. |
| ResultsSlice.ResultsStore.SessionFulfilled | screens/resultsSlice.ts:80-83 | It sets session "succeeded" and the payload, and leaves the error and the season fields. |
| ResultsSlice.ResultsStore.SessionRejected | screens/resultsSlice.ts:84-87 | It sets session "failed" and overwrites the shared error. |
| ClientTypes.RejectionMessage | screens/driversSlice.ts:64 | The error is `payload.message ?? error.message ?? "Error"`. |
| ClientTypes.Find | screens/StandingsScreen.tsx:48 | The result is the first element passing the test; nothing iff no element passes. |
| ById.IndexKeys | screens/driversSlice.ts:34-37 | The record's keys are exactly the items' ids. |
| ById.IndexLast | screens/driversSlice.ts:34-37 | Each entry is the last item with that id. |
| ById.LookupIndexed | screens/driversSlice.ts:72-74 | Looking an id up gives the last item with that id, or nothing iff no item has it. |
| ById.BuildIndex | screens/driversSlice.ts:34-37 | The in-place reduce over `acc` builds exactly `Index(items)`. |
| DriversSlice.FetchDriversRejection | screens/driversSlice.ts:22 | The rejection message is the truthy `err.message`, else "Unknown error", so it is never empty. |
| DriversSlice.DriversStore.constructor | screens/driversSlice.ts:6-11 | Empty items and record, "idle", no error, and a consistent record. |
| DriversSlice.DriversStore.SetDrivers | screens/driversSlice.ts:32-40 | Items are the payload and the record is its index, with "succeeded" and no error. |
| DriversSlice.DriversStore.ClearDrivers | screens/driversSlice.ts:41-46 | It gives the initial state whatever the state was, so it is idempotent. |
| DriversSlice.DriversStore.FetchPending | screens/driversSlice.ts:50-53 | It sets "loading" and no error, and keeps items and record. |
| DriversSlice.DriversStore.FetchFulfilled | screens/driversSlice.ts:54-61 | It rebuilds items and record as `setDrivers` does, but keeps the error. |
| DriversSlice.DriversStore.FetchRejected | screens/driversSlice.ts:62-65 | It sets "failed" and the rejection's message, and keeps items and record. |
| DriversSlice.DriversStore.SelectDriverById | screens/driversSlice.ts:73-74 | In a consistent state the result is the last item with that id, or undefined iff no item has it. |
| TeamsSlice.FetchTeamsRejection | screens/teamsSlice.ts:21-28 | With a response, the message is the body's truthy message, else the status text, and the status is carried along. Without a response it is the truthy `err.message`, else "Network error". |
| TeamsSlice.TeamsRejectionMessages | screens/teamsSlice.ts:21-69 | A backend `{ message }` error reaches the slice as that message. A text body falls back to the status text. |
| TeamsSlice.TeamsStore.constructor | screens/teamsSlice.ts:6-11 | Empty items and record, "idle", no error, and a consistent record. |
| TeamsSlice.TeamsStore.SetTeams | screens/teamsSlice.ts:36-44 | Items are the payload and the record is its index, with "succeeded" and no error. |
| TeamsSlice.TeamsStore.ClearTeams | screens/teamsSlice.ts:45-50 | It gives the initial state whatever the state was, so it is idempotent. |
| TeamsSlice.TeamsStore.FetchPending | screens/teamsSlice.ts:54-57 | It sets "loading" and no error, and keeps items and record. |
| TeamsSlice.TeamsStore.FetchFulfilled | screens/teamsSlice.ts:58-65 | It rebuilds items and record without resetting the error. |
| TeamsSlice.TeamsStore.FetchRejected | screens/teamsSlice.ts:66-69 | It sets "failed" and the message, and keeps items and record. |
| TeamsSlice.TeamsStore.SelectTeamById | screens/teamsSlice.ts:77-78 | In a consistent state the result is the last team with that id, or undefined iff none has it. |
| DriverDetail.DriverOf | screens/DriverDetailScreen.tsx:36 | The driver found is the first driver in the list with that id; nothing iff no driver has it. |
| DriverDetail.TotalPoints | screens/DriverDetailScreen.tsx:68-75 | Absent or empty results total 0. |
| DriverDetail.Wins | screens/DriverDetailScreen.tsx:76-79 | The number of wins is the number of results with finishing position 1, and 0 without results. |
| DriverDetail.Podiums | screens/DriverDetailScreen.tsx:80-85 | The number of podiums is the number of results with a numeric finishing position of at most 3, and 0 without results. |
| DriverDetail.SumConcat | screens/DriverDetailScreen.tsx:68-75 | The total is additive over any split of the results. |
| DriverDetail.SumBounds | screens/DriverDetailScreen.tsx:68-75 | With non-negative points, each race's points, its sprint's included, lie between 0 and the total. |
| DriverDetail.SumNonNegative | screens/DriverDetailScreen.tsx:68-75 | With non-negative points the total is non-negative. |
| DriverDetail.WinsWithinPodiums | screens/DriverDetailScreen.tsx:76-85 | Wins ≤ podiums ≤ the number of results, and both are 0 without results. |
| DriverDetail.Toggle | screens/DriverDetailScreen.tsx:141-143 | A favourite's list becomes exactly the source's single filter: every id other than both of its ids, in its order. A non-favourite gets its `driverId` appended. The button's state always flips. |
| DriverDetail.ToggleTwice | screens/DriverDetailScreen.tsx:141-143 | Adding a favourite and removing it again restores the list. |
| DriverDetail.Reverse | screens/DriverDetailScreen.tsx:264 | Position i of the result holds position n-1-i of the input. |
| DriverDetail.Recent | screens/DriverDetailScreen.tsx:262-265 | The result is the last min(5, n) results, newest first, so the first shown is the final result. |
| RegisterScreen.EmailTestIff | screens/RegisterScreen.tsx:55-56 | The split-based test accepts exactly the language of `/^[^\s@]+@[^\s@]+\.[^\s@]+$/`. |
| RegisterScreen.EmailTest | screens/RegisterScreen.tsx:55-56 | An accepted email holds exactly one '@' and starts with a character that is neither '@' nor whitespace. |
| RegisterScreen.EmailTestSound | screens/RegisterScreen.tsx:55 | Whatever the test accepts is in the pattern's language. |
| RegisterScreen.EmailTestComplete | screens/RegisterScreen.tsx:55 | Whatever is in the pattern's language the test accepts. |
| RegisterScreen.LeadingSpaceRejected | screens/RegisterScreen.tsx:55-56 | An email starting with whitespace never passes. |
| RegisterScreen.Validate | screens/RegisterScreen.tsx:51-62 | The result is null iff every check passes. Each message is returned iff its check is the first to fail, in this order: presence (username and email trimmed, the password not), email format, a password of at least 6 UTF-16 code units, confirmation, a driver, a team. |
| RegisterScreen.UntrimmedEmailRejected | screens/RegisterScreen.tsx:52-74 | An email with a leading space is refused although the trimmed email would be submitted. |
| RegisterScreen.Toggle | screens/RegisterScreen.tsx:149-172 | A present id loses every occurrence, and the other ids keep their counts. An absent id is appended. The id is in the result iff it was not in the input. |
| RegisterScreen.ToggleKeepsNoDuplicates | screens/RegisterScreen.tsx:149-172 | A list without repeats stays without repeats. |
| RegisterScreen.ToggleTwice | screens/RegisterScreen.tsx:149-172 | Toggling an absent id twice restores the list. |
| RegisterScreen.Payload | screens/RegisterScreen.tsx:71-78 | Username and email are trimmed and the password is as typed. Each favourites list is sent iff non-empty. |
| RegisterScreen.ClientChecksLooserThanServer | screens/RegisterScreen.tsx:51-78 | A form the screen accepts can still be refused by the backend, for a username under 3 UTF-16 code units or a password over 100. The plural lists it sends never reach the parsed registration. |
| RegisterScreen.FailureAlert | screens/RegisterScreen.tsx:86 | The alert is the truthy rejection message, else "Registration failed"; never empty. |
| SettingsScreen.InitialFavourites | screens/SettingsScreen.tsx:14-31 | The new key's array if there is one, else the older key's value, else []. |
| SettingsScreen.EmptyArrayWins | screens/SettingsScreen.tsx:14-15 | An empty array under the new key still wins over the older key. |
| SettingsScreen.Switch | screens/SettingsScreen.tsx:65-70 | Switching on appends the id, one element longer, even when it is present. Switching off removes every occurrence and keeps every other id's count. |
| SettingsScreen.SwitchOnRepeats | screens/SettingsScreen.tsx:65-66 | Switching on an id already selected creates a duplicate. |
| SettingsScreen.SaveWritesPayload | screens/SettingsScreen.tsx:51-56 | The saved row carries the payload's trimmed username and email and both lists. An empty password field keeps the stored password. |
| SettingsScreen.SaveOutcome | screens/SettingsScreen.tsx:56 | Without a thunk the call throws the TypeError. With one, the outcome is the thunk's. |
| SettingsScreen.SaveAlwaysFails | screens/SettingsScreen.tsx:56 | As written, every save's outcome is the TypeError, because the `updateUser` imported on line 4 is not exported by the auth slice. |
| SettingsScreen.SettingsForm.constructor | screens/SettingsScreen.tsx:11-22 | The fields start from the user's username and email (or ""), an empty password, the fallback favourites, "idle" and no error. |
| SettingsScreen.SettingsForm.Reload | screens/SettingsScreen.tsx:27-33 | It resets username, email and lists from the user, and leaves password, status and error. |
| SettingsScreen.SettingsForm.ToggleDriver | screens/SettingsScreen.tsx:65-67 | The driver list becomes `Switch` of the old list, and nothing else changes. |
| SettingsScreen.SettingsForm.ToggleTeam | screens/SettingsScreen.tsx:68-70 | The team list becomes `Switch` of the old list, and nothing else changes. |
| SettingsScreen.SettingsForm.Payload | screens/SettingsScreen.tsx:51-54 | Username and email are trimmed, and both lists are sent. The `password` key is present iff the field is non-empty. |
| SettingsScreen.SettingsForm.BuildPayload | screens/SettingsScreen.tsx:51-54 | The field-by-field filling yields exactly `Payload()`. |
| SettingsScreen.SettingsForm.HandleSave | screens/SettingsScreen.tsx:47-63 | It sends the current payload. On success the status is "saved" with the password cleared and no error. On failure it is "error" with `err.message || String(err)`, password kept. Username, email and lists are untouched. |
| StandingsScreen.DriverRowOf | screens/StandingsScreen.tsx:47-54 | There is no stat iff no entry has the driver's id, and then the row is ranked ∞ with 0 points and team "unknown". Otherwise the stat is the first such entry. The rank is its position, or ∞ when undefined. The team is the first team with the stat's teamId, or the placeholder iff none has it. |
| StandingsScreen.TeamRowOf | screens/StandingsScreen.tsx:58-62 | There is no stat iff no entry has the team's id, and then the row is ranked ∞. Otherwise the stat is the first such entry, and the rank is its position, or ∞. |
| StandingsScreen.SortedDrivers | screens/StandingsScreen.tsx:46-55 | The driver rows are the rows built for each driver, reordered, in ascending order of position. |
| StandingsScreen.SortedTeams | screens/StandingsScreen.tsx:57-63 | The team rows are the rows built for each team, reordered, in ascending order of position. |
| StandingsScreen.DriverStandings | screens/StandingsScreen.tsx:46-55 | The sorted rows' drivers are a permutation of the drivers. The rows are in ascending position order, and rows of one position keep the drivers' order. |
| StandingsScreen.TeamStandings | screens/StandingsScreen.tsx:57-63 | The same for teams: a permutation, ascending, with ties in input order. |
| StandingsScreen.UnrankedLast | screens/StandingsScreen.tsx:49-55 | A driver without a stat, or with an undefined position, comes after every driver with a position. |
| StableSort.SortPermutes | screens/StandingsScreen.tsx:55 | The sort is a permutation. |
| StableSort.SortProject | screens/StandingsScreen.tsx:55 | Any projection of the sorted rows is a permutation of the same projection of the input. |
| StableSort.SortSorted | screens/StandingsScreen.tsx:55 | The output is in ascending position order, with every number before ∞. |
| StableSort.SortStable | screens/StandingsScreen.tsx:55 | For each position, the rows with that position keep their input order. |
| StableSort.FiniteFirst | screens/StandingsScreen.tsx:55 | In sorted rows every finite position precedes every ∞. |
| ResultsScreen.InitialSelection | screens/ResultsScreen.tsx:20-24 | The year is the route's, else the current year. The round is the route's, else null. The session is the route's, else "race". |
| ResultsScreen.NoRoundNoSessionFetch | screens/ResultsScreen.tsx:23-35 | Opened without a round, the screen requests no session. |
| ResultsScreen.RoundDefaultsToRace | screens/ResultsScreen.tsx:24-35 | With year and round but no session, the race results are requested. |
| ResultsScreen.Rounds | screens/ResultsScreen.tsx:37 | The rounds are the season's races, else []. |
| ResultsScreen.FirstPresent | screens/ResultsScreen.tsx:99-107 | The result is nothing iff every entry is absent; otherwise it is the first present entry. |
| ResultsScreen.SessionResults | screens/ResultsScreen.tsx:99-107 | There is no list iff there is no data, no races object, or none of the seven session keys is present. A present `results` key always wins. |
| ResultsScreen.SessionResultsFirstPresent | screens/ResultsScreen.tsx:99-107 | The nested `??` is the first present of the seven keys, in their order. |
| ResultsScreen.EarlierEmptyWins | screens/ResultsScreen.tsx:99-111 | An empty list under an earlier key wins over every later key, so the note is shown. |
| ResultsScreen.RowPosition | screens/ResultsScreen.tsx:115 | It is `position ?? gridPosition ?? idx + 1`. |
| ResultsScreen.RowTime | screens/ResultsScreen.tsx:122 | It is `time ?? retired ?? "-"`. |
| ResultsScreen.RowPoints | screens/ResultsScreen.tsx:123 | The text is empty iff points are absent; otherwise it is the points' digits. |
| ResultsScreen.ZeroPointsShown | screens/ResultsScreen.tsx:123 | Zero points still show "0". |
| ResultsScreen.Rows | screens/ResultsScreen.tsx:109-125 | There are no rows iff the note is shown. Otherwise there is one row per result, in order. |
| ResultsScreen.FallbackNumbering | screens/ResultsScreen.tsx:115 | Without positions and grid positions, the rows are numbered 1, 2, … in order. |
| Strings.Trim | screens/RegisterScreen.tsx:52 | The result is at most as long as the input and has no whitespace at either end. |
| Strings.TrimStrips | screens/RegisterScreen.tsx:52 | The result is the input with its leading and trailing whitespace removed: a contiguous part of the input with only whitespace before and after it. |
| Strings.TrimEmptyIff | screens/RegisterScreen.tsx:52 | A string trims to "" iff it is all whitespace. |
| Strings.SplitTwoIff | backend/src/middlewares/auth.middleware.ts:17-18 | `split` gives exactly [a, b] iff the string is a, the separator and b, with no separator in either. |
| Strings.Without | screens/RegisterScreen.tsx:150 | `filter(x => x !== id)` removes every occurrence of id and keeps every other element in its order, and so the count of every other element. |
| Strings.FilterFilter | screens/DriverDetailScreen.tsx:143 | Filtering by one test and then another equals a single filter by both. |
| Strings.FilterCount | screens/DriverDetailScreen.tsx:76-85 | `filter(p).length` is the number of positions whose element passes `p`. |
| Strings.Utf16Length | screens/RegisterScreen.tsx:57 | A string's length in UTF-16 code units lies between its number of characters and twice that, and is 0 only for the empty string. |
| Strings.Utf16LengthBmp | screens/RegisterScreen.tsx:57 | A string of characters inside the Basic Multilingual Plane has as many code units as characters. |

## Left out

- Network and persistence are left out. The model does not include axios, the upstream fetch and its 5-second timeout, Prisma's I/O, AsyncStorage's failures or logging. They are replaced by parameters, the `UserTable` class and the `TokenSlot` class, and the catch blocks for unexpected database errors (`getMe`'s 500) are not modelled.
- bcrypt, jsonwebtoken and zod's email check are abstract functions. Salting, expiry and the token format are not modelled.
- `AuthService.verifyToken` is jsonwebtoken's `verify` itself. It is the `verify` parameter of `AuthMiddleware.Decide` and is not a separate member.
- Concurrency is not modelled: racing registrations against the check-then-insert in `register` are out of scope. Every operation is sequential.
- The `createdAt` and `updatedAt` timestamps are not modelled, in the user table or in the projections.
- F1Proxy.Dispatch: its own contract states only that the chosen route matches. The first-match rule and the no-route case are stated by F1Proxy.DispatchFirst, a separate lemma, so that the per-route lemmas do not carry quantifiers over the whole table.
- Strings.Trim: its own contract states the length bound and the ends. That the result is the input with only surrounding whitespace removed is the separate lemma Strings.TrimStrips, kept apart so callers of `trim` do not carry it.
- Strings.Lower: `toLowerCase` is modelled for ASCII letters only. Other letters are kept as they are. (The whitespace `trim` removes is ECMAScript's full WhiteSpace and LineTerminator set.)
- AuthService.Login: `findFirst` without an `orderBy` leaves the order to the database. The model resolves it to the earliest inserted row, and so does AuthService.UsernameShadowedByEmail.
- AuthService.Register: the plural favourite lists are left `undefined` by the service, so the row takes their column default. That default is not part of this model and is taken to be the empty list.
- AuthService.Register: the singular `favoriteDriverId` and `favoriteTeamId` the schema accepts are not stored anywhere. The row has no such columns and the service writes the plural keys instead, so whatever the client chose at registration is lost (see AuthService.SingularFavouritesDiscarded).
- UserController.UpdateUser: a JSON null is modelled, but a value of another wrong JSON type (a number for the email, say) is not. Every key of the body is a string, a null or absent.
- AuthDto.ParseRegister: the request body is always a JSON object. The plural favourite keys are modelled as absent or a list of strings; any value they hold is stripped all the same.
- F1Proxy.Serve: the request path arrives already split into segments. URL decoding, trailing slashes and Express's other matching options are not modelled.
- DriverDetail.Toggle: the dispatch of `updateUser` that follows the toggle (screens/DriverDetailScreen.tsx:144) is not modelled. Only the new list is. As in the settings screen's finding below, that name is not exported by the auth slice, so the press fails at that call and the list is never saved.
- DriverDetail.TotalPoints: points are integers. JavaScript's `|| 0` turning a NaN total into 0 is not modelled.
- StandingsScreen.DriverRowOf: a `null` position, which JavaScript's subtraction treats as 0, is not distinguished from a number. The placeholder stat's display fields (empty names, `teamImgUrl`) are not modelled.
- The standings' rendered text (the position shown as "-" and the names) is not modelled.
- ResultsScreen.InitialSelection: the current year is a parameter in place of `new Date().getFullYear()`. `selectedDate` is left out, as it depends on `Date`.
- React rendering, keys, styles, navigation and alerts are not modelled. The data fetched by each screen's effects is an input.
- The year list, session buttons and round buttons of the results screen are not modelled either: the screen's state is taken as given.
- `registerUser` and `loginUser` are modelled from the thunk's side. Whether the thunk's promise rejects because `rejectWithValue` was called or because the payload creator threw is not distinguished: either way the action carries the payload or the error message.

## Findings

| source | as written | input that shows it | evidently intended | confidence | as-written member | corrected member |
|---|---|---|---|---|---|---|
| screens/SettingsScreen.tsx:56 | The screen imports `updateUser` from the auth slice, which exports no such thunk. Calling it throws a TypeError before anything is dispatched, so every save ends in "error" and the password field is kept. | Any save, for example username "a", email "a@b.c", empty password. | A profile-update thunk that sends the payload; "saved" with the password cleared when it fulfils. | not executed | SettingsScreen.SaveAlwaysFails | SettingsScreen.SettingsForm.HandleSave |

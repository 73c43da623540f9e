# Cookie-based JWT sessions: a verified model

This project models the session lifecycle of a Next.js frontend talking to a
Django REST backend, where the session lives in two HttpOnly cookies:
`access_token` (a short-lived JWT) and `refresh_token`. It models both ends:

- **Backend** (`backend/users`, `backend/backend/settings.py`):
  - the user table and its manager (`create_user`, `create_superuser`, delete, update);
  - the e-mail authentication backend and the order in which Django tries backends;
  - the cookie authenticator `CookieJWTAuthentication`;
  - the serializers' field rules and `validate` hooks;
  - the route table;
  - the cookie attributes derived from `DEBUG`;
  - the six API views. Each view builds a response and changes its cookie jar in place. Registration, profile update and deletion change the user table. Each view runs the way the REST framework dispatches it: authenticators, then permissions, then the handler, with escaped exceptions rendered as error replies.
- **Frontend** (`frontend/src`):
  - the API client's operations (`authApi.ts`): the request each sends, and how it turns the transport's answer into a value or an error;
  - the session provider (`AuthProvider.tsx`), a class with three state cells and its two transitions;
  - the request gate (`middleware.ts`): path bypass, one credential probe, and the shared client's `Cookie` header it overwrites.

The `Flows` module joins the two ends:

- every client path reaches the route meant for it, except the password change;
- a refresh the API grants passes the client's shape check;
- after a registration, its email and password log in;
- after a login, the cookies it set authenticate the next request;
- after a profile update, the next read returns the updated row;
- the gate and the provider agree with the backend's authenticator.

Operations that change state in the source are methods on classes:

- `Views.Response` holds the cookie jar;
- `Models.UserStore` holds the table;
- `AuthProvider.Provider` holds the session cells;
- `Middleware.ApiClient` holds the client's shared header.

Each such method is proved equal to a pure function (`Views.Serve`, `Models.CreateUserOutcome`, `AuthProvider.AfterRefresh`, `Middleware.Decide`, …). The properties are proved about those functions.

Library services are oracles, passed in as function fields of `Framework.Env`:

- JWT issue and validation;
- password hashing;
- e-mail syntax and normalisation;
- absolute-URI building.

The axios transport is a `Transport` value given to each client call.

The request gate makes exactly one probe, chosen by which cookie is present.
A failed access probe redirects at once, even when the request also carries a
refresh cookie that would succeed:

- `Middleware.Decide` is the gate as the code runs it.
- `Middleware.FallbackDecide` is a gate that tries the refresh cookie after a failed access probe. It is a point of comparison, not a correction: the refresh view never checks that the user is still active, so such a gate would admit users the access probe rejects.
- `Middleware.NoRefreshFallback` states exactly when the two differ.

## Model

| member | source | states |
|---|---|---|
| Settings.Debug | backend/backend/settings.py:14 | `DEBUG` is on exactly when the environment text is `True`; `true`, `1`, empty or unset leave it off |
| Settings.Cookies | backend/backend/settings.py:183-189 | session cookies are always HttpOnly; Secure is the negation of `DEBUG`; SameSite is Lax under `DEBUG` and None otherwise, and SameSite=None always comes with Secure; the access cookie lives exactly the access-token lifetime (15 min); the refresh cookie lives a week less than the refresh token's 14 days |
| Models.CreateUserOutcome | backend/users/models.py:36-55 | an empty email is refused first; a missing or empty password is refused next; a user is created exactly when both are present and the normalised email and the username are free; the new row carries the normalised email, a hash that checks against the password, the given names and flags, and is active |
| Models.CreateSuperuserOutcome | backend/users/models.py:57-72 | the staff and superuser checks come before the email and password guards; an absent flag defaults to True; any supplied value other than True is refused; otherwise the outcome is `create_user` with both flags set |
| Models.CreateUserKeepsUnique | backend/users/models.py:77-78 | appending a created user keeps keys ascending and emails and usernames unique |
| Models.WithoutKeepsUnique | backend/users/views.py:276 | deleting a row keeps the table's uniqueness constraints |
| Models.ReplaceKeepsUnique | backend/users/views.py:253 | saving an updated row that clashes with no other row keeps the table's constraints |
| Models.ReplaceKeepsBelow | backend/users/views.py:253 | saving an updated row whose key is below the next key keeps every key below it |
| Models.UserStore.CreateUser | backend/users/models.py:36-55 | the manager's step-by-step `create_user` returns exactly `CreateUserOutcome`; the table grows by that one row only on success; the constraints are preserved |
| Models.UserStore.CreateSuperuser | backend/users/models.py:57-72 | the step-by-step `create_superuser` returns exactly `CreateSuperuserOutcome`, stores only the created row, and advances the key counter by one exactly on success |
| Models.Without | backend/users/views.py:276 | the table after `user.delete()` holds exactly the rows whose key differs, and is no longer than before; `WithoutKeepsUnique` shows it keeps the table constraints |
| Models.UserStore.Delete | backend/users/views.py:276 | `user.delete()` removes exactly the rows with that key and keeps the constraints |
| Models.Replace | backend/users/views.py:253 | the table after `save()` of an update: same length, the row with the saved key replaced and every other row kept in place; `ReplaceKeepsUnique` and `ReplaceKeepsBelow` show it keeps the constraints |
| Models.UserStore.Update | backend/users/views.py:253 | `save()` of an update replaces the row with the same key, changes nothing else, and keeps the constraints |
| Models.Str | backend/users/models.py:101-102 | `__str__` is the email; its contract only names that field, and what it means (the string tells rows apart) is proved by `Models.StrIdentifiesUser` |
| Models.StrIdentifiesUser | backend/users/models.py:101-102 | two rows of one table show the same display string (their email) only if they are the same row |
| Models.AvatarUrl | backend/users/models.py:104-107 | the default picture `/default-avatar.png` exactly when no avatar is set; otherwise exactly `MEDIA_URL` followed by the stored file name |
| Backends.FirstWhere | backend/users/backends.py:18 | `filter(...).first()` finds the first row in key order that matches, or reports that none does |
| Backends.FirstWithEmail | backend/users/backends.py:18 | `filter(email=...).first()`: a found row is in the table and has that email, and nothing is found exactly when no email is given or no row has it |
| Framework.CheckPassword | backend/users/backends.py:20 | `check_password` fails for a missing password and otherwise holds exactly when the password's hash is the stored digest; its contract only names the hashing oracle, and the login it decides is proved by `Flows.NewRowLogsIn` |
| Backends.EmailAuthenticate | backend/users/backends.py:12-22 | returns a user exactly when the first row with that email exists and the password checks against it; an unknown or missing email yields nothing; no error is ever raised |
| Backends.GetUser | backend/users/backends.py:24-26 | returns the row with that key, or nothing exactly when no row has it |
| Backends.Authenticate | backend/backend/settings.py:126-129 | Django's `authenticate` returns the answer of the first configured backend that finds a user (every earlier backend found nothing), and nothing exactly when every backend finds nothing |
| Backends.ModelAuthenticate | backend/backend/settings.py:128 | Django's `ModelBackend` looks the user up by the e-mail login field: it returns a user exactly when the e-mail backend would and that user is active |
| Backends.ConfiguredAuthenticateIsEmailBackend | backend/backend/settings.py:126-129 | with the e-mail backend tried before the model backend, every login is decided by the e-mail backend alone |
| Authentication.TokenUser | backend/users/authentication.py:41 | a validated token authenticates the active row its `user_id` names; a missing row is rejected with "User not found" and the JWT library's code `user_not_found`, an inactive one with "User is inactive" and `user_inactive` |
| Authentication.Authenticate | backend/users/authentication.py:13-41 | a missing or empty access cookie is anonymous, not an error; a token the JWT layer refuses is rejected with "Invalid token: " and the reason, and no code; a valid token yields its user and its claims |
| Authentication.OnlyAccessCookieMatters | backend/users/authentication.py:31 | two requests that agree on the access cookie are authenticated alike, whatever the refresh cookie or other cookies hold |
| Authentication.IssuedAccessTokenAuthenticates | backend/users/authentication.py:36-41 | an access token the JWT layer issued for an active row in the table authenticates exactly that row |
| Serializers.FieldErrors | backend/users/serializers.py:21 | a missing field fails only when required and the form is not partial; an empty one only when blanks are refused; a filled one fails uniqueness, max length, min length, the null-character check or e-mail syntax exactly when it breaks that rule, with uniqueness reported first and e-mail syntax last, as the field's validators run |
| Serializers.FilledErrors | backend/users/serializers.py:21-25 | the validators of a filled text field: each error is reported exactly when its check fails (uniqueness, max length, min length, a null character, e-mail syntax), never `required` or `blank`; uniqueness comes first and e-mail syntax last |
| Serializers.FormErrors | backend/users/serializers.py:25 | the form's errors name only declared fields, each with a non-empty error list, and name every field that fails; when the form names each field once, a field is named exactly when it fails and holds exactly its own errors |
| Serializers.FormsHaveDistinctNames | backend/users/serializers.py:25 | the registration, login and profile forms each name every field once |
| Serializers.ValidateRegistration | backend/users/serializers.py:15-25 | a registration is refused exactly when some field fails, with every failing field's errors; an accepted one holds exactly the submitted email, username, password and names (a missing name as ""), with a well-formed, free email, a non-empty free username and a password of at least 8 characters |
| Serializers.CreateFields | backend/users/serializers.py:27-35 | `create` passes the username, defaults a missing first or last name to "", and sets neither staff nor superuser |
| Serializers.ValidRegistrationCreates | backend/users/serializers.py:27-35 | a validated registration is stored by `create_user` with that username and a password that checks, provided the normalised email is free |
| Serializers.LoginValidate | backend/users/serializers.py:49-70 | a missing or empty email or password gives "Email and password is required" before any backend is asked; otherwise "Invalid credentials" when the e-mail backend finds no user; on success, tokens issued for a row with that email whose password checks |
| Serializers.ValidateLogin | backend/users/serializers.py:46-70 | field validation runs first: its errors are reported exactly when the declared email or password field fails; once the fields pass, `validate` decides: its message is the rejection and its tokens the result |
| Serializers.CredentialsRequiredUnreachable | backend/users/serializers.py:61-62 | the "required" branch of `validate` never fires through `is_valid`, because the declared fields already refuse a missing or blank value |
| Serializers.RefreshValidate | backend/users/serializers.py:82-99 | any token error becomes `InvalidToken` with its message; a token whose user is gone is a separate, uncaught failure; on success, an access token derived from the submitted token and a new refresh token for the same user |
| Serializers.Represent | backend/users/serializers.py:109-116 | a user is exposed as exactly `id`, `email`, `username`, `first_name`, `last_name`, `avatar`, with no password, each holding the row's own value; the avatar is null exactly when none is set, and is otherwise its media URL, made absolute when the request is known |
| Serializers.GetAvatar | backend/users/serializers.py:118-124 | nothing without a request; otherwise the absolute URL of the model's avatar URL, with the default picture when no avatar is set |
| Serializers.GetAvatarIsNotEmitted | backend/users/serializers.py:109 | the response never carries `get_avatar`'s default picture: for a user without an avatar the emitted field is null |
| Serializers.AppliedFits | backend/users/serializers.py:102-116 | a profile update that passes validation clashes with no other row's email or username |
| Serializers.ValidateUpdate | backend/users/views.py:251 | a partial update is refused exactly when a given field or the avatar fails, with exactly those errors; an accepted one keeps the key, the password and the flags, takes each given email, username and name and keeps the others, stores an uploaded file under `avatars/` by the storage's valid form of its name, clears the avatar on a blank value, keeps it when none is given, and clashes with no other row |
| Serializers.AvatarErrors | backend/users/serializers.py:109 | the avatar image field passes exactly when no value is given, the value is blank (null allowed), or the upload has a name, some content, decodes as an image and has an image extension; otherwise exactly one error: `invalid` for text that is not a file, then `no_name`, `empty`, `invalid_image`, `invalid_extension`, in that order of checks |
| Serializers.UpdateErrors | backend/users/serializers.py:109-116 | the update's errors are empty exactly when both the form fields and the avatar pass; `avatar` is named exactly when the avatar fails and holds its error; every failing form field is named with its own errors |
| Urls.ResolveIn | backend/users/urls.py:12-19 | a path resolves to the view of a route whose pattern equals it, and to nothing exactly when no pattern equals it |
| Urls.RoutesAreVersioned | backend/users/urls.py:12-19 | there are exactly six routes, each starting with `v1/` and ending with `/` |
| Urls.RoutesAreDistinct | backend/users/urls.py:13-18 | the route patterns are pairwise distinct, so every pattern resolves to its own view |
| Urls.RouteNamesAreDistinct | backend/users/urls.py:13-18 | the route names are pairwise distinct |
| Urls.UserRoutes | backend/users/urls.py:17-18 | `v1/users/` is the current-user view and `v1/users/delete/` the account deletion |
| Urls.NoSlashNoRoute | backend/users/urls.py:17 | matching is exact: `v1/users` without its slash resolves to nothing |
| Views.Response.SetCookie | backend/users/views.py:96-103 | `set_cookie` writes one cookie with its value and attributes and leaves status, body and the other cookies as they were |
| Views.Response.DeleteCookie | backend/users/views.py:216-217 | `delete_cookie` overwrites one cookie with an empty, expired one and leaves the rest |
| Views.ErrorReply | backend/users/serializers.py:93-94 | an escaped exception adds no cookie; an authentication failure, a rejected token or a refused permission is 401 when the view has an authenticator and 403 when it has none (login, registration); a rejected refresh token carries its message and the code `token_not_valid`; any other authentication failure renders its message under `detail`, with its code under `code` exactly when it was raised with one |
| Views.ErrorsJson | backend/users/views.py:49 | the `errors` object names exactly the failing fields, each with the code of each of its errors, in order |
| Views.Serve | backend/backend/settings.py:134-142 | dispatch (authenticators, then permission classes, then the handler for the method) always produces a reply and leaves a well-formed table |
| Views.RegistrationKeepsTable | backend/users/views.py:43 | saving a new registration keeps keys ascending, below the next key, and emails and usernames unique |
| Views.UpdateKeepsTable | backend/users/views.py:253 | saving a profile update keeps keys ascending, below the next key, and emails and usernames unique |
| Views.StepKeepsTable | backend/users/views.py:43 | every handler, including registration, update and deletion, leaves keys ascending, below the next key, and emails and usernames unique |
| Views.Register | backend/users/views.py:29-51 | the handler as it runs (build a response, save through the manager) gives the reply and table `RegistrationStep` describes, and keeps the table valid |
| Views.SetSessionCookies | backend/users/views.py:96-112 | the two `set_cookie` calls add exactly the access and refresh cookies with the configured attributes and ages |
| Views.Login | backend/users/views.py:65-114 | the login handler returns what `LoginStep` describes: the field or credential error, or 200 with exactly the two session cookies |
| Views.Refresh | backend/users/views.py:127-188 | the refresh handler returns what `RefreshStep` describes: 400 without a refresh cookie, the token error, or 200 with both cookies rewritten |
| Views.Logout | backend/users/views.py:198-218 | the logout handler answers 200 and expires both session cookies |
| Views.UpdateProfile | backend/users/views.py:247-254 | the update handler gives the reply and table `UpdateStep` describes and keeps the table valid |
| Views.DeleteAccount | backend/users/views.py:265-280 | the delete handler removes the user's row, keeps the table valid and answers 204 with the success body |
| Views.Dispatch | backend/users/views.py:19-280 | running any view against the users table gives exactly the reply and the new table that `Serve` describes |
| Views.RegistrationReplies | backend/users/views.py:41-51 | 201 exactly when the form is valid and a row was added; that row is the only change, has the next key, is active and neither staff nor superuser, holds the normalised submitted email (free before), the submitted username and names and no avatar, and its hash checks against the submitted password; no cookie is set |
| Views.RegistrationRejected | backend/users/views.py:48-51 | invalid input gets 400 with `success: false` and the failing fields under `errors`, sets no cookie and saves nothing |
| Views.SessionCookieAttributes | backend/users/views.py:96-112 | login and refresh write exactly the two session cookies with the token values, HttpOnly, Secure iff not `DEBUG`, SameSite from `DEBUG`, 15 minutes for access and 7 days for refresh |
| Views.LoginSetsBothCookies | backend/users/views.py:84-114 | a valid login answers 200 and sets exactly the two session cookies with the issued tokens; an invalid one sets no cookie: 400 for a field error, 403 for rejected credentials; the table is untouched |
| Views.RefreshReplies | backend/users/views.py:125-188 | the cookie authenticator runs first, so a rejected access cookie gives 401 whatever the refresh cookie holds; otherwise a missing or empty refresh cookie gives 400 with the fixed error and no cookie; an invalid refresh token gives 401 with no cookie; a valid one gives 200 with `success: true` and both cookies rewritten |
| Views.LogoutNeedsSession | backend/users/views.py:191-218 | logout keeps the default `IsAuthenticated`: it answers 200 and expires both cookies exactly when the access cookie authenticates, and 401 with no cookie otherwise |
| Views.DeleteStep | backend/users/views.py:263-280 | an authenticated DELETE leaves exactly `Without(users, key)` and answers 204 with the success body |
| Views.RejectedServe | backend/users/authentication.py:36-41 | a request whose credentials the authenticator refuses gets the rendered failure, with its message and code, and the table is unchanged |
| Views.DeleteRemovesUser | backend/users/views.py:263-280 | an authenticated delete removes exactly that user's row, keeps every other row and answers 204; without a session, 401 and nothing is removed |
| Views.ProfileGet | backend/users/views.py:230-245 | an authenticated GET returns the user's representation with absolute avatar URLs and changes nothing |
| Views.ProfilePutIsPartial | backend/users/views.py:247-254 | an authenticated PUT with no fields is accepted and leaves the table as it was |
| Views.EmptyUpdateChangesNothing | backend/users/views.py:251-254 | a partial update with no fields and no upload replies with the unchanged user and leaves the table as it was |
| Views.EmptyPartialFormPasses | backend/users/views.py:251 | with `partial=True` a form without fields has no errors |
| Views.ReplaceWithItself | backend/users/views.py:253 | saving a row unchanged leaves the table as it was |
| Views.OnlySessionViewsWriteCookies | backend/users/views.py:96-217 | only login, refresh and logout replies carry cookies, and only the two session cookies |
| Views.HandlerCookies | backend/users/views.py:96-217 | a handler's own reply carries cookies only for login, refresh and logout, and only the two session cookies |
| Views.UnhandledMethodIs405 | backend/users/views.py:227-265 | a method a view has no handler for gets 405 exactly when the request passed authentication and the permission check, and never changes the table |
| Views.Metadata | backend/users/views.py:221-228 | OPTIONS answers with the view's name, the JSON and HTML renderers, and the media types its parsers accept (multipart and form for the profile view) |
| Views.OptionsAnswersMetadata | backend/users/views.py:19-280 | every view answers OPTIONS with 200 and its metadata exactly when the request passed authentication and the permission check, and changes nothing |
| Views.HeadIsGet | backend/users/views.py:230-245 | the profile view answers HEAD exactly as it answers GET and changes nothing |
| Views.ServeHandled | backend/users/views.py:19-280 | a request that passes authentication and the permission check, with a method the view handles, gets its handler's reply, or the handler's escaped error rendered |
| Views.RunHandler | backend/users/views.py:19-280 | the handler dispatch picks for the method, run on the table, gives what `HandlerStep` describes and keeps the table valid |
| Views.ViewHandlerCookies | backend/users/views.py:96-217 | a view's own handler sets cookies only for login, refresh and logout, and only the two session cookies |
| Views.ProfilePutReplies | backend/users/views.py:247-254 | an authenticated PUT that fails validation answers 400 with the failing fields and saves nothing; an accepted one saves exactly the validated row in place of the user's and answers 200 with it |
| AuthApi.CallOf | frontend/src/services/backend-api/authApi.ts:74-76 | `getUser` is the only GET and always sends `Cache-Control: no-store`; `updateProfile` is the only PUT and sends a multipart form; `deleteAccount` is the only DELETE; every other operation is a POST without extra headers |
| AuthApi.Prop | frontend/src/services/backend-api/authApi.ts:17 | a property access is defined exactly on objects that have the key, and gives its value |
| AuthApi.PassThrough | frontend/src/services/backend-api/authApi.ts:34-37 | an operation without error handling resolves exactly when the transport delivers, with the delivered body, and otherwise rethrows the transport's own error |
| AuthApi.RegisterMessage | frontend/src/services/backend-api/authApi.ts:17-25 | the "already in use" message exactly when the body has a truthy top-level `email` or `username`, the generic retry message otherwise |
| AuthApi.Register | frontend/src/services/backend-api/authApi.ts:9-29 | success resolves with the body; `register` throws exactly for an HTTP error with a truthy body, with the message its top-level keys select; every other failure is swallowed and resolves with `undefined`; the transport's own error never escapes |
| AuthApi.RegisterMessageCorrected | frontend/src/services/backend-api/authApi.ts:17 | the "already in use" message exactly when `email` or `username` is truthy at the top level or under `errors` |
| AuthApi.RegisterCorrected | frontend/src/services/backend-api/authApi.ts:9-29 | as `register`, with the corrected message; wherever the as-written call says "already in use", so does this one |
| AuthApi.RefreshToken | frontend/src/services/backend-api/authApi.ts:103-114 | resolves with the body unchanged exactly when `success` is `true`; a body without a boolean `success` throws "Invalid response format."; `success: false` throws the server's message, or "Failed to refresh token." when it is falsy; a transport error propagates |
| AuthApi.ErrorsPropagate | frontend/src/services/backend-api/authApi.ts:57-61 | every operation but `register` and `refreshToken` resolves exactly when the transport delivers and otherwise throws the transport's error unchanged |
| AuthApi.RefreshResolvesOnlyOnSuccess | frontend/src/services/backend-api/authApi.ts:107-113 | a refresh that resolves had a delivered, well-formed body whose `success` is `true` |
| AuthApi.RegisterThrowsOnlyForBodies | frontend/src/services/backend-api/authApi.ts:13-28 | `register` as written throws only for an HTTP error that carries a truthy body |
| AuthApi.Settle | frontend/src/services/backend-api/authApi.ts:9-117 | each client operation as written: a delivered body resolves every operation but `refreshToken` with that body; a resolved value is always the delivered body, or nothing for a `register` failure it swallowed; every operation but `register` resolves only on delivery |
| AuthProvider.AfterRefresh | frontend/src/context/AuthProvider.tsx:21-33 | after `refreshUser`, signed in exactly when `getUser` succeeded, with its payload as the user; any failure clears the user; `loading` is off either way |
| AuthProvider.AfterClear | frontend/src/context/AuthProvider.tsx:35-38 | `clearAuth` clears the user and the signed-in flag and leaves `loading` alone |
| AuthProvider.ClearIsIdempotent | frontend/src/context/AuthProvider.tsx:35-38 | clearing twice is clearing once |
| AuthProvider.LoadingStaysOff | frontend/src/context/AuthProvider.tsx:30-31 | once `loading` is off, no sequence of refreshes and clears turns it back on |
| AuthProvider.LoadingUntilFirstRefresh | frontend/src/context/AuthProvider.tsx:19 | starting with `loading` on, it stays on exactly as long as only clears have happened |
| AuthProvider.RunKeepsConsistent | frontend/src/context/AuthProvider.tsx:21-38 | a signed-out session holds no user, after any sequence of refreshes and clears |
| AuthProvider.LastRefreshDecides | frontend/src/context/AuthProvider.tsx:21-38 | after a refresh followed by clears, `loading` is off and the session is signed in exactly when that refresh succeeded and no clear followed |
| AuthProvider.ClearsKeepSignedOut | frontend/src/context/AuthProvider.tsx:35-38 | clears never sign a session in |
| AuthProvider.UseAuth | frontend/src/context/AuthProvider.tsx:51-57 | `useAuth` throws the fixed message exactly when there is no provider, and otherwise returns the provider's value |
| AuthProvider.Provider.constructor | frontend/src/context/AuthProvider.tsx:17-19 | a new provider starts with no user, signed out and loading, not yet mounted |
| AuthProvider.Provider.RefreshUser | frontend/src/context/AuthProvider.tsx:21-33 | the setters of `refreshUser` leave the cells exactly as `AfterRefresh` says |
| AuthProvider.Provider.ClearAuth | frontend/src/context/AuthProvider.tsx:35-38 | the setters of `clearAuth` leave the cells exactly as `AfterClear` says |
| AuthProvider.Provider.Mount | frontend/src/context/AuthProvider.tsx:40-42 | the mount effect runs once and runs exactly one `refreshUser` |
| AuthProvider.MountProvider | frontend/src/context/AuthProvider.tsx:16-42 | a freshly mounted provider has run `refreshUser` exactly once and holds what that refresh found |
| Middleware.ProbeFor | frontend/src/middleware.ts:18-32 | the access cookie is probed exactly when it is non-empty; the refresh cookie exactly when the access cookie is absent or empty and the refresh cookie is not; each probe carries its cookie's value |
| Middleware.Gate | frontend/src/middleware.ts:8-38 | the gate as it runs (a loop over the static prefixes, then the probes) returns the verdict `Decide` describes, and overwrites the shared client's `Cookie` header with only the probed cookie, or leaves it alone when there is no probe |
| Middleware.BypassIgnoresCookies | frontend/src/middleware.ts:5-16 | a path under `/_next` or `/favicon.ico`, or exactly `/auth/login` or `/auth/register`, is let through whatever the cookies and probes |
| Middleware.PublicMatchIsExact | frontend/src/middleware.ts:13 | public matching is exact: `/auth/login/` is not public and without credentials is redirected |
| Middleware.ProbeOutcomes | frontend/src/middleware.ts:21-37 | past the bypass, a valid access probe lets the request through; a failed one redirects at once; the refresh cookie alone decides only without an access cookie, letting through exactly on a successful refresh; no cookies redirect; every redirect goes to `/auth/login` |
| Middleware.AccessProbeIgnoresRefresh | frontend/src/middleware.ts:22-26 | with an access cookie the refresh call's outcome never matters |
| Middleware.NoRefreshFallback | frontend/src/middleware.ts:21-37 | the gate and a gate that tries the refresh cookie after a failed access probe differ exactly when a failed access probe comes with a refresh cookie that would succeed; whatever the gate lets through, the other gate does too |
| Flows.Received | frontend/src/services/backend-api/authApi.ts:14-15 | a 2xx reply is delivered with its body; any other status is an HTTP error carrying the status and the body |
| Flows.ClientPathsRoute | backend/users/urls.py:12-19 | every client operation but the password change sends its path to the mount point plus one route pattern, that route's view is the one meant for it, and the view handles the client's method |
| Flows.EntryPaths | frontend/src/services/backend-api/authApi.ts:11-35 | the register and login paths are the mount point followed by the register and login route patterns (register without the leading slash) |
| Flows.SessionPaths | frontend/src/services/backend-api/authApi.ts:43-105 | the logout and refresh paths are the mount point followed by their route patterns |
| Flows.ProfilePaths | frontend/src/services/backend-api/authApi.ts:48-117 | the profile read, update and delete paths are the mount point followed by the users and users/delete route patterns |
| Flows.PasswordChangeHasNoRoute | frontend/src/services/backend-api/authApi.ts:127 | the password-change path ends with none of the six route patterns, so no route of the table serves it |
| Flows.RefreshReplyPassesClientCheck | backend/users/views.py:166-169 | a refresh the API grants (200) makes `refreshToken` resolve with the reply body unchanged; any other reply makes it throw |
| Flows.TakenEmailIsReported | backend/users/models.py:77 | registering with an email already in the table is refused with an error on the `email` field |
| Flows.RegisterAsWrittenHidesTakenData | frontend/src/services/backend-api/authApi.ts:17 | as written, `register` never shows the "already in use" message for any reply of the registration view |
| Flows.AcceptedRegistrationReply | backend/users/views.py:41-47 | a valid registration form is answered with 201, or with a 500 (its body modelled as null) when the manager refuses the row |
| Flows.RejectionMessages | backend/users/views.py:48-51 | for the registration view's 400 body, `register` as written always says "try again", and corrected it says "already in use" exactly when the email or username field failed |
| Flows.TakenEmailGetsTryAgain | frontend/src/services/backend-api/authApi.ts:17 | a registration with a taken email gets 400, "try again" from `register` as written, and "already in use" from the corrected one |
| Flows.RegisterCorrectedNamesFields | backend/users/views.py:48-51 | a rejected registration gets 400; with the correction the client says "already in use" exactly when the API's errors name the email or the username field |
| Flows.DeletedAccountCookieIsRejected | backend/users/views.py:263-280 | deleting the account sets no cookie, so the next profile read with the same access cookie gets 401 with `{"detail": "User not found", "code": "user_not_found"}` |
| Flows.LoginThenAuthenticated | backend/users/views.py:96-112 | after a successful login, the next request carrying the cookies it set is authenticated as the user who logged in if that user is active, and rejected as inactive otherwise |
| Flows.RegisterThenLogin | backend/users/views.py:29-114 | after a registration the API accepts (201), logging in with the stored email and the submitted password succeeds and issues the new row's tokens |
| Flows.NewRowLogsIn | backend/users/backends.py:12-22 | a row appended under an email no other row has is found by that email and logged in by its password |
| Flows.UpdateThenGet | backend/users/views.py:230-254 | after an accepted profile PUT, a GET with the same cookies on the saved table answers 200 with the updated row |
| Flows.UpdatedRowIsFound | backend/users/views.py:253 | after saving an update, looking the key up finds the updated row |
| Flows.SameEmailSameRow | backend/users/models.py:77 | two rows with the same email are the same row |
| Flows.GateFollowsAuthenticator | frontend/src/middleware.ts:22-26 | the gate's access probe lets a request through exactly when the backend authenticates that access cookie |
| Flows.ProviderFollowsAuthenticator | frontend/src/context/AuthProvider.tsx:21-33 | the provider's refresh signs in exactly when the backend authenticates the request's cookies, and then holds the user as the API represents it |

## Left out

- The axios-based `BaseApi` transport is not part of this model. Each client call is given how it settles as a `Transport` value.
- `Flows.Received` assumes axios treats every non-2xx status as an error, which is its default.
- JWT signing and validation are oracles in `Framework.Env`:
  - `validateAccess`, `validateRefresh`, `accessFor`, `refreshFor`;
  - their only assumed property (`Framework.Coherent`) is that issued tokens are non-empty and validate to their claims;
  - token expiry and clock time are left out;
  - refresh-token rotation and blacklisting are left out, because the blacklist app is not installed and the views never blacklist.
- Password hashing, `normalize_email`, Django's e-mail syntax validator and `build_absolute_uri` are oracles.
- Primary keys are modelled as ascending natural numbers handed out from a counter. The database's auto-increment and transactions are not modelled.
- Models.CreateUserOutcome: the database's unique constraint is modelled as a refusal (`UniqueViolation`) before saving. The exact integrity error raised is not modelled.
- Models.CreateSuperuserOutcome: a supplied flag other than True is modelled as `Some(false)`. Python's `is not True` test over arbitrary values is not modelled.
- Serializers.FieldErrors:
  - the check against lone surrogate characters is not modelled, because a Dafny `char` cannot hold one;
  - errors are modelled by their error codes (`required`, `blank`, `unique`, …), not by the framework's message texts, which are translatable;
  - CharField whitespace trimming is not modelled: a value made only of spaces counts as filled;
  - the email rule's maximum of 254 characters is taken from Django's `EmailField` default.
- Views.ErrorReply: a 500 reply's body is modelled as `null`. The framework's HTML error page is not modelled.
- Views.ErrorReply: messages are modelled in English. `LocaleMiddleware` and `USE_I18N` translate the authentication, permission and method messages by the request's `Accept-Language` (English or Russian), and the model does not carry the request's language.
- Views.Request: request data is a map from field names to strings. JSON `null`, numbers and booleans in a request body cannot be represented, so the `null` error code and the `invalid` code for non-string values are not modelled.
- Views.Dispatch: the REST framework's content negotiation, parsers, throttling and CSRF handling are not modelled. The framework's own 404 for unknown paths is not modelled either; only `Urls.Resolve` is.
- Views.Refresh: the refresh cookie's value is passed to the serializer as is. Whitespace trimming by the `refresh` CharField is not modelled.
- Serializers.AvatarErrors:
  - Pillow's image decoding and Django's image-extension validator are oracles (`isImage`, `imageExtension` in `Framework.Env`);
  - an upload is modelled by its name and size; its content is not modelled;
  - the storage's `get_valid_name` is an oracle (`validName` in `Framework.Env`);
  - the storage's renaming of a file whose name is already taken is not modelled: an upload is stored as `avatars/` followed by the valid form of its name.
- Serializers.ValidateUpdate: the stored avatar name does not account for the storage renaming a file whose name is already taken, because the model keeps no record of stored files.
- Views.Metadata: the `description` entry (the view's docstring) is not modelled.
- Views.HeadIsGet: the HTTP layer strips the body of a HEAD reply; the model keeps the reply the GET handler built.
- Views.Handles: methods other than GET, HEAD, POST, PUT, PATCH, DELETE and OPTIONS (TRACE, for example) are not modelled.
- Serializers.Represent: an avatar's storage URL is modelled as `MEDIA_URL` followed by the stored name. Storage backends are not modelled.
- Middleware.Gate:
  - `console.error` logging is left out;
  - `NextResponse.redirect`'s absolute URL is modelled as the path `/auth/login`;
  - the refreshed cookies a successful refresh probe receives are not forwarded to the browser by the gate, and the model has no state for them.
- AuthProvider.Provider: React's scheduling, re-renders and overlapping `refreshUser` calls are left out. Each awaited call is one atomic step, and console logging is left out.
- AuthApi.RefreshToken: `new Error(message)` converts a non-string `message` to a string. The model keeps the message as the JSON value it was built from.
- `changePassword` is modelled only as the request it sends. No route of the users app serves its path, so no backend behaviour is modelled for it.
- The presentational components, pages and forms, `admin.py`, `next.config.ts`, and the type-only files `types.py` and `AuthProvider.types.ts` are not part of this model.
- Settings that do not affect sessions (CORS, templates, database, static files) are not part of this model.

## Findings

| source | as written | input that shows it | evidently intended | confidence | as-written member | corrected member |
|---|---|---|---|---|---|---|
| frontend/src/services/backend-api/authApi.ts:17 | `register` looks for `email` and `username` at the top level of the error body. The registration view nests field errors under `errors` (backend/users/views.py:48-51), so every rejected registration shows the generic "try again" message | a registration whose email is already taken: the API replies 400 with `success: false` and an `errors` object naming `email` | the "already in use" message when the nested `errors` name the email or the username | not executed | `AuthApi.Register`, exhibited by `Flows.TakenEmailGetsTryAgain` | `AuthApi.RegisterCorrected`, proved by `Flows.RegisterCorrectedNamesFields` |

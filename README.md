# bndes-projetos-web in Dafny

This project models the logic beneath the Angular front end *bndes-projetos-web*, an
administrative client for "projects" served by a token-authenticated REST API. Three groups of
logic are modelled:

- **The session store and the request pipeline.**
  - `AuthService` keeps the access token in `localStorage` under `bndes_token`. It normalises
    the token's `Bearer ` prefix and migrates the token once from the keys `token`,
    `accessToken` and `jwt`.
  - `jwtInterceptor` attaches `Authorization: Bearer <token>`, the form in section 2.1 of
    RFC 6750.
  - `authErrorInterceptor` maps a failed call to a logout, a notification and a navigation, then
    re-throws the error.
- **Date text handling.**
  - The `appDateMask` directive masks typed or pasted digits as `dd/MM/yyyy` and filters keys.
  - The Brazilian date adapter parses `dd/MM/yyyy` strictly.
  - The project form formats and parses `yyyy-MM-dd`.
- **Validators, sanitisers and query building.**
  - The sign-up page has the password-strength and password-match validators and builds one
    message from the backend's field errors.
  - The login page sanitises `returnUrl`.
  - The projects API client builds the listing query.
  - The project list holds the paging state.

Each source file has its own module. Helper modules carry what they share:

- `Wrappers`: `Option`.
- `Strings`: ASCII text helpers, decimal conversion, `split`/`join`.
- `Calendar`: dates as `(year, month, day)` triples, and the one behaviour of JavaScript's
  `new Date` that matters here.
- `Http`: requests, failures, and an `HttpClient` that logs what it is asked to send.
- `Ui`: the snack bar and the router, as logs of notifications and navigations.
- `BrowserStorage`: `localStorage` as a class holding a `map<string, string>`.

Where the source mutates state, the model is a class with `modifies` clauses: the auth service,
the directive and the page components. The pure rules are functions, with lemmas about them.

The model follows the code as written, including where the code contradicts itself. These
contradictions are stated as lemmas:

- The session store writes `bndes_token`, but the interceptor reads `token`.
  `JwtInterceptor.CanonicalTokenNeverAttached` shows that a logged-in token is never sent, and
  `JwtInterceptor.MigrationDetachesLegacyToken` shows the same for a migrated one.
- `normalizeToken` can store `Bearer x`, and the interceptor adds another prefix
  (`JwtInterceptor.DoubledPrefix`).
- The two interceptors classify differently: one treats `/health` as public, the other
  `/auth/refresh` (`AuthErrorInterceptor.EndpointListsDiffer`).
- A 403 notifies even on an auth endpoint (`AuthErrorInterceptor.ForbiddenOnLoginNotifies`).

Other behaviours of the code worth knowing, each modelled as written:

- The token is normalised only in the login response handler; `setToken` and the legacy
  migration store their value as given, and the interceptor sends the stored `token` value as
  it finds it.
- `logout` removes only `bndes_token`; the legacy keys stay (`Session.LoggedOut`).
- The 401 logout, notice and redirect to `/login` depend only on the status and the request
  URL, never on the screen being shown (`AuthErrorInterceptor.UnauthorizedOnProjects`).
- The error interceptor's message ignores `details.fieldErrors`; only the registration page
  reads that list (`Register.ExtractBackendValidationMessage`).

## Model

| member | source | states |
|---|---|---|
| Session.Api | src/app/core/auth/auth.service.ts:35-38 | an empty base, or a bare `/`, gives `path` alone; otherwise at most one trailing `/` of the base is dropped and `path` appended |
| Session.NormalizeToken | src/app/core/auth/auth.service.ts:77-88 | the result is the trimmed token, with `Bearer ` in front exactly when the token is not blank, the trimmed type is `bearer` in any case, and the token has no `bearer ` prefix in any case; it is `""` exactly when the token is blank; with a bearer type a non-empty result always carries the prefix |
| Session.NormalizeIdempotent | src/app/core/auth/auth.service.ts:77-88 | normalising a normalised token changes nothing |
| Session.NoSecondPrefix | src/app/core/auth/auth.service.ts:83 | a token already starting with `bearer ` in any case is only trimmed, whatever the type |
| Session.LoggedOut | src/app/core/auth/auth.service.ts:61-63 | after logout `bndes_token` is absent and every other key, legacy keys included, reads as before |
| Session.LogoutIdempotent | src/app/core/auth/auth.service.ts:61-63 | a second logout changes nothing |
| Session.FirstWithValue | src/app/core/auth/auth.service.ts:94-96 | the index of the first key, in order, holding a non-empty value; no earlier key holds one |
| Session.Migrated | src/app/core/auth/auth.service.ts:90-102 | a store with a non-empty `bndes_token`, or with no non-empty legacy value, is unchanged; otherwise the first non-empty value among `token`, `accessToken`, `jwt` moves to `bndes_token`, that legacy key is removed, and nothing else changes |
| Session.MigrateIdempotent | src/app/core/auth/auth.service.ts:91-97 | a second migration is a no-op |
| Session.MigrationKeepsLaterLegacyKeys | src/app/core/auth/auth.service.ts:94-101 | legacy keys after the one moved keep their values |
| Session.AuthService.constructor | src/app/core/auth/auth.service.ts:31-33 | the store is left as `Migrated` of what it held |
| Session.AuthService.GetToken | src/app/core/auth/auth.service.ts:65-67 | the value under `bndes_token`, or None when the key is absent |
| Session.AuthService.IsLoggedIn | src/app/core/auth/auth.service.ts:69-71 | true exactly when `bndes_token` holds a non-empty value |
| Session.AuthService.SetToken | src/app/core/auth/auth.service.ts:73-75 | `bndes_token` is set to the token and no other key changes |
| Session.AuthService.Logout | src/app/core/auth/auth.service.ts:61-63 | the store becomes `LoggedOut` of the old one; `GetToken()` is None and the user is not logged in |
| Session.AuthService.Login | src/app/core/auth/auth.service.ts:40-41 | exactly one `POST <api>/auth/login` with the credentials is issued |
| Session.AuthService.OnLoginResponse | src/app/core/auth/auth.service.ts:42-46 | `bndes_token` is set to the normalised token and no other key changes; `GetToken()` returns it; logged in exactly when the trimmed token is not blank |
| Session.AuthService.Register | src/app/core/auth/auth.service.ts:50-52 | exactly one `POST <api>/auth/register` is issued and the store is untouched |
| Session.AuthService.MigrateLegacyTokenIfNeeded | src/app/core/auth/auth.service.ts:90-102 | the loop over the legacy keys leaves the store as `Migrated` of the old one |
| JwtInterceptor.IsPublic | src/app/core/auth/jwt.interceptor.ts:7-10 | definition: the URL contains `/auth/login`, `/auth/register` or `/health` |
| JwtInterceptor.Intercept | src/app/core/auth/jwt.interceptor.ts:3-23 | verb, URL, query, body and every header whose name is not `authorization` in some case are kept, and no other header is added; lower-cased header names stay lower-cased; the request is forwarded as it came when `token` is absent or empty or the URL is public; otherwise `Authorization`, read under any case, is `Bearer ` followed by the stored value |
| JwtInterceptor.ExistingAuthorizationReplaced | src/app/core/auth/jwt.interceptor.ts:16-20 | an `authorization` header already on the request, in any case, is replaced by the token header, leaving a single one: with lower-cased names, the only key that reads as `authorization` is the one already there |
| JwtInterceptor.Handle | src/app/core/auth/jwt.interceptor.ts:12-22 | exactly one request, the intercepted one, goes to `next` |
| JwtInterceptor.OnlyTokenEntryMatters | src/app/core/auth/jwt.interceptor.ts:4 | two stores that agree on `token` produce the same forwarded request |
| JwtInterceptor.CanonicalTokenNeverAttached | src/app/core/auth/jwt.interceptor.ts:4 | whatever is stored under `bndes_token` has no effect on the forwarded request |
| JwtInterceptor.LoginTokenNotAttached | src/app/core/auth/jwt.interceptor.ts:4-14 | after a login has stored its token, a store without a `token` entry still sends requests without `Authorization` |
| JwtInterceptor.MigrationDetachesLegacyToken | src/app/core/auth/auth.service.ts:94-99 | once the start-up migration has moved a `token` entry, nothing is attached |
| JwtInterceptor.DoubledPrefix | src/app/core/auth/jwt.interceptor.ts:18 | a stored `Bearer x` is sent as `Bearer Bearer x` |
| JwtInterceptor.RefreshIsNotPublic | src/app/core/auth/jwt.interceptor.ts:7-10 | `/auth/refresh` is not public |
| JwtInterceptor.ProjectsIsNotPublic | src/app/core/auth/jwt.interceptor.ts:7-10 | `/projects` is not public |
| Http.SetHeader | src/app/core/auth/jwt.interceptor.ts:16-20 | setting a header makes every case-spelling of its name read the new value, leaves every other header as it was, and adds at most the one lower-cased name, so a map whose names are all lower-cased stays so |
| Http.FirstNonEmpty | src/app/core/auth/auth-error.interceptor.ts:24-28 | the first candidate that is a non-empty string (all earlier ones are not), else the fallback; never empty with a non-empty fallback |
| AuthErrorInterceptor.ApiMessage | src/app/core/auth/auth-error.interceptor.ts:24-28 | the first non-empty of `body.message`, `body.error`, `err.message`, then `Erro inesperado.`; so never empty |
| AuthErrorInterceptor.React | src/app/core/auth/auth-error.interceptor.ts:19-51 | a non-HTTP error has no effect; logout happens exactly on a 401 outside the auth endpoints and navigation to `/login` exactly then; one notification exactly on that 401, or on a 403, 400 or 409, on any URL, and its text is always `ApiMessage`, so the fixed fallback texts are never shown |
| AuthErrorInterceptor.Interceptor.OnError | src/app/core/auth/auth-error.interceptor.ts:19-51 | the same error is re-thrown; the store is logged out exactly when `React` says so; at most one notification and at most one navigation are logged, those of `React` |
| AuthErrorInterceptor.IsAuthEndpoint | src/app/core/auth/auth-error.interceptor.ts:13-16 | definition: the URL contains `/auth/login`, `/auth/register` or `/auth/refresh` |
| AuthErrorInterceptor.EndpointListsDiffer | src/app/core/auth/auth-error.interceptor.ts:13-16 | `/auth/refresh` is an auth endpoint but not public to the outgoing interceptor; `/health` is the reverse |
| AuthErrorInterceptor.LogoutIsNotAuthEndpoint | src/app/core/auth/auth-error.interceptor.ts:13-16 | `/auth/logout` is not an auth endpoint |
| AuthErrorInterceptor.UnauthorizedOnProjects | src/app/core/auth/auth-error.interceptor.ts:31-36 | a 401 on `/projects` logs out, shows the API message and navigates to `/login` |
| AuthErrorInterceptor.UnauthorizedOnLoginPassesThrough | src/app/core/auth/auth-error.interceptor.ts:31-50 | a 401 on `/auth/login` causes no logout, no notification and no navigation |
| AuthErrorInterceptor.ForbiddenOnLoginNotifies | src/app/core/auth/auth-error.interceptor.ts:39-42 | a 403 on `/auth/login` still notifies, without logout or navigation |
| Calendar.DaysInMonth | src/app/shared/directives/date-mask.directive.ts:90-93 | between 28 and 31; February has 29 days exactly in Gregorian leap years |
| Calendar.JsFullYear | src/app/shared/date-adapters/pt-br-date-adapter.ts:28-31 | `new Date` keeps a year exactly when it is at least 100 |
| Calendar.RoundTripIsValidDate | src/app/shared/date-adapters/pt-br-date-adapter.ts:28-31 | the `new Date` round trip succeeds exactly when the year is at least 100 and the day exists in that month |
| DateMask.ApplyMask | src/app/shared/directives/date-mask.directive.ts:75-79 | one `/` is inserted past two digits and another past four; up to 8 digits give at most 10 characters |
| DateMask.MaskAddsOnlySlashes | src/app/shared/directives/date-mask.directive.ts:75-79 | for any text, the mask has the same characters once slashes are removed, and the same digits |
| DateMask.MaskRemovable | src/app/shared/directives/date-mask.directive.ts:75-79 | removing the slashes from `applyMask(d)` gives `d` back |
| DateMask.MaskKeepsDigits | src/app/shared/directives/date-mask.directive.ts:75-79 | the digits of `applyMask(d)` are `d` |
| DateMask.MaskSlashPositions | src/app/shared/directives/date-mask.directive.ts:75-79 | a character of the mask is `/` exactly at index 2 (more than 2 digits) or index 5 (more than 4 digits) |
| DateMask.ExtractDigits | src/app/shared/directives/date-mask.directive.ts:54 | only digits; the first 8 digits of the text, or all of them when there are fewer |
| DateMask.Masked | src/app/shared/directives/date-mask.directive.ts:54-56 | the `slice(0, 10)` never cuts: the field holds exactly `applyMask` of the extracted digits |
| DateMask.MaskedShape | src/app/shared/directives/date-mask.directive.ts:54-56 | the field holds only digits and `/`, at most 8 digits and at most 10 characters |
| DateMask.ExtractOfMask | src/app/shared/directives/date-mask.directive.ts:42-54 | re-extracting the digits from a mask of up to 8 digits finds the same digits |
| DateMask.MaskedIdempotent | src/app/shared/directives/date-mask.directive.ts:54-56 | a second `input` event leaves the field as the first left it |
| DateMask.ParseDdMmYyyy | src/app/shared/directives/date-mask.directive.ts:81-96 | a date exactly when the year is in 1900-2200 and the day exists in that month, equal to the fields read from the digits |
| DateMask.LeapDayAccepted | src/app/shared/directives/date-mask.directive.ts:86-95 | `29022024` gives 29 February 2024 |
| DateMask.NonLeapDayRefused | src/app/shared/directives/date-mask.directive.ts:90-93 | `29022023` is refused: 2023 is not a leap year |
| DateMask.ThirtyFirstFebruaryRefused | src/app/shared/directives/date-mask.directive.ts:90-93 | `31022024` is refused |
| DateMask.YearLowerBound | src/app/shared/directives/date-mask.directive.ts:86 | 1 January 1899 is refused and 1 January 1900 accepted |
| DateMask.YearUpperBound | src/app/shared/directives/date-mask.directive.ts:86 | 1 January 2200 is accepted and 1 January 2201 refused |
| DateMask.DateMaskDirective.OnKeyDown | src/app/shared/directives/date-mask.directive.ts:18-36 | navigation keys and Ctrl/Meta with A, C, V or X pass; any other key that is not one digit is blocked; a digit is blocked exactly when the field already holds 10 characters |
| DateMask.DateMaskDirective.OnInput | src/app/shared/directives/date-mask.directive.ts:51-73 | the field is re-masked; with a control, it is set to null when no digit is left, to the parsed date (or null) at 8 digits, and is left alone in between |
| DateMask.DateMaskDirective.OnPaste | src/app/shared/directives/date-mask.directive.ts:38-49 | the paste is always cancelled; the field holds the mask of the first 8 pasted digits; the control is updated as `onInput` does it |
| PtBrDateAdapter.IsDdMmYyyy | src/app/shared/date-adapters/pt-br-date-adapter.ts:18 | definition: ten characters, two digits, `/`, two digits, `/`, four digits |
| PtBrDateAdapter.ParseText | src/app/shared/date-adapters/pt-br-date-adapter.ts:13-36 | a date exactly when the trimmed text is `dd/MM/yyyy`, the year is at least 100 and the day exists; its fields are those of the text |
| PtBrDateAdapter.Parse | src/app/shared/date-adapters/pt-br-date-adapter.ts:6-39 | null and undefined give null; a valid Date is returned as it is; an invalid Date or a non-string gives null; a string goes to `ParseText` |
| PtBrDateAdapter.TwoDigitYearsRejected | src/app/shared/date-adapters/pt-br-date-adapter.ts:28-31 | a well-shaped text with a year below 100 is refused |
| PtBrDateAdapter.AgreesWithDateMask | src/app/shared/date-adapters/pt-br-date-adapter.ts:25-33 | for years in 1900-2200 the directive's parse of 8 digits is the adapter's parse of their mask; outside that range the directive refuses |
| PtBrDateAdapter.NoUpperYearBound | src/app/shared/date-adapters/pt-br-date-adapter.ts:25-33 | `01/01/2300` is accepted here, while the directive refuses `01012300` |
| ProjectService.ListQuery | src/app/core/projects/project.service.ts:58-75 | every key is one of `active`, `q`, `page`, `size`, `sort`, and none appears twice |
| ProjectService.ListQueryValues | src/app/core/projects/project.service.ts:61-73 | `page` and `size` are always present, defaulting to 0 and 10; `active` is present exactly when given, as `true`/`false`; `q` and `sort` are present exactly when non-empty |
| ProjectService.EmptyParamsQuery | src/app/core/projects/project.service.ts:68-69 | with no parameters the query is exactly `page=0&size=10` |
| ProjectService.ItemRoute | src/app/core/projects/project.service.ts:79 | `/projects/` followed by decimal digits that read back as the id |
| ProjectService.ItemRouteInjective | src/app/core/projects/project.service.ts:78-92 | distinct ids have distinct item routes |
| ProjectService.RequestShapes | src/app/core/projects/project.service.ts:75-91 | the verbs are GET, GET, POST, PUT and DELETE; the listing and create go to the collection, getById, update and delete to the item route; only the listing has a query (its `ListQuery`); only create and update have a body, the payload; no call sets a header |
| ProjectService.ProjectService.List | src/app/core/projects/project.service.ts:58-76 | exactly one `GET /projects` with the listing query is issued |
| ProjectService.ProjectService.GetById | src/app/core/projects/project.service.ts:78-80 | exactly one `GET /projects/<id>` is issued |
| ProjectService.ProjectService.Create | src/app/core/projects/project.service.ts:82-84 | exactly one `POST /projects` with the payload is issued |
| ProjectService.ProjectService.Update | src/app/core/projects/project.service.ts:86-88 | exactly one `PUT /projects/<id>` with the payload is issued |
| ProjectService.ProjectService.Delete | src/app/core/projects/project.service.ts:90-92 | exactly one `DELETE /projects/<id>` is issued |
| ProjectForm.ToYmd | src/app/pages/projects/project-form/project-form.component.ts:134-140 | None exactly for no date; otherwise three `-`-separated digit fields that read back as year, month and day, with month and day of two digits |
| ProjectForm.ParseYmd | src/app/pages/projects/project-form/project-form.component.ts:142-147 | None for `""`, and when one of the first three parts is missing, not a number or zero; otherwise the triple `new Date` receives, with a year 1-99 read as 1900-1999 |
| ProjectForm.YmdRoundTrip | src/app/pages/projects/project-form/project-form.component.ts:134-147 | for a valid date, parsing its formatted text gives it back exactly when the year is at least 100 |
| ProjectForm.FormValid | src/app/pages/projects/project-form/project-form.component.ts:53-60 | definition: a name of at least 3 characters, a value present and at least 0, and a start date |
| ProjectForm.Payload | src/app/pages/projects/project-form/project-form.component.ts:102-109 | definition: the raw form fields, with both dates written by `ToYmd` |
| ProjectForm.ValidPayload | src/app/pages/projects/project-form/project-form.component.ts:102-109 | a valid form sends a start date and a non-negative value; `endDate` is null exactly when no end date was chosen |
| ProjectForm.ProjectFormComponent.constructor | src/app/pages/projects/project-form/project-form.component.ts:46-68 | edit mode exactly when an `id` parameter is given; the project is fetched exactly when that id is a non-zero number |
| ProjectForm.ProjectFormComponent.Fetch | src/app/pages/projects/project-form/project-form.component.ts:70-74 | nothing without a non-zero id; otherwise loading and one `getById` |
| ProjectForm.Patched | src/app/pages/projects/project-form/project-form.component.ts:76-83 | definition: the project's fields, the value defaulting to 0, and both dates read by `ParseYmd` (a missing end date as `""`) |
| ProjectForm.ProjectFormComponent.OnFetched | src/app/pages/projects/project-form/project-form.component.ts:75-85 | the form is patched from the project and loading ends |
| ProjectForm.ProjectFormComponent.OnFetchFailed | src/app/pages/projects/project-form/project-form.component.ts:86-90 | loading ends, one notification is shown, and the page goes to `/projects` |
| ProjectForm.ProjectFormComponent.Save | src/app/pages/projects/project-form/project-form.component.ts:94-115 | an invalid form is marked touched and nothing is sent; a valid one sets loading and sends `update(id, payload)` in edit mode with a non-zero id, `create(payload)` otherwise |
| ProjectForm.ProjectFormComponent.OnSaved | src/app/pages/projects/project-form/project-form.component.ts:118-122 | loading ends, one notification is shown, and the page goes to `/projects` |
| ProjectForm.ProjectFormComponent.OnSaveFailed | src/app/pages/projects/project-form/project-form.component.ts:123-126 | loading ends and one notification is shown |
| ProjectForm.ProjectFormComponent.Cancel | src/app/pages/projects/project-form/project-form.component.ts:130-132 | one navigation to `/projects` |
| Register.PasswordStrength | src/app/pages/register/register.component.ts:49-64 | valid for the empty value; otherwise valid exactly for a strong password, and each flag is set exactly when its condition holds |
| Register.RegisterFormValid | src/app/pages/register/register.component.ts:76-91 | definition: email required and valid; password required, 8 to 72 characters and strong; confirmation required; no mismatch |
| Register.PasswordsMismatch | src/app/pages/register/register.component.ts:66-74 | a mismatch exactly when both values are non-empty and differ |
| Register.ValidFormPassword | src/app/pages/register/register.component.ts:76-91 | a valid form holds a strong password of 8 to 72 characters, and the confirmation equals it |
| Register.Dedup | src/app/pages/register/register.component.ts:103 | the same members and no repeats |
| Register.DedupFirstOccurrence | src/app/pages/register/register.component.ts:103 | the distinct messages keep the order of their first occurrences |
| Register.Messages | src/app/pages/register/register.component.ts:97-99 | only non-blank messages, and every shown field error's message is among them |
| Register.MessagesFromShown | src/app/pages/register/register.component.ts:97-99 | every message kept is the message of a field error that is shown |
| Register.MessagesOfOne | src/app/pages/register/register.component.ts:97-99 | a single field error contributes its message when it is shown and nothing otherwise; together with `Register.MessagesAppend` this makes the list an order-keeping filter of `fieldErrors` |
| Register.MessagesAppend | src/app/pages/register/register.component.ts:97-99 | the messages of two consecutive runs of field errors are the messages of the first followed by those of the second |
| Register.ExtractBackendValidationMessage | src/app/pages/register/register.component.ts:93-104 | null exactly when the field-error array is missing or has no non-blank string message; otherwise the distinct messages joined by one space, never empty |
| Register.RepeatedMessageShownOnce | src/app/pages/register/register.component.ts:103 | a message that a later field error repeats is shown once |
| Register.SubmitErrorText | src/app/pages/register/register.component.ts:127-134 | the field-error message, else `body.message`, else `body.error`, else the fixed text; never empty |
| Register.RegisterComponent.constructor | src/app/pages/register/register.component.ts:76-91 | the form starts empty and the page is not loading |
| Register.RegisterComponent.OnSubmit | src/app/pages/register/register.component.ts:106-118 | an invalid form is marked touched, notified once, and nothing is sent; a valid one sets loading and sends one register request with email and password |
| Register.RegisterComponent.OnRegistered | src/app/pages/register/register.component.ts:119-123 | loading ends, one notification, and one navigation to `/login` |
| Register.RegisterComponent.OnRegisterFailed | src/app/pages/register/register.component.ts:124-137 | loading ends and exactly one notification shows `SubmitErrorText` |
| Login.HasSchemeOrAuthority | src/app/pages/login/login.component.ts:77 | definition: the regex `^([a-zA-Z][a-zA-Z0-9+.-]*:)?//`, written as `//` or a letter, its run of scheme characters and `://` |
| Login.SanitizeReturnUrl | src/app/pages/login/login.component.ts:72-81 | null for a missing or empty value; a result exactly when the trimmed value starts with `/` but not `//`, and it is that trimmed value |
| Login.SanitizeIdempotent | src/app/pages/login/login.component.ts:72-81 | a sanitised URL is sanitised again to itself |
| Login.SchemeRejected | src/app/pages/login/login.component.ts:77 | a value starting with a letter (a scheme such as `https:` or `javascript:`) is refused |
| Login.ReturnUrl | src/app/pages/login/login.component.ts:46-47 | always starts with `/` and never with `//`; `/projects` whenever the sanitiser refuses the value or nothing is given; the sanitised value when there is one |
| Login.PathKept | src/app/pages/login/login.component.ts:72-81 | `/projects/7` is kept |
| Login.ProtocolRelativeRejected | src/app/pages/login/login.component.ts:77 | `//evil.example` falls back to `/projects` |
| Login.AbsoluteUrlRejected | src/app/pages/login/login.component.ts:77 | `https://evil.example` falls back to `/projects` |
| Login.LoginComponent.constructor | src/app/pages/login/login.component.ts:30 | `returnUrl` starts as `/projects` |
| Login.LoginComponent.NgOnInit | src/app/pages/login/login.component.ts:40-55 | the form is reset; `returnUrl` becomes `ReturnUrl` of the parameter; one notification exactly when `reason` is `expired` |
| Login.LoginFormValid | src/app/pages/login/login.component.ts:41-44 | definition: email required and valid, password required |
| Login.LoginComponent.OnSubmit | src/app/pages/login/login.component.ts:57-66 | an invalid form is marked touched and notified, and nothing is sent; a valid one sends one login request with the form's credentials |
| Login.LoginComponent.OnLoginSucceeded | src/app/pages/login/login.component.ts:66-67 | the normalised token is stored and the page goes to `/projects`, whatever `returnUrl` holds |
| ProjectList.LoadQuery | src/app/pages/projects/project-list/project-list.component.ts:68-79 | `q` only when typed, `active` only when chosen, `sort` always (`id,desc` when cleared), and `page`/`size` as asked |
| ProjectList.ProjectListComponent.constructor | src/app/pages/projects/project-list/project-list.component.ts:53-66 | page 0 of size 10, the filter `("", null, "id,desc")`, and one listing request for it |
| ProjectList.ProjectListComponent.Load | src/app/pages/projects/project-list/project-list.component.ts:68-79 | loading, and one listing request with the current filter and the given page and size; the table state is untouched |
| ProjectList.ProjectListComponent.OnLoaded | src/app/pages/projects/project-list/project-list.component.ts:81-87 | `data`, `totalElements`, `pageIndex` and `pageSize` take the response's values, falling back to `[]`, 0 and the requested page and size; loading ends |
| ProjectList.ProjectListComponent.OnLoadFailed | src/app/pages/projects/project-list/project-list.component.ts:88-91 | the table state is unchanged, loading ends, and one notification is shown |
| ProjectList.ProjectListComponent.ApplyFilters | src/app/pages/projects/project-list/project-list.component.ts:95-99 | `pageIndex` becomes 0 and page 0 is requested with the current page size |
| ProjectList.ProjectListComponent.OnPage | src/app/pages/projects/project-list/project-list.component.ts:101-103 | exactly the event's page index and size are requested |

## Left out

- Observables, `subscribe` and asynchronous timing. A response or error is an input to the
  method that stands for its `next` or `error` handler (`OnLoginResponse`, `OnLoaded`,
  `OnSaveFailed`, ...). Requests, notifications and navigations are ghost logs.
- `logoutRemote` (src/app/core/auth/auth.service.ts:54-59) is RxJS plumbing around a
  best-effort request, with `catchError` and `finalize`. It is not modelled.
- Angular wiring: dependency injection, decorators, Material modules and templates. Snack-bar
  actions and durations are not modelled; only the texts are kept.
- The paginator's `firstPage()` call in `applyFilters` is not modelled. On a paginator that is
  not on page 0 it emits a `page` event; the template binding is not part of this model, so
  whether that event re-enters `onPage` and sends a second `load` is not captured. The display
  of the password fields is not modelled either.
- The login page's `error` handler has an empty body, so it has no member.
- Other listeners on the date field, such as the value accessor and the datepicker input, are
  not modelled. Neither are the datepicker's own validators.
- Login.LoginComponent.OnSubmit, Register.RegisterComponent.OnSubmit: Angular's
  `Validators.email` is taken as a boolean verdict, because its pattern is library code.
- Register.RegisterFormValid, ProjectForm.FormValid: `minLength` and `maxLength` are checked
  on `|s|`, which counts Unicode code points, while Angular counts UTF-16 code units
  (`.length`). A character outside the Basic Multilingual Plane counts once in the model and
  twice in the browser, so lengths near the 3, 8 and 72 bounds can be judged differently.
- Strings.Trim, Strings.Lower, Strings.IsSpace: JavaScript's Unicode `\s`, `trim()` and
  `toLowerCase()` are approximated by ASCII classes.
- Strings.JsNumber: `Number()` is modelled on decimal digit strings only. `""` gives 0 and any
  other text is NaN (None). Whitespace, signs, fractions, hex and exponents are not modelled.
- ProjectForm.ParseYmd: returns the raw `(year, month, day)` triple handed to `new Date`, with
  the 0-99 year mapping. It does not normalise overflow such as `2024-02-31` becoming 2 March,
  and it does not model the time of day or timezones.
- A project's `value` (`number | string`) is an integer; floating point is not modelled.
  JSON members of an error body that are not strings count as absent.
- `environment.apiBaseUrl` is a constructor parameter of `AuthService`, given as `""` when
  undefined.
- The code has no path that reads a token from the login response's `Authorization` header
  and none that sends a `refresh` request; the login response's refresh fields are carried by
  the model but never used. The auth guard is not modelled.
- src/app/app.config.ts, src/app/app.routes.ts, src/main.ts,
  src/app/pages/projects/project-detail/project-detail.component.ts and
  src/app/layout/main-layout/main-layout.component.ts are framework setup and navigation glue.
  They are not part of this model.

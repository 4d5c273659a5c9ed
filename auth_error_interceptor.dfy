/**
 * The error interceptor (src/app/core/auth/auth-error.interceptor.ts). On an HttpErrorResponse it
 * runs one row of a decision table over (URL class, status): a 401 outside the auth endpoints
 * logs out, notifies and navigates to /login; a 403 (on any URL) notifies; a 400 or 409
 * notifies; anything else does nothing. Every path re-throws the same error.
 */
module AuthErrorInterceptor {
  import opened Wrappers
  import opened Strings
  import opened Http
  import opened Ui
  import opened Session
  import JwtInterceptor

  /** The auth endpoints of this interceptor (the outgoing one lists /health instead of /auth/refresh). */
  predicate IsAuthEndpoint(url: string) {
    Contains(url, "/auth/login") || Contains(url, "/auth/register") || Contains(url, "/auth/refresh")
  }

  const FallbackMessage := "Erro inesperado."
  const SessionExpiredText := "Sessão expirada. Faça login novamente."
  const AccessDeniedText := "Acesso negado."

  /** `apiMessage`: the first non-empty of body.message, body.error, err.message, then a fixed text. */
  function ApiMessage(err: Failure): (r: string)
    requires err.HttpErrorResponse?
    ensures r != ""
    ensures Truthy(BodyMessage(err)) ==> r == BodyMessage(err).value
    ensures !Truthy(BodyMessage(err)) && Truthy(BodyError(err)) ==> r == BodyError(err).value
    ensures !Truthy(BodyMessage(err)) && !Truthy(BodyError(err)) ==>
      r == if err.message != "" then err.message else FallbackMessage
  {
    var candidates := [BodyMessage(err), BodyError(err), Some(err.message)];
    assert !Truthy(candidates[0]) ==> forall j :: 0 <= j < 1 ==> !Truthy(candidates[j]);
    assert !Truthy(candidates[0]) && !Truthy(candidates[1]) ==> forall j :: 0 <= j < 2 ==> !Truthy(candidates[j]);
    assert !Truthy(candidates[0]) && !Truthy(candidates[1]) && !Truthy(candidates[2]) ==>
      forall j :: 0 <= j < 3 ==> !Truthy(candidates[j]);
    FirstNonEmpty(candidates, FallbackMessage)
  }

  /** `s || fallback` */
  function OrElse(s: string, fallback: string): string {
    if s != "" then s else fallback
  }

  /** The side effects one failed call causes: logout or not, at most one notification, at most one navigation. */
  datatype Reaction = Reaction(logout: bool, notification: Option<string>, navigation: Option<string>)

  function AsList(o: Option<string>): seq<string> {
    if o.Some? then [o.value] else []
  }

  /** The effects of the `catchError` branch for a failed call to `url`. */
  function React(url: string, err: Failure): (r: Reaction)
    ensures err.NonHttpError? ==> r == Reaction(false, None, None)
    ensures r.logout <==> err.HttpErrorResponse? && err.status == 401 && !IsAuthEndpoint(url)
    ensures r.navigation == if r.logout then Some("/login") else None
    ensures r.notification.Some? <==>
      err.HttpErrorResponse? && (r.logout || err.status in {403, 400, 409})
    ensures r.notification.Some? ==> r.notification == Some(ApiMessage(err))
  {
    match err
    case NonHttpError(_) => Reaction(false, None, None)
    case HttpErrorResponse(status, _, _) =>
      var apiMessage := ApiMessage(err);
      if status == 401 && !IsAuthEndpoint(url) then
        Reaction(true, Some(OrElse(apiMessage, SessionExpiredText)), Some("/login"))
      else if status == 403 then
        Reaction(false, Some(OrElse(apiMessage, AccessDeniedText)), None)
      else if status == 400 || status == 409 then
        Reaction(false, Some(apiMessage), None)
      else
        Reaction(false, None, None)
  }

  class Interceptor {
    const auth: AuthService
    const snack: SnackBar
    const router: Router

    constructor (auth: AuthService, snack: SnackBar, router: Router)
      ensures this.auth == auth && this.snack == snack && this.router == router
    {
      this.auth := auth;
      this.snack := snack;
      this.router := router;
    }

    /** The `catchError` handler for a call to `url`: performs React(url, err) and re-throws `err`. */
    method OnError(url: string, err: Failure) returns (thrown: Failure)
      modifies auth.storage, snack, router
      ensures thrown == err
      ensures auth.storage.items ==
        if React(url, err).logout then LoggedOut(old(auth.storage.items)) else old(auth.storage.items)
      ensures snack.shown == old(snack.shown) + AsList(React(url, err).notification)
      ensures router.visited == old(router.visited) + AsList(React(url, err).navigation)
    {
      if !err.HttpErrorResponse? {
        return err;
      }
      var apiMessage := ApiMessage(err);
      if err.status == 401 && !IsAuthEndpoint(url) {
        auth.Logout();
        snack.Open(OrElse(apiMessage, SessionExpiredText));
        router.Navigate("/login");
        return err;
      }
      if err.status == 403 {
        snack.Open(OrElse(apiMessage, AccessDeniedText));
        return err;
      }
      if err.status == 400 || err.status == 409 {
        snack.Open(apiMessage);
        return err;
      }
      return err;
    }
  }

  /** The two URL lists differ: /auth/refresh is an auth endpoint but not public, /health the reverse. */
  lemma EndpointListsDiffer()
    ensures IsAuthEndpoint("/auth/refresh") && !JwtInterceptor.IsPublic("/auth/refresh")
    ensures JwtInterceptor.IsPublic("/health") && !IsAuthEndpoint("/health")
  {
    assert StartsWith("/auth/refresh", "/auth/refresh");
    JwtInterceptor.RefreshIsNotPublic();
    assert StartsWith("/health", "/health");
    HealthIsNotAuthEndpoint();
  }

  lemma HealthIsNotAuthEndpoint()
    ensures !IsAuthEndpoint("/health")
  {
    NotContains("/health", "/auth/login");
    NotContains("/health", "/auth/register");
    NotContains("/health", "/auth/refresh");
  }

  /** A logout call is not an auth endpoint here, so a 401 on it forces a logout like any other. */
  lemma LogoutIsNotAuthEndpoint()
    ensures !IsAuthEndpoint("/auth/logout")
  {
    LogoutHasNoLogin();
    NotContains("/auth/logout", "/auth/register");
    NotContains("/auth/logout", "/auth/refresh");
  }

  lemma LogoutHasNoLogin()
    ensures !Contains("/auth/logout", "/auth/login")
  {
    var url := "/auth/logout";
    assert !StartsWith(url[0..], "/auth/login") by { assert url[0..][9] == 'o'; }
    assert !StartsWith(url[1..], "/auth/login") by { assert url[1..][0] == 'a'; }
    NotContains(url, "/auth/login");
  }

  lemma ProjectsIsNotAuthEndpoint()
    ensures !IsAuthEndpoint("/projects")
  {
    NotContains("/projects", "/auth/login");
    NotContains("/projects", "/auth/register");
    NotContains("/projects", "/auth/refresh");
  }

  /** A 401 on the project list logs out, shows the API's message and goes to /login. */
  lemma UnauthorizedOnProjects(err: Failure)
    requires err.HttpErrorResponse? && err.status == 401
    ensures React("/projects", err) == Reaction(true, Some(ApiMessage(err)), Some("/login"))
  {
    ProjectsIsNotAuthEndpoint();
  }

  /** A 401 from the login call itself only propagates: no logout, no notification, no navigation. */
  lemma UnauthorizedOnLoginPassesThrough(err: Failure)
    requires err.HttpErrorResponse? && err.status == 401
    ensures React("/auth/login", err) == Reaction(false, None, None)
  {
    assert StartsWith("/auth/login", "/auth/login");
  }

  /** A 403 notifies even on an auth endpoint: the 403 branch does not look at the URL. */
  lemma ForbiddenOnLoginNotifies(err: Failure)
    requires err.HttpErrorResponse? && err.status == 403
    ensures React("/auth/login", err) == Reaction(false, Some(ApiMessage(err)), None)
  {
  }
}

/**
 * The outgoing interceptor (src/app/core/auth/jwt.interceptor.ts): it reads localStorage key
 * 'token' once and, unless that entry is absent or empty or the URL is public, forwards a copy
 * of the request with `Authorization: Bearer <value>` set (the form given in section 2.1 of
 * RFC 6750); otherwise it forwards the request as it came.
 */
module JwtInterceptor {
  import opened Wrappers
  import opened Strings
  import opened Http
  import opened BrowserStorage
  import Session

  /** The only storage key this interceptor reads (the session store writes 'bndes_token'). */
  const ReadKey := "token"

  /** URLs that never receive the header. */
  predicate IsPublic(url: string) {
    Contains(url, "/auth/login") || Contains(url, "/auth/register") || Contains(url, "/health")
  }

  const AuthorizationHeader := "Authorization"

  /**
   * The request handed to `next`, given the store's contents. An `Authorization` header already
   * on the request, in any case, is replaced, so the forwarded request carries exactly one.
   */
  function Intercept<B>(items: map<string, string>, req: Request<B>): (forwarded: Request<B>)
    ensures forwarded.verb == req.verb && forwarded.url == req.url
    ensures forwarded.query == req.query && forwarded.body == req.body
    ensures forall h :: Lower(h) != Lower(AuthorizationHeader) ==> HeaderValue(forwarded, h) == HeaderValue(req, h)
    ensures forwarded.headers.Keys <= req.headers.Keys + {Lower(AuthorizationHeader)}
    ensures LowerCaseNames(req.headers) ==> LowerCaseNames(forwarded.headers)
    ensures !HasValue(items, ReadKey) || IsPublic(req.url) ==> forwarded == req
    ensures HasValue(items, ReadKey) && !IsPublic(req.url) ==>
      forall h :: Lower(h) == Lower(AuthorizationHeader) ==> HeaderValue(forwarded, h) == Some("Bearer " + items[ReadKey])
  {
    var token := Lookup(items, ReadKey);
    if !Truthy(token) || IsPublic(req.url) then req
    else SetHeader(req, AuthorizationHeader, "Bearer " + token.value)
  }

  /** The interceptor as a whole: exactly one request goes to `next` per call. */
  method Handle<B>(storage: LocalStorage, req: Request<B>, next: HttpClient<B>)
    modifies next
    ensures next.sent == old(next.sent) + [Intercept(storage.items, req)]
  {
    next.Send(Intercept(storage.items, req));
  }

  /** The decision depends on the 'token' entry and the URL only. */
  lemma OnlyTokenEntryMatters<B>(items1: map<string, string>, items2: map<string, string>, req: Request<B>)
    requires Lookup(items1, ReadKey) == Lookup(items2, ReadKey)
    ensures Intercept(items1, req) == Intercept(items2, req)
  {
  }

  /** Whatever the session store keeps under 'bndes_token' never reaches a request. */
  lemma CanonicalTokenNeverAttached<B>(items: map<string, string>, value: string, req: Request<B>)
    ensures Intercept(items[Session.TokenKey := value], req) == Intercept(items, req)
  {
    OnlyTokenEntryMatters(items[Session.TokenKey := value], items, req);
  }

  /** After a login stores its token, a store with no 'token' entry still sends requests bare. */
  lemma LoginTokenNotAttached<B>(items: map<string, string>, res: Session.LoginResponse, req: Request<B>)
    requires !HasValue(items, ReadKey)
    ensures Intercept(items[Session.TokenKey := Session.NormalizeToken(res.token, res.tokenType)], req) == req
  {
    CanonicalTokenNeverAttached(items, Session.NormalizeToken(res.token, res.tokenType), req);
  }

  /**
   * The migration the session store runs at start-up deletes the 'token' entry when it moves it,
   * after which this interceptor has nothing to attach.
   */
  lemma MigrationDetachesLegacyToken<B>(items: map<string, string>, req: Request<B>)
    requires !HasValue(items, Session.TokenKey) && HasValue(items, ReadKey)
    ensures Intercept(Session.Migrated(items), req) == req
  {
    assert Session.FirstWithValue(items, Session.LegacyKeys) == 0;
    assert ReadKey !in Session.Migrated(items);
  }

  /** A stored value that already carries `Bearer ` is sent with the prefix twice. */
  lemma DoubledPrefix<B>(items: map<string, string>, req: Request<B>, t: string)
    requires Lookup(items, ReadKey) == Some("Bearer " + t) && !IsPublic(req.url)
    ensures HeaderValue(Intercept(items, req), AuthorizationHeader) == Some("Bearer Bearer " + t)
  {
    assert ("Bearer " + t)[0] == 'B';
    assert HasValue(items, ReadKey);
    assert HeaderValue(Intercept(items, req), AuthorizationHeader) == Some("Bearer " + items[ReadKey]);
    assert "Bearer " + ("Bearer " + t) == "Bearer Bearer " + t;
  }

  /**
   * A request that already has an `authorization` header, whatever the case of its name, is
   * forwarded with that one header holding the stored token, and with no header added; when the
   * request's names are lower-cased, the forwarded request has a single key for it.
   */
  lemma ExistingAuthorizationReplaced<B>(items: map<string, string>, req: Request<B>, name: string)
    requires HasValue(items, ReadKey) && !IsPublic(req.url)
    requires Lower(name) == Lower(AuthorizationHeader) && HeaderValue(req, name).Some?
    ensures HeaderValue(Intercept(items, req), name) == Some("Bearer " + items[ReadKey])
    ensures Intercept(items, req).headers.Keys == req.headers.Keys
    ensures LowerCaseNames(req.headers) ==>
      forall k :: k in Intercept(items, req).headers && Lower(k) == Lower(AuthorizationHeader) ==> k == Lower(name)
  {
  }

  /** `/auth/refresh` is not on the public list, so the interceptor attaches a token to it. */
  lemma RefreshIsNotPublic()
    ensures !IsPublic("/auth/refresh")
  {
    RefreshHasNoLogin();
    NotContains("/auth/refresh", "/auth/register");
    RefreshHasNoHealth();
  }

  lemma RefreshHasNoLogin()
    ensures !Contains("/auth/refresh", "/auth/login")
  {
    var url := "/auth/refresh";
    assert !StartsWith(url[0..], "/auth/login") by { assert url[0..][6] == 'r'; }
    assert !StartsWith(url[1..], "/auth/login") by { assert url[1..][0] == 'a'; }
    assert !StartsWith(url[2..], "/auth/login") by { assert url[2..][0] == 'u'; }
    NotContains(url, "/auth/login");
  }

  lemma RefreshHasNoHealth()
    ensures !Contains("/auth/refresh", "/health")
  {
    var url := "/auth/refresh";
    forall i | 0 <= i <= |url| - 7 ensures !StartsWith(url[i..], "/health") {
      if i == 0 { assert url[i..][1] == 'a'; }
      else if i == 5 { assert url[i..][1] == 'r'; }
      else { assert url[i..][0] != '/'; }
    }
    NotContains(url, "/health");
  }

  /** `/projects` is not public: requests to it carry the stored token. */
  lemma ProjectsIsNotPublic()
    ensures !IsPublic("/projects")
  {
    NotContains("/projects", "/auth/login");
    NotContains("/projects", "/auth/register");
    ProjectsHasNoHealth();
  }

  lemma ProjectsHasNoHealth()
    ensures !Contains("/projects", "/health")
  {
    var url := "/projects";
    assert !StartsWith(url[0..], "/health") by { assert url[0..][1] == 'p'; }
    assert !StartsWith(url[1..], "/health") by { assert url[1..][0] == 'p'; }
    assert !StartsWith(url[2..], "/health") by { assert url[2..][0] == 'r'; }
    NotContains(url, "/health");
  }
}

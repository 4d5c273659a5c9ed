/**
 * The session store of the front end (src/app/core/auth/auth.service.ts): the access token kept
 * in localStorage under 'bndes_token', its normalisation to a `Bearer ` form, the one-shot
 * migration from the keys earlier versions used, logout, and the requests the service issues.
 */
module Session {
  import opened Wrappers
  import opened Strings
  import opened Http
  import opened BrowserStorage

  /** The canonical storage key. */
  const TokenKey := "bndes_token"

  /** The keys earlier versions stored the token under, in the order the migration tries them. */
  const LegacyKeys := ["token", "accessToken", "jwt"]

  datatype Credentials = Credentials(email: string, password: string)

  /** The body of a successful `POST /auth/login`; a missing `token` is the empty string. */
  datatype LoginResponse = LoginResponse(
    token: string,
    tokenType: Option<string>,
    expiresInSeconds: Option<int>,
    refreshToken: Option<string>,
    refreshExpiresInSeconds: Option<int>)

  // ------------------------------------------------------------------ api

  /**
   * `api(path)`: the configured base URL with at most one trailing '/' removed, followed by
   * `path`; when that base is empty, `path` alone.
   */
  function Api(base: string, path: string): (r: string)
    ensures base == "" || base == "/" ==> r == path
    ensures base != "" && base[|base| - 1] != '/' ==> r == base + path
    ensures |base| >= 2 && base[|base| - 1] == '/' ==> r == base[..|base| - 1] + path
  {
    var b := if base != "" && base[|base| - 1] == '/' then base[..|base| - 1] else base;
    if b != "" then b + path else path
  }

  // ------------------------------------------------------- normalisation

  /** Case-insensitive `bearer ` prefix. */
  predicate HasBearerPrefix(t: string) {
    StartsWith(Lower(t), "bearer ")
  }

  /** A token type that trims and lower-cases to `bearer`. */
  predicate IsBearerType(tokenType: Option<string>) {
    Lower(Trim(tokenType.GetOr(""))) == "bearer"
  }

  /**
   * `normalizeToken`: the trimmed token, with `Bearer ` put in front exactly when the token is
   * not blank, does not already carry a `bearer ` prefix in any case, and the type is `bearer`.
   */
  function NormalizeToken(token: string, tokenType: Option<string>): (r: string)
    ensures r == (if Trim(token) != "" && IsBearerType(tokenType) && !HasBearerPrefix(Trim(token))
                  then "Bearer " + Trim(token) else Trim(token))
    ensures r == "" <==> Trim(token) == ""
    ensures r != "" && IsBearerType(tokenType) ==> HasBearerPrefix(r)
  {
    var t := Trim(token);
    var ty := Trim(tokenType.GetOr(""));
    if t == "" then ""
    else if HasBearerPrefix(t) then t
    else if ty != "" && Lower(ty) == "bearer" then
      BearerPrefixed(t);
      "Bearer " + t
    else t
  }

  lemma BearerPrefixed(t: string)
    ensures HasBearerPrefix("Bearer " + t)
  {
    LowerAppend("Bearer ", t);
    assert Lower("Bearer ") == "bearer ";
  }

  /** Normalising a normalised token changes nothing: no second prefix is ever added. */
  lemma NormalizeIdempotent(token: string, tokenType: Option<string>)
    ensures NormalizeToken(NormalizeToken(token, tokenType), tokenType) == NormalizeToken(token, tokenType)
  {
    var t := Trim(token);
    var r := NormalizeToken(token, tokenType);
    TrimIdempotent(token);
    if t != "" && IsBearerType(tokenType) && !HasBearerPrefix(t) {
      PrefixedIsTrimmed(t);
      BearerPrefixed(t);
      NoSecondPrefix(r, tokenType);
    }
  }

  lemma PrefixedIsTrimmed(t: string)
    requires t != "" && !IsSpace(t[|t| - 1])
    ensures Trim("Bearer " + t) == "Bearer " + t
  {
    var r := "Bearer " + t;
    assert r[0] == 'B' && r[|r| - 1] == t[|t| - 1];
    TrimOfTrimmed(r);
  }

  /** A token that already starts with `bearer ` (any case) is only trimmed, whatever the type. */
  lemma NoSecondPrefix(token: string, tokenType: Option<string>)
    requires HasBearerPrefix(Trim(token))
    ensures NormalizeToken(token, tokenType) == Trim(token)
  {
  }

  // ------------------------------------------------------ store contents

  /** The store after `logout()`: the canonical entry gone, every other entry as it was. */
  function LoggedOut(items: map<string, string>): (r: map<string, string>)
    ensures TokenKey !in r
    ensures forall k :: k != TokenKey ==> Lookup(r, k) == Lookup(items, k)
  {
    items - {TokenKey}
  }

  lemma LogoutIdempotent(items: map<string, string>)
    ensures LoggedOut(LoggedOut(items)) == LoggedOut(items)
  {
  }

  /** The index of the first key holding a non-empty value, or |keys| when there is none. */
  function FirstWithValue(items: map<string, string>, keys: seq<string>): (i: nat)
    ensures i <= |keys|
    ensures forall j :: 0 <= j < i ==> !HasValue(items, keys[j])
    ensures i < |keys| ==> HasValue(items, keys[i])
  {
    if keys == [] then 0
    else if HasValue(items, keys[0]) then 0
    else 1 + FirstWithValue(items, keys[1..])
  }

  /**
   * The store after `migrateLegacyTokenIfNeeded()`. When the canonical entry is empty or absent and
   * some legacy key holds a non-empty value, the first such value (in LegacyKeys order) moves to
   * the canonical key and that one legacy key is removed; otherwise nothing changes.
   */
  function Migrated(items: map<string, string>): (r: map<string, string>)
    ensures HasValue(items, TokenKey) ==> r == items
    ensures FirstWithValue(items, LegacyKeys) == |LegacyKeys| ==> r == items
    ensures !HasValue(items, TokenKey) && FirstWithValue(items, LegacyKeys) < |LegacyKeys| ==>
      var moved := LegacyKeys[FirstWithValue(items, LegacyKeys)];
      && Lookup(r, TokenKey) == Lookup(items, moved)
      && moved !in r
      && forall k :: k != TokenKey && k != moved ==> Lookup(r, k) == Lookup(items, k)
  {
    var i := FirstWithValue(items, LegacyKeys);
    if HasValue(items, TokenKey) || i == |LegacyKeys| then items
    else items[TokenKey := items[LegacyKeys[i]]] - {LegacyKeys[i]}
  }

  /** A second migration finds the canonical entry filled (or nothing to move) and is a no-op. */
  lemma MigrateIdempotent(items: map<string, string>)
    ensures Migrated(Migrated(items)) == Migrated(items)
  {
    var i := FirstWithValue(items, LegacyKeys);
    if !HasValue(items, TokenKey) && i < |LegacyKeys| {
      assert HasValue(Migrated(items), TokenKey);
    }
  }

  /** Migration never removes a value that only a later legacy key holds. */
  lemma MigrationKeepsLaterLegacyKeys(items: map<string, string>, j: nat)
    requires FirstWithValue(items, LegacyKeys) < j < |LegacyKeys|
    ensures Lookup(Migrated(items), LegacyKeys[j]) == Lookup(items, LegacyKeys[j])
  {
  }

  // -------------------------------------------------------------- service

  class AuthService {
    const storage: LocalStorage
    const http: HttpClient<Credentials>
    /** `environment.apiBaseUrl` (undefined given as ""). */
    const apiBaseUrl: string

    /** The constructor runs the legacy-key migration once. */
    constructor (storage: LocalStorage, http: HttpClient<Credentials>, apiBaseUrl: string)
      modifies storage
      ensures this.storage == storage && this.http == http && this.apiBaseUrl == apiBaseUrl
      ensures storage.items == Migrated(old(storage.items))
    {
      this.storage := storage;
      this.http := http;
      this.apiBaseUrl := apiBaseUrl;
      new;
      MigrateLegacyTokenIfNeeded();
    }

    /** `getToken()`: the canonical entry, or None. */
    function GetToken(): (r: Option<string>)
      reads storage
      ensures r.Some? <==> TokenKey in storage.items
      ensures r.Some? ==> r.value == storage.items[TokenKey]
    {
      storage.GetItem(TokenKey)
    }

    /** `isLoggedIn()`: a non-empty canonical entry. */
    predicate IsLoggedIn()
      reads storage
      ensures IsLoggedIn() <==> TokenKey in storage.items && storage.items[TokenKey] != ""
    {
      Truthy(GetToken())
    }

    method SetToken(token: string)
      modifies storage
      ensures storage.items == old(storage.items)[TokenKey := token]
    {
      storage.SetItem(TokenKey, token);
    }

    /** `logout()` removes the canonical entry only; a repeated call changes nothing more. */
    method Logout()
      modifies storage
      ensures storage.items == LoggedOut(old(storage.items))
      ensures GetToken() == None && !IsLoggedIn()
    {
      storage.RemoveItem(TokenKey);
    }

    /** `login(payload)`: the request issued. */
    method Login(payload: Credentials)
      modifies http
      ensures http.sent == old(http.sent) + [NewRequest(Post, Api(apiBaseUrl, "/auth/login"), [], Some(payload))]
    {
      http.Send(NewRequest(Post, Api(apiBaseUrl, "/auth/login"), [], Some(payload)));
    }

    /** The `map` step of `login`: store the normalised token from the response. */
    method OnLoginResponse(res: LoginResponse)
      modifies storage
      ensures storage.items == old(storage.items)[TokenKey := NormalizeToken(res.token, res.tokenType)]
      ensures GetToken() == Some(NormalizeToken(res.token, res.tokenType))
      ensures IsLoggedIn() <==> Trim(res.token) != ""
    {
      var normalized := NormalizeToken(res.token, res.tokenType);
      SetToken(normalized);
    }

    /** `register(payload)`: the request issued; it has no session effect. */
    method Register(payload: Credentials)
      modifies http
      ensures http.sent == old(http.sent) + [NewRequest(Post, Api(apiBaseUrl, "/auth/register"), [], Some(payload))]
    {
      http.Send(NewRequest(Post, Api(apiBaseUrl, "/auth/register"), [], Some(payload)));
    }

    method MigrateLegacyTokenIfNeeded()
      modifies storage
      ensures storage.items == Migrated(old(storage.items))
    {
      var current := storage.GetItem(TokenKey);
      if Truthy(current) {
        return;
      }
      var i := 0;
      while i < |LegacyKeys|
        invariant 0 <= i <= |LegacyKeys|
        invariant storage.items == old(storage.items)
        invariant forall j :: 0 <= j < i ==> !HasValue(old(storage.items), LegacyKeys[j])
      {
        var key := LegacyKeys[i];
        var legacy := storage.GetItem(key);
        if Truthy(legacy) {
          assert FirstWithValue(old(storage.items), LegacyKeys) == i;
          storage.SetItem(TokenKey, legacy.value);
          storage.RemoveItem(key);
          break;
        }
        i := i + 1;
      }
    }
  }
}

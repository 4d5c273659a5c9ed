/**
 * The login page (src/app/pages/login/login.component.ts): the sanitising of the `returnUrl`
 * query parameter, the notice for an expired session, the submit guard, and what a successful
 * login does.
 */
module Login {
  import opened Wrappers
  import opened Strings
  import opened Http
  import opened Ui
  import opened Session

  /** `[a-zA-Z0-9+.-]` */
  predicate IsSchemeChar(c: char) {
    IsLetter(c) || IsDigit(c) || c == '+' || c == '.' || c == '-'
  }

  /** The number of scheme characters `s` starts with. */
  function SchemeRun(s: string): (n: nat)
    ensures n <= |s|
    ensures forall i :: 0 <= i < n ==> IsSchemeChar(s[i])
    ensures n < |s| ==> !IsSchemeChar(s[n])
  {
    if s == [] || !IsSchemeChar(s[0]) then 0 else 1 + SchemeRun(s[1..])
  }

  /**
   * `/^([a-zA-Z][a-zA-Z0-9+.-]*:)?\/\//`: `//`, or a scheme followed by `://`. Since ':' is not a
   * scheme character, the scheme can only be the whole run of scheme characters after the letter.
   */
  predicate HasSchemeOrAuthority(t: string) {
    || StartsWith(t, "//")
    || (t != [] && IsLetter(t[0]) && StartsWith(t[1 + SchemeRun(t[1..])..], "://"))
  }

  /**
   * `sanitizeReturnUrl`: None for a missing or empty value; otherwise the trimmed value when it is
   * an absolute path (`/`, but not `//`), None when it is anything else.
   */
  function SanitizeReturnUrl(value: Option<string>): (r: Option<string>)
    ensures !Truthy(value) ==> r == None
    ensures r.Some? <==>
      Truthy(value) && StartsWith(Trim(value.value), "/") && !StartsWith(Trim(value.value), "//")
    ensures r.Some? ==> r.value == Trim(value.value)
  {
    if !Truthy(value) then None
    else
      var trimmed := Trim(value.value);
      if HasSchemeOrAuthority(trimmed) then None
      else if !StartsWith(trimmed, "/") then None
      else Some(trimmed)
  }

  /** A sanitised URL passes the sanitiser again unchanged. */
  lemma SanitizeIdempotent(value: Option<string>)
    requires SanitizeReturnUrl(value).Some?
    ensures SanitizeReturnUrl(SanitizeReturnUrl(value)) == SanitizeReturnUrl(value)
  {
    TrimIdempotent(value.value);
  }

  /** A scheme-prefixed URL (`https://...`, `javascript:...`) never survives, with or without `//`. */
  lemma SchemeRejected(value: string)
    requires Trim(value) != [] && IsLetter(Trim(value)[0])
    ensures SanitizeReturnUrl(Some(value)) == None
  {
  }

  /** `sanitizeReturnUrl(raw) || '/projects'` */
  function ReturnUrl(raw: Option<string>): (r: string)
    ensures StartsWith(r, "/") && !StartsWith(r, "//")
    ensures !Truthy(raw) ==> r == "/projects"
    ensures SanitizeReturnUrl(raw).None? ==> r == "/projects"
    ensures SanitizeReturnUrl(raw).Some? ==> r == SanitizeReturnUrl(raw).value
  {
    var sanitized := SanitizeReturnUrl(raw);
    var fallback := "/projects";
    assert fallback[1] == 'p';
    if sanitized.Some? && sanitized.value != "" then sanitized.value else fallback
  }

  /** A plain path is kept. */
  lemma PathKept()
    ensures ReturnUrl(Some("/projects/7")) == "/projects/7"
  {
    var path := "/projects/7";
    TrimOfTrimmed(path);
    assert !HasSchemeOrAuthority(path) by { assert path[1] == 'p' && !IsLetter(path[0]); }
    assert StartsWith(path, "/") by { assert path[..1] == "/"; }
    assert SanitizeReturnUrl(Some(path)) == Some(path);
  }

  /** A protocol-relative URL falls back to /projects. */
  lemma ProtocolRelativeRejected()
    ensures ReturnUrl(Some("//evil.example")) == "/projects"
  {
    var url := "//evil.example";
    TrimOfTrimmed(url);
    assert StartsWith(url, "//") by { assert url[..2] == "//"; }
    assert SanitizeReturnUrl(Some(url)) == None;
  }

  /** An absolute URL falls back to /projects. */
  lemma AbsoluteUrlRejected()
    ensures ReturnUrl(Some("https://evil.example")) == "/projects"
  {
    var url := "https://evil.example";
    TrimOfTrimmed(url);
    SchemeRejected(url);
  }

  datatype LoginForm = LoginForm(email: string, password: string)

  /** email: required and an email (`emailValid` is the email validator's verdict); password: required. */
  predicate LoginFormValid(f: LoginForm, emailValid: bool) {
    f.email != "" && emailValid && f.password != ""
  }

  const ExpiredText := "Sua sessão expirou. Faça login novamente."
  const InvalidFormText := "Preencha email e senha válidos."

  class LoginComponent {
    var form: LoginForm
    var returnUrl: string
    /** whether `markAllAsTouched` has run */
    var touched: bool
    const auth: AuthService
    const snack: SnackBar
    const router: Router

    constructor (auth: AuthService, snack: SnackBar, router: Router)
      ensures this.auth == auth && this.snack == snack && this.router == router
      ensures returnUrl == "/projects" && !touched
    {
      this.auth := auth;
      this.snack := snack;
      this.router := router;
      form := LoginForm("", "");
      returnUrl := "/projects";
      touched := false;
    }

    /** `ngOnInit` with the `returnUrl` and `reason` query parameters. */
    method NgOnInit(rawReturnUrl: Option<string>, reason: Option<string>)
      modifies this, snack
      ensures form == LoginForm("", "") && touched == old(touched)
      ensures returnUrl == ReturnUrl(rawReturnUrl)
      ensures snack.shown == old(snack.shown) + if reason == Some("expired") then [ExpiredText] else []
    {
      form := LoginForm("", "");
      returnUrl := ReturnUrl(rawReturnUrl);
      if reason == Some("expired") {
        snack.Open(ExpiredText);
      }
    }

    /** `onSubmit`: an invalid form is marked touched and notified; a valid one sends the login request. */
    method OnSubmit(emailValid: bool)
      modifies this, snack, auth.http
      ensures form == old(form) && returnUrl == old(returnUrl)
      ensures !LoginFormValid(form, emailValid) ==>
        && touched
        && snack.shown == old(snack.shown) + [InvalidFormText]
        && auth.http.sent == old(auth.http.sent)
      ensures LoginFormValid(form, emailValid) ==>
        && touched == old(touched) && snack.shown == old(snack.shown)
        && auth.http.sent == old(auth.http.sent) +
          [NewRequest(Post, Api(auth.apiBaseUrl, "/auth/login"), [], Some(Credentials(form.email, form.password)))]
    {
      if !LoginFormValid(form, emailValid) {
        touched := true;
        snack.Open(InvalidFormText);
        return;
      }
      auth.Login(Credentials(form.email, form.password));
    }

    /** A successful login stores the token and goes to /projects, whatever `returnUrl` holds. */
    method OnLoginSucceeded(res: LoginResponse)
      modifies auth.storage, router
      ensures auth.storage.items == old(auth.storage.items)[TokenKey := NormalizeToken(res.token, res.tokenType)]
      ensures router.visited == old(router.visited) + ["/projects"]
    {
      auth.OnLoginResponse(res);
      router.Navigate("/projects");
    }
  }
}

/**
 * The sign-up page (src/app/pages/register/register.component.ts): the password-strength and
 * password-match validators, the form's validity, the message built from the backend's field
 * errors, and the texts the page shows after a register call.
 */
module Register {
  import opened Wrappers
  import opened Strings
  import opened Http
  import opened Ui
  import opened Session

  // ------------------------------------------------------------ strength

  predicate HasSpace(s: string) { exists i :: 0 <= i < |s| && IsSpace(s[i]) }
  predicate HasLower(s: string) { exists i :: 0 <= i < |s| && IsLower(s[i]) }
  predicate HasUpper(s: string) { exists i :: 0 <= i < |s| && IsUpper(s[i]) }
  predicate HasDigit(s: string) { exists i :: 0 <= i < |s| && IsDigit(s[i]) }
  /** a character outside `[A-Za-z0-9]` */
  predicate HasSpecial(s: string) { exists i :: 0 <= i < |s| && !IsLetter(s[i]) && !IsDigit(s[i]) }

  /** The strength validator's error object; a flag is true exactly when its key is present. */
  datatype StrengthErrors = StrengthErrors(
    hasWhitespace: bool,
    noLowercase: bool,
    noUppercase: bool,
    noNumber: bool,
    noSpecial: bool)

  /** A password the strength rule accepts: no whitespace, and a lower, an upper, a digit and a special character. */
  predicate Strong(s: string) {
    !HasSpace(s) && HasLower(s) && HasUpper(s) && HasDigit(s) && HasSpecial(s)
  }

  /** `passwordStrengthValidatorFn`: None (valid) for the empty value, else the flags that hold, or None if none does. */
  function PasswordStrength(value: string): (r: Option<StrengthErrors>)
    ensures value == "" ==> r == None
    ensures value != "" ==> (r == None <==> Strong(value))
    ensures r.Some? ==>
      && (r.value.hasWhitespace <==> HasSpace(value))
      && (r.value.noLowercase <==> !HasLower(value))
      && (r.value.noUppercase <==> !HasUpper(value))
      && (r.value.noNumber <==> !HasDigit(value))
      && (r.value.noSpecial <==> !HasSpecial(value))
  {
    if value == "" then None
    else
      var errors := StrengthErrors(HasSpace(value), !HasLower(value), !HasUpper(value), !HasDigit(value), !HasSpecial(value));
      if errors == StrengthErrors(false, false, false, false, false) then None else Some(errors)
  }

  /** `passwordsMatchValidator`: a mismatch only when both values are non-empty and differ. */
  function PasswordsMismatch(pass: Option<string>, confirm: Option<string>): (mismatch: bool)
    ensures mismatch <==> Truthy(pass) && Truthy(confirm) && pass.value != confirm.value
  {
    if !Truthy(pass) || !Truthy(confirm) then false else pass.value != confirm.value
  }

  datatype RegisterForm = RegisterForm(email: string, password: string, confirmPassword: string)

  /**
   * The form's validity; `emailValid` is the verdict of Angular's email validator on the email.
   * email: required and an email; password: required, 8 to 72 characters, strong; confirmation:
   * required; and no mismatch between the two.
   */
  predicate RegisterFormValid(f: RegisterForm, emailValid: bool) {
    && f.email != "" && emailValid
    && f.password != "" && 8 <= |f.password| <= 72 && PasswordStrength(f.password) == None
    && f.confirmPassword != ""
    && !PasswordsMismatch(Some(f.password), Some(f.confirmPassword))
  }

  /** A valid form holds a strong password of 8 to 72 characters, typed twice alike. */
  lemma ValidFormPassword(f: RegisterForm, emailValid: bool)
    requires RegisterFormValid(f, emailValid)
    ensures Strong(f.password) && 8 <= |f.password| <= 72 && f.password == f.confirmPassword
  {
  }

  // ------------------------------------------------------ backend message

  predicate Distinct(s: seq<string>) {
    forall i, j :: 0 <= i < j < |s| ==> s[i] != s[j]
  }

  /** The position of the first occurrence of `x` in `s`. */
  function FirstIndex(s: seq<string>, x: string): (k: nat)
    requires x in s
    ensures k < |s| && s[k] == x && x !in s[..k]
  {
    if s[0] == x then 0 else 1 + FirstIndex(s[1..], x)
  }

  lemma FirstIndexUnique(s: seq<string>, x: string, k: nat)
    requires k < |s| && s[k] == x && x !in s[..k]
    ensures FirstIndex(s, x) == k
  {
  }

  /** `Array.from(new Set(s))`: each element once, where it first occurs. */
  function Dedup(s: seq<string>): (r: seq<string>)
    ensures forall x :: x in r <==> x in s
    ensures Distinct(r)
    ensures |r| <= |s|
  {
    if s == [] then []
    else
      var prev := Dedup(s[..|s| - 1]);
      assert forall x :: x in s <==> x in s[..|s| - 1] || x == s[|s| - 1] by {
        assert s == s[..|s| - 1] + [s[|s| - 1]];
      }
      if s[|s| - 1] in prev then prev else prev + [s[|s| - 1]]
  }

  /** Dedup keeps first-occurrence order: earlier elements of the result first occur earlier in `s`. */
  lemma {:induction false} DedupFirstOccurrence(s: seq<string>)
    ensures forall i, j :: 0 <= i < j < |Dedup(s)| ==> FirstIndex(s, Dedup(s)[i]) < FirstIndex(s, Dedup(s)[j])
  {
    if s != [] {
      var n := |s| - 1;
      var init := s[..n];
      var prev := Dedup(init);
      DedupFirstOccurrence(init);
      forall x | x in init
        ensures FirstIndex(s, x) == FirstIndex(init, x)
      {
        var k := FirstIndex(init, x);
        assert s[..k] == init[..k];
        FirstIndexUnique(s, x, k);
      }
      if s[n] !in prev {
        assert s[..n] == init;
        FirstIndexUnique(s, s[n], n);
        var r := Dedup(s);
        assert r == prev + [s[n]];
        forall i, j | 0 <= i < j < |r|
          ensures FirstIndex(s, r[i]) < FirstIndex(s, r[j])
        {
          if j == |prev| {
            assert r[i] == prev[i] && r[i] in init;
          } else {
            assert r[i] == prev[i] && r[j] == prev[j];
          }
        }
      }
    }
  }

  /** A field error whose message is a string that is not blank. */
  predicate Shown(e: FieldError) {
    e.message.Some? && Trim(e.message.value) != ""
  }

  /** The messages of the field errors that are shown, in order. */
  function Messages(fieldErrors: seq<FieldError>): (r: seq<string>)
    ensures forall i :: 0 <= i < |r| ==> Trim(r[i]) != ""
    ensures forall i :: 0 <= i < |fieldErrors| && Shown(fieldErrors[i]) ==> fieldErrors[i].message.value in r
    ensures r == [] <==> forall i :: 0 <= i < |fieldErrors| ==> !Shown(fieldErrors[i])
  {
    if fieldErrors == [] then []
    else
      var rest := Messages(fieldErrors[1..]);
      assert forall i :: 1 <= i < |fieldErrors| ==> fieldErrors[i] == fieldErrors[1..][i - 1];
      (if Shown(fieldErrors[0]) then [fieldErrors[0].message.value] else []) + rest
  }

  /**
   * `extractBackendValidationMessage`: None when there is no field-error array, it is empty, or no
   * entry has a non-blank string message; otherwise the distinct messages joined by one space.
   */
  function ExtractBackendValidationMessage(fieldErrors: Option<seq<FieldError>>): (r: Option<string>)
    ensures fieldErrors.None? || fieldErrors.value == [] ==> r == None
    ensures r.None? <==> fieldErrors.None? || forall i :: 0 <= i < |fieldErrors.value| ==> !Shown(fieldErrors.value[i])
    ensures r.Some? ==> r.value != "" && r.value == Join(Dedup(Messages(fieldErrors.value)), " ")
  {
    if fieldErrors.None? || |fieldErrors.value| == 0 then None
    else
      var msgs := Messages(fieldErrors.value);
      if |msgs| == 0 then None
      else
        var unique := Dedup(msgs);
        assert msgs[0] in unique;
        assert unique[0] != "" by {
          assert unique[0] in msgs;
          var k :| 0 <= k < |msgs| && msgs[k] == unique[0];
          assert Trim(msgs[k]) != "";
        }
        JoinNonEmpty(unique, " ");
        Some(Join(unique, " "))
  }

  /** A message repeated by a later field error is not shown a second time. */
  lemma RepeatedMessageShownOnce(fieldErrors: seq<FieldError>, e: FieldError)
    requires Shown(e) && e.message.value in Messages(fieldErrors)
    ensures ExtractBackendValidationMessage(Some(fieldErrors + [e])) == ExtractBackendValidationMessage(Some(fieldErrors))
  {
    MessagesAppend(fieldErrors, [e]);
    var msgs := Messages(fieldErrors);
    MessagesOfOne(e);
    assert (msgs + [e.message.value])[..|msgs|] == msgs;
  }

  /** Every message kept comes from a field error that is shown. */
  lemma {:induction false} MessagesFromShown(fieldErrors: seq<FieldError>, x: string)
    requires x in Messages(fieldErrors)
    ensures exists i :: 0 <= i < |fieldErrors| && Shown(fieldErrors[i]) && fieldErrors[i].message.value == x
  {
    var rest := fieldErrors[1..];
    assert Messages(fieldErrors) == (if Shown(fieldErrors[0]) then [fieldErrors[0].message.value] else []) + Messages(rest);
    if Shown(fieldErrors[0]) && x == fieldErrors[0].message.value {
    } else {
      MessagesFromShown(rest, x);
      var k :| 0 <= k < |rest| && Shown(rest[k]) && rest[k].message.value == x;
      assert fieldErrors[k + 1] == rest[k];
    }
  }

  /** One field error contributes its message exactly when it is shown. */
  lemma MessagesOfOne(e: FieldError)
    ensures Messages([e]) == if Shown(e) then [e.message.value] else []
  {
    assert [e][1..] == [];
  }

  lemma {:induction false} MessagesAppend(a: seq<FieldError>, b: seq<FieldError>)
    ensures Messages(a + b) == Messages(a) + Messages(b)
  {
    if a == [] {
      assert a + b == b;
    } else {
      assert (a + b)[1..] == a[1..] + b;
      MessagesAppend(a[1..], b);
    }
  }

  /** The `details.fieldErrors` member of the error body, when there is one. */
  function FieldErrorsOf(err: Failure): Option<seq<FieldError>> {
    if err.HttpErrorResponse? && err.body.JsonBody? then err.body.fieldErrors else None
  }

  const RegisterFailedText := "Falha ao cadastrar. Verifique os dados e tente novamente."
  const InvalidFormText := "Preencha corretamente os campos."
  const RegisteredText := "Usuário cadastrado com sucesso!"

  /** The text shown after a failed register: field-error messages, else body.message, else body.error, else a fixed text. */
  function SubmitErrorText(err: Failure): (r: string)
    ensures r != ""
    ensures ExtractBackendValidationMessage(FieldErrorsOf(err)).Some? ==>
      r == ExtractBackendValidationMessage(FieldErrorsOf(err)).value
    ensures ExtractBackendValidationMessage(FieldErrorsOf(err)).None? && Truthy(BodyMessage(err)) ==>
      r == BodyMessage(err).value
    ensures ExtractBackendValidationMessage(FieldErrorsOf(err)).None? && !Truthy(BodyMessage(err)) ==>
      r == if Truthy(BodyError(err)) then BodyError(err).value else RegisterFailedText
  {
    var candidates := [ExtractBackendValidationMessage(FieldErrorsOf(err)), BodyMessage(err), BodyError(err)];
    assert !Truthy(candidates[0]) ==> forall j :: 0 <= j < 1 ==> !Truthy(candidates[j]);
    assert !Truthy(candidates[0]) && !Truthy(candidates[1]) ==> forall j :: 0 <= j < 2 ==> !Truthy(candidates[j]);
    assert !Truthy(candidates[0]) && !Truthy(candidates[1]) && !Truthy(candidates[2]) ==>
      forall j :: 0 <= j < 3 ==> !Truthy(candidates[j]);
    FirstNonEmpty(candidates, RegisterFailedText)
  }

  // ------------------------------------------------------------ component

  class RegisterComponent {
    var form: RegisterForm
    var loading: bool
    /** whether `markAllAsTouched` has run */
    var touched: bool
    const auth: AuthService
    const snack: SnackBar
    const router: Router

    constructor (auth: AuthService, snack: SnackBar, router: Router)
      ensures this.auth == auth && this.snack == snack && this.router == router
      ensures form == RegisterForm("", "", "") && !loading && !touched
    {
      this.auth := auth;
      this.snack := snack;
      this.router := router;
      form := RegisterForm("", "", "");
      loading := false;
      touched := false;
    }

    /**
     * `onSubmit`, given the email validator's verdict: an invalid form is marked touched and
     * notified and sends nothing; a valid one sets loading and sends one register request.
     */
    method OnSubmit(emailValid: bool)
      modifies this, snack, auth.http
      ensures form == old(form)
      ensures !RegisterFormValid(form, emailValid) ==>
        && touched && loading == old(loading)
        && snack.shown == old(snack.shown) + [InvalidFormText]
        && auth.http.sent == old(auth.http.sent)
      ensures RegisterFormValid(form, emailValid) ==>
        && loading && touched == old(touched) && snack.shown == old(snack.shown)
        && auth.http.sent == old(auth.http.sent) +
          [NewRequest(Post, Api(auth.apiBaseUrl, "/auth/register"), [], Some(Credentials(form.email, form.password)))]
    {
      if !RegisterFormValid(form, emailValid) {
        touched := true;
        snack.Open(InvalidFormText);
        return;
      }
      loading := true;
      auth.Register(Credentials(form.email, form.password));
    }

    /** The `next` handler: notify and go to the login page. */
    method OnRegistered()
      modifies this, snack, router
      ensures !loading && form == old(form) && touched == old(touched)
      ensures snack.shown == old(snack.shown) + [RegisteredText]
      ensures router.visited == old(router.visited) + ["/login"]
    {
      loading := false;
      snack.Open(RegisteredText);
      router.Navigate("/login");
    }

    /** The `error` handler: show the best message available. */
    method OnRegisterFailed(err: Failure)
      modifies this, snack
      ensures !loading && form == old(form) && touched == old(touched)
      ensures snack.shown == old(snack.shown) + [SubmitErrorText(err)]
    {
      loading := false;
      snack.Open(SubmitErrorText(err));
    }
  }
}

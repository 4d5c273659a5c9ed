/**
 * The create/edit page of a project (src/app/pages/projects/project-form/project-form.component.ts):
 * the form's validity rules, the `yyyy-MM-dd` formatting and parsing of its two dates, the
 * payload it saves, and the choice between create and update.
 */
module ProjectForm {
  import opened Wrappers
  import opened Strings
  import opened Calendar
  import opened Ui
  import opened ProjectService

  // ------------------------------------------------------------- yyyy-MM-dd

  /** `toYmd`: None for no date, otherwise the year, then month and day padded to two digits, joined by '-'. */
  function ToYmd(d: Option<Date>): (r: Option<string>)
    ensures r.Some? <==> d.Some?
    ensures r.Some? ==> var parts := Split(r.value, '-');
      && |parts| == 3
      && AllDigits(parts[0]) && ParseNat(parts[0]) == d.value.year
      && AllDigits(parts[1]) && ParseNat(parts[1]) == d.value.month
      && AllDigits(parts[2]) && ParseNat(parts[2]) == d.value.day
      && (d.value.month < 100 ==> |parts[1]| == 2)
      && (d.value.day < 100 ==> |parts[2]| == 2)
  {
    match d
    case None => None
    case Some(date) =>
      var fields := [NatToString(date.year), Pad2(date.month), Pad2(date.day)];
      DigitsHaveNoDash(fields);
      SplitJoin(fields, '-');
      Some(Join(fields, "-"))
  }

  lemma DigitsHaveNoDash(fields: seq<string>)
    requires forall i :: 0 <= i < |fields| ==> AllDigits(fields[i])
    ensures forall i :: 0 <= i < |fields| ==> '-' !in fields[i]
  {
  }

  /** `!n` is false for a number: present, a number, and not zero. */
  predicate NonZero(n: Option<nat>) {
    n.Some? && n.value != 0
  }

  /**
   * `parseYmd`: None for the empty string, and when one of the first three '-'-separated parts is
   * missing, not a number, or zero; otherwise the date `new Date(y, m - 1, d)` names, with a year
   * 1-99 read as 1900-1999.
   */
  function ParseYmd(ymd: string): (r: Option<Date>)
    ensures ymd == "" ==> r == None
    ensures r.Some? <==> ymd != "" && var parts := Split(ymd, '-');
      |parts| >= 3 && NonZero(JsNumber(parts[0])) && NonZero(JsNumber(parts[1])) && NonZero(JsNumber(parts[2]))
    ensures r.Some? ==> var parts := Split(ymd, '-');
      r.value == Date(JsFullYear(ParseNat(parts[0])), ParseNat(parts[1]), ParseNat(parts[2]))
  {
    if ymd == "" then None
    else
      var parts := Split(ymd, '-');
      if |parts| < 3 then None
      else
        var y, m, d := JsNumber(parts[0]), JsNumber(parts[1]), JsNumber(parts[2]);
        if !NonZero(y) || !NonZero(m) || !NonZero(d) then None
        else Some(Date(JsFullYear(y.value), m.value, d.value))
  }

  /**
   * Formatting then parsing gives a date back exactly when its year is at least 100: year 0 reads
   * as "no date", and years 1-99 come back as 1900-1999.
   */
  lemma YmdRoundTrip(d: Date)
    requires IsValidDate(d)
    ensures ParseYmd(ToYmd(Some(d)).value) == Some(d) <==> d.year >= 100
  {
    var s := ToYmd(Some(d)).value;
    JoinNonEmpty([NatToString(d.year), Pad2(d.month), Pad2(d.day)], "-");
    assert s != "";
  }

  // ------------------------------------------------------------------ form

  /** The reactive form's raw value; `value` is None for a null number. */
  datatype FormValue = FormValue(
    name: string,
    description: string,
    value: Option<int>,
    active: bool,
    startDate: Option<Date>,
    endDate: Option<Date>)

  const InitialForm := FormValue("", "", Some(0), true, None, None)

  /** name: required and at least three characters; value: required and >= 0; startDate: required. */
  predicate FormValid(f: FormValue) {
    |f.name| >= 3 && f.value.Some? && f.value.value >= 0 && f.startDate.Some?
  }

  /** The payload `save` sends for the form's raw value. */
  function Payload(f: FormValue): ProjectPayload {
    ProjectPayload(f.name, f.description, f.value, f.active, ToYmd(f.startDate), ToYmd(f.endDate))
  }

  /** A valid form always sends a start date; the end date is null exactly when none was chosen. */
  lemma ValidPayload(f: FormValue)
    requires FormValid(f)
    ensures Payload(f).startDate.Some? && Payload(f).value.Some? && Payload(f).value.value >= 0
    ensures Payload(f).endDate == None <==> f.endDate == None
  {
  }

  /** The form as `patchValue` leaves it for a fetched project. */
  function Patched(p: Project): FormValue {
    FormValue(p.name, p.description, Some(p.value.GetOr(0)), p.active, ParseYmd(p.startDate), ParseYmd(p.endDate.GetOr("")))
  }

  const LoadFailedText := "Falha ao carregar projeto"
  const SavedText := "Projeto salvo com sucesso"
  const SaveFailedText := "Falha ao salvar projeto"

  class ProjectFormComponent {
    var form: FormValue
    /** whether `markAllAsTouched` has run */
    var touched: bool
    var loading: bool
    var isEdit: bool
    /** `Number(idParam)`; None when undefined or NaN */
    var id: Option<nat>
    const service: ProjectService
    const snack: SnackBar
    const router: Router

    /** With an `id` route parameter the page is in edit mode and fetches that project. */
    constructor (idParam: Option<string>, service: ProjectService, snack: SnackBar, router: Router)
      modifies service.http
      ensures this.service == service && this.snack == snack && this.router == router
      ensures form == InitialForm && !touched
      ensures isEdit <==> Truthy(idParam)
      ensures id == if Truthy(idParam) then JsNumber(idParam.value) else None
      ensures loading <==> NonZero(id)
      ensures service.http.sent == old(service.http.sent) + if NonZero(id) then [GetByIdRequest(id.value)] else []
    {
      this.service := service;
      this.snack := snack;
      this.router := router;
      form := InitialForm;
      touched := false;
      loading := false;
      isEdit := false;
      id := None;
      new;
      if Truthy(idParam) {
        isEdit := true;
        id := JsNumber(idParam.value);
        Fetch();
      }
    }

    /** `fetch`: nothing without a non-zero id; otherwise loading, and one `getById` request. */
    method Fetch()
      modifies this, service.http
      ensures form == old(form) && touched == old(touched) && isEdit == old(isEdit) && id == old(id)
      ensures loading == if NonZero(id) then true else old(loading)
      ensures service.http.sent == old(service.http.sent) + if NonZero(id) then [GetByIdRequest(id.value)] else []
    {
      if !NonZero(id) {
        return;
      }
      loading := true;
      service.GetById(id.value);
    }

    /** The `next` handler of the fetch. */
    method OnFetched(p: Project)
      modifies this
      ensures form == Patched(p) && !loading
      ensures touched == old(touched) && isEdit == old(isEdit) && id == old(id)
    {
      form := Patched(p);
      loading := false;
    }

    /** The `error` handler of the fetch: notify and go back to the list. */
    method OnFetchFailed()
      modifies this, snack, router
      ensures !loading && form == old(form) && touched == old(touched) && isEdit == old(isEdit) && id == old(id)
      ensures snack.shown == old(snack.shown) + [LoadFailedText]
      ensures router.visited == old(router.visited) + ["/projects"]
    {
      loading := false;
      snack.Open(LoadFailedText);
      router.Navigate("/projects");
    }

    /**
     * `save`: an invalid form is only marked touched and nothing is sent; a valid one sets loading
     * and sends the payload with `update` in edit mode with a non-zero id, with `create` otherwise.
     */
    method Save()
      modifies this, service.http
      ensures form == old(form) && isEdit == old(isEdit) && id == old(id)
      ensures !FormValid(form) ==>
        touched && loading == old(loading) && service.http.sent == old(service.http.sent)
      ensures FormValid(form) ==>
        && touched == old(touched) && loading
        && service.http.sent == old(service.http.sent) +
          [if isEdit && NonZero(id) then UpdateRequest(id.value, Payload(form)) else CreateRequest(Payload(form))]
    {
      if !FormValid(form) {
        touched := true;
        return;
      }
      var payload := Payload(form);
      loading := true;
      if isEdit && NonZero(id) {
        service.Update(id.value, payload);
      } else {
        service.Create(payload);
      }
    }

    /** The `next` handler of the save: notify and go back to the list. */
    method OnSaved()
      modifies this, snack, router
      ensures !loading && form == old(form) && touched == old(touched) && isEdit == old(isEdit) && id == old(id)
      ensures snack.shown == old(snack.shown) + [SavedText]
      ensures router.visited == old(router.visited) + ["/projects"]
    {
      loading := false;
      snack.Open(SavedText);
      router.Navigate("/projects");
    }

    /** The `error` handler of the save: notify and stay on the page. */
    method OnSaveFailed()
      modifies this, snack
      ensures !loading && form == old(form) && touched == old(touched) && isEdit == old(isEdit) && id == old(id)
      ensures snack.shown == old(snack.shown) + [SaveFailedText]
    {
      loading := false;
      snack.Open(SaveFailedText);
    }

    method Cancel()
      modifies router
      ensures router.visited == old(router.visited) + ["/projects"]
    {
      router.Navigate("/projects");
    }
  }
}

/**
 * The shapes of HTTP traffic the front end deals with: outgoing requests, the ghost log an
 * HttpClient keeps of what it was asked to send, and the failures a call can end with
 * (an HttpErrorResponse with status and body, or any other thrown value).
 */
module Http {
  import opened Wrappers
  import opened Strings

  datatype Verb = Get | Post | Put | Delete

  /**
   * An outgoing request: verb, URL, query parameters in insertion order, headers, optional body.
   * Header names are compared without regard to case, as Angular's HttpHeaders does, so `headers`
   * is keyed by the lower-cased name: every request built here satisfies `LowerCaseNames`.
   */
  datatype Request<B> = Request(
    verb: Verb,
    url: string,
    query: seq<(string, string)>,
    headers: map<string, string>,
    body: Option<B>)

  /** Every header key is already in lower case. */
  predicate LowerCaseNames(headers: map<string, string>) {
    forall k :: k in headers ==> Lower(k) == k
  }

  /** `headers.get(name)`: the value stored under `name`, whatever its case. */
  function HeaderValue<B>(req: Request<B>, name: string): Option<string> {
    if Lower(name) in req.headers then Some(req.headers[Lower(name)]) else None
  }

  /**
   * `req.clone({ setHeaders: { [name]: value } })`: the header is set to `value` under every
   * spelling of its name, replacing any entry that differs from `name` only in case; the rest of
   * the request is unchanged.
   */
  function SetHeader<B>(req: Request<B>, name: string, value: string): (r: Request<B>)
    ensures r.verb == req.verb && r.url == req.url && r.query == req.query && r.body == req.body
    ensures forall n :: Lower(n) == Lower(name) ==> HeaderValue(r, n) == Some(value)
    ensures forall n :: Lower(n) != Lower(name) ==> HeaderValue(r, n) == HeaderValue(req, n)
    ensures r.headers.Keys == req.headers.Keys + {Lower(name)}
    ensures LowerCaseNames(req.headers) ==> LowerCaseNames(r.headers)
  {
    LowerIdempotent(name);
    req.(headers := req.headers[Lower(name) := value])
  }

  function NewRequest<B>(verb: Verb, url: string, query: seq<(string, string)>, body: Option<B>): (r: Request<B>)
    ensures r.headers == map[] && LowerCaseNames(r.headers)
  {
    Request(verb, url, query, map[], body)
  }

  /** Angular's HttpClient, reduced to the requests it has been handed. */
  class HttpClient<B> {
    ghost var sent: seq<Request<B>>

    constructor ()
      ensures sent == []
    {
      sent := [];
    }

    ghost method Send(r: Request<B>)
      modifies this
      ensures sent == old(sent) + [r]
    {
      sent := sent + [r];
    }
  }

  /** One entry of `error.details.fieldErrors`; `message` is None when missing or not a string. */
  datatype FieldError = FieldError(message: Option<string>)

  /**
   * The `error` member of an HttpErrorResponse: no body, a text body, or a JSON object whose
   * `message` / `error` members are None when missing or not strings, and whose
   * `details.fieldErrors` is None when missing or not an array.
   */
  datatype ErrorBody =
    | NoBody
    | TextBody(text: string)
    | JsonBody(message: Option<string>, error: Option<string>, fieldErrors: Option<seq<FieldError>>)

  /** What an HTTP call can fail with. */
  datatype Failure =
    | NonHttpError(description: string)
    | HttpErrorResponse(status: int, body: ErrorBody, message: string)

  /** `err.error?.message` */
  function BodyMessage(err: Failure): Option<string> {
    if err.HttpErrorResponse? && err.body.JsonBody? then err.body.message else None
  }

  /** `err.error?.error` */
  function BodyError(err: Failure): Option<string> {
    if err.HttpErrorResponse? && err.body.JsonBody? then err.body.error else None
  }

  /** `c0 || c1 || ... || fallback` over strings that may be null or undefined. */
  function FirstNonEmpty(candidates: seq<Option<string>>, fallback: string): (r: string)
    ensures fallback != "" ==> r != ""
    ensures forall i ::
      (0 <= i < |candidates| && Truthy(candidates[i]) && forall j :: 0 <= j < i ==> !Truthy(candidates[j]))
      ==> r == candidates[i].value
    ensures (forall j :: 0 <= j < |candidates| ==> !Truthy(candidates[j])) ==> r == fallback
  {
    if |candidates| == 0 then fallback
    else if Truthy(candidates[0]) then candidates[0].value
    else
      var r := FirstNonEmpty(candidates[1..], fallback);
      assert forall i :: 1 <= i < |candidates| ==> candidates[i] == candidates[1..][i - 1];
      r
  }
}

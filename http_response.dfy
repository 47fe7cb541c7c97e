/**
 * The base response record of src/http/HttpResponse.ts: each field is taken
 * from the init object with a `||` default, and `ok` is derived from the
 * defaulted status.
 */
module HttpResponses {
  import opened JsValues

  /** `HttpStatusCode.OK` (the status-code table is not part of this model). */
  const OK_STATUS: int := 200

  /** A header mapping, name to value. */
  type Headers = map<string, string>

  /** The constructor argument; `None` is an absent (undefined) field. */
  datatype ResponseInit = ResponseInit(
    headers: Option<Headers>,
    status: Option<int>,
    statusText: Option<string>,
    url: Option<string>)

  /** The readonly fields of a constructed response; `url == None` is `null`. */
  datatype Response = Response(
    headers: Headers,
    status: int,
    statusText: string,
    url: Option<string>,
    ok: bool)

  /** The 2xx range the source calls success. */
  predicate IsSuccess(status: int) {
    200 <= status && status < 300
  }

  /** `n || d` for a number: 0 is falsy. */
  function NumberOr(n: Option<int>, d: int): int {
    if n.Some? && n.value != 0 then n.value else d
  }

  /** `s || d` for a string: the empty string is falsy. */
  function StringOr(s: Option<string>, d: string): string {
    if s.Some? && s.value != "" then s.value else d
  }

  /** `s || null` for a string. */
  function StringOrNull(s: Option<string>): Option<string> {
    if s.Some? && s.value != "" then s else None
  }

  /** `new HttpResponse(init)` (the class is abstract; its subclasses run this part). */
  function NewResponse(init: ResponseInit): (r: Response)
    ensures r.status != 0 && r.statusText != "" && r.url != Some("")
    ensures r.ok <==> IsSuccess(r.status)
  {
    var status := NumberOr(init.status, OK_STATUS);
    Response(
      headers := if init.headers.Some? then init.headers.value else map[],
      status := status,
      statusText := StringOr(init.statusText, "OK"),
      url := StringOrNull(init.url),
      ok := IsSuccess(status))
  }

  /**
   * A field given a truthy value keeps it; an absent or falsy one gets its
   * default (`{}`, 200, `'OK'`, `null`).
   */
  lemma NewResponseFields(init: ResponseInit)
    ensures var r := NewResponse(init);
      && (init.headers.Some? ==> r.headers == init.headers.value)
      && (init.headers.None? ==> r.headers == map[])
      && (init.status.Some? && init.status.value != 0 ==> r.status == init.status.value)
      && (init.status.None? || init.status == Some(0) ==> r.status == OK_STATUS)
      && (init.statusText.Some? && init.statusText.value != "" ==> r.statusText == init.statusText.value)
      && (init.statusText.None? || init.statusText == Some("") ==> r.statusText == "OK")
      && (init.url.Some? && init.url.value != "" ==> r.url == init.url)
      && (init.url.None? || init.url == Some("") ==> r.url.None?)
  {
  }

  /** A status of 0 (a network failure) is read as 200, so the response counts as ok. */
  lemma ZeroStatusIsOk(init: ResponseInit)
    requires init.status == Some(0)
    ensures NewResponse(init).status == OK_STATUS && NewResponse(init).ok
  {
  }

  /** The init object a response's own fields make. */
  function InitOf(r: Response): ResponseInit {
    ResponseInit(Some(r.headers), Some(r.status), Some(r.statusText), r.url)
  }

  /** The defaults are fixed points: rebuilding a response from its own fields changes nothing. */
  lemma NewResponseIdempotent(init: ResponseInit)
    ensures NewResponse(InitOf(NewResponse(init))) == NewResponse(init)
  {
  }
}

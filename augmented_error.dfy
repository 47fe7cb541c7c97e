/**
 * The failure object of src/http/AugmentedError.ts: a response whose `ok` is
 * always false, with a message built from the URL and, for a non-2xx
 * status, the status and status text. `AbortionError` (abortion_error.dfy)
 * extends it; the model keeps one record for both and tells them apart by
 * `name`, as callers do.
 */
module AugmentedErrors {
  import opened JsValues
  import opened JsStrings
  import opened HttpResponses

  /** The constructor argument of `AugmentedError`; `error` is `Undefined` when absent. */
  datatype ErrorInit = ErrorInit(
    error: JsValue,
    headers: Option<Headers>,
    status: Option<int>,
    statusText: Option<string>,
    url: Option<string>)

  /** The fields of a constructed error; `url == None` is `null`. */
  datatype ErrorObject = ErrorObject(
    name: string,
    message: string,
    headers: Headers,
    status: int,
    statusText: string,
    url: Option<string>,
    ok: bool,
    error: JsValue)

  /** What a template string prints for an optional string. */
  function Interpolate(s: Option<string>): string {
    if s.Some? then s.value else "undefined"
  }

  /** What a template string prints for an optional number. */
  function InterpolateNumber(n: Option<int>): string {
    if n.Some? then IntToString(n.value) else "undefined"
  }

  /** The message prefix `Request "<url>" failed.` */
  function FailedPrefix(url: Option<string>): string {
    "Request \"" + Interpolate(url) + "\" failed."
  }

  /** The base response an error init makes. */
  function BaseOf(init: ErrorInit): Response {
    NewResponse(ResponseInit(init.headers, init.status, init.statusText, init.url))
  }

  /** `new AugmentedError(init)` */
  function NewAugmentedError(init: ErrorInit): (e: ErrorObject)
    ensures e.name == "AugmentedError" && !e.ok
    ensures e.error == Null || Truthy(e.error)
  {
    var base := BaseOf(init);
    var statusInfo := " " + InterpolateNumber(init.status) + " " + Interpolate(init.statusText);
    var msg := FailedPrefix(init.url);
    ErrorObject(
      name := "AugmentedError",
      message := if IsSuccess(base.status) then msg else msg + statusInfo,
      headers := base.headers,
      status := base.status,
      statusText := base.statusText,
      url := base.url,
      ok := false,
      error := if Truthy(init.error) then init.error else Null)
  }

  /**
   * The message: just the prefix when the defaulted status is 2xx;
   * otherwise the prefix, then the status and status text of the init
   * object itself (not the defaults). A status outside 2xx is always one
   * the init object carried.
   */
  lemma AugmentedMessage(init: ErrorInit)
    ensures var e := NewAugmentedError(init);
      && (IsSuccess(e.status) ==> e.message == FailedPrefix(init.url))
      && (!IsSuccess(e.status) ==>
            && init.status == Some(e.status)
            && e.message == FailedPrefix(init.url) + (" " + IntToString(e.status) + " " + Interpolate(init.statusText)))
  {
    var e := NewAugmentedError(init);
    if !IsSuccess(e.status) {
      assert e.status == NumberOr(init.status, OK_STATUS) && e.status != OK_STATUS;
    }
  }

  /** Status 0 becomes 200, so a network failure's message has no status part. */
  lemma ZeroStatusMessage(init: ErrorInit)
    requires init.status == Some(0)
    ensures NewAugmentedError(init).status == OK_STATUS
    ensures NewAugmentedError(init).message == FailedPrefix(init.url)
  {
  }

  /** The other fields are those of the base response; `error` is `init.error || null`. */
  lemma AugmentedFields(init: ErrorInit)
    ensures var e := NewAugmentedError(init);
      && e.headers == BaseOf(init).headers && e.status == BaseOf(init).status
      && e.statusText == BaseOf(init).statusText && e.url == BaseOf(init).url
      && (Truthy(init.error) ==> e.error == init.error)
      && (!Truthy(init.error) ==> e.error == Null)
  {
  }
}

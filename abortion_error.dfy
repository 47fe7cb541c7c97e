/**
 * The cancellation failure of src/http/AbortionError.ts: an `AugmentedError`
 * whose name is `'AbortionError'` and whose message only names the URL.
 */
module AbortionErrors {
  import opened JsValues
  import opened HttpResponses
  import opened AugmentedErrors

  /** The constructor argument of `AbortionError`: `url` is required. */
  datatype AbortionInit = AbortionInit(
    error: JsValue,
    headers: Option<Headers>,
    status: Option<int>,
    statusText: Option<string>,
    url: string)

  /** `Request "<url>" aborted.` */
  function AbortedMessage(url: string): string {
    "Request \"" + url + "\" aborted."
  }

  /** `new AbortionError(init)`: an `AugmentedError` renamed, with its own message. */
  function NewAbortionError(init: AbortionInit): (e: ErrorObject)
    ensures e.name == "AbortionError" && !e.ok
    ensures e.message == AbortedMessage(init.url)
  {
    var base := NewAugmentedError(ErrorInit(init.error, init.headers, init.status, init.statusText, Some(init.url)));
    base.(name := "AbortionError", message := AbortedMessage(init.url))
  }

  /** `new AbortionError({ url })`, as the request path builds it. */
  function AbortionErrorFor(url: string): ErrorObject {
    NewAbortionError(AbortionInit(Undefined, None, None, None, url))
  }

  /**
   * Built from a URL alone, an abortion error has status 200, status text
   * `'OK'`, no headers and no error payload; the URL is kept unless it is
   * empty, which the `||` turns into `null`.
   */
  lemma AbortionErrorForFields(url: string)
    ensures var e := AbortionErrorFor(url);
      && e.name == "AbortionError" && !e.ok
      && e.message == "Request \"" + url + "\" aborted."
      && e.status == 200 && e.statusText == "OK" && e.headers == map[] && e.error == Null
      && (url != "" ==> e.url == Some(url))
      && (url == "" ==> e.url.None?)
  {
  }

  /** The abortion message depends on the URL only, whatever the status fields say. */
  lemma AbortionMessageIgnoresStatus(a: AbortionInit, b: AbortionInit)
    requires a.url == b.url
    ensures NewAbortionError(a).message == NewAbortionError(b).message
  {
  }
}

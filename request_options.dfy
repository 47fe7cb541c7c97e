/**
 * The shapes the request path consumes: the HTTP method names
 * (src/http/HttpMethod.ts), query parameters (src/http/HttpParams.ts),
 * credentials (src/http/HttpRequestCredentials.ts) and the options bag
 * (src/http/HttpRequestOptions.ts, plus the `params`, `signal` and
 * `logProgress` keys that `HttpClient.request` also reads).
 */
module RequestOptions {
  import opened JsValues
  import opened AbortionSignals

  /** The nine method names `HttpMethod` admits. */
  datatype Method = CONNECT | DELETE | GET | HEAD | OPTIONS | PATCH | POST | PUT | TRACE {
    /** The method string handed to the transport. */
    function Name(): string {
      match this
      case CONNECT => "CONNECT"
      case DELETE => "DELETE"
      case GET => "GET"
      case HEAD => "HEAD"
      case OPTIONS => "OPTIONS"
      case PATCH => "PATCH"
      case POST => "POST"
      case PUT => "PUT"
      case TRACE => "TRACE"
    }
  }

  /** A scalar query parameter: a string, a number or a boolean. */
  datatype Scalar = Text(text: string) | Num(n: int) | Flag(b: bool)

  /** A query parameter value: one scalar, or an array of scalars. */
  datatype ParamValue = Single(x: Scalar) | Many(xs: seq<Scalar>)

  /** Optional user name and password for `open`; `None` is null or undefined. */
  datatype Credentials = Credentials(username: Option<string>, password: Option<string>)

  /**
   * The options of one request; `verb` is the `method` key. `None` is an absent key; `body == Some(Undefined)`
   * is a `body` key that is present and undefined, as the body-taking verbs write it.
   */
  datatype Options = Options(
    body: Option<JsValue>,
    credentials: Option<Credentials>,
    headers: Option<Entries<string>>,
    verb: Option<Method>,
    responseType: Option<string>,
    withCredentials: Option<bool>,
    timeout: Option<int>,
    params: Option<Entries<ParamValue>>,
    signal: Option<AbortionSignal>,
    logProgress: Option<bool>)

  /** `{}` */
  function EmptyOptions(): Options {
    Options(None, None, None, None, None, None, None, None, None, None)
  }
}

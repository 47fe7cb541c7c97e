/**
 * What the handlers `HttpClient.request` installs (src/http/HttpClient.ts)
 * do with the promise: each event is mapped to a resolution or a
 * rejection, and the promise keeps the first one it is given.
 */
module RequestLifecycle {
  import opened JsValues
  import opened JsStrings
  import opened Xhr
  import opened HttpResponses
  import opened AugmentedErrors
  import opened AbortionErrors
  import opened ResponseHeaders

  /** `HttpClient.DONE_STATE` */
  const DONE_STATE: int := 4

  /** What a handler passes to `resolve` or `reject`. */
  datatype Outcome = Resolved(payload: JsValue) | Rejected(error: ErrorObject)

  /** A promise is pending until it is first resolved or rejected. */
  datatype PromiseState = Pending | Settled(outcome: Outcome)

  /**
   * An event the transport delivers, with the request as the handler
   * reads it at that moment. `Abort` is the `abort` event, which the
   * handler answers without reading the request.
   */
  datatype Event = Load(request: ResponseView) | Error(request: ResponseView) | Timeout(request: ResponseView) | Abort

  /** The load handler's test: DONE and a 2xx status. */
  predicate LoadSucceeded(request: ResponseView) {
    request.readyState == DONE_STATE && request.status >= 200 && request.status < 300
  }

  /**
   * The handler of each event: `onload` resolves with the response only on
   * success and otherwise rejects like `onerror` and `ontimeout` do, with
   * the error `createAugmentedError` builds; `onabort` rejects with an
   * abortion error for the request URL.
   */
  function Handle(ev: Event, url: string): (o: Outcome)
    ensures o.Resolved? <==> ev.Load? && LoadSucceeded(ev.request)
    ensures o.Resolved? ==> o.payload == ev.request.response
    ensures o.Rejected? && !ev.Abort? ==> o.error == ErrorOf(ev.request)
    ensures ev.Abort? ==> o == Rejected(AbortionErrorFor(url))
    ensures o.Rejected? ==> !o.error.ok
  {
    match ev
    case Load(request) =>
      if LoadSucceeded(request) then Resolved(request.response) else Rejected(ErrorOf(request))
    case Error(request) => Rejected(ErrorOf(request))
    case Timeout(request) => Rejected(ErrorOf(request))
    case Abort => Rejected(AbortionErrorFor(url))
  }

  /** `resolve`/`reject` on a promise: only the first call has an effect. */
  function Settle(s: PromiseState, o: Outcome): PromiseState {
    if s.Pending? then Settled(o) else s
  }

  /** One event handled. */
  function Step(s: PromiseState, ev: Event, url: string): PromiseState {
    Settle(s, Handle(ev, url))
  }

  /** A sequence of events handled in order. */
  function Run(s: PromiseState, evs: seq<Event>, url: string): PromiseState
    decreases |evs|
  {
    if evs == [] then s else Run(Step(s, evs[0], url), evs[1..], url)
  }

  /**
   * The state the executor leaves before any event: an already aborted
   * signal has rejected it with an abortion error.
   */
  function Start(preAborted: bool, url: string): PromiseState {
    if preAborted then Settled(Rejected(AbortionErrorFor(url))) else Pending
  }

  /** A settled promise stays as it is, whatever events follow. */
  lemma {:induction false} SettledIsFinal(s: PromiseState, evs: seq<Event>, url: string)
    requires s.Settled?
    ensures Run(s, evs, url) == s
    decreases |evs|
  {
    if evs != [] {
      SettledIsFinal(Step(s, evs[0], url), evs[1..], url);
    }
  }

  /** The first event decides the outcome; a promise with no event stays pending. */
  lemma FirstEventDecides(evs: seq<Event>, url: string)
    ensures evs == [] ==> Run(Pending, evs, url) == Pending
    ensures evs != [] ==> Run(Pending, evs, url) == Settled(Handle(evs[0], url))
  {
    if evs != [] {
      SettledIsFinal(Settled(Handle(evs[0], url)), evs[1..], url);
    }
  }

  /**
   * An already aborted signal decides the outcome: the request still goes
   * out, but whatever its events are, the promise stays rejected with the
   * abortion error.
   */
  lemma PreAbortedStaysAborted(evs: seq<Event>, url: string)
    ensures Run(Start(true, url), evs, url) == Settled(Rejected(AbortionErrorFor(url)))
    ensures Run(Start(true, url), evs, url).outcome.error.name == "AbortionError"
  {
    SettledIsFinal(Start(true, url), evs, url);
  }

  /**
   * The kind of rejection each event gives: abortion errors come from the
   * abort event only, and everything else is an `AugmentedError`.
   */
  lemma RejectionKinds(ev: Event, url: string)
    ensures Handle(ev, url).Rejected? ==>
      (Handle(ev, url).error.name == "AbortionError" <==> ev.Abort?)
    ensures ev.Abort? ==> Handle(ev, url).error.message == "Request \"" + url + "\" aborted."
  {
  }

  /**
   * The errors of the load, error and timeout handlers carry no headers
   * when the request is DONE, the state these events are delivered in.
   */
  lemma DoneRejectionHasNoHeaders(ev: Event, url: string)
    requires !ev.Abort? && ev.request.readyState == DONE_STATE
    ensures Handle(ev, url).Rejected? ==> Handle(ev, url).error.headers == map[]
  {
    ErrorHeadersOnlyWhenHeadersReceived(ev.request);
  }

  /** A 404 on load: the message names the URL, the status and the status text. */
  lemma NotFoundOnLoad(request: ResponseView, url: string)
    requires request.readyState == DONE_STATE && request.status == 404 && request.statusText == "Not Found"
    ensures Handle(Load(request), url).Rejected?
    ensures Handle(Load(request), url).error.message == "Request \"" + request.responseURL + "\" failed." + " 404 Not Found"
    ensures Handle(Load(request), url).error.status == 404
  {
    ErrorOfFields(request);
    StatusCode404();
    assert " " + IntToString(404) + " " + "Not Found" == " 404 Not Found";
  }

  /** The rendering of status 404. */
  lemma StatusCode404()
    ensures IntToString(404) == "404"
  {
    assert NatToString(404) == NatToString(40) + [DigitChar(4)];
    assert NatToString(40) == NatToString(4) + [DigitChar(0)];
  }

  /**
   * A network failure (status 0): the error reads status 200 and `'OK'` and
   * its message has no status part.
   */
  lemma NetworkFailure(request: ResponseView, url: string)
    requires request.status == 0 && request.statusText == ""
    ensures Handle(Error(request), url).error.status == OK_STATUS
    ensures Handle(Error(request), url).error.statusText == "OK"
    ensures Handle(Error(request), url).error.message == "Request \"" + request.responseURL + "\" failed."
  {
    ErrorOfFields(request);
  }

  /** A load that arrives after a timeout cannot turn the rejection into a success. */
  lemma TimeoutThenLoad(timedOut: ResponseView, loaded: ResponseView, url: string)
    ensures Run(Pending, [Timeout(timedOut), Load(loaded)], url) == Settled(Rejected(ErrorOf(timedOut)))
  {
    FirstEventDecides([Timeout(timedOut), Load(loaded)], url);
  }
}

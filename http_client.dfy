/**
 * The client of src/http/HttpClient.ts: seven verbs that fix the method
 * (and, for three of them, the body) and hand over to `request`, which
 * assembles the URL, opens and configures a fresh transport, installs the
 * handlers that settle a promise, wires the abortion signal and sends.
 */
module HttpClient {
  import opened JsValues
  import opened JsStrings
  import opened UriComponent
  import opened RequestOptions
  import opened AbortionSignals
  import opened AbortionControllers
  import opened Xhr
  import opened AugmentedErrors
  import opened AbortionErrors
  import opened RequestLifecycle
  import opened HttpHelper

  // ---------------------------------------------------------------------
  // The verbs
  // ---------------------------------------------------------------------

  /** `{ ...options }`: absent options spread as `{}`. */
  function Spread(options: Option<Options>): Options {
    if options.Some? then options.value else EmptyOptions()
  }

  /** The keys a verb copies from its options unchanged: all but `method` and `body`. */
  predicate SameOtherKeys(a: Options, b: Options) {
    a.(verb := None, body := None) == b.(verb := None, body := None)
  }

  /** The options `delete` hands to `request`: the body the options carry is kept. */
  function Delete(options: Option<Options>): (o: Options)
    ensures o.verb == Some(DELETE) && o.body == Spread(options).body && SameOtherKeys(o, Spread(options))
  {
    Spread(options).(verb := Some(DELETE))
  }

  /** The options `get` hands to `request`. */
  function Get(options: Option<Options>): (o: Options)
    ensures o.verb == Some(GET) && o.body == Spread(options).body && SameOtherKeys(o, Spread(options))
  {
    Spread(options).(verb := Some(GET))
  }

  /** The options `head` hands to `request`. */
  function Head(options: Option<Options>): (o: Options)
    ensures o.verb == Some(HEAD) && o.body == Spread(options).body && SameOtherKeys(o, Spread(options))
  {
    Spread(options).(verb := Some(HEAD))
  }

  /** The options `options` hands to `request`. */
  function OptionsVerb(options: Option<Options>): (o: Options)
    ensures o.verb == Some(OPTIONS) && o.body == Spread(options).body && SameOtherKeys(o, Spread(options))
  {
    Spread(options).(verb := Some(OPTIONS))
  }

  /** The options `patch` hands to `request`: the argument replaces any body, `undefined` included. */
  function Patch(body: JsValue, options: Option<Options>): (o: Options)
    ensures o.verb == Some(PATCH) && o.body == Some(body) && SameOtherKeys(o, Spread(options))
  {
    Spread(options).(verb := Some(PATCH), body := Some(body))
  }

  /** The options `post` hands to `request`. */
  function Post(body: JsValue, options: Option<Options>): (o: Options)
    ensures o.verb == Some(POST) && o.body == Some(body) && SameOtherKeys(o, Spread(options))
  {
    Spread(options).(verb := Some(POST), body := Some(body))
  }

  /** The options `put` hands to `request`. */
  function Put(body: JsValue, options: Option<Options>): (o: Options)
    ensures o.verb == Some(PUT) && o.body == Some(body) && SameOtherKeys(o, Spread(options))
  {
    Spread(options).(verb := Some(PUT), body := Some(body))
  }

  // ---------------------------------------------------------------------
  // What `request` computes before it touches the transport
  // ---------------------------------------------------------------------

  /** The URL: `'?' + buildParams(params)` appended when there are params. */
  function RequestUrl(requestUrl: string, options: Options): string {
    if options.params.Some? && |options.params.value| > 0 then requestUrl + "?" + BuildParams(options.params.value)
    else requestUrl
  }

  /**
   * With no params the URL is the one given. With params the query is
   * appended after a `?`, whether or not the URL already had one; on a URL
   * without a query, the text after its first `?` reads back as the params.
   */
  lemma RequestUrlQuery(requestUrl: string, options: Options)
    ensures options.params.None? || options.params == Some([]) ==> RequestUrl(requestUrl, options) == requestUrl
    ensures options.params.Some? && |options.params.value| > 0 ==>
      var url := RequestUrl(requestUrl, options);
      |url| > |requestUrl| && url[..|requestUrl|] == requestUrl && url[|requestUrl|] == '?'
    ensures (options.params.Some? && |options.params.value| > 0 && NoEmptyArray(options.params.value)
             && Avoids(requestUrl, '?')) ==>
      var url := RequestUrl(requestUrl, options);
      FindFirst(url, "?") == Some(|requestUrl|)
        && ParseQuery(url[|requestUrl| + 1..]) == Some(Decoded(options.params.value))
  {
    if options.params.Some? && |options.params.value| > 0 {
      var params := options.params.value;
      var url := RequestUrl(requestUrl, options);
      assert url[|requestUrl| + 1..] == BuildParams(params);
      if NoEmptyArray(params) && Avoids(requestUrl, '?') {
        QueryRoundTrip(params);
        FindFirstSpec(url, "?");
        OccursAtChar(url, '?', |requestUrl|);
        forall j | 0 <= j < |requestUrl| ensures !OccursAt(url, "?", j) {
          OccursAtChar(url, '?', j);
        }
      }
    }
  }

  /** What `send` receives: the body when it is truthy and the method is neither GET nor HEAD. */
  function SendArg(options: Options): (r: Option<JsValue>)
    requires options.verb.Some?
    ensures r.Some? <==>
      options.body.Some? && Truthy(options.body.value) && options.verb.value != GET && options.verb.value != HEAD
    ensures r.Some? ==> r == options.body
  {
    var body := options.body;
    if body.Some? && Truthy(body.value) && !(options.verb.value in {GET, HEAD}) then body else None
  }

  /** `get` and `head` never send a body, whatever the options carry. */
  lemma GetAndHeadSendNoBody(options: Option<Options>)
    ensures SendArg(Get(options)) == None && SendArg(Head(options)) == None
  {
  }

  /** `post`, `put` and `patch` send their body argument exactly when it is truthy. */
  lemma BodyVerbsSendTheirBody(body: JsValue, options: Option<Options>)
    ensures Truthy(body) ==> SendArg(Post(body, options)) == Some(body)
    ensures Truthy(body) ==> SendArg(Put(body, options)) == Some(body)
    ensures Truthy(body) ==> SendArg(Patch(body, options)) == Some(body)
    ensures !Truthy(body) ==> SendArg(Post(body, options)) == None
    ensures !Truthy(body) ==> SendArg(Put(body, options)) == None
    ensures !Truthy(body) ==> SendArg(Patch(body, options)) == None
  {
  }

  /** The event type of the progress listener. */
  const PROGRESS_EVENT: string := "progress"

  /** `options.logProgress` is truthy. */
  predicate LogsProgress(options: Options) {
    options.logProgress == Some(true)
  }

  /** The calls up to the handlers installed right after `open`. */
  function OpeningCalls(url: string, options: Options): seq<Call>
    requires options.verb.Some?
  {
    [Call.Open(options.verb.value.Name(), url, true, Username(options), Password(options)),
     SetHandler("load"), SetHandler("error"), SetHandler("abort")]
  }

  /** `setOptions`, then the progress listener when progress is logged. */
  function ConfigCalls(options: Options): seq<Call> {
    OptionCalls(options) + (if LogsProgress(options) then [Call.AddEventListener(PROGRESS_EVENT)] else [])
  }

  /** The last two handlers, then `send`. */
  function ClosingCalls(options: Options): seq<Call>
    requires options.verb.Some?
  {
    [SetHandler("readystatechange"), SetHandler("timeout"), Send(SendArg(options))]
  }

  /** The transport calls `request` makes, in order. */
  function SetupCalls(url: string, options: Options): seq<Call>
    requires options.verb.Some?
  {
    OpeningCalls(url, options) + ConfigCalls(options) + ClosingCalls(options)
  }

  /** Configuring neither opens nor sends, and sets exactly the option headers. */
  lemma ConfigCallsShape(options: Options)
    ensures Quiet(ConfigCalls(options))
    ensures HeaderPairsOf(ConfigCalls(options)) == HeadersOf(options)
  {
    var a := [SetWithCredentials(WithCredentialsOf(options))];
    var t := TimeoutCalls(options);
    var h := HeaderCalls(HeadersOf(options));
    var r := [SetResponseType(ResponseTypeOf(options))];
    var progress := if LogsProgress(options) then [Call.AddEventListener(PROGRESS_EVENT)] else [];
    assert Quiet(h);
    QuietAppend(a, t);
    QuietAppend(a + t, h);
    QuietAppend(a + t + h, r);
    QuietAppend(a + t + h + r, progress);
    OptionCallsHeaders(options);
    HeaderPairsOfAppend(OptionCalls(options), progress);
    assert HeaderPairsOf(progress) == [] by {
      if progress != [] { assert progress[..0] == []; }
    }
  }

  /** The opening and closing calls set no header. */
  lemma OpeningClosingSetNoHeader(url: string, options: Options)
    requires options.verb.Some?
    ensures HeaderPairsOf(OpeningCalls(url, options)) == []
    ensures HeaderPairsOf(ClosingCalls(options)) == []
  {
    HeaderPairsOfNone(OpeningCalls(url, options));
    HeaderPairsOfNone(ClosingCalls(options));
  }

  /** The handlers set right after `open`. */
  const OPENING_HANDLERS: seq<Call> := [SetHandler("load"), SetHandler("error"), SetHandler("abort")]

  /** The handlers set right before `send`. */
  const CLOSING_HANDLERS: seq<Call> := [SetHandler("readystatechange"), SetHandler("timeout")]

  /** The setup calls are `open`, then calls that neither open nor send, then `send`. */
  lemma SetupCallsBracketed(url: string, options: Options)
    requires options.verb.Some?
    ensures SetupCalls(url, options)
      == [OpeningCalls(url, options)[0]] + (OPENING_HANDLERS + ConfigCalls(options) + CLOSING_HANDLERS) + [Send(SendArg(options))]
  {
    var o := OpeningCalls(url, options);
    var e := ClosingCalls(options);
    var last := Send(SendArg(options));
    assert o == [o[0]] + OPENING_HANDLERS;
    assert e == CLOSING_HANDLERS + [last];
    Regroup(o[0], OPENING_HANDLERS, ConfigCalls(options), CLOSING_HANDLERS, last);
  }

  /** Between `open` and `send`, nothing opens or sends. */
  lemma MiddleQuiet(options: Options)
    ensures Quiet(OPENING_HANDLERS + ConfigCalls(options) + CLOSING_HANDLERS)
  {
    var m := ConfigCalls(options);
    ConfigCallsShape(options);
    assert Quiet(OPENING_HANDLERS) && Quiet(CLOSING_HANDLERS);
    QuietAppend(OPENING_HANDLERS, m);
    QuietAppend(OPENING_HANDLERS + m, CLOSING_HANDLERS);
  }

  /**
   * The transport is opened first and sent to last, each exactly once; the
   * load, error and abort handlers come straight after `open`; the request
   * headers set are exactly the option headers, in entry order.
   */
  lemma SetupOrder(url: string, options: Options)
    requires options.verb.Some?
    ensures var c := SetupCalls(url, options);
      && |c| >= 7
      && c[0] == Call.Open(options.verb.value.Name(), url, true, Username(options), Password(options))
      && c[1..4] == [SetHandler("load"), SetHandler("error"), SetHandler("abort")]
      && c[|c| - 1] == Send(SendArg(options))
      && (forall i :: 0 < i < |c| ==> !c[i].Open?)
      && (forall i :: 0 <= i < |c| - 1 ==> !c[i].Send?)
      && HeaderPairsOf(c) == HeadersOf(options)
  {
    var o := OpeningCalls(url, options);
    var m := ConfigCalls(options);
    var e := ClosingCalls(options);
    var mid := OPENING_HANDLERS + m + CLOSING_HANDLERS;
    SetupCallsBracketed(url, options);
    MiddleQuiet(options);
    Bracketed(o[0], mid, Send(SendArg(options)));
    assert mid[..3] == OPENING_HANDLERS;
    ConfigCallsShape(options);
    OpeningClosingSetNoHeader(url, options);
    HeaderPairsOfAppend(o, m);
    HeaderPairsOfAppend(o + m, e);
  }

  // ---------------------------------------------------------------------
  // The promise and the handlers
  // ---------------------------------------------------------------------

  /** The promise `request` returns: settled by the first `resolve` or `reject`. */
  class Promise {
    var state: PromiseState

    constructor ()
      ensures state == Pending
    {
      state := Pending;
    }

    /** `resolve(value)` */
    method Resolve(value: JsValue)
      modifies this
      ensures state == Settle(old(state), Resolved(value))
      ensures old(state).Settled? ==> state == old(state)
    {
      if state.Pending? {
        state := Settled(Resolved(value));
      }
    }

    /** `reject(error)` */
    method Reject(error: ErrorObject)
      modifies this
      ensures state == Settle(old(state), Rejected(error))
      ensures old(state).Settled? ==> state == old(state)
    {
      if state.Pending? {
        state := Settled(Rejected(error));
      }
    }
  }

  /** The signal an options bag carries, as a frame. */
  function SignalOf(options: Options): set<object> {
    if options.signal.Some? then {options.signal.value} else {}
  }

  /** The signal, if any, keeps its registry free of duplicates. */
  ghost predicate SignalValid(options: Options)
    reads SignalOf(options)
  {
    options.signal.Some? ==> options.signal.value.Valid()
  }

  /**
   * One call of `request` after its executor has run: the URL it computed,
   * the transport it opened, the promise it returned and the abort listener
   * it registered. The methods are the closures the executor installs.
   */
  class Exchange {
    const url: string
    const options: Options
    const transport: Transport
    const promise: Promise
    const abortListener: Listener

    constructor (url: string, options: Options, transport: Transport, promise: Promise, abortListener: Listener)
      ensures this.url == url && this.options == options && this.transport == transport
      ensures this.promise == promise && this.abortListener == abortListener
    {
      this.url := url;
      this.options := options;
      this.transport := transport;
      this.promise := promise;
      this.abortListener := abortListener;
    }

    /** `request.onload`: resolve on DONE and 2xx, reject otherwise. */
    method OnLoad(request: ResponseView)
      modifies promise
      ensures promise.state == Step(old(promise.state), Load(request), url)
    {
      var isDone := request.readyState == DONE_STATE;
      var isOkay := request.status >= 200 && request.status < 300;
      if isDone && isOkay {
        promise.Resolve(request.response);
      } else {
        var error := CreateAugmentedError(request);
        promise.Reject(error);
      }
    }

    /** `request.onerror` */
    method OnError(request: ResponseView)
      modifies promise
      ensures promise.state == Step(old(promise.state), Error(request), url)
    {
      var error := CreateAugmentedError(request);
      promise.Reject(error);
    }

    /** `request.ontimeout` */
    method OnTimeout(request: ResponseView)
      modifies promise
      ensures promise.state == Step(old(promise.state), Timeout(request), url)
    {
      var error := CreateAugmentedError(request);
      promise.Reject(error);
    }

    /** `request.onabort` */
    method OnAbort()
      modifies promise
      ensures promise.state == Step(old(promise.state), Event.Abort, url)
    {
      promise.Reject(AbortionErrorFor(url));
    }

    /** `abortListener`: aborts the transport. */
    method OnSignalAborted()
      requires transport.Valid()
      modifies transport
      ensures transport.Valid()
      ensures transport.calls == old(transport.calls) + [Call.Abort]
      ensures transport.withCredentials == old(transport.withCredentials) && transport.timeout == old(transport.timeout)
      ensures transport.responseType == old(transport.responseType)
    {
      transport.Abort();
    }

    /**
     * `request.onreadystatechange`: once the request is DONE, the abort
     * listener leaves the signal and, when progress is logged, the progress
     * listener leaves the transport; in any other state nothing happens.
     */
    method OnReadyStateChange(readyState: int)
      requires transport.Valid() && SignalValid(options)
      modifies transport, SignalOf(options)
      ensures transport.Valid() && SignalValid(options)
      ensures transport.calls == old(transport.calls) +
        (if readyState == DONE_STATE && LogsProgress(options) then [Call.RemoveEventListener(PROGRESS_EVENT)] else [])
      ensures transport.withCredentials == old(transport.withCredentials) && transport.timeout == old(transport.timeout)
      ensures transport.responseType == old(transport.responseType)
      ensures options.signal.Some? ==>
        && options.signal.value.aborted == old(options.signal.value.aborted)
        && options.signal.value.listeners ==
             (if readyState == DONE_STATE then Without(old(options.signal.value.listeners), abortListener)
              else old(options.signal.value.listeners))
    {
      if readyState == DONE_STATE {
        if options.signal.Some? {
          options.signal.value.RemoveEventListener(abortListener);
        }
        if LogsProgress(options) {
          transport.RemoveEventListener(PROGRESS_EVENT);
        }
      }
    }
  }

  /**
   * The executor's first steps: a new transport, opened, with the load,
   * error and abort handlers, configured by `setOptions`, and with the
   * progress listener when progress is logged.
   */
  method OpenAndConfigure(url: string, options: Options) returns (request: Transport)
    requires options.verb.Some?
    ensures fresh(request) && request.Valid()
    ensures request.calls == OpeningCalls(url, options) + ConfigCalls(options)
    ensures request.withCredentials == WithCredentialsOf(options) && request.timeout == TimeoutOf(options)
    ensures request.responseType == ResponseTypeOf(options)
  {
    request := new Transport();
    OpenRequest(url, request, options);
    request.SetHandler("load");
    request.SetHandler("error");
    request.SetHandler("abort");
    assert request.calls == OpeningCalls(url, options);
    SetOptions(request, options);
    if LogsProgress(options) {
      request.AddEventListener(PROGRESS_EVENT);
    }
  }

  /** The executor's last steps: the readystatechange and timeout handlers, then `send`. */
  method InstallAndSend(request: Transport, options: Options)
    requires options.verb.Some? && request.Valid()
    modifies request
    ensures request.Valid()
    ensures request.calls == old(request.calls) + ClosingCalls(options)
    ensures request.withCredentials == old(request.withCredentials) && request.timeout == old(request.timeout)
    ensures request.responseType == old(request.responseType)
  {
    request.SetHandler("readystatechange");
    request.SetHandler("timeout");
    var body := options.body;
    if body.Some? && Truthy(body.value) && !(options.verb.value in {GET, HEAD}) {
      request.Send(body);
    } else {
      request.Send(None);
    }
  }

  /** `signal.addEventListener('aborted', abortListener)` when there is a signal. */
  method RegisterAbortListener(options: Options, abortListener: Listener)
    requires SignalValid(options)
    modifies SignalOf(options)
    ensures SignalValid(options)
    ensures options.signal.Some? ==>
      && options.signal.value.aborted == old(options.signal.value.aborted)
      && options.signal.value.listeners ==
           (if abortListener in old(options.signal.value.listeners) then old(options.signal.value.listeners)
            else old(options.signal.value.listeners) + [abortListener])
  {
    if options.signal.Some? {
      options.signal.value.AddEventListener(abortListener);
    }
  }

  /**
   * The executor's transport work: open and configure a new transport,
   * register the abort listener on the signal, install the last handlers
   * and send.
   */
  method Transmit(url: string, options: Options, abortListener: Listener) returns (request: Transport)
    requires options.verb.Some?
    requires SignalValid(options)
    modifies SignalOf(options)
    ensures fresh(request) && request.Valid() && SignalValid(options)
    ensures request.calls == SetupCalls(url, options)
    ensures request.withCredentials == WithCredentialsOf(options) && request.timeout == TimeoutOf(options)
    ensures request.responseType == ResponseTypeOf(options)
    ensures options.signal.Some? ==>
      && options.signal.value.aborted == old(options.signal.value.aborted)
      && options.signal.value.listeners ==
           (if abortListener in old(options.signal.value.listeners) then old(options.signal.value.listeners)
            else old(options.signal.value.listeners) + [abortListener])
  {
    request := OpenAndConfigure(url, options);
    RegisterAbortListener(options, abortListener);
    InstallAndSend(request, options);
  }

  /**
   * `request(requestUrl, options)` up to the return of its promise. An
   * already aborted signal rejects the promise, yet the transport is still
   * opened, configured and sent; the abort listener (`listenerId`) is
   * registered on the signal when there is one.
   */
  method Request(requestUrl: string, options: Options, listenerId: nat) returns (ex: Exchange)
    requires options.verb.Some?
    requires SignalValid(options)
    modifies SignalOf(options)
    ensures fresh(ex) && fresh(ex.transport) && fresh(ex.promise)
    ensures ex.url == RequestUrl(requestUrl, options) && ex.options == options
    ensures ex.abortListener == Listener(ABORTED_EVENT, listenerId)
    ensures ex.transport.Valid() && SignalValid(options)
    ensures ex.transport.calls == SetupCalls(ex.url, options)
    ensures ex.transport.withCredentials == WithCredentialsOf(options) && ex.transport.timeout == TimeoutOf(options)
    ensures ex.transport.responseType == ResponseTypeOf(options)
    ensures ex.promise.state == Start(options.signal.Some? && old(options.signal.value.aborted), ex.url)
    ensures options.signal.Some? ==>
      && options.signal.value.aborted == old(options.signal.value.aborted)
      && options.signal.value.listeners ==
           (if ex.abortListener in old(options.signal.value.listeners) then old(options.signal.value.listeners)
            else old(options.signal.value.listeners) + [ex.abortListener])
  {
    var url := requestUrl;
    if options.params.Some? && |options.params.value| > 0 {
      url := url + "?" + BuildParams(options.params.value);
    }
    var promise := new Promise();
    if options.signal.Some? && options.signal.value.Aborted() {
      promise.Reject(AbortionErrorFor(url));
    }
    var abortListener := Listener(ABORTED_EVENT, listenerId);
    var request := Transmit(url, options, abortListener);
    ex := new Exchange(url, options, request, promise, abortListener);
  }

  // ---------------------------------------------------------------------
  // Whole exchanges
  // ---------------------------------------------------------------------

  /** A `get` on the signal of a fresh controller, up to the return of `request`. */
  method StartCancellableGet(url: string, listenerId: nat) returns (controller: AbortionController, ex: Exchange)
    ensures fresh(controller.signal) && fresh(ex.transport) && fresh(ex.promise)
    ensures ex.url == url && ex.options.signal == Some(controller.signal) && !LogsProgress(ex.options)
    ensures ex.abortListener == Listener(ABORTED_EVENT, listenerId)
    ensures controller.signal.Valid() && !controller.signal.aborted
    ensures controller.signal.listeners == [ex.abortListener]
    ensures ex.transport.Valid() && ex.promise.state == Pending
  {
    controller := new AbortionController();
    var options := Get(Some(EmptyOptions().(signal := Some(controller.signal))));
    assert options.signal == Some(controller.signal) && options.params.None? && !LogsProgress(options);
    ex := Request(url, options, listenerId);
  }

  /**
   * A `get` with a signal, cancelled while in flight: the controller's
   * `abort()` reaches the abort listener (the flag still reads false), the
   * listener aborts the transport, the transport reaches DONE, so the
   * listener leaves the signal, and its abort event rejects the promise.
   */
  method CancelInFlight(url: string, listenerId: nat)
    returns (notified: seq<Listener>, flagSeen: bool, lastCall: Call, state: PromiseState, remaining: seq<Listener>)
    ensures notified == [Listener(ABORTED_EVENT, listenerId)] && !flagSeen
    ensures lastCall == Call.Abort
    ensures state == Settled(Rejected(AbortionErrorFor(url)))
    ensures remaining == []
  {
    var controller, ex := StartCancellableGet(url, listenerId);
    notified, flagSeen, lastCall := AbortInFlight(controller, ex);
    state := ex.promise.state;
    remaining := controller.signal.listeners;
  }

  /**
   * `abort()` on the controller of an exchange in flight: the abort
   * listener is notified and aborts the transport (`lastCall`); the
   * transport's `abort()` then fires `readystatechange` at DONE, which
   * takes the listener off the signal, and `abort`, which rejects the
   * promise.
   */
  method AbortInFlight(controller: AbortionController, ex: Exchange)
    returns (notified: seq<Listener>, flagSeen: bool, lastCall: Call)
    requires ex.options.signal == Some(controller.signal)
    requires controller.signal.Valid() && !controller.signal.aborted
    requires controller.signal.listeners == [ex.abortListener] && ex.abortListener.eventType == ABORTED_EVENT
    requires ex.transport.Valid() && ex.promise.state == Pending
    modifies controller.signal, ex.transport, ex.promise
    ensures notified == [ex.abortListener] && !flagSeen && lastCall == Call.Abort
    ensures controller.signal.Valid() && controller.signal.aborted
    ensures controller.signal.listeners == []
    ensures ex.transport.Valid()
    ensures ex.transport.calls == old(ex.transport.calls) + [Call.Abort]
      + (if LogsProgress(ex.options) then [Call.RemoveEventListener(PROGRESS_EVENT)] else [])
    ensures ex.promise.state == Settled(Rejected(AbortionErrorFor(ex.url)))
  {
    notified, flagSeen := controller.Abort();
    assert ListenersFor([ex.abortListener], ABORTED_EVENT) == [ex.abortListener] by {
      assert [ex.abortListener][..0] == [];
    }
    ex.OnSignalAborted();
    lastCall := ex.transport.calls[|ex.transport.calls| - 1];
    ex.OnReadyStateChange(DONE_STATE);
    assert Without([ex.abortListener], ex.abortListener) == [];
    ex.OnAbort();
  }

  /**
   * A `post` on a signal aborted beforehand: the request is still sent,
   * with its body, but even a successful load leaves it rejected with the
   * abortion error.
   */
  method PostAfterAbort(url: string, body: JsValue, listenerId: nat, loaded: ResponseView)
    returns (state: PromiseState, lastCall: Call)
    requires Truthy(body) && LoadSucceeded(loaded)
    ensures state == Settled(Rejected(AbortionErrorFor(url)))
    ensures lastCall == Send(Some(body))
  {
    var controller := new AbortionController();
    var _, _ := controller.Abort();
    var options := Post(body, Some(EmptyOptions().(signal := Some(controller.signal))));
    var ex := Request(url, options, listenerId);
    lastCall := ex.transport.calls[|ex.transport.calls| - 1];
    ex.OnLoad(loaded);
    state := ex.promise.state;
  }

  /** A `get` whose load succeeds resolves with the response, and sends no body. */
  method SuccessfulGet(url: string, options: Option<Options>, loaded: ResponseView)
    returns (state: PromiseState, lastCall: Call)
    requires Spread(options).signal.None?
    requires LoadSucceeded(loaded)
    ensures state == Settled(Resolved(loaded.response))
    ensures lastCall == Send(None)
  {
    var ex := Request(url, Get(options), 0);
    lastCall := ex.transport.calls[|ex.transport.calls| - 1];
    ex.OnLoad(loaded);
    state := ex.promise.state;
  }
}

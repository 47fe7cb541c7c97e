# A verified model of the http-client request engine

This project models the core of `http-client`, a TypeScript façade over
`XMLHttpRequest`. The core covers four pieces:

- **`HttpClient`**: seven verbs (`delete`, `get`, `head`, `options`,
  `patch`, `post`, `put`). Each fixes the method, and three of them also
  fix the body, before handing over to `request`.
- **`request`**:
  - builds the URL, with a query string from `params`;
  - rejects at once when the caller's `AbortionSignal` is already aborted;
  - opens and configures a fresh transport;
  - installs the `load`, `error`, `abort`, `readystatechange` and
    `timeout` handlers that settle the returned promise;
  - hooks an abort listener onto the signal, then sends.
- **`HttpHelper`**:
  - `buildParams`, the query encoder;
  - `createAugmentedError`, which turns a finished request into an error
    object with a header map;
  - `openRequest`, `setOptions` and `setHeaders`.
- **The response and error classes, the cancellation pair and the
  `@GET` decorator**:
  - `HttpResponse`, `AugmentedError` and `AbortionError`, with their
    defaulting rules;
  - `AbortionSignal` and `AbortionController`;
  - the `@GET` decorator of `http-decorators.ts`, which validates a GET
    call instead of sending it.

The model has three layers:

- **Pure logic** is written as datatypes and functions. This covers
  encoding, header parsing, error construction, the verbs' option bags,
  and the handler for each event.
- **The stateful objects** are classes whose methods change their fields:
  - the signal and its listener registry;
  - the controller;
  - the transport, as a log of the calls made on it;
  - the promise, which settles once;
  - the per-call `Exchange` of closures;
  - the decorator's property descriptor.
- **Lemmas** connect the classes to the functions.

The host parts the code relies on are modelled concretely:

- `encodeURIComponent`, as UTF-8 percent-escapes in upper case, with a
  decoder proved to be its inverse;
- `String.prototype.trim`, over the ECMAScript white-space set;
- `split` and `join`;
- `split(/[\r\n]+/)`;
- JavaScript truthiness;
- the `EventTarget` registry, which ignores duplicate listeners and
  dispatches in registration order.

Modules, one file each:

| module | file | content |
|---|---|---|
| `JsValues` | js_values.dfy | `JsValue`, truthiness, `Option`, key/value entries |
| `JsStrings` | js_strings.dfy | `trim`, `indexOf`, `split`/`join`, number to string |
| `UriComponent` | uri_component.dfy | `encodeURIComponent` and its inverse |
| `HttpResponses` | http_response.dfy | `HttpResponse` |
| `AugmentedErrors` | augmented_error.dfy | `AugmentedError` |
| `AbortionErrors` | abortion_error.dfy | `AbortionError` |
| `AbortionSignals` | abortion_signal.dfy | `AbortionSignal` and the `EventTarget` registry |
| `AbortionControllers` | abortion_controller.dfy | `AbortionController` |
| `RequestOptions` | request_options.dfy | the options bag; the `method` key is the field `verb` |
| `Xhr` | xhr.dfy | the transport as a call log, and the snapshot a handler reads |
| `ResponseHeaders` | response_headers.dfy | the header-map part of `createAugmentedError` |
| `HttpHelper` | http_helper.dfy | `HttpHelper` |
| `Utils` | utils.dfy | the second `createAugmentedError` |
| `RequestLifecycle` | lifecycle.dfy | the handlers' effect on the promise |
| `HttpClient` | http_client.dfy | the verbs, `request`, the promise, the exchange |
| `HttpDecorators` | http_decorators.dfy | `hasSpaces`, `isNullOrEmpty`, `@GET` |

## Behaviour of the code worth noting

- **Array params.** Each element of an array value is encoded on its own,
  then the encodings are joined by `,`, so the separators stay literal
  (`HttpHelper.ValueSplit`).
- **`abort()`.** The controller dispatches `'aborted'` first, so
  listeners still read `aborted == false`, and only then sets the flag.
  Nothing guards a second call: it dispatches again
  (`AbortionControllers.AbortTwice`).
- **Pre-aborted signal.** An already aborted signal rejects the promise,
  but the request is still opened, configured and sent
  (`HttpClient.PostAfterAbort`).
- **The signal's flag is not monotonic.** The `aborted` setter is public
  and can reset it (`AbortionSignals.SetterIsNotMonotonic`).
- **Response headers.** These are read only in the `HEADERS_RECEIVED`
  state (2). The error handlers run when the request is `DONE` (4), so
  their errors always carry `{}` (`RequestLifecycle.DoneRejectionHasNoHeaders`).
- **Header validation in `@GET`.** The search for an invalid header stops
  at a header whose name is the empty string. That name is falsy, so
  nothing is thrown and later headers are never examined
  (`HttpDecorators.EmptyHeaderNameMasksTheRest`).
- **Abort listener removal.** The listener leaves the signal only when
  the request reaches `DONE`, not on every kind of settlement
  (`HttpClient.Exchange.OnReadyStateChange`, `HttpClient.AbortInFlight`).

## Model

| member | source | states |
|---|---|---|
| JsStrings.TrimStart | src/http/HttpHelper.ts:24 | the result is a suffix of the input; everything dropped is white space; it does not start with white space |
| JsStrings.TrimEnd | src/http/HttpHelper.ts:24 | the result is a prefix of the input; everything dropped is white space; it does not end with white space |
| JsStrings.Trim | src/http/HttpHelper.ts:24 | `trim()`: its contract is carried by `JsStrings.TrimBounds` |
| JsStrings.TrimBounds | src/http/HttpHelper.ts:24 | the trimmed string has no white space at either end and is no longer than the input; it is empty iff the input is all white space |
| JsStrings.IndexOf | src/http/http-decorators.ts:12 | `indexOf` gives the first position of the character, or -1 when it does not occur |
| JsStrings.FindFirstSpec | src/http/HttpHelper.ts:28 | the separator search returns the first occurrence, and none means no occurrence |
| JsStrings.SplitOn | src/http/HttpHelper.ts:28 | `split(sep)` yields at least one part; its content is carried by `JsStrings.JoinSplit`, `JsStrings.SplitJoin` and `JsStrings.SplitAtFirst` |
| JsStrings.Join | src/http/HttpHelper.ts:31 | `join(sep)`: carried by `JsStrings.JoinSplit`, `JsStrings.SplitJoin` and `HttpHelper.JoinAvoids` |
| JsStrings.JoinSplit | src/http/HttpHelper.ts:28-31 | joining the parts of a split with the same separator gives back the string |
| JsStrings.SplitJoin | src/http/HttpHelper.ts:9-19 | splitting a join on a one-character separator that no part contains gives back the parts |
| JsStrings.SplitAtFirst | src/http/HttpHelper.ts:28-31 | `shift()` of a split is the text before the first separator, and the join of the rest is the text after it |
| JsStrings.NatToStringValue | src/http/AugmentedError.ts:21 | the decimal rendering of a number reads back as that number |
| UriComponent.Encode | src/http/HttpHelper.ts:10 | `encodeURIComponent` produces only unreserved characters, `%` and upper-case hex digits |
| UriComponent.EncodeHasNoSeparators | src/http/HttpHelper.ts:10-15 | an encoded key or value never contains `&`, `=`, `,`, `?` or `#` |
| UriComponent.DecodeEncode | src/http/HttpHelper.ts:10-15 | percent-decoding an encoding gives back the original string |
| UriComponent.EncodeInjective | src/http/HttpHelper.ts:10-15 | two different keys never encode to the same text |
| HttpResponses.NewResponse | src/http/HttpResponse.ts:12-25 | the status is never 0, the status text is never empty, the URL is never `""`, and `ok` holds iff the status is 2xx |
| HttpResponses.NewResponseFields | src/http/HttpResponse.ts:20-23 | a truthy init field is kept; an absent or falsy one becomes `{}`, 200, `'OK'` or `null` |
| HttpResponses.ZeroStatusIsOk | src/http/HttpResponse.ts:21-24 | status 0 becomes 200, so the response counts as ok |
| HttpResponses.NewResponseIdempotent | src/http/HttpResponse.ts:20-24 | rebuilding a response from its own fields changes nothing |
| AugmentedErrors.NewAugmentedError | src/http/AugmentedError.ts:8-24 | the name is `AugmentedError`; `ok` is false whatever the status; `error` is null or truthy |
| AugmentedErrors.AugmentedMessage | src/http/AugmentedError.ts:20-23 | the message is `Request "<url>" failed.`, plus ` <status> <statusText>` from the init object when the defaulted status is not 2xx |
| AugmentedErrors.ZeroStatusMessage | src/http/AugmentedError.ts:20-23 | a status of 0 gives status 200 and a message without a status part |
| AugmentedErrors.AugmentedFields | src/http/AugmentedError.ts:19-24 | headers, status, text and URL are those of the base response; `error` is `init.error \|\| null` |
| AbortionErrors.NewAbortionError | src/http/AbortionError.ts:12-31 | the name is `AbortionError`, `ok` is false and the message is `Request "<url>" aborted.` |
| AbortionErrors.AbortionErrorFor | src/http/HttpClient.ts:77 | `new AbortionError({ url })`: carried by `AbortionErrors.AbortionErrorForFields` and `AbortionErrors.NewAbortionError` |
| AbortionErrors.AbortionErrorForFields | src/http/AbortionError.ts:23-32 | `new AbortionError({ url })` has status 200, `'OK'`, no headers, a null error, and the URL or null when it is empty |
| AbortionErrors.AbortionMessageIgnoresStatus | src/http/AbortionError.ts:31 | the abortion message depends on the URL alone |
| AbortionSignals.Without | src/http/AbortionSignal.ts:4 | removing a listener keeps every other listener and keeps the registry free of duplicates |
| AbortionSignals.ListenersForMembers | src/http/AbortionSignal.ts:4 | a dispatch reaches exactly the registered listeners of that event type, each once |
| AbortionSignals.ListenersForAppend | src/http/AbortionSignal.ts:4 | a dispatch reaches listeners in registration order |
| AbortionSignals.AbortionSignal.constructor | src/http/AbortionSignal.ts:22 | a new signal is not aborted and has no listeners |
| AbortionSignals.AbortionSignal.SetAborted | src/http/AbortionSignal.ts:15-17 | the setter stores the value given, `false` included, and leaves the listeners alone |
| AbortionSignals.AbortionSignal.AddEventListener | src/http/AbortionSignal.ts:4 | a listener is appended unless it is already registered; the flag is unchanged |
| AbortionSignals.AbortionSignal.RemoveEventListener | src/http/AbortionSignal.ts:4 | the listener leaves the registry, the others stay in order, and the flag is unchanged |
| AbortionSignals.AbortionSignal.DispatchEvent | src/http/AbortionSignal.ts:4 | the listeners notified are the registered ones of that type, in registration order |
| AbortionSignals.SetterIsNotMonotonic | src/http/AbortionSignal.ts:15-22 | the flag starts false and can be set to true and then back to false |
| AbortionControllers.AbortionController.constructor | src/http/AbortionController.ts:17-24 | the controller owns a fresh signal that is not aborted and has no listeners |
| AbortionControllers.AbortionController.Abort | src/http/AbortionController.ts:29-33 | the `aborted` listeners are notified in order while the flag still holds its old value; the flag is then true and the registry unchanged |
| AbortionControllers.AbortTwice | src/http/AbortionController.ts:29-33 | a second `abort()` notifies the listener again; it is the first call that sees the flag set |
| AbortionControllers.AbortSkipsOtherEvents | src/http/AbortionController.ts:30-31 | listeners of other event types are not notified and stay registered |
| Xhr.HeaderPairsOfAppend | src/http/HttpHelper.ts:75-79 | the request headers set by two call sequences in a row are those of the first, then those of the second |
| Xhr.HeaderPairsOfNone | src/http/HttpHelper.ts:75-79 | calls that set no header contribute no header |
| Xhr.Transport.constructor | src/http/HttpClient.ts:80 | a new transport has no calls, no headers, no credentials, no timeout and no response type |
| Xhr.Transport.Open | src/http/HttpHelper.ts:51-57 | `open` is logged and changes no setting |
| Xhr.Transport.SetHandler | src/http/HttpClient.ts:82-126 | installing a handler is logged and changes no setting |
| Xhr.Transport.SetWithCredentials | src/http/HttpHelper.ts:61 | sets `withCredentials` and nothing else |
| Xhr.Transport.SetTimeout | src/http/HttpHelper.ts:64 | sets `timeout` and nothing else |
| Xhr.Transport.SetRequestHeader | src/http/HttpHelper.ts:78 | appends the header to the request headers and changes no other setting |
| Xhr.Transport.SetResponseType | src/http/HttpHelper.ts:72 | sets `responseType` and nothing else |
| Xhr.Transport.AddEventListener | src/http/HttpClient.ts:111 | adding the progress listener is logged and changes no setting |
| Xhr.Transport.RemoveEventListener | src/http/HttpClient.ts:119 | removing the progress listener is logged and changes no setting |
| Xhr.Transport.Send | src/http/HttpClient.ts:128-133 | `send` is logged with its argument and changes no setting |
| Xhr.Transport.Abort | src/http/HttpClient.ts:100-102 | `abort` is logged and changes no setting |
| ResponseHeaders.FirstBreak | src/http/HttpHelper.ts:24 | the first CR or LF, or the length when there is none |
| ResponseHeaders.DropBreaks | src/http/HttpHelper.ts:24 | a run of CR/LF is dropped in full and nothing else is dropped |
| ResponseHeaders.SplitLines | src/http/HttpHelper.ts:24 | `split(/[\r\n]+/)` always yields at least one line |
| ResponseHeaders.BreakRunsShape | src/http/HttpHelper.ts:24 | the separators `split(/[\r\n]+/)` drops are one fewer than the lines, and each is a non-empty run of CR/LF only |
| ResponseHeaders.SplitLinesRebuild | src/http/HttpHelper.ts:24 | putting each dropped run back between the lines rebuilds the input exactly, so no other character is lost or added |
| ResponseHeaders.SplitLinesNoBreaks | src/http/HttpHelper.ts:24 | no line holds a CR or LF |
| ResponseHeaders.SplitLinesNonEmpty | src/http/HttpHelper.ts:24 | on text that starts and ends with neither CR nor LF, no line is empty |
| ResponseHeaders.HeaderLineParts | src/http/HttpHelper.ts:28-31 | a line is cut at its first `": "`, and later ones stay in the value; a line without one is all name |
| ResponseHeaders.HeaderMapOf | src/http/HttpHelper.ts:27-34 | the `forEach` over the lines: carried by `ResponseHeaders.HeaderMapDomain`, `ResponseHeaders.HeaderMapLastWins` and `ResponseHeaders.CollectHeaders` |
| ResponseHeaders.HeaderMapDomain | src/http/HttpHelper.ts:27-34 | a name is in the header map iff it is non-empty and some line carries it |
| ResponseHeaders.HeaderMapLastWins | src/http/HttpHelper.ts:27-34 | a repeated header keeps the value of its last line |
| ResponseHeaders.HeaderLinesClean | src/http/HttpHelper.ts:23-24 | trimmed and split, the lines hold no CR/LF and none is blank; an all-white-space block gives an empty map |
| ResponseHeaders.ParseHeaders | src/http/HttpHelper.ts:25-35 | the header map of the error: carried by `ResponseHeaders.ErrorHeadersOnlyWhenHeadersReceived` and `ResponseHeaders.HeaderLinesClean` |
| ResponseHeaders.ErrorOf | src/http/HttpHelper.ts:22-44 | the error `createAugmentedError` returns: carried by `ResponseHeaders.ErrorOfFields` |
| ResponseHeaders.ErrorHeadersOnlyWhenHeadersReceived | src/http/HttpHelper.ts:25-35 | the header map is filled in the HEADERS_RECEIVED state only and is `{}` in every other state |
| ResponseHeaders.ErrorOfFields | src/http/HttpHelper.ts:37-43 | the request error carries the defaulted status and text, the URL or null, the payload or null, and the message with the raw status |
| ResponseHeaders.CollectHeaders | src/utils/index.ts:11-18 | the `forEach` loop builds exactly the header map of its lines |
| HttpHelper.BuildParams | src/http/HttpHelper.ts:8-20 | the query string: carried by `HttpHelper.BuildParamsSplit` and `HttpHelper.QueryRoundTrip` |
| HttpHelper.EncodeValue | src/http/HttpHelper.ts:12-16 | a value's encoding: carried by `HttpHelper.ValueSplit` and `HttpHelper.EncodeValueAvoids` |
| HttpHelper.Piece | src/http/HttpHelper.ts:18 | one `key=value` piece: carried by `HttpHelper.PieceSplit` and `HttpHelper.PieceAvoidsAmpersand` |
| HttpHelper.EncodeEach | src/http/HttpHelper.ts:13 | one encoding per array element, in order |
| HttpHelper.Pieces | src/http/HttpHelper.ts:9-19 | one `key=value` piece per entry, in entry order |
| HttpHelper.JoinAvoids | src/http/HttpHelper.ts:13 | a join contains no character that neither its parts nor its separator contain |
| HttpHelper.EncodeValueAvoids | src/http/HttpHelper.ts:12-16 | an encoded value holds no `&` or `=`, and a scalar's holds no `,` |
| HttpHelper.PieceAvoidsAmpersand | src/http/HttpHelper.ts:18 | a piece holds no `&` |
| HttpHelper.BuildParamsSplit | src/http/HttpHelper.ts:8-20 | splitting the query on `&` gives exactly one piece per entry, in order; no entries give `""` |
| HttpHelper.PieceSplit | src/http/HttpHelper.ts:18 | each piece splits on `=` into exactly the encoded key and the encoded value |
| HttpHelper.ValueSplit | src/http/HttpHelper.ts:12-16 | an array value splits on `,` into its elements' encodings; a scalar does not split; `[]` encodes as `""` |
| HttpHelper.DecodeEachEncodeEach | src/http/HttpHelper.ts:13 | decoding each element's encoding gives back the elements' strings |
| HttpHelper.ParsePieceOf | src/http/HttpHelper.ts:10-18 | a piece reads back as its key and its value's strings |
| HttpHelper.ParsePiecesOf | src/http/HttpHelper.ts:9-19 | the pieces read back as the entries, in order |
| HttpHelper.QueryRoundTrip | src/http/HttpHelper.ts:8-20 | a non-empty query reads back, when split on `&`, `=` and `,` and decoded, as the original keys and value strings |
| HttpHelper.CreateAugmentedError | src/http/HttpHelper.ts:22-44 | builds exactly the request error, with headers only in the HEADERS_RECEIVED state |
| HttpHelper.OpenRequest | src/http/HttpHelper.ts:46-58 | opens asynchronously with the method, the URL and the optional user name and password, and changes no setting |
| HttpHelper.HeaderCalls | src/http/HttpHelper.ts:76-78 | one `setRequestHeader` per header entry, in entry order |
| HttpHelper.HeaderCallsSet | src/http/HttpHelper.ts:75-79 | the header calls set exactly the given headers |
| HttpHelper.OptionCallsHeaders | src/http/HttpHelper.ts:60-73 | `setOptions` sets exactly the option headers; it starts with the credentials flag and ends with the response type |
| HttpHelper.SetHeaders | src/http/HttpHelper.ts:75-79 | appends each header in entry order, and changes no other setting |
| HttpHelper.SetTimeoutIfTruthy | src/http/HttpHelper.ts:62-65 | sets the timeout only when it is present and non-zero |
| HttpHelper.SetHeadersIfPresent | src/http/HttpHelper.ts:67-69 | with headers in the options, appends them in entry order; without, sets nothing; no other setting changes |
| HttpHelper.SetOptions | src/http/HttpHelper.ts:60-73 | sets `withCredentials` (default false) and a truthy timeout, then the headers in order, then `responseType` (default `'json'`) |
| Utils.CreateAugmentedError | src/utils/index.ts:6-28 | builds exactly the request error, with headers only in the HEADERS_RECEIVED state |
| Utils.BothCopiesAgree | src/utils/index.ts:6-28 | the two copies of `createAugmentedError` return the same error for every request; outside HEADERS_RECEIVED the headers are `{}` |
| RequestLifecycle.Handle | src/http/HttpClient.ts:82-98 | a handler resolves iff the event is a load that is DONE and 2xx, with the response; otherwise it rejects with the request error, or with the abortion error on abort |
| RequestLifecycle.Step | src/http/HttpClient.ts:82-126 | one event applied to the promise: carried by `RequestLifecycle.Handle` and `RequestLifecycle.SettledIsFinal` |
| RequestLifecycle.Run | src/http/HttpClient.ts:75-134 | events applied in order: carried by `RequestLifecycle.SettledIsFinal` and `RequestLifecycle.FirstEventDecides` |
| RequestLifecycle.Start | src/http/HttpClient.ts:76-78 | the promise before any event: carried by `RequestLifecycle.PreAbortedStaysAborted` |
| RequestLifecycle.SettledIsFinal | src/http/HttpClient.ts:75-134 | once settled, the promise ignores every later event |
| RequestLifecycle.FirstEventDecides | src/http/HttpClient.ts:75-134 | the first event decides the outcome; with no event the promise stays pending |
| RequestLifecycle.PreAbortedStaysAborted | src/http/HttpClient.ts:76-78 | with a pre-aborted signal the promise stays rejected with the abortion error, whatever follows |
| RequestLifecycle.RejectionKinds | src/http/HttpClient.ts:88-97 | a rejection is an abortion error iff it comes from the abort event |
| RequestLifecycle.DoneRejectionHasNoHeaders | src/http/HttpClient.ts:83-93 | errors built in the DONE state carry no headers |
| RequestLifecycle.NotFoundOnLoad | src/http/HttpClient.ts:82-90 | a 404 load is rejected with `Request "<url>" failed. 404 Not Found` |
| RequestLifecycle.NetworkFailure | src/http/HttpClient.ts:92-94 | a status-0 error is reported as 200 `'OK'`, with no status part in its message |
| RequestLifecycle.TimeoutThenLoad | src/http/HttpClient.ts:124-126 | a load after a timeout cannot turn the rejection into a success |
| HttpClient.Delete | src/http/HttpClient.ts:20-23 | method `DELETE`; the options' body and every other key are kept |
| HttpClient.Get | src/http/HttpClient.ts:25-28 | method `GET`; the options' body and every other key are kept |
| HttpClient.Head | src/http/HttpClient.ts:30-33 | method `HEAD`; the options' body and every other key are kept |
| HttpClient.OptionsVerb | src/http/HttpClient.ts:35-38 | method `OPTIONS`; the options' body and every other key are kept |
| HttpClient.Patch | src/http/HttpClient.ts:40-47 | method `PATCH`; the body argument replaces any body; the other keys are kept |
| HttpClient.Post | src/http/HttpClient.ts:49-56 | method `POST`; the body argument replaces any body; the other keys are kept |
| HttpClient.Put | src/http/HttpClient.ts:58-65 | method `PUT`; the body argument replaces any body; the other keys are kept |
| HttpClient.RequestUrl | src/http/HttpClient.ts:69-73 | the URL `request` opens: carried by `HttpClient.RequestUrlQuery` |
| HttpClient.RequestUrlQuery | src/http/HttpClient.ts:69-73 | without params the URL is unchanged; with params, `?` and the query are appended, and on a URL without `?` the query reads back as the params |
| HttpClient.SendArg | src/http/HttpClient.ts:128-133 | the body is sent iff it is truthy and the method is neither GET nor HEAD |
| HttpClient.GetAndHeadSendNoBody | src/http/HttpClient.ts:128-133 | `get` and `head` never send a body |
| HttpClient.BodyVerbsSendTheirBody | src/http/HttpClient.ts:40-65 | `post`, `put` and `patch` send their body argument iff it is truthy |
| HttpClient.ConfigCallsShape | src/http/HttpClient.ts:108-112 | configuring neither opens nor sends, and sets exactly the option headers |
| HttpClient.OpeningClosingSetNoHeader | src/http/HttpClient.ts:80-133 | the calls around the configuration set no header |
| HttpClient.SetupCalls | src/http/HttpClient.ts:80-133 | every call `request` makes on its transport: carried by `HttpClient.SetupOrder`, `HttpClient.SetupCallsBracketed` and `HttpClient.Transmit` |
| HttpClient.SetupCallsBracketed | src/http/HttpClient.ts:80-133 | the setup calls are `open`, then the handlers, configuration and handlers, then `send` |
| HttpClient.MiddleQuiet | src/http/HttpClient.ts:82-126 | nothing between `open` and `send` opens or sends |
| HttpClient.SetupOrder | src/http/HttpClient.ts:80-133 | `open` comes first and `send` last, once each; `load`, `error` and `abort` come right after `open`; the headers set are the option headers |
| HttpClient.Promise.constructor | src/http/HttpClient.ts:75 | a new promise is pending |
| HttpClient.Promise.Resolve | src/http/HttpClient.ts:86 | resolving settles a pending promise and leaves a settled one alone |
| HttpClient.Promise.Reject | src/http/HttpClient.ts:77 | rejecting settles a pending promise and leaves a settled one alone |
| HttpClient.Exchange.constructor | src/http/HttpClient.ts:75-134 | an exchange holds the URL, options, transport, promise and abort listener of one call |
| HttpClient.Exchange.OnLoad | src/http/HttpClient.ts:82-90 | the promise takes the step the load event gives |
| HttpClient.Exchange.OnError | src/http/HttpClient.ts:92-94 | the promise takes the step the error event gives |
| HttpClient.Exchange.OnTimeout | src/http/HttpClient.ts:124-126 | the promise takes the step the timeout event gives |
| HttpClient.Exchange.OnAbort | src/http/HttpClient.ts:96-98 | the promise takes the step the abort event gives |
| HttpClient.Exchange.OnSignalAborted | src/http/HttpClient.ts:100-102 | the abort listener aborts the transport; `withCredentials`, `timeout`, `responseType` and the request headers are unchanged |
| HttpClient.Exchange.OnReadyStateChange | src/http/HttpClient.ts:115-122 | at DONE the abort listener leaves the signal and the progress listener leaves the transport; in any other state nothing changes; the transport's settings are unchanged either way |
| HttpClient.OpenAndConfigure | src/http/HttpClient.ts:80-112 | a fresh transport is opened, given its first three handlers, configured, and given the progress listener when progress is logged; it ends with `withCredentials` as the option (default false), the truthy timeout or 0, the option headers and the response type (default `'json'`) |
| HttpClient.InstallAndSend | src/http/HttpClient.ts:115-133 | the last two handlers are installed, then `send` is called; no setting changes |
| HttpClient.RegisterAbortListener | src/http/HttpClient.ts:114 | the abort listener joins the signal's `aborted` listeners unless already there; the flag is unchanged |
| HttpClient.Transmit | src/http/HttpClient.ts:80-133 | a fresh transport receives exactly the setup calls and ends with the configured settings; the abort listener is registered on the signal in between |
| HttpClient.Request | src/http/HttpClient.ts:67-135 | the URL with its query; a fresh transport given exactly the setup calls; a promise already rejected iff the signal was aborted; the abort listener registered on the signal; the transport's `withCredentials`, `timeout` and `responseType` are those the options give |
| HttpClient.StartCancellableGet | src/http/HttpClient.ts:25-28 | a `get` with a fresh controller's signal leaves the promise pending with exactly one abort listener on the unaborted signal |
| HttpClient.AbortInFlight | src/http/AbortionController.ts:29-33 | aborting in flight notifies the abort listener once, while the flag still reads false; the transport is aborted, reaches DONE (which removes the abort listener and the progress listener) and fires `abort`, which rejects the promise with the abortion error |
| HttpClient.CancelInFlight | src/http/HttpClient.ts:96-117 | cancelling in flight notifies exactly the abort listener, which reads the flag as false; the listener's transport call is `abort`; the promise ends rejected with the abortion error and the signal with no listener |
| HttpClient.PostAfterAbort | src/http/HttpClient.ts:76-133 | with a pre-aborted signal the body is still sent, and a successful load leaves the promise rejected |
| HttpClient.SuccessfulGet | src/http/HttpClient.ts:25-28 | a `get` whose load succeeds resolves with the response and sends no body |
| HttpDecorators.HasSpaces | src/http/http-decorators.ts:11-13 | true iff the value is a string containing a space |
| HttpDecorators.IsNullOrEmpty | src/http/http-decorators.ts:22-26 | true iff the value is falsy, or a string of white space only |
| JsValues.FindIndex | src/http/http-decorators.ts:62-67 | `find`'s position: the first element the test accepts, or the length when there is none; the test rejects every earlier element |
| HttpDecorators.ValidateGet | src/http/http-decorators.ts:47-76 | a throw carries the URI message, the body message, or the message for a header with a non-empty name |
| HttpDecorators.HeaderMessageDiffers | src/http/http-decorators.ts:50-71 | the header message is never the URI message |
| HttpDecorators.UriRule | src/http/http-decorators.ts:49-51 | the URI message is thrown iff the URI is falsy or contains a space |
| HttpDecorators.BodyKeyRefused | src/http/http-decorators.ts:53-57 | a present `body` key is refused whatever its value |
| HttpDecorators.FindInvalid | src/http/http-decorators.ts:62-67 | `find` returns nothing iff no header is invalid; a key it returns is that of an invalid header |
| HttpDecorators.FirstBadHeaderNamed | src/http/http-decorators.ts:60-73 | the header named is the first invalid one, in key order |
| HttpDecorators.EmptyHeaderNameMasksTheRest | src/http/http-decorators.ts:62-69 | a header with an empty name stops the search without a throw |
| HttpDecorators.ValidRequestPasses | src/http/http-decorators.ts:47-76 | the validator returns normally iff the URI is fine, and there is no `body` key and no invalid header with a non-empty name |
| HttpDecorators.CheckTarget | src/http/http-decorators.ts:41-45 | passes iff the target is `HttpClient.get`; otherwise throws the decorator message |
| HttpDecorators.PropertyDescriptor.constructor | src/http/http-decorators.ts:38 | a descriptor holds the method given |
| HttpDecorators.GET | src/http/http-decorators.ts:35-77 | on the right target the validator replaces the method; on any other the descriptor is untouched and the call throws |
| HttpDecorators.DecorateAndCall | src/http/http-decorators.ts:35-77 | a decorated `get` only validates; decorating another method throws and leaves it unchanged |

## Left out

- Numbers are unbounded integers. JavaScript numbers are doubles: `NaN`,
  fractions, `-0`, the exponent form `String` gives from 1e21 up
  (`"1e+21"`), and the loss of exactness above 2^53 are not modelled, for
  statuses, timeouts or param values alike.
- `requestUrl` is a string. The `URL` object case and its `toString()`
  are not modelled.
- `Object.entries`/`Object.keys` order is taken to be the order of the
  entries. The host's ordering rule for integer-like keys is not
  modelled. Nor is the host's guarantee that an object never repeats a
  key: the model accepts any sequence of entries.
- The transport is a log of the calls made on it, plus the settings it
  stores. Network behaviour, the `XMLHttpRequest` state machine, and
  host-side combining of repeated request headers are not modelled.
  Handlers read a `ResponseView` snapshot passed in as a parameter.
- The event loop is not modelled. Handlers run as separate method calls,
  in whatever order a scenario chooses. Re-entrant dispatch and
  listeners added during a dispatch are not modelled.
- `Xhr.Transport.SetTimeout`: the host converts the timeout to an
  unsigned 32-bit value (modulo 2^32, so a negative one wraps). The model
  stores the integer as given.
- `HttpClient.AbortInFlight`: the transport's `abort()` fires
  `readystatechange` (DONE) and then `abort` synchronously, inside the
  controller's dispatch. The model runs those handlers, and the abort
  listener's own effect, after `Abort()` returns, so the flag already
  reads true while they run. What the listener saw during the dispatch
  is returned separately.
- The progress listener's body (console logging) is not modelled. Only
  its registration and removal are.
- `src/http/http-client.ts`, the `fetch`-based client, is not part of
  this model.
- `Validator` (`isString`, `isArray`, `isEmptyObject`) is not part of
  this model. Its checks appear as datatype cases and a length test.
- `HttpStatusCode` is not part of this model. `HttpStatusCode.OK` is
  taken to be 200.
- `UriComponent.Encode`: the `URIError` thrown for lone surrogates is not
  modelled. Strings are sequences of Unicode scalar values.
- `HttpHelper.OpenRequest` requires a method. Every verb sets one, and
  the host's behaviour on a missing method is not modelled.
- `RequestLifecycle.Handle`: the handlers read only the snapshot they are
  given. A response payload is an opaque `JsValue`.
- `HttpDecorators.ValidateGet`: the options object is reduced to whether
  it has a `body` key and to its headers. The headers' value types are
  `JsValue`.
- The `aborted` getter (src/http/AbortionSignal.ts:8-10) is the
  function `AbortionSignals.AbortionSignal.Aborted`, which has no
  contract of its own. The `signal` getter of the controller is its
  constant field.

/**
 * The static helpers of src/http/HttpHelper.ts: the query-string builder,
 * the error factory, and the three steps that open and configure a
 * request on the transport.
 */
module HttpHelper {
  import opened JsValues
  import opened JsStrings
  import opened UriComponent
  import opened RequestOptions
  import opened Xhr
  import opened AugmentedErrors
  import opened ResponseHeaders

  // ---------------------------------------------------------------------
  // buildParams
  // ---------------------------------------------------------------------

  /** `String(v)`, which `encodeURIComponent` applies to its argument first. */
  function ScalarString(x: Scalar): string {
    match x
    case Text(t) => t
    case Num(n) => IntToString(n)
    case Flag(b) => if b then "true" else "false"
  }

  /** `encodeURIComponent(v)` for a scalar. */
  function EncodeScalar(x: Scalar): string {
    Encode(ScalarString(x))
  }

  /** `value.map(v => encodeURIComponent(v))` */
  function EncodeEach(xs: seq<Scalar>): (r: seq<string>)
    ensures |r| == |xs|
    ensures forall i :: 0 <= i < |xs| ==> r[i] == EncodeScalar(xs[i])
  {
    seq(|xs|, i requires 0 <= i < |xs| => EncodeScalar(xs[i]))
  }

  /** The encoded value of one entry: an array element by element, joined by `,`. */
  function EncodeValue(v: ParamValue): string {
    match v
    case Single(x) => EncodeScalar(x)
    case Many(xs) => Join(EncodeEach(xs), ",")
  }

  /** `${encodedKey}=${encodedVal}` */
  function Piece(entry: (string, ParamValue)): string {
    Encode(entry.0) + "=" + EncodeValue(entry.1)
  }

  /** One piece per entry, in entry order. */
  function Pieces(params: Entries<ParamValue>): (r: seq<string>)
    ensures |r| == |params|
    ensures forall i :: 0 <= i < |params| ==> r[i] == Piece(params[i])
  {
    seq(|params|, i requires 0 <= i < |params| => Piece(params[i]))
  }

  /** `buildParams(params)` */
  function BuildParams(params: Entries<ParamValue>): string {
    Join(Pieces(params), "&")
  }

  /** `s` does not contain `c`. */
  predicate Avoids(s: string, c: char) {
    forall j :: 0 <= j < |s| ==> s[j] != c
  }

  /** Every character of a join comes from a part or from the separator. */
  lemma {:induction false} JoinAvoids(parts: seq<string>, sep: string, c: char)
    requires forall k :: 0 <= k < |parts| ==> Avoids(parts[k], c)
    requires Avoids(sep, c)
    ensures Avoids(Join(parts, sep), c)
    decreases |parts|
  {
    if |parts| > 1 {
      JoinAvoids(parts[1..], sep, c);
    }
  }

  /** An encoded value never holds `&` or `=`; a scalar's never holds `,`. */
  lemma EncodeValueAvoids(v: ParamValue)
    ensures Avoids(EncodeValue(v), '&') && Avoids(EncodeValue(v), '=')
    ensures v.Single? ==> Avoids(EncodeValue(v), ',')
  {
    if v.Many? {
      JoinAvoids(EncodeEach(v.xs), ",", '&');
      JoinAvoids(EncodeEach(v.xs), ",", '=');
    }
  }

  /** A piece never holds `&`. */
  lemma PieceAvoidsAmpersand(entry: (string, ParamValue))
    ensures Avoids(Piece(entry), '&')
  {
    EncodeValueAvoids(entry.1);
  }

  /**
   * Splitting the query on `&` gives back the pieces: exactly one per
   * entry, in entry order, so there is no leading or trailing `&`. With
   * no entries the query is empty.
   */
  lemma BuildParamsSplit(params: Entries<ParamValue>)
    ensures |params| == 0 ==> BuildParams(params) == ""
    ensures |params| >= 1 ==> SplitOn(BuildParams(params), "&") == Pieces(params)
    ensures |params| >= 1 ==> |SplitOn(BuildParams(params), "&")| == |params|
  {
    if |params| >= 1 {
      var ps := Pieces(params);
      forall k, j | 0 <= k < |ps| && 0 <= j < |ps[k]| ensures ps[k][j] != '&' {
        PieceAvoidsAmpersand(params[k]);
      }
      SplitJoin(ps, '&');
    }
  }

  /** Each piece has exactly one `=`, between the encoded key and the encoded value. */
  lemma PieceSplit(entry: (string, ParamValue))
    ensures SplitOn(Piece(entry), "=") == [Encode(entry.0), EncodeValue(entry.1)]
  {
    var parts := [Encode(entry.0), EncodeValue(entry.1)];
    EncodeValueAvoids(entry.1);
    assert Join(parts, "=") == Piece(entry) by {
      assert parts[1..] == [EncodeValue(entry.1)];
    }
    SplitJoin(parts, '=');
  }

  /**
   * An array value splits on `,` into exactly its elements' encodings; a
   * scalar value does not split at all; an empty array encodes as the
   * empty string, like an empty scalar.
   */
  lemma ValueSplit(v: ParamValue)
    ensures v.Many? && |v.xs| >= 1 ==> SplitOn(EncodeValue(v), ",") == EncodeEach(v.xs)
    ensures v.Many? && |v.xs| >= 1 ==> |SplitOn(EncodeValue(v), ",")| == |v.xs|
    ensures v.Single? ==> SplitOn(EncodeValue(v), ",") == [EncodeValue(v)]
    ensures v == Many([]) ==> EncodeValue(v) == EncodeValue(Single(Text("")))
  {
    if v.Many? && |v.xs| >= 1 {
      SplitJoin(EncodeEach(v.xs), ',');
    }
    if v.Single? {
      EncodeValueAvoids(v);
      NoOccurrence(EncodeValue(v), ',');
    }
  }

  // ---------------------------------------------------------------------
  // A reference reader for the query string buildParams writes
  // ---------------------------------------------------------------------

  /** The strings an entry's value stands for, in order. */
  function ValueStrings(v: ParamValue): seq<string> {
    match v
    case Single(x) => [ScalarString(x)]
    case Many(xs) => seq(|xs|, i requires 0 <= i < |xs| => ScalarString(xs[i]))
  }

  /** Each entry's key with the strings of its value. */
  function Decoded(params: Entries<ParamValue>): seq<(string, seq<string>)> {
    seq(|params|, i requires 0 <= i < |params| => (params[i].0, ValueStrings(params[i].1)))
  }

  /** `decodeURIComponent` over each part. */
  function DecodeEach(parts: seq<string>): Option<seq<string>>
    decreases |parts|
  {
    if parts == [] then Some([])
    else
      match PercentDecode(parts[0])
      case None => None
      case Some(h) =>
        match DecodeEach(parts[1..])
        case None => None
        case Some(t) => Some([h] + t)
  }

  /** One `key=v1,v2` piece. */
  function ParsePiece(piece: string): Option<(string, seq<string>)> {
    var kv := SplitOn(piece, "=");
    if |kv| != 2 then None
    else
      match PercentDecode(kv[0])
      case None => None
      case Some(key) =>
        match DecodeEach(SplitOn(kv[1], ","))
        case None => None
        case Some(values) => Some((key, values))
  }

  function ParsePieces(pieces: seq<string>): Option<seq<(string, seq<string>)>>
    decreases |pieces|
  {
    if pieces == [] then Some([])
    else
      match ParsePiece(pieces[0])
      case None => None
      case Some(e) =>
        match ParsePieces(pieces[1..])
        case None => None
        case Some(rest) => Some([e] + rest)
  }

  /** Reads a query string back into keys and value lists. */
  function ParseQuery(query: string): Option<seq<(string, seq<string>)>> {
    ParsePieces(SplitOn(query, "&"))
  }

  /** No entry holds an empty array (which would read back as one empty string). */
  predicate NoEmptyArray(params: Entries<ParamValue>) {
    forall i :: 0 <= i < |params| ==> params[i].1 != Many([])
  }

  /** Parts that each decode read back as the list of their decodings. */
  lemma {:induction false} DecodeEachOf(parts: seq<string>, strs: seq<string>)
    requires |parts| == |strs|
    requires forall i :: 0 <= i < |parts| ==> PercentDecode(parts[i]) == Some(strs[i])
    ensures DecodeEach(parts) == Some(strs)
    decreases |parts|
  {
    if parts != [] {
      assert PercentDecode(parts[0]) == Some(strs[0]);
      DecodeEachOf(parts[1..], strs[1..]);
      assert strs == [strs[0]] + strs[1..];
    }
  }

  lemma DecodeEachEncodeEach(xs: seq<Scalar>)
    ensures DecodeEach(EncodeEach(xs)) == Some(ValueStrings(Many(xs)))
  {
    var parts, strs := EncodeEach(xs), ValueStrings(Many(xs));
    forall i | 0 <= i < |parts| ensures PercentDecode(parts[i]) == Some(strs[i]) {
      DecodeEncode(ScalarString(xs[i]));
    }
    DecodeEachOf(parts, strs);
  }

  lemma ParsePieceOf(entry: (string, ParamValue))
    requires entry.1 != Many([])
    ensures ParsePiece(Piece(entry)) == Some((entry.0, ValueStrings(entry.1)))
  {
    PieceSplit(entry);
    DecodeEncode(entry.0);
    ValueSplit(entry.1);
    match entry.1
    case Single(x) =>
      var e := EncodeScalar(x);
      DecodeEncode(ScalarString(x));
      assert e == Encode(ScalarString(x));
      assert SplitOn(e, ",") == [e];
      assert PercentDecode(e) == Some(ScalarString(x));
      assert [e][1..] == [];
      assert DecodeEach([e][1..]) == Some([]);
      assert [ScalarString(x)] + [] == [ScalarString(x)];
      assert DecodeEach([e]) == Some([ScalarString(x)]);
    case Many(xs) =>
      DecodeEachEncodeEach(xs);
  }

  /** Pieces that each parse read back as the list of their entries. */
  lemma {:induction false} ParsePiecesEach(pieces: seq<string>, entries: seq<(string, seq<string>)>)
    requires |pieces| == |entries|
    requires forall i :: 0 <= i < |pieces| ==> ParsePiece(pieces[i]) == Some(entries[i])
    ensures ParsePieces(pieces) == Some(entries)
    decreases |pieces|
  {
    if pieces != [] {
      assert ParsePiece(pieces[0]) == Some(entries[0]);
      ParsePiecesEach(pieces[1..], entries[1..]);
      assert entries == [entries[0]] + entries[1..];
    }
  }

  lemma ParsePiecesOf(params: Entries<ParamValue>)
    requires NoEmptyArray(params)
    ensures ParsePieces(Pieces(params)) == Some(Decoded(params))
  {
    var ps, ds := Pieces(params), Decoded(params);
    forall i | 0 <= i < |ps| ensures ParsePiece(ps[i]) == Some(ds[i]) {
      ParsePieceOf(params[i]);
    }
    ParsePiecesEach(ps, ds);
  }

  /**
   * Round trip: reading the query back gives every key, in entry order,
   * with the string form of its value or of each array element.
   */
  lemma QueryRoundTrip(params: Entries<ParamValue>)
    requires |params| >= 1 && NoEmptyArray(params)
    ensures ParseQuery(BuildParams(params)) == Some(Decoded(params))
  {
    BuildParamsSplit(params);
    ParsePiecesOf(params);
  }

  // ---------------------------------------------------------------------
  // createAugmentedError
  // ---------------------------------------------------------------------

  /**
   * `HttpHelper.createAugmentedError(request)`: the header lines are
   * collected only in the HEADERS_RECEIVED state.
   */
  method CreateAugmentedError(request: ResponseView) returns (e: ErrorObject)
    ensures e == ErrorOf(request)
  {
    var lines := HeaderLines(request.rawHeaders);
    var headerMap: map<string, string> := map[];
    if request.readyState == HEADERS_RECEIVED {
      headerMap := CollectHeaders(lines);
    }
    e := NewAugmentedError(ErrorInit(
      error := request.response,
      headers := Some(headerMap),
      status := Some(request.status),
      statusText := Some(request.statusText),
      url := Some(request.responseURL)));
  }

  // ---------------------------------------------------------------------
  // openRequest, setOptions, setHeaders
  // ---------------------------------------------------------------------

  /** `options.credentials?.username` */
  function Username(options: Options): Option<string> {
    if options.credentials.Some? then options.credentials.value.username else None
  }

  /** `options.credentials?.password` */
  function Password(options: Options): Option<string> {
    if options.credentials.Some? then options.credentials.value.password else None
  }

  /** `openRequest`: always asynchronous, with the options' method and credentials. */
  method OpenRequest(url: string, request: Transport, options: Options)
    requires options.verb.Some?
    requires request.Valid()
    modifies request
    ensures request.Valid()
    ensures request.calls == old(request.calls) + [Call.Open(options.verb.value.Name(), url, true, Username(options), Password(options))]
    ensures request.withCredentials == old(request.withCredentials) && request.timeout == old(request.timeout)
    ensures request.responseType == old(request.responseType)
  {
    request.Open(options.verb.value.Name(), url, true, Username(options), Password(options));
  }

  /** `options.withCredentials || false` */
  function WithCredentialsOf(options: Options): bool {
    options.withCredentials == Some(true)
  }

  /** `options.responseType || 'json'` */
  function ResponseTypeOf(options: Options): string {
    if options.responseType.Some? && options.responseType.value != "" then options.responseType.value else "json"
  }

  /** The timeout a new transport ends with: the option when truthy, the host's 0 otherwise. */
  function TimeoutOf(options: Options): int {
    if TimeoutCalls(options) == [] then 0 else options.timeout.value
  }

  /** The header entries of the options, none when absent. */
  function HeadersOf(options: Options): Entries<string> {
    if options.headers.Some? then options.headers.value else []
  }

  /** The `setRequestHeader` calls for some entries, one per entry, in entry order. */
  function HeaderCalls(headers: Entries<string>): (r: seq<Call>)
    ensures |r| == |headers|
    ensures forall i :: 0 <= i < |headers| ==> r[i] == SetRequestHeader(headers[i].0, headers[i].1)
    decreases |headers|
  {
    if headers == [] then []
    else [SetRequestHeader(headers[0].0, headers[0].1)] + HeaderCalls(headers[1..])
  }

  /** The timeout is assigned only when it is truthy (not 0). */
  function TimeoutCalls(options: Options): seq<Call> {
    if options.timeout.Some? && options.timeout.value != 0 then [SetTimeout(options.timeout.value)] else []
  }

  /** The calls `setOptions` makes, in order. */
  function OptionCalls(options: Options): seq<Call> {
    [SetWithCredentials(WithCredentialsOf(options))]
      + TimeoutCalls(options)
      + HeaderCalls(HeadersOf(options))
      + [SetResponseType(ResponseTypeOf(options))]
  }

  /** The header calls set exactly the given entries, in order. */
  lemma {:induction false} HeaderCallsSet(headers: Entries<string>)
    ensures HeaderPairsOf(HeaderCalls(headers)) == headers
    decreases |headers|
  {
    if headers != [] {
      var first := [SetRequestHeader(headers[0].0, headers[0].1)];
      var rest := HeaderCalls(headers[1..]);
      assert HeaderCalls(headers) == first + rest;
      HeaderCallsSet(headers[1..]);
      HeaderPairsOfAppend(first, rest);
      SingleHeaderPair(headers[0]);
      assert headers == [headers[0]] + headers[1..];
    }
  }

  /** One `setRequestHeader` call sets its one header. */
  lemma SingleHeaderPair(header: (string, string))
    ensures HeaderPairsOf([SetRequestHeader(header.0, header.1)]) == [header]
  {
    var first := [SetRequestHeader(header.0, header.1)];
    assert first[..0] == [];
  }

  /**
   * `setOptions` sets every header entry once, in entry order, and no other
   * header; it always assigns `withCredentials` first and `responseType` last.
   */
  lemma OptionCallsHeaders(options: Options)
    ensures HeaderPairsOf(OptionCalls(options)) == HeadersOf(options)
    ensures OptionCalls(options)[0] == SetWithCredentials(WithCredentialsOf(options))
    ensures OptionCalls(options)[|OptionCalls(options)| - 1] == SetResponseType(ResponseTypeOf(options))
  {
    var a := [SetWithCredentials(WithCredentialsOf(options))];
    var t := TimeoutCalls(options);
    var h := HeaderCalls(HeadersOf(options));
    var r := [SetResponseType(ResponseTypeOf(options))];
    HeaderCallsSet(HeadersOf(options));
    HeaderPairsOfAppend(a, t);
    HeaderPairsOfAppend(a + t, h);
    HeaderPairsOfAppend(a + t + h, r);
    assert HeaderPairsOf(a) == [] by { assert a[..0] == []; }
    assert HeaderPairsOf(r) == [] by { assert r[..0] == []; }
    assert HeaderPairsOf(t) == [] by {
      if t != [] { assert t[..0] == []; }
    }
  }

  /** `setHeaders`: one `setRequestHeader` per entry, in entry order. */
  method SetHeaders(request: Transport, headers: Entries<string>)
    requires request.Valid()
    modifies request
    ensures request.Valid()
    ensures request.calls == old(request.calls) + HeaderCalls(headers)
    ensures request.requestHeaders == old(request.requestHeaders) + headers
    ensures request.withCredentials == old(request.withCredentials) && request.timeout == old(request.timeout)
    ensures request.responseType == old(request.responseType)
  {
    for i := 0 to |headers|
      invariant request.Valid()
      invariant request.calls == old(request.calls) + HeaderCalls(headers[..i])
      invariant request.requestHeaders == old(request.requestHeaders) + headers[..i]
      invariant request.withCredentials == old(request.withCredentials) && request.timeout == old(request.timeout)
      invariant request.responseType == old(request.responseType)
    {
      SetHeadersStep(old(request.calls), old(request.requestHeaders), headers, i);
      request.SetRequestHeader(headers[i].0, headers[i].1);
    }
    assert headers[..|headers|] == headers;
  }

  /** One more entry: its call and its header come after those of the entries before it. */
  lemma SetHeadersStep(calls: seq<Call>, pairs: seq<(string, string)>, headers: Entries<string>, i: nat)
    requires i < |headers|
    ensures calls + HeaderCalls(headers[..i]) + [SetRequestHeader(headers[i].0, headers[i].1)]
         == calls + HeaderCalls(headers[..i + 1])
    ensures pairs + headers[..i] + [headers[i]] == pairs + headers[..i + 1]
  {
    HeaderCallsSnoc(headers[..i], headers[i]);
    assert headers[..i + 1] == headers[..i] + [headers[i]];
  }

  lemma {:induction false} HeaderCallsSnoc(headers: Entries<string>, h: (string, string))
    ensures HeaderCalls(headers + [h]) == HeaderCalls(headers) + [SetRequestHeader(h.0, h.1)]
    decreases |headers|
  {
    if headers == [] {
      assert [h][1..] == [];
    } else {
      assert (headers + [h])[1..] == headers[1..] + [h];
      HeaderCallsSnoc(headers[1..], h);
    }
  }

  /** `if (timeout) { request.timeout = timeout; }` */
  method SetTimeoutIfTruthy(request: Transport, options: Options)
    requires request.Valid()
    modifies request
    ensures request.Valid()
    ensures request.calls == old(request.calls) + TimeoutCalls(options)
    ensures request.timeout == if TimeoutCalls(options) == [] then old(request.timeout) else options.timeout.value
    ensures request.withCredentials == old(request.withCredentials)
    ensures request.responseType == old(request.responseType) && request.requestHeaders == old(request.requestHeaders)
  {
    var timeout := options.timeout;
    if timeout.Some? && timeout.value != 0 {
      request.SetTimeout(timeout.value);
    }
  }

  /** `if (options.headers) { HttpHelper.setHeaders(request, options.headers); }` */
  method SetHeadersIfPresent(request: Transport, options: Options)
    requires request.Valid()
    modifies request
    ensures request.Valid()
    ensures request.calls == old(request.calls) + HeaderCalls(HeadersOf(options))
    ensures request.requestHeaders == old(request.requestHeaders) + HeadersOf(options)
    ensures request.withCredentials == old(request.withCredentials) && request.timeout == old(request.timeout)
    ensures request.responseType == old(request.responseType)
  {
    if options.headers.Some? {
      SetHeaders(request, options.headers.value);
    } else {
      assert request.calls + HeaderCalls([]) == request.calls;
      assert request.requestHeaders + [] == request.requestHeaders;
    }
  }

  /**
   * `setOptions`: `withCredentials` becomes false unless it is true,
   * `timeout` is assigned only when non-zero, the headers are set in entry
   * order when present, and `responseType` defaults to `'json'`.
   */
  method SetOptions(request: Transport, options: Options)
    requires request.Valid()
    modifies request
    ensures request.Valid()
    ensures request.calls == old(request.calls) + OptionCalls(options)
    ensures request.withCredentials == WithCredentialsOf(options)
    ensures request.timeout == if TimeoutCalls(options) == [] then old(request.timeout) else options.timeout.value
    ensures request.responseType == ResponseTypeOf(options)
    ensures request.requestHeaders == old(request.requestHeaders) + HeadersOf(options)
  {
    ghost var c0 := request.calls;
    request.SetWithCredentials(options.withCredentials == Some(true));
    SetTimeoutIfTruthy(request, options);
    SetHeadersIfPresent(request, options);
    var responseType := options.responseType;
    request.SetResponseType(if responseType.Some? && responseType.value != "" then responseType.value else "json");
    CallsAssoc(c0, [SetWithCredentials(WithCredentialsOf(options))], TimeoutCalls(options),
               HeaderCalls(HeadersOf(options)), [SetResponseType(ResponseTypeOf(options))]);
  }

  /** Regrouping a chain of appended calls. */
  lemma CallsAssoc(c0: seq<Call>, a: seq<Call>, b: seq<Call>, c: seq<Call>, d: seq<Call>)
    ensures c0 + a + b + c + d == c0 + (a + b + c + d)
  {
  }
}

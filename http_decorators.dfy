/**
 * The `@GET` method decorator of src/http/http-decorators.ts: it refuses
 * any target but `HttpClient.get`, and replaces the decorated method by a
 * validator that throws on a bad URI, on a body, or on the first bad
 * header, and otherwise returns without sending anything.
 */
module HttpDecorators {
  import opened JsValues
  import opened JsStrings

  /** `hasSpaces(value)`: a string holding a space character. */
  function HasSpaces(value: JsValue): (r: bool)
    ensures r <==> value.Str? && exists i :: 0 <= i < |value.s| && value.s[i] == ' '
  {
    value.Str? && IndexOf(value.s, ' ') >= 0
  }

  /** `isNullOrEmpty(value)`: falsy, or a string of white space only. */
  function IsNullOrEmpty(value: JsValue): (r: bool)
    ensures r <==> !Truthy(value) || (value.Str? && forall i :: 0 <= i < |value.s| ==> IsWhitespace(value.s[i]))
  {
    if value.Str? then TrimBounds(value.s); (!Truthy(value) || |Trim(value.s)| == 0)
    else !Truthy(value)
  }

  /** The test `find` applies to each header key. */
  predicate InvalidHeader(header: (string, JsValue)) {
    !Truthy(header.1) || IsNullOrEmpty(Str(header.0)) || IsNullOrEmpty(header.1)
  }

  /** `Object.keys(headers).find(...)`: the first invalid key, in key order. */
  function FindInvalid(headers: Entries<JsValue>): (r: Option<string>)
    ensures r.None? <==> forall i :: 0 <= i < |headers| ==> !InvalidHeader(headers[i])
    ensures r.Some? ==> exists i :: 0 <= i < |headers| && InvalidHeader(headers[i]) && headers[i].0 == r.value
  {
    var k := FindIndex(headers, InvalidHeader);
    if k < |headers| then Some(headers[k].0) else None
  }

  /** What the validator reads of its options: whether a `body` key is present, and the headers. */
  datatype GetOptions = GetOptions(hasBody: bool, headers: Option<Entries<JsValue>>)

  /** Returning normally, or throwing an `Error` with a message. */
  datatype Outcome = Pass | Throw(message: string)

  const URI_MESSAGE: string := "Parameter 'uri' shouldn't be null or whitespace."
  const BODY_MESSAGE: string := "HTTP Get request shoudn't have body."
  const TARGET_MESSAGE: string := "Decorator '@GET' can only be applied to the 'HttpClient.get' method."

  /** `'<header>' is an invalid HTTP request header.` */
  function InvalidHeaderMessage(header: string): string {
    "'" + header + "' is an invalid HTTP request header."
  }

  /**
   * The replacement for `get`. A found key that is the empty string is
   * falsy, so it does not throw, and `find` has stopped there.
   */
  function ValidateGet(uri: JsValue, options: Option<GetOptions>): (r: Outcome)
    ensures r.Throw? ==>
      (r.message == URI_MESSAGE || r.message == BODY_MESSAGE
       || exists h :: r.message == InvalidHeaderMessage(h) && h != "")
  {
    if !Truthy(uri) || HasSpaces(uri) then Throw(URI_MESSAGE)
    else if options.Some? then
      if options.value.hasBody then Throw(BODY_MESSAGE)
      else if options.value.headers.Some? then
        match FindInvalid(options.value.headers.value)
        case Some(header) => if header != "" then Throw(InvalidHeaderMessage(header)) else Pass
        case None => Pass
      else Pass
    else Pass
  }

  /** A header message ends in `header.`, so it is never the URI message, which ends in `whitespace.`. */
  lemma HeaderMessageDiffers(h: string)
    ensures InvalidHeaderMessage(h) != URI_MESSAGE
  {
    var m := InvalidHeaderMessage(h);
    assert m[|m| - 2] == 'r';
    assert URI_MESSAGE[|URI_MESSAGE| - 2] == 'e';
  }

  /** The URI is refused exactly when it is falsy or holds a space; nothing else gives that message. */
  lemma UriRule(uri: JsValue, options: Option<GetOptions>)
    ensures ValidateGet(uri, options) == Throw(URI_MESSAGE) <==> !Truthy(uri) || HasSpaces(uri)
  {
    if Truthy(uri) && !HasSpaces(uri) {
      var r := ValidateGet(uri, options);
      if r.Throw? && r.message != BODY_MESSAGE {
        var h :| r.message == InvalidHeaderMessage(h) && h != "";
        HeaderMessageDiffers(h);
      }
    }
  }

  /** A present `body` key is refused, whatever its value, once the URI is fine. */
  lemma BodyKeyRefused(uri: JsValue, headers: Option<Entries<JsValue>>)
    requires Truthy(uri) && !HasSpaces(uri)
    ensures ValidateGet(uri, Some(GetOptions(true, headers))) == Throw(BODY_MESSAGE)
  {
  }

  /**
   * The header refused is the first one, in key order, whose value is
   * falsy or whose name or value is white space only.
   */
  lemma FirstBadHeaderNamed(uri: JsValue, headers: Entries<JsValue>, k: nat)
    requires Truthy(uri) && !HasSpaces(uri)
    requires k < |headers| && InvalidHeader(headers[k]) && headers[k].0 != ""
    requires forall j :: 0 <= j < k ==> !InvalidHeader(headers[j])
    ensures ValidateGet(uri, Some(GetOptions(false, Some(headers)))) == Throw(InvalidHeaderMessage(headers[k].0))
  {
    assert FindIndex(headers, InvalidHeader) == k;
  }

  /**
   * An empty header name is itself invalid, but `find` returns it and the
   * empty string is falsy: nothing is thrown, and headers after it are
   * never examined.
   */
  lemma EmptyHeaderNameMasksTheRest(uri: JsValue, value: JsValue, rest: Entries<JsValue>)
    requires Truthy(uri) && !HasSpaces(uri)
    ensures ValidateGet(uri, Some(GetOptions(false, Some([("", value)] + rest)))) == Pass
  {
    assert FindIndex([("", value)] + rest, InvalidHeader) == 0;
  }

  /**
   * The validator returns normally exactly when the URI is fine and the
   * options are absent, or carry no `body` key and no header the search
   * reports under a non-empty name.
   */
  lemma ValidRequestPasses(uri: JsValue, options: Option<GetOptions>)
    ensures ValidateGet(uri, options) == Pass <==>
      && Truthy(uri) && !HasSpaces(uri)
      && (options.Some? ==>
            && !options.value.hasBody
            && (options.value.headers.Some? ==>
                  FindInvalid(options.value.headers.value) in {None, Some("")}))
  {
  }

  /** What a method property holds: the original `get`, or the validator installed over it. */
  datatype MethodImpl = Original | Validator

  /** The decorator's target test: only `get` on a class named `HttpClient`. */
  function CheckTarget(constructorName: string, propertyKey: string): (r: Outcome)
    ensures r == Pass <==> constructorName == "HttpClient" && propertyKey == "get"
    ensures r != Pass ==> r == Throw(TARGET_MESSAGE)
  {
    if constructorName != "HttpClient" || propertyKey != "get" then Throw(TARGET_MESSAGE) else Pass
  }

  /** The property descriptor the decorator receives. */
  class PropertyDescriptor {
    var value: MethodImpl

    constructor (value: MethodImpl)
      ensures this.value == value
    {
      this.value := value;
    }
  }

  /** `GET(target, propertyKey, descriptor)`: checks the target, then installs the validator. */
  method GET(constructorName: string, propertyKey: string, descriptor: PropertyDescriptor) returns (r: Outcome)
    modifies descriptor
    ensures r == CheckTarget(constructorName, propertyKey)
    ensures r == Pass ==> descriptor.value == Validator
    ensures r != Pass ==> descriptor.value == old(descriptor.value)
  {
    if constructorName != "HttpClient" || propertyKey != "get" {
      return Throw(TARGET_MESSAGE);
    }
    descriptor.value := Validator;
    r := Pass;
  }

  /**
   * Decorating `HttpClient.get` and then calling it: the call only
   * validates. Decorating any other method throws and leaves it as it was
   * (what the original method then does is `None` here).
   */
  method DecorateAndCall(constructorName: string, propertyKey: string, uri: JsValue, options: Option<GetOptions>)
    returns (decorated: Outcome, installed: MethodImpl, called: Option<Outcome>)
    ensures decorated == Pass <==> constructorName == "HttpClient" && propertyKey == "get"
    ensures decorated == Pass ==> installed == Validator && called == Some(ValidateGet(uri, options))
    ensures decorated != Pass ==> installed == Original && called.None?
  {
    var descriptor := new PropertyDescriptor(Original);
    decorated := GET(constructorName, propertyKey, descriptor);
    installed := descriptor.value;
    if installed == Validator {
      called := Some(ValidateGet(uri, options));
    } else {
      called := None;
    }
  }
}

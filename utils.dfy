/**
 * The standalone `createAugmentedError` of src/utils/index.ts, a copy of
 * `HttpHelper.createAugmentedError`.
 */
module Utils {
  import opened JsValues
  import opened Xhr
  import opened AugmentedErrors
  import opened ResponseHeaders
  import HttpHelper

  /** `createAugmentedError(request)`: headers are collected only in the HEADERS_RECEIVED state. */
  method CreateAugmentedError(request: ResponseView) returns (e: ErrorObject)
    ensures e == ErrorOf(request)
  {
    var lines := HeaderLines(request.rawHeaders);
    var headerMap: map<string, string> := map[];
    if request.readyState == HEADERS_RECEIVED {
      headerMap := CollectHeaders(lines);
    }
    e := NewAugmentedError(ErrorInit(
      error := request.response,
      headers := Some(headerMap),
      status := Some(request.status),
      statusText := Some(request.statusText),
      url := Some(request.responseURL)));
  }

  /** The two copies build the same error from every request state. */
  method BothCopiesAgree(request: ResponseView) returns (fromHelper: ErrorObject, fromUtils: ErrorObject)
    ensures fromHelper == fromUtils
    ensures request.readyState != HEADERS_RECEIVED ==> fromUtils.headers == map[]
  {
    fromHelper := HttpHelper.CreateAugmentedError(request);
    fromUtils := CreateAugmentedError(request);
    ErrorHeadersOnlyWhenHeadersReceived(request);
  }
}

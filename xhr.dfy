/**
 * The host's `XMLHttpRequest`, as far as the client touches it. The request
 * side is an object whose configuration the client assigns and whose
 * methods it calls; every call is also kept, in order, in `calls`. The
 * response side is what a handler reads from the request when an event
 * fires; it is passed in as a snapshot, since the network is not modelled.
 */
module Xhr {
  import opened JsValues

  /** The `readyState` values the client compares against. */
  const HEADERS_RECEIVED: int := 2
  const DONE: int := 4

  /** What a handler reads from the request. */
  datatype ResponseView = ResponseView(
    readyState: int,
    status: int,
    statusText: string,
    response: JsValue,
    responseURL: string,
    rawHeaders: string)

  /** A call made on (or a property assigned to) the request object. */
  datatype Call =
    | Open(verb: string, url: string, async: bool, username: Option<string>, password: Option<string>)
    | SetHandler(event: string)
    | SetWithCredentials(flag: bool)
    | SetTimeout(ms: int)
    | SetRequestHeader(name: string, value: string)
    | SetResponseType(responseType: string)
    | AddEventListener(event: string)
    | RemoveEventListener(event: string)
    | Send(body: Option<JsValue>)
    | Abort

  /** The request headers a sequence of calls sets, in call order. */
  function HeaderPairsOf(calls: seq<Call>): seq<(string, string)>
    decreases |calls|
  {
    if calls == [] then []
    else
      var rest := HeaderPairsOf(calls[..|calls| - 1]);
      match calls[|calls| - 1]
      case SetRequestHeader(name, value) => rest + [(name, value)]
      case _ => rest
  }

  /** The headers set by consecutive call sequences are those of each, one after the other. */
  lemma {:induction false} HeaderPairsOfAppend(a: seq<Call>, b: seq<Call>)
    ensures HeaderPairsOf(a + b) == HeaderPairsOf(a) + HeaderPairsOf(b)
    decreases |b|
  {
    if b == [] {
      assert a + b == a;
    } else {
      HeaderPairsOfAppend(a, b[..|b| - 1]);
      assert (a + b)[..|a + b| - 1] == a + b[..|b| - 1];
    }
  }

  /** Calls that set no request header contribute no header. */
  lemma {:induction false} HeaderPairsOfNone(calls: seq<Call>)
    requires forall i :: 0 <= i < |calls| ==> !calls[i].SetRequestHeader?
    ensures HeaderPairsOf(calls) == []
    decreases |calls|
  {
    if calls != [] {
      HeaderPairsOfNone(calls[..|calls| - 1]);
    }
  }

  /** Calls that neither open nor send. */
  predicate Quiet(calls: seq<Call>) {
    forall i :: 0 <= i < |calls| ==> !calls[i].Open? && !calls[i].Send?
  }

  /** Two quiet call sequences in a row are quiet. */
  lemma QuietAppend(a: seq<Call>, b: seq<Call>)
    requires Quiet(a) && Quiet(b)
    ensures Quiet(a + b)
  {
    forall i | 0 <= i < |a + b| ensures !(a + b)[i].Open? && !(a + b)[i].Send? {
      if i < |a| {
        assert (a + b)[i] == a[i];
      } else {
        assert (a + b)[i] == b[i - |a|];
      }
    }
  }

  /** Regrouping the opening, configuring and closing calls around their middle. */
  lemma Regroup(first: Call, opening: seq<Call>, config: seq<Call>, closing: seq<Call>, last: Call)
    ensures ([first] + opening) + config + (closing + [last]) == [first] + (opening + config + closing) + [last]
  {
  }

  /** Between an `open` and a `send`, quiet calls: that `open` is the only one, that `send` too. */
  lemma Bracketed(first: Call, mid: seq<Call>, last: Call)
    requires first.Open? && last.Send? && Quiet(mid)
    ensures var c := [first] + mid + [last];
      && c[0] == first && c[|c| - 1] == last && c[1..|c| - 1] == mid
      && (forall i :: 0 < i < |c| ==> !c[i].Open?)
      && (forall i :: 0 <= i < |c| - 1 ==> !c[i].Send?)
  {
    var c := [first] + mid + [last];
    assert c[1..|c| - 1] == mid;
    forall i | 0 < i < |c| - 1 ensures !c[i].Open? && !c[i].Send? {
      assert c[i] == mid[i - 1];
    }
  }

  class Transport {
    /** Every call so far, oldest first. */
    var calls: seq<Call>
    var withCredentials: bool
    var timeout: int
    var responseType: string
    /** The `setRequestHeader` pairs, in call order. */
    var requestHeaders: seq<(string, string)>

    /** The request headers are exactly those the calls so far have set. */
    ghost predicate Valid()
      reads this
    {
      requestHeaders == HeaderPairsOf(calls)
    }

    /** `new XMLHttpRequest()`: nothing called yet, the host's defaults. */
    constructor ()
      ensures Valid()
      ensures calls == [] && requestHeaders == []
      ensures !withCredentials && timeout == 0 && responseType == ""
    {
      calls := [];
      withCredentials := false;
      timeout := 0;
      responseType := "";
      requestHeaders := [];
    }

    /** `open(verb, url, async, username, password)` */
    method Open(verb: string, url: string, async: bool, username: Option<string>, password: Option<string>)
      requires Valid()
      modifies this
      ensures Valid()
      ensures calls == old(calls) + [Call.Open(verb, url, async, username, password)]
      ensures withCredentials == old(withCredentials) && timeout == old(timeout)
      ensures responseType == old(responseType) && requestHeaders == old(requestHeaders)
    {
      assert (calls + [Call.Open(verb, url, async, username, password)])[..|calls|] == calls;
      calls := calls + [Call.Open(verb, url, async, username, password)];
    }

    /** `request.on<event> = handler` */
    method SetHandler(event: string)
      requires Valid()
      modifies this
      ensures Valid()
      ensures calls == old(calls) + [Call.SetHandler(event)]
      ensures withCredentials == old(withCredentials) && timeout == old(timeout)
      ensures responseType == old(responseType) && requestHeaders == old(requestHeaders)
    {
      assert (calls + [Call.SetHandler(event)])[..|calls|] == calls;
      calls := calls + [Call.SetHandler(event)];
    }

    /** `request.withCredentials = flag` */
    method SetWithCredentials(flag: bool)
      requires Valid()
      modifies this
      ensures Valid()
      ensures calls == old(calls) + [Call.SetWithCredentials(flag)]
      ensures withCredentials == flag && timeout == old(timeout)
      ensures responseType == old(responseType) && requestHeaders == old(requestHeaders)
    {
      assert (calls + [Call.SetWithCredentials(flag)])[..|calls|] == calls;
      calls := calls + [Call.SetWithCredentials(flag)];
      withCredentials := flag;
    }

    /** `request.timeout = ms` */
    method SetTimeout(ms: int)
      requires Valid()
      modifies this
      ensures Valid()
      ensures calls == old(calls) + [Call.SetTimeout(ms)]
      ensures withCredentials == old(withCredentials) && timeout == ms
      ensures responseType == old(responseType) && requestHeaders == old(requestHeaders)
    {
      assert (calls + [Call.SetTimeout(ms)])[..|calls|] == calls;
      calls := calls + [Call.SetTimeout(ms)];
      timeout := ms;
    }

    /** `request.setRequestHeader(name, value)` */
    method SetRequestHeader(name: string, value: string)
      requires Valid()
      modifies this
      ensures Valid()
      ensures calls == old(calls) + [Call.SetRequestHeader(name, value)]
      ensures withCredentials == old(withCredentials) && timeout == old(timeout)
      ensures responseType == old(responseType) && requestHeaders == old(requestHeaders) + [(name, value)]
    {
      assert (calls + [Call.SetRequestHeader(name, value)])[..|calls|] == calls;
      calls := calls + [Call.SetRequestHeader(name, value)];
      requestHeaders := requestHeaders + [(name, value)];
    }

    /** `request.responseType = responseType` */
    method SetResponseType(t: string)
      requires Valid()
      modifies this
      ensures Valid()
      ensures calls == old(calls) + [Call.SetResponseType(t)]
      ensures withCredentials == old(withCredentials) && timeout == old(timeout)
      ensures responseType == t && requestHeaders == old(requestHeaders)
    {
      assert (calls + [Call.SetResponseType(t)])[..|calls|] == calls;
      calls := calls + [Call.SetResponseType(t)];
      responseType := t;
    }

    /** `request.addEventListener(event, listener)` */
    method AddEventListener(event: string)
      requires Valid()
      modifies this
      ensures Valid()
      ensures calls == old(calls) + [Call.AddEventListener(event)]
      ensures withCredentials == old(withCredentials) && timeout == old(timeout)
      ensures responseType == old(responseType) && requestHeaders == old(requestHeaders)
    {
      assert (calls + [Call.AddEventListener(event)])[..|calls|] == calls;
      calls := calls + [Call.AddEventListener(event)];
    }

    /** `request.removeEventListener(event, listener)` */
    method RemoveEventListener(event: string)
      requires Valid()
      modifies this
      ensures Valid()
      ensures calls == old(calls) + [Call.RemoveEventListener(event)]
      ensures withCredentials == old(withCredentials) && timeout == old(timeout)
      ensures responseType == old(responseType) && requestHeaders == old(requestHeaders)
    {
      assert (calls + [Call.RemoveEventListener(event)])[..|calls|] == calls;
      calls := calls + [Call.RemoveEventListener(event)];
    }

    /** `request.send(body)`, or `request.send()` for `None`. */
    method Send(body: Option<JsValue>)
      requires Valid()
      modifies this
      ensures Valid()
      ensures calls == old(calls) + [Call.Send(body)]
      ensures withCredentials == old(withCredentials) && timeout == old(timeout)
      ensures responseType == old(responseType) && requestHeaders == old(requestHeaders)
    {
      assert (calls + [Call.Send(body)])[..|calls|] == calls;
      calls := calls + [Call.Send(body)];
    }

    /** `request.abort()` */
    method Abort()
      requires Valid()
      modifies this
      ensures Valid()
      ensures calls == old(calls) + [Call.Abort]
      ensures withCredentials == old(withCredentials) && timeout == old(timeout)
      ensures responseType == old(responseType) && requestHeaders == old(requestHeaders)
    {
      assert (calls + [Call.Abort])[..|calls|] == calls;
      calls := calls + [Call.Abort];
    }
  }
}

/**
 * Turning a failed request into an `AugmentedError`, as both
 * `HttpHelper.createAugmentedError` (src/http/HttpHelper.ts) and the
 * standalone `createAugmentedError` (src/utils/index.ts) do: the raw header
 * block is trimmed, cut into lines at every run of CR/LF, each line is cut
 * at its first `": "`, and the name/value pairs are collected into a map,
 * but only while the request is in the HEADERS_RECEIVED state.
 */
module ResponseHeaders {
  import opened JsValues
  import opened JsStrings
  import opened Xhr
  import opened HttpResponses
  import opened AugmentedErrors

  predicate IsLineBreak(c: char) {
    c == '\r' || c == '\n'
  }

  /** A line holding neither CR nor LF. */
  predicate NoBreaks(line: string) {
    forall j :: 0 <= j < |line| ==> !IsLineBreak(line[j])
  }

  /** The position of the first CR or LF, or the length when there is none. */
  function FirstBreak(s: string): (k: nat)
    ensures k <= |s|
    ensures k < |s| ==> IsLineBreak(s[k])
    ensures forall j :: 0 <= j < k ==> !IsLineBreak(s[j])
  {
    if s == [] || IsLineBreak(s[0]) then 0 else FirstBreak(s[1..]) + 1
  }

  /** Drops a leading run of CR/LF. */
  function DropBreaks(s: string): (r: string)
    ensures |r| <= |s| && r == s[|s| - |r|..]
    ensures r != [] ==> !IsLineBreak(r[0])
    ensures s != [] && IsLineBreak(s[0]) ==> |r| < |s|
    ensures forall i :: 0 <= i < |s| - |r| ==> IsLineBreak(s[i])
  {
    if s != [] && IsLineBreak(s[0]) then DropBreaks(s[1..]) else s
  }

  /** `s.split(/[\r\n]+/)`: the pieces between maximal runs of CR/LF. */
  function SplitLines(s: string): (lines: seq<string>)
    ensures |lines| >= 1
    decreases |s|
  {
    var k := FirstBreak(s);
    if k == |s| then [s] else [s[..k]] + SplitLines(DropBreaks(s[k..]))
  }

  /** A run of line breaks only. */
  predicate AllBreaks(run: string) {
    forall j :: 0 <= j < |run| ==> IsLineBreak(run[j])
  }

  /** The runs of CR/LF that `split(/[\r\n]+/)` cuts at, in order. */
  function BreakRuns(s: string): seq<string>
    decreases |s|
  {
    var k := FirstBreak(s);
    if k == |s| then []
    else
      var t := s[k..];
      var rest := DropBreaks(t);
      [t[..|t| - |rest|]] + BreakRuns(rest)
  }

  /** The lines with the runs between them put back: `lines[0] + runs[0] + lines[1] + …`. */
  function Rebuild(lines: seq<string>, runs: seq<string>): string
    decreases |lines|
  {
    if lines == [] then ""
    else if runs == [] then lines[0] + Rebuild(lines[1..], [])
    else lines[0] + runs[0] + Rebuild(lines[1..], runs[1..])
  }

  /** Putting back one more line and the run after it. */
  lemma RebuildCons(head: string, run: string, lines: seq<string>, runs: seq<string>)
    ensures Rebuild([head] + lines, [run] + runs) == head + run + Rebuild(lines, runs)
  {
    assert ([head] + lines)[1..] == lines;
    assert ([run] + runs)[1..] == runs;
  }

  /** A text is its prefix followed by the rest. */
  lemma SliceSplit(t: string, n: nat)
    requires n <= |t|
    ensures t == t[..n] + t[n..]
  {
  }

  /** Text that starts with a break: a non-empty run of breaks, then what `DropBreaks` keeps. */
  lemma DropBreaksSplit(t: string)
    requires t != [] && IsLineBreak(t[0])
    ensures var n := |t| - |DropBreaks(t)|;
      && 0 < n && t == t[..n] + DropBreaks(t) && AllBreaks(t[..n])
  {
    var n := |t| - |DropBreaks(t)|;
    SliceSplit(t, n);
    forall j | 0 <= j < n ensures IsLineBreak(t[..n][j]) {
      assert t[..n][j] == t[j];
    }
  }

  /** One line more than runs; every run is a non-empty block of CR/LF. */
  lemma {:induction false} BreakRunsShape(s: string)
    ensures |SplitLines(s)| == |BreakRuns(s)| + 1
    ensures forall i :: 0 <= i < |BreakRuns(s)| ==> BreakRuns(s)[i] != "" && AllBreaks(BreakRuns(s)[i])
    decreases |s|
  {
    var k := FirstBreak(s);
    if k < |s| {
      var t := s[k..];
      var rest := DropBreaks(t);
      DropBreaksSplit(t);
      BreakRunsShape(rest);
      var runs := BreakRuns(s);
      assert runs == [t[..|t| - |rest|]] + BreakRuns(rest);
      forall i | 0 < i < |runs| ensures runs[i] != "" && AllBreaks(runs[i]) {
        assert runs[i] == BreakRuns(rest)[i - 1];
      }
    }
  }

  /** At a break, one line and one run are cut off and the split goes on after the run. */
  lemma SplitStep(s: string)
    requires FirstBreak(s) < |s|
    ensures var k := FirstBreak(s); var t := s[k..]; var rest := DropBreaks(t);
      && SplitLines(s) == [s[..k]] + SplitLines(rest)
      && BreakRuns(s) == [t[..|t| - |rest|]] + BreakRuns(rest)
  {
  }

  /** Nothing is lost: the lines, with the runs of CR/LF put back between them, are the text. */
  lemma {:induction false} SplitLinesRebuild(s: string)
    ensures Rebuild(SplitLines(s), BreakRuns(s)) == s
    decreases |s|
  {
    var k := FirstBreak(s);
    if k < |s| {
      var t := s[k..];
      var rest := DropBreaks(t);
      var run := t[..|t| - |rest|];
      DropBreaksSplit(t);
      SliceSplit(s, k);
      SplitStep(s);
      SplitLinesRebuild(rest);
      RebuildCons(s[..k], run, SplitLines(rest), BreakRuns(rest));
      ConcatAssoc(s[..k], run, rest);
    } else {
      assert Rebuild([s], []) == s + Rebuild([], []);
    }
  }

  /** Up to the first break, the text holds no break. */
  lemma FirstLineNoBreaks(s: string)
    ensures NoBreaks(s[..FirstBreak(s)])
    ensures FirstBreak(s) == |s| ==> NoBreaks(s)
  {
    assert s[..|s|] == s;
  }

  /** A line without breaks in front of lines without breaks. */
  lemma ConsNoBreaks(head: string, tail: seq<string>)
    requires NoBreaks(head) && forall i :: 0 <= i < |tail| ==> NoBreaks(tail[i])
    ensures forall i :: 0 <= i < |[head] + tail| ==> NoBreaks(([head] + tail)[i])
  {
  }

  /** No line contains a CR or LF. */
  lemma {:induction false} SplitLinesNoBreaks(s: string)
    ensures forall i :: 0 <= i < |SplitLines(s)| ==> NoBreaks(SplitLines(s)[i])
    decreases |s|
  {
    var k := FirstBreak(s);
    FirstLineNoBreaks(s);
    if k < |s| {
      var rest := DropBreaks(s[k..]);
      SplitLinesNoBreaks(rest);
      ConsNoBreaks(s[..k], SplitLines(rest));
    }
  }

  /** Dropping leading breaks from text that ends in a non-break keeps that last character. */
  lemma DropBreaksKeepsEnd(t: string)
    requires t != [] && !IsLineBreak(t[|t| - 1])
    ensures DropBreaks(t) != [] && DropBreaks(t)[|DropBreaks(t)| - 1] == t[|t| - 1]
  {
  }

  /** A non-empty line in front of non-empty lines. */
  lemma ConsNonEmpty(head: string, tail: seq<string>)
    requires head != "" && forall i :: 0 <= i < |tail| ==> tail[i] != ""
    ensures forall i :: 0 <= i < |[head] + tail| ==> ([head] + tail)[i] != ""
  {
  }

  /** Runs of line breaks inside the block leave no empty line behind. */
  lemma {:induction false} SplitLinesNonEmpty(s: string)
    requires s != [] && !IsLineBreak(s[0]) && !IsLineBreak(s[|s| - 1])
    ensures forall i :: 0 <= i < |SplitLines(s)| ==> SplitLines(s)[i] != ""
    decreases |s|
  {
    var k := FirstBreak(s);
    if k < |s| {
      var rest := DropBreaks(s[k..]);
      DropBreaksKeepsEnd(s[k..]);
      SplitLinesNonEmpty(rest);
      ConsNonEmpty(s[..k], SplitLines(rest));
    }
  }

  /** The separator between a header's name and its value. */
  const HEADER_SEPARATOR: string := ": "

  /** `line.split(': ').shift()` */
  function HeaderName(line: string): string {
    SplitOn(line, HEADER_SEPARATOR)[0]
  }

  /** `parts.join(': ')` over what follows the name. */
  function HeaderValue(line: string): string {
    Join(SplitOn(line, HEADER_SEPARATOR)[1..], HEADER_SEPARATOR)
  }

  /**
   * A line is cut at its first `": "`; later ones stay in the value. A line
   * without one is all name, with an empty value.
   */
  lemma HeaderLineParts(line: string)
    ensures match FindFirst(line, HEADER_SEPARATOR)
      case None => HeaderName(line) == line && HeaderValue(line) == ""
      case Some(i) => HeaderName(line) == line[..i] && HeaderValue(line) == line[i + 2..]
  {
    SplitAtFirst(line, HEADER_SEPARATOR);
  }

  /** The map the `forEach` over `lines` builds: lines with an empty name are skipped. */
  function HeaderMapOf(lines: seq<string>): Headers
    decreases |lines|
  {
    if lines == [] then map[]
    else
      var m := HeaderMapOf(lines[..|lines| - 1]);
      var line := lines[|lines| - 1];
      if HeaderName(line) != "" then m[HeaderName(line) := HeaderValue(line)] else m
  }

  /** A name is in the map exactly when some line carries it and it is not empty. */
  lemma {:induction false} HeaderMapDomain(lines: seq<string>, name: string)
    ensures name in HeaderMapOf(lines) <==>
      name != "" && exists i :: 0 <= i < |lines| && HeaderName(lines[i]) == name
    decreases |lines|
  {
    if lines != [] {
      var init := lines[..|lines| - 1];
      HeaderMapDomain(init, name);
      if name != "" && (exists i :: 0 <= i < |lines| && HeaderName(lines[i]) == name) {
        var i :| 0 <= i < |lines| && HeaderName(lines[i]) == name;
        if i < |lines| - 1 {
          assert init[i] == lines[i];
        }
      }
      if exists i :: 0 <= i < |init| && HeaderName(init[i]) == name {
        var i :| 0 <= i < |init| && HeaderName(init[i]) == name;
        assert lines[i] == init[i];
      }
    }
  }

  /** A repeated name keeps the value of its last line. */
  lemma {:induction false} HeaderMapLastWins(lines: seq<string>, i: nat)
    requires i < |lines| && HeaderName(lines[i]) != ""
    requires forall j :: i < j < |lines| ==> HeaderName(lines[j]) != HeaderName(lines[i])
    ensures HeaderName(lines[i]) in HeaderMapOf(lines)
    ensures HeaderMapOf(lines)[HeaderName(lines[i])] == HeaderValue(lines[i])
    decreases |lines|
  {
    if i < |lines| - 1 {
      var init := lines[..|lines| - 1];
      assert init[i] == lines[i];
      HeaderMapLastWins(init, i);
    }
  }

  /** `rawHeaders.trim().split(/[\r\n]+/)` */
  function HeaderLines(rawHeaders: string): seq<string> {
    SplitLines(Trim(rawHeaders))
  }

  /** Trimmed text that is not empty neither starts nor ends with a line break. */
  lemma TrimmedEndsNoBreak(rawHeaders: string)
    requires Trim(rawHeaders) != ""
    ensures var t := Trim(rawHeaders); !IsLineBreak(t[0]) && !IsLineBreak(t[|t| - 1])
  {
    TrimBounds(rawHeaders);
  }

  /** The single empty line of a blank block names no header. */
  lemma BlankHeaderMap()
    ensures HeaderMapOf(SplitLines("")) == map[]
  {
    assert SplitLines("") == [""];
    assert HeaderName("") == "";
    assert HeaderMapOf([""]) == HeaderMapOf([""][..0]);
  }

  /**
   * After trimming, every line is free of CR/LF and none is blank, except
   * the single empty line of an all-white-space block, which yields no entry.
   */
  lemma HeaderLinesClean(rawHeaders: string)
    ensures var lines := HeaderLines(rawHeaders);
      && (forall i :: 0 <= i < |lines| ==> NoBreaks(lines[i]))
      && (Trim(rawHeaders) != "" ==> forall i :: 0 <= i < |lines| ==> lines[i] != "")
      && (Trim(rawHeaders) == "" ==> HeaderMapOf(lines) == map[])
  {
    var t := Trim(rawHeaders);
    SplitLinesNoBreaks(t);
    if t != "" {
      TrimmedEndsNoBreak(rawHeaders);
      SplitLinesNonEmpty(t);
    } else {
      BlankHeaderMap();
    }
  }

  /** The header map of a request: filled only in the HEADERS_RECEIVED state. */
  function ParseHeaders(request: ResponseView): Headers {
    if request.readyState == HEADERS_RECEIVED then HeaderMapOf(HeaderLines(request.rawHeaders)) else map[]
  }

  /** The error `createAugmentedError(request)` returns. */
  function ErrorOf(request: ResponseView): ErrorObject {
    NewAugmentedError(ErrorInit(
      error := request.response,
      headers := Some(ParseHeaders(request)),
      status := Some(request.status),
      statusText := Some(request.statusText),
      url := Some(request.responseURL)))
  }

  /**
   * In any state but HEADERS_RECEIVED the error has no headers, so an error
   * built when the request is DONE, as the load, error and timeout handlers
   * do, always carries an empty header map.
   */
  lemma ErrorHeadersOnlyWhenHeadersReceived(request: ResponseView)
    ensures request.readyState != HEADERS_RECEIVED ==> ErrorOf(request).headers == map[]
    ensures request.readyState == HEADERS_RECEIVED ==> ErrorOf(request).headers == HeaderMapOf(HeaderLines(request.rawHeaders))
  {
  }

  /**
   * What a caller sees of a request error: the defaulted status and text,
   * the response URL (null when empty), the payload or null, and the message
   * with the status part only for a non-2xx defaulted status.
   */
  lemma ErrorOfFields(request: ResponseView)
    ensures var e := ErrorOf(request);
      && e.name == "AugmentedError" && !e.ok
      && e.status == (if request.status == 0 then OK_STATUS else request.status)
      && e.statusText == (if request.statusText == "" then "OK" else request.statusText)
      && e.url == (if request.responseURL == "" then None else Some(request.responseURL))
      && e.error == (if Truthy(request.response) then request.response else Null)
      && (IsSuccess(e.status) ==> e.message == "Request \"" + request.responseURL + "\" failed.")
      && (!IsSuccess(e.status) ==> e.message == "Request \"" + request.responseURL + "\" failed."
                                    + (" " + IntToString(request.status) + " " + request.statusText))
  {
    AugmentedMessage(ErrorInit(request.response, Some(ParseHeaders(request)), Some(request.status),
                               Some(request.statusText), Some(request.responseURL)));
  }

  /**
   * The `forEach` of `createAugmentedError`: each line with a non-empty
   * name assigns `headerMap[name] = value`.
   */
  method CollectHeaders(lines: seq<string>) returns (headerMap: Headers)
    ensures headerMap == HeaderMapOf(lines)
  {
    headerMap := map[];
    for i := 0 to |lines|
      invariant headerMap == HeaderMapOf(lines[..i])
    {
      assert lines[..i + 1][..i] == lines[..i];
      var parts := SplitOn(lines[i], HEADER_SEPARATOR);
      var header := parts[0];
      if header != "" {
        var value := Join(parts[1..], HEADER_SEPARATOR);
        headerMap := headerMap[header := value];
      }
    }
    assert lines[..|lines|] == lines;
  }
}

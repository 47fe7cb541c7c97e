/**
 * The String and Array operations of the host that the client calls:
 * `trim`, `indexOf`, `split` with a string separator, `join`, and the
 * decimal rendering a template string gives an integer.
 */
module JsStrings {
  import opened JsValues

  /**
   * The WhiteSpace and LineTerminator code points that `String.prototype.trim`
   * removes (ECMAScript 2023, sections 12.2 and 12.3: TAB, VT, FF, SP, NBSP,
   * ZWNBSP, the Zs category, LF, CR, LS and PS).
   */
  predicate IsWhitespace(c: char) {
    || c == '\t' || c == '\n' || c == '\U{000B}' || c == '\U{000C}' || c == '\r'
    || c == ' ' || c == '\U{00A0}' || c == '\U{1680}'
    || ('\U{2000}' <= c <= '\U{200A}')
    || c == '\U{2028}' || c == '\U{2029}' || c == '\U{202F}' || c == '\U{205F}'
    || c == '\U{3000}' || c == '\U{FEFF}'
  }

  /** Drops leading white space. */
  function TrimStart(s: string): (r: string)
    ensures |r| <= |s| && r == s[|s| - |r|..]
    ensures forall i :: 0 <= i < |s| - |r| ==> IsWhitespace(s[i])
    ensures r != [] ==> !IsWhitespace(r[0])
  {
    if s != [] && IsWhitespace(s[0]) then TrimStart(s[1..]) else s
  }

  /** Drops trailing white space. */
  function TrimEnd(s: string): (r: string)
    ensures |r| <= |s| && r == s[..|r|]
    ensures forall i :: |r| <= i < |s| ==> IsWhitespace(s[i])
    ensures r != [] ==> !IsWhitespace(r[|r| - 1])
  {
    if s != [] && IsWhitespace(s[|s| - 1]) then TrimEnd(s[..|s| - 1]) else s
  }

  /** `s.trim()` */
  function Trim(s: string): string {
    TrimEnd(TrimStart(s))
  }

  /** What `trim` keeps: a slice of the input with no white space at either end. */
  lemma TrimBounds(s: string)
    ensures var t := Trim(s);
      && |t| <= |s|
      && (t != [] ==> !IsWhitespace(t[0]) && !IsWhitespace(t[|t| - 1]))
      && (t == [] <==> forall i :: 0 <= i < |s| ==> IsWhitespace(s[i]))
  {
    var u := TrimStart(s);
    var t := TrimEnd(u);
    if t != [] {
      assert t[0] == u[0];
    }
  }

  /** `s.indexOf(c)`: the first position of `c`, or -1. */
  function IndexOf(s: string, c: char): (r: int)
    ensures -1 <= r < |s|
    ensures r >= 0 ==> s[r] == c && forall j :: 0 <= j < r ==> s[j] != c
    ensures r == -1 ==> forall j :: 0 <= j < |s| ==> s[j] != c
  {
    if s == [] then -1
    else if s[0] == c then 0
    else
      var k := IndexOf(s[1..], c);
      if k == -1 then -1 else k + 1
  }

  /** True when `sep` occurs in `s` at position `i`. */
  predicate OccursAt(s: string, sep: string, i: nat) {
    i + |sep| <= |s| && s[i..i + |sep|] == sep
  }

  /** Concatenation regroups freely. */
  lemma ConcatAssoc(a: string, b: string, c: string)
    ensures (a + b) + c == a + (b + c)
  {
  }

  /** The first position at which `sep` occurs in `s`, if any (the search `split` performs). */
  function FindFirst(s: string, sep: string): (r: Option<nat>)
    requires |sep| > 0
    ensures r.Some? ==> r.value + |sep| <= |s|
    decreases |s|
  {
    if |s| < |sep| then None
    else if s[..|sep|] == sep then Some(0)
    else
      match FindFirst(s[1..], sep)
      case None => None
      case Some(k) => Some(k + 1)
  }

  /** Moving the search one character on shifts every occurrence by one. */
  lemma OccursAtShift(s: string, sep: string, j: nat)
    requires 1 <= j && |s| >= 1
    ensures OccursAt(s, sep, j) <==> OccursAt(s[1..], sep, j - 1)
  {
    if j + |sep| <= |s| {
      var t := s[1..];
      forall i | j <= i < j + |sep| ensures s[i] == t[i - 1] {
      }
      assert s[j..j + |sep|] == t[j - 1..j - 1 + |sep|];
    }
  }

  /** `FindFirst` finds the leftmost occurrence, and reports none only when there is none. */
  lemma {:induction false} FindFirstSpec(s: string, sep: string)
    requires |sep| > 0
    ensures var r := FindFirst(s, sep);
      && (r.Some? ==> OccursAt(s, sep, r.value) && forall j :: 0 <= j < r.value ==> !OccursAt(s, sep, j))
      && (r.None? ==> forall j :: 0 <= j <= |s| ==> !OccursAt(s, sep, j))
    decreases |s|
  {
    if |s| < |sep| {
    } else if s[..|sep|] == sep {
    } else {
      FindFirstSpec(s[1..], sep);
      forall j | 1 <= j <= |s| ensures OccursAt(s, sep, j) <==> OccursAt(s[1..], sep, j - 1) {
        OccursAtShift(s, sep, j);
      }
    }
  }

  /** `s.split(sep)` for a non-empty separator string. */
  function SplitOn(s: string, sep: string): (parts: seq<string>)
    requires |sep| > 0
    ensures |parts| >= 1
    decreases |s|
  {
    match FindFirst(s, sep)
    case None => [s]
    case Some(i) => [s[..i]] + SplitOn(s[i + |sep|..], sep)
  }

  /** `parts.join(sep)` */
  function Join(parts: seq<string>, sep: string): string
    decreases |parts|
  {
    if |parts| == 0 then ""
    else if |parts| == 1 then parts[0]
    else parts[0] + sep + Join(parts[1..], sep)
  }

  /** Joining a head part in front of at least one more part puts one separator between. */
  lemma JoinCons(head: string, tail: seq<string>, sep: string)
    requires |tail| >= 1
    ensures Join([head] + tail, sep) == head + sep + Join(tail, sep)
  {
    assert ([head] + tail)[1..] == tail;
  }

  /** One step of `split`: the text before the first separator, then the split of the rest. */
  lemma SplitOnStep(s: string, sep: string, i: nat)
    requires |sep| > 0 && FindFirst(s, sep) == Some(i)
    ensures SplitOn(s, sep) == [s[..i]] + SplitOn(s[i + |sep|..], sep)
    ensures s == s[..i] + sep + s[i + |sep|..]
  {
    FindFirstSpec(s, sep);
    assert OccursAt(s, sep, i);
    var before, rest := s[..i], s[i + |sep|..];
    assert s[i..i + |sep|] == sep;
    assert s == before + s[i..i + |sep|] + rest;
  }

  /** Joining what `split` produced, with the same separator, gives back the string. */
  lemma {:induction false} JoinSplit(s: string, sep: string)
    requires |sep| > 0
    ensures Join(SplitOn(s, sep), sep) == s
    decreases |s|
  {
    match FindFirst(s, sep)
    case None =>
    case Some(i) =>
      var rest := s[i + |sep|..];
      SplitOnStep(s, sep, i);
      JoinSplit(rest, sep);
      JoinCons(s[..i], SplitOn(rest, sep), sep);
  }

  /** A one-character separator that no part contains: `split` undoes `join`. */
  lemma {:induction false} SplitJoin(parts: seq<string>, c: char)
    requires |parts| >= 1
    requires forall k, j :: 0 <= k < |parts| && 0 <= j < |parts[k]| ==> parts[k][j] != c
    ensures SplitOn(Join(parts, [c]), [c]) == parts
    decreases |parts|
  {
    var p := parts[0];
    if |parts| == 1 {
      NoOccurrence(p, c);
    } else {
      var tail := Join(parts[1..], [c]);
      var s := p + [c] + tail;
      JoinCons(p, parts[1..], [c]);
      assert [p] + parts[1..] == parts;
      assert OccursAt(s, [c], |p|) by { assert s[|p|..|p| + 1] == [c]; }
      forall j | 0 <= j < |p| ensures !OccursAt(s, [c], j) {
        OccursAtChar(s, c, j);
        assert s[j] == p[j];
      }
      FindFirstSpec(s, [c]);
      assert FindFirst(s, [c]) == Some(|p|);
      SplitOnStep(s, [c], |p|);
      assert s[..|p|] == p;
      assert s[|p| + 1..] == tail;
      SplitJoin(parts[1..], c);
    }
  }

  /** A one-character separator occurs exactly where that character stands. */
  lemma OccursAtChar(s: string, c: char, i: nat)
    ensures OccursAt(s, [c], i) <==> i < |s| && s[i] == c
  {
    if i < |s| {
      assert s[i..i + 1] == [s[i]];
    }
  }

  /** A string without `c` is not cut by `split(c)`. */
  lemma NoOccurrence(p: string, c: char)
    requires forall j :: 0 <= j < |p| ==> p[j] != c
    ensures SplitOn(p, [c]) == [p]
  {
    FindFirstSpec(p, [c]);
    forall j | 0 <= j <= |p| ensures !OccursAt(p, [c], j) {
      OccursAtChar(p, c, j);
    }
  }

  /**
   * `parts = s.split(sep); head = parts.shift(); rest = parts.join(sep)` cuts
   * `s` at the first occurrence of `sep`; without one, the rest is empty.
   */
  lemma SplitAtFirst(s: string, sep: string)
    requires |sep| > 0
    ensures var parts := SplitOn(s, sep);
      match FindFirst(s, sep)
      case None => parts == [s] && Join(parts[1..], sep) == ""
      case Some(i) => parts[0] == s[..i] && Join(parts[1..], sep) == s[i + |sep|..]
  {
    match FindFirst(s, sep)
    case None =>
    case Some(i) =>
      var rest := s[i + |sep|..];
      SplitOnStep(s, sep, i);
      JoinSplit(rest, sep);
      assert SplitOn(s, sep)[1..] == SplitOn(rest, sep);
  }

  /** The digit character for 0..9. */
  function DigitChar(d: int): (c: char)
    requires 0 <= d < 10
    ensures '0' <= c <= '9'
  {
    ('0' as int + d) as char
  }

  /** The decimal numeral of a natural number, as `String(n)` gives it. */
  function NatToString(n: nat): (r: string)
    ensures |r| >= 1
    ensures forall i :: 0 <= i < |r| ==> '0' <= r[i] <= '9'
    decreases n
  {
    if n < 10 then [DigitChar(n)] else NatToString(n / 10) + [DigitChar(n % 10)]
  }

  /** `String(n)` for an integer: a minus sign for negatives, then the digits. */
  function IntToString(n: int): (r: string)
    ensures |r| >= 1
    ensures forall i :: 0 <= i < |r| ==> ('0' <= r[i] <= '9') || r[i] == '-'
  {
    if n < 0 then "-" + NatToString(-n) else NatToString(n)
  }

  /** Reading the numeral back: the value of a string of decimal digits. */
  function DigitsValue(s: string): nat
    requires forall i :: 0 <= i < |s| ==> '0' <= s[i] <= '9'
  {
    if s == [] then 0 else DigitsValue(s[..|s| - 1]) * 10 + (s[|s| - 1] as int - '0' as int)
  }

  /** The numeral of a natural number denotes that number. */
  lemma {:induction false} NatToStringValue(n: nat)
    ensures DigitsValue(NatToString(n)) == n
    decreases n
  {
    if n >= 10 {
      NatToStringValue(n / 10);
      var r := NatToString(n);
      assert r[..|r| - 1] == NatToString(n / 10);
    }
  }
}

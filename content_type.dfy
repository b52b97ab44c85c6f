/** The part of the `content-type` library that the fragment model relies on:
    `parse(value).type`, the media type of a Content-Type value with its
    parameters removed (section 3.1.1.1 of RFC 7231:
    `media-type = type "/" subtype *( OWS ";" OWS parameter )`). */
module ContentType {
  import opened Wrappers

  /** A character of the `token` production (section 3.2.6 of RFC 7230). */
  predicate IsTokenChar(c: char) {
    || ('a' <= c <= 'z') || ('A' <= c <= 'Z') || ('0' <= c <= '9')
    || c in "!#$%&'*+.^_`|~-"
  }

  predicate IsToken(s: string) {
    |s| > 0 && forall i :: 0 <= i < |s| ==> IsTokenChar(s[i])
  }

  /** The white space that JavaScript's `trim` removes (its ASCII part). */
  predicate IsSpace(c: char) {
    c == ' ' || c == '\t' || c == '\n' || c == '\r' || c == '\U{B}' || c == '\U{C}'
  }

  predicate AllSpace(s: string) {
    forall i :: 0 <= i < |s| ==> IsSpace(s[i])
  }

  /** `s` without its leading white space. */
  function TrimStart(s: string): string {
    if |s| > 0 && IsSpace(s[0]) then TrimStart(s[1..]) else s
  }

  /** TrimStart removes exactly the leading white space. */
  lemma {:induction false} TrimStartSpec(s: string)
    ensures var r := TrimStart(s);
      && |r| <= |s| && r == s[|s| - |r|..]
      && AllSpace(s[..|s| - |r|])
      && (r == [] || !IsSpace(r[0]))
  {
    if |s| > 0 && IsSpace(s[0]) {
      TrimStartSpec(s[1..]);
      var r := TrimStart(s[1..]);
      assert s[..|s| - |r|] == [s[0]] + s[1..][..|s| - 1 - |r|];
    }
  }

  /** `s` without its trailing white space. */
  function TrimEnd(s: string): string {
    if |s| > 0 && IsSpace(s[|s| - 1]) then TrimEnd(s[..|s| - 1]) else s
  }

  /** TrimEnd removes exactly the trailing white space. */
  lemma {:induction false} TrimEndSpec(s: string)
    ensures var r := TrimEnd(s);
      && |r| <= |s| && r == s[..|r|]
      && AllSpace(s[|r|..])
      && (r == [] || !IsSpace(r[|r| - 1]))
  {
    if |s| > 0 && IsSpace(s[|s| - 1]) {
      var p := s[..|s| - 1];
      TrimEndSpec(p);
      var r := TrimEnd(p);
      assert s[|r|..] == p[|r|..] + [s[|s| - 1]];
    }
  }

  function Trim(s: string): string {
    TrimEnd(TrimStart(s))
  }

  /** The first position of `c` in `s` (JavaScript's `indexOf`), None for -1. */
  function IndexOf(s: string, c: char): (r: Option<nat>)
    ensures r.Some? ==> r.value < |s|
  {
    if |s| == 0 then None
    else if s[0] == c then Some(0)
    else match IndexOf(s[1..], c)
      case None => None
      case Some(i) => Some(i + 1)
  }

  /** IndexOf finds the first occurrence, and None means there is none. */
  lemma {:induction false} IndexOfSpec(s: string, c: char)
    ensures IndexOf(s, c).None? <==> c !in s
    ensures IndexOf(s, c).Some? ==> s[IndexOf(s, c).value] == c && c !in s[..IndexOf(s, c).value]
  {
    if |s| > 0 && s[0] != c {
      IndexOfSpec(s[1..], c);
      assert s == [s[0]] + s[1..];
      if IndexOf(s, c).Some? {
        var i := IndexOf(s[1..], c).value;
        assert s[..i + 1] == [s[0]] + s[1..][..i];
      }
    }
  }

  /** `type "/" subtype`, both tokens: the library's type regular expression. */
  predicate IsMediaType(t: string) {
    match IndexOf(t, '/')
    case None => false
    case Some(i) => IsToken(t[..i]) && IsToken(t[i + 1..])
  }

  function LowerChar(c: char): char {
    if 'A' <= c <= 'Z' then (c as int + 32) as char else c
  }

  /** ASCII lower-casing; a media type holds nothing else to lower. */
  function Lower(s: string): (r: string)
    ensures |r| == |s|
  {
    seq(|s|, i requires 0 <= i < |s| => LowerChar(s[i]))
  }

  predicate IsLower(s: string) {
    forall i :: 0 <= i < |s| ==> !('A' <= s[i] <= 'Z')
  }

  /** The text before the first ';', or all of `value` when it has none. */
  function Head(value: string): string {
    match IndexOf(value, ';') case None => value case Some(i) => value[..i]
  }

  /** `contentType.parse(value).type`: the text before the first ';',
      trimmed, checked to be `type/subtype` and lower-cased. None stands for
      the TypeError the library throws on anything else. */
  function Parse(value: string): Option<string> {
    var t := Trim(Head(value));
    if IsMediaType(t) then Some(Lower(t)) else None
  }

  /** A parsed base type is a lower-case `type/subtype` with no parameters. */
  lemma {:induction false} ParseSpec(value: string)
    requires Parse(value).Some?
    ensures IsMediaType(Parse(value).value) && IsLower(Parse(value).value)
    ensures ';' !in Parse(value).value
  {
    LowerKeepsMediaType(Trim(Head(value)));
  }

  lemma MediaTypeChars(t: string)
    requires IsMediaType(t)
    ensures forall j :: 0 <= j < |t| ==> IsTokenChar(t[j]) || t[j] == '/'
    ensures |t| >= 3 && IsTokenChar(t[0]) && IsTokenChar(t[|t| - 1])
    ensures ';' !in t
  {
    var i := IndexOf(t, '/').value;
    IndexOfSpec(t, '/');
    assert t == t[..i] + [t[i]] + t[i + 1..];
    forall j | 0 <= j < |t| ensures IsTokenChar(t[j]) || t[j] == '/' {
      if j < i { assert t[j] == t[..i][j]; }
      else if j > i { assert t[j] == t[i + 1..][j - i - 1]; }
    }
  }

  lemma LowerKeepsMediaType(t: string)
    requires IsMediaType(t)
    ensures IsMediaType(Lower(t)) && IsLower(Lower(t)) && ';' !in Lower(t)
  {
    MediaTypeChars(t);
    LowerIsLower(t);
    LowerKeepsChar(t, ';');
    var i := IndexOf(t, '/').value;
    LowerIndexOfSlash(t, Lower(t));
    LowerSlices(t, i);
    LowerToken(t[..i]);
    LowerToken(t[i + 1..]);
  }

  lemma LowerIsLower(s: string)
    ensures IsLower(Lower(s))
  {
  }

  lemma LowerKeepsChar(s: string, c: char)
    requires c !in s && !('A' <= c <= 'Z') && !('a' <= c <= 'z')
    ensures c !in Lower(s)
  {
    forall j | 0 <= j < |s| ensures Lower(s)[j] != c {
      assert Lower(s)[j] == LowerChar(s[j]);
    }
  }

  lemma LowerSlices(t: string, i: nat)
    requires i < |t|
    ensures Lower(t)[..i] == Lower(t[..i]) && Lower(t)[i + 1..] == Lower(t[i + 1..])
  {
  }

  lemma LowerToken(s: string)
    requires IsToken(s)
    ensures IsToken(Lower(s))
  {
    forall j | 0 <= j < |s| ensures IsTokenChar(Lower(s)[j]) {
      assert Lower(s)[j] == LowerChar(s[j]);
    }
  }

  lemma LowerIndexOfSlash(t: string, l: string)
    requires l == Lower(t)
    ensures IndexOf(l, '/') == IndexOf(t, '/')
  {
    if |t| > 0 {
      assert l[1..] == Lower(t[1..]);
      LowerIndexOfSlash(t[1..], l[1..]);
    }
  }

  /** A media type without parameters parses to itself, lower-cased. */
  lemma {:induction false} ParseBase(b: string)
    requires IsMediaType(b)
    ensures Parse(b) == Some(Lower(b))
  {
    MediaTypeChars(b);
    IndexOfSpec(b, ';');
    NoSpaceEndsTrimsToSelf(b);
  }

  /** Parameters after the first ';' are dropped:
      "text/html; charset=utf-8" parses to "text/html". */
  lemma {:induction false} ParseStripsParameters(b: string, params: string)
    requires IsMediaType(b)
    ensures Parse(b + ";" + params) == Some(Lower(b))
  {
    MediaTypeChars(b);
    HeadBeforeParams(b, params);
    ParseBase(b);
    SameHeadSameParse(b + ";" + params, b);
  }

  lemma HeadBeforeParams(b: string, params: string)
    requires ';' !in b
    ensures Head(b + ";" + params) == b == Head(b)
  {
    IndexOfSpec(b, ';');
    assert b + ";" + params == b + (";" + params);
    IndexOfAfterPrefix(b, ";" + params, ';');
    assert (b + ";" + params)[..|b|] == b;
  }

  lemma SameHeadSameParse(v: string, w: string)
    requires Head(v) == Head(w)
    ensures Parse(v) == Parse(w)
  {
  }

  /** The base type that parsing yields parses to itself again. */
  lemma {:induction false} ParseIdempotent(value: string)
    requires Parse(value).Some?
    ensures Parse(Parse(value).value) == Parse(value)
  {
    var b := Parse(value).value;
    ParseSpec(value);
    ParseBase(b);
    LowerOfLower(b);
  }

  lemma NoSpaceEndsTrimsToSelf(t: string)
    requires |t| > 0 && !IsSpace(t[0]) && !IsSpace(t[|t| - 1])
    ensures Trim(t) == t
  {
    TrimStartSpec(t);
    TrimEndSpec(t);
  }

  lemma IndexOfAfterPrefix(a: string, b: string, c: char)
    requires c !in a && |b| > 0 && b[0] == c
    ensures IndexOf(a + b, c) == Some(|a|)
  {
    if |a| > 0 {
      assert (a + b)[1..] == a[1..] + b;
      IndexOfAfterPrefix(a[1..], b, c);
    } else {
      assert a + b == b;
    }
  }

  lemma LowerOfLower(s: string)
    requires IsLower(s)
    ensures Lower(s) == s
  {
  }
}

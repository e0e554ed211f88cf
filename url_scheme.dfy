/** The scheme of a URL as Python's `urlsplit` reports it in 3.9.16, 3.10.9,
    3.11.1 and later releases (the first to require a leading letter),
    which is what the dummy policy compares against its deny-list: the text
    before the first ':' when that text is non-empty, starts with an ASCII
    letter and consists of scheme characters only, lower-cased; otherwise
    the empty string. */
module UrlScheme {
  import opened Wrappers

  predicate IsAsciiLetter(c: char) {
    'a' <= c <= 'z' || 'A' <= c <= 'Z'
  }

  /** Letters, digits and "+-.", the characters allowed in a scheme. */
  predicate IsSchemeChar(c: char) {
    IsAsciiLetter(c) || '0' <= c <= '9' || c == '+' || c == '-' || c == '.'
  }

  predicate IsSchemeText(s: string) {
    |s| > 0 && IsAsciiLetter(s[0]) && forall i | 0 <= i < |s| :: IsSchemeChar(s[i])
  }

  function LowerChar(c: char): char {
    if 'A' <= c <= 'Z' then (c as int + 32) as char else c
  }

  function Lower(s: string): (r: string)
    ensures |r| == |s|
    ensures forall i | 0 <= i < |s| :: r[i] == LowerChar(s[i])
  {
    seq(|s|, i requires 0 <= i < |s| => LowerChar(s[i]))
  }

  /** `s.find(':')`: the index of the first colon, if any. */
  function FindColon(s: string): (r: Option<nat>)
    ensures r.Some? ==> r.value < |s| && s[r.value] == ':'
    ensures r.Some? ==> forall j | 0 <= j < r.value :: s[j] != ':'
    ensures r.None? ==> forall j | 0 <= j < |s| :: s[j] != ':'
  {
    if s == [] then None
    else if s[0] == ':' then Some(0)
    else match FindColon(s[1..])
      case None => None
      case Some(i) => Some(i + 1)
  }

  function Scheme(url: string): string {
    match FindColon(url)
    case None => ""
    case Some(i) => if i > 0 && IsSchemeText(url[..i]) then Lower(url[..i]) else ""
  }

  /** A URL written as `<scheme>:<rest>` has that scheme, lower-cased,
      whatever the rest contains (further colons included). */
  lemma SchemeOfPrefixed(s: string, rest: string)
    requires IsSchemeText(s)
    ensures Scheme(s + ":" + rest) == Lower(s)
  {
    var url := s + ":" + rest;
    assert url[|s|] == ':';
    assert forall j | 0 <= j < |s| :: url[j] == s[j] && url[j] != ':';
    var r := FindColon(url);
    assert r.Some?;
    assert r.value == |s|;
    assert url[..|s|] == s;
  }

  /** Upper and lower case spellings of a scheme name the same scheme. */
  lemma SchemeIgnoresCase(s: string, t: string, rest: string)
    requires IsSchemeText(s) && IsSchemeText(t) && Lower(s) == Lower(t)
    ensures Scheme(s + ":" + rest) == Scheme(t + ":" + rest)
  {
    SchemeOfPrefixed(s, rest);
    SchemeOfPrefixed(t, rest);
  }

  /** Conversely, a non-empty scheme is the lower-cased text in front of
      the URL's first colon. */
  lemma NonEmptySchemeIsPrefix(url: string)
    requires Scheme(url) != ""
    ensures |Scheme(url)| < |url| && url[|Scheme(url)|] == ':'
    ensures IsSchemeText(url[..|Scheme(url)|]) && Lower(url[..|Scheme(url)|]) == Scheme(url)
  {
    var i := FindColon(url).value;
    assert |Scheme(url)| == i;
  }
}

/** ASCII character classes and case mapping, standing in for JavaScript's `\s`,
    `toUpperCase` and `toLowerCase` on the ASCII range. */
module Ascii {

  /** The ASCII members of JavaScript's `\s` class (and of what `String.prototype.trim`
      removes): tab, line feed, vertical tab, form feed, carriage return and space. */
  predicate IsWhitespace(c: char) {
    c == ' ' || ('\t' <= c <= '\r')
  }

  predicate IsUpper(c: char) {
    'A' <= c <= 'Z'
  }

  predicate IsLower(c: char) {
    'a' <= c <= 'z'
  }

  function ToUpper(c: char): (r: char)
    ensures IsLower(c) ==> IsUpper(r) && r as int == c as int - 32
    ensures !IsLower(c) ==> r == c
  {
    if IsLower(c) then (c as int - 'a' as int + 'A' as int) as char else c
  }

  function ToLower(c: char): (r: char)
    ensures !IsUpper(r)
    ensures IsWhitespace(r) <==> IsWhitespace(c)
    ensures IsUpper(c) ==> IsLower(r) && r as int == c as int + 32
    ensures !IsUpper(c) ==> r == c
  {
    if IsUpper(c) then (c as int - 'A' as int + 'a' as int) as char else c
  }

  /** `String.prototype.toLowerCase` restricted to ASCII. */
  function LowerCase(s: string): (r: string)
    ensures |r| == |s|
    ensures forall i :: 0 <= i < |s| ==> r[i] == ToLower(s[i])
  {
    if s == [] then [] else [ToLower(s[0])] + LowerCase(s[1..])
  }

  /** Neither end of `s` is whitespace. */
  predicate Trimmed(s: string) {
    s == "" || (!IsWhitespace(s[0]) && !IsWhitespace(s[|s| - 1]))
  }

  /** `String.prototype.trim`: drops leading and trailing whitespace. */
  function Trim(s: string): (r: string)
    ensures Trimmed(r)
    ensures r == s[ContentStart(s)..ContentEnd(s)]
  {
    s[ContentStart(s)..ContentEnd(s)]
  }

  /** The index of the first non-whitespace character of `s` (|s| when there is none). */
  function ContentStart(s: string): (a: nat)
    ensures a <= |s|
    ensures forall i :: 0 <= i < a ==> IsWhitespace(s[i])
    ensures a < |s| ==> !IsWhitespace(s[a])
  {
    if s != [] && IsWhitespace(s[0]) then 1 + ContentStart(s[1..]) else 0
  }

  /** One past the last non-whitespace character of `s` at or after ContentStart(s). */
  function ContentEnd(s: string): (b: nat)
    ensures ContentStart(s) <= b <= |s|
    ensures forall i :: b <= i < |s| ==> IsWhitespace(s[i])
    ensures ContentStart(s) < b ==> !IsWhitespace(s[b - 1])
  {
    EndFrom(s, |s|)
  }

  function EndFrom(s: string, b: nat): (e: nat)
    requires ContentStart(s) <= b <= |s|
    requires forall i :: b <= i < |s| ==> IsWhitespace(s[i])
    ensures ContentStart(s) <= e <= b
    ensures forall i :: e <= i < |s| ==> IsWhitespace(s[i])
    ensures ContentStart(s) < e ==> !IsWhitespace(s[e - 1])
    decreases b
  {
    if ContentStart(s) < b && IsWhitespace(s[b - 1]) then EndFrom(s, b - 1) else b
  }
}

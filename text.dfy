/** The few Python string primitives the seeding script relies on, over
    Unicode code points: str.strip() and str.strip(chars), and str.lower() /
    str.upper() restricted to ASCII; and the Option type for None. */
module Text {

  datatype Option<+T> = None | Some(value: T)

  predicate IsAsciiUpper(c: char) { 'A' <= c <= 'Z' }
  predicate IsAsciiLower(c: char) { 'a' <= c <= 'z' }
  predicate IsAsciiDigit(c: char) { '0' <= c <= '9' }

  /** The character class [a-zA-Z0-9] of a Python regular expression. */
  predicate IsAsciiAlnum(c: char) { IsAsciiUpper(c) || IsAsciiLower(c) || IsAsciiDigit(c) }

  /** Python's str.isspace(): the characters that str.strip() removes by default. */
  predicate IsSpace(c: char) {
    || c == ' '
    || '\t' <= c <= '\r'
    || '\U{1c}' <= c <= '\U{1f}'
    || c == '\U{85}' || c == '\U{a0}' || c == '\U{1680}'
    || '\U{2000}' <= c <= '\U{200a}'
    || c == '\U{2028}' || c == '\U{2029}' || c == '\U{202f}' || c == '\U{205f}' || c == '\U{3000}'
  }

  function LowerChar(c: char): (d: char)
    ensures !IsAsciiUpper(d)
    ensures IsAsciiAlnum(d) <==> IsAsciiAlnum(c)
    ensures IsAsciiUpper(c) ==> d as int == c as int + 32
    ensures !IsAsciiUpper(c) ==> d == c
  {
    if IsAsciiUpper(c) then (c as int + 32) as char else c
  }

  function UpperChar(c: char): (d: char)
    ensures !IsAsciiLower(d)
    ensures IsAsciiLower(c) ==> d as int == c as int - 32
    ensures !IsAsciiLower(c) ==> d == c
  {
    if IsAsciiLower(c) then (c as int - 32) as char else c
  }

  /** str.lower(), mapping ASCII letters only. */
  function ToLower(s: string): string {
    seq(|s|, i requires 0 <= i < |s| => LowerChar(s[i]))
  }

  /** str.upper(), mapping ASCII letters only. */
  function ToUpper(s: string): string {
    seq(|s|, i requires 0 <= i < |s| => UpperChar(s[i]))
  }

  /** Removes the longest prefix of s whose characters all satisfy p. */
  function DropWhile(s: string, p: char -> bool): (r: string)
    ensures |r| <= |s|
  {
    if s != [] && p(s[0]) then DropWhile(s[1..], p) else s
  }

  /** Removes the longest suffix of s whose characters all satisfy p. */
  function DropWhileEnd(s: string, p: char -> bool): (r: string)
    ensures |r| <= |s|
  {
    if s != [] && p(s[|s| - 1]) then DropWhileEnd(s[..|s| - 1], p) else s
  }

  /** s.strip(chars) where p recognises the stripped characters: the longest
      prefix and then the longest suffix made of them are removed. */
  function Strip(s: string, p: char -> bool): string {
    DropWhileEnd(DropWhile(s, p), p)
  }

  /** What DropWhile removes is a prefix of p-characters, and what it keeps,
      the rest of s, does not start with one. */
  lemma {:induction false} DropWhileSpec(s: string, p: char -> bool)
    ensures DropWhile(s, p) == s[|s| - |DropWhile(s, p)|..]
    ensures forall i :: 0 <= i < |s| - |DropWhile(s, p)| ==> p(s[i])
    ensures DropWhile(s, p) != [] ==> !p(DropWhile(s, p)[0])
  {
    if s != [] && p(s[0]) {
      DropWhileSpec(s[1..], p);
      assert s[1..][|s| - 1 - |DropWhile(s, p)|..] == s[|s| - |DropWhile(s, p)|..];
    }
  }

  /** What DropWhileEnd removes is a suffix of p-characters, and what it
      keeps, the start of s, does not end with one. */
  lemma {:induction false} DropWhileEndSpec(s: string, p: char -> bool)
    ensures DropWhileEnd(s, p) == s[..|DropWhileEnd(s, p)|]
    ensures forall i :: |DropWhileEnd(s, p)| <= i < |s| ==> p(s[i])
    ensures DropWhileEnd(s, p) != [] ==> !p(DropWhileEnd(s, p)[|DropWhileEnd(s, p)| - 1])
  {
    if s != [] && p(s[|s| - 1]) {
      DropWhileEndSpec(s[..|s| - 1], p);
      assert s[..|s| - 1][..|DropWhileEnd(s, p)|] == s[..|DropWhileEnd(s, p)|];
    }
  }

  /** Strip keeps a slice of s that neither starts nor ends with a
      p-character; it is empty exactly when every character of s is one, and
      it is s itself when s neither starts nor ends with one. */
  lemma StripSpec(s: string, p: char -> bool)
    ensures |Strip(s, p)| <= |DropWhile(s, p)| && Strip(s, p) == DropWhile(s, p)[..|Strip(s, p)|]
    ensures Strip(s, p) != [] ==> !p(Strip(s, p)[0]) && !p(Strip(s, p)[|Strip(s, p)| - 1])
    ensures Strip(s, p) == [] <==> forall i :: 0 <= i < |s| ==> p(s[i])
    ensures s != [] && !p(s[0]) && !p(s[|s| - 1]) ==> Strip(s, p) == s
  {
    var d := DropWhile(s, p);
    DropWhileSpec(s, p);
    DropWhileEndSpec(d, p);
  }

  /** Python's str.strip() with no argument. */
  function Trim(s: string): string {
    Strip(s, IsSpace)
  }
}

/** The C character classes and `atoi`, on strings without their terminator. */
module Text {

  predicate IsSpace(c: char)
  {
    c == ' ' || '\t' <= c <= '\r'
  }

  predicate IsDigit(c: char)
  {
    '0' <= c <= '9'
  }

  predicate IsAlpha(c: char)
  {
    'a' <= c <= 'z' || 'A' <= c <= 'Z'
  }

  predicate IsAlnum(c: char)
  {
    IsAlpha(c) || IsDigit(c)
  }

  const LOWER := "abcdefghijklmnopqrstuvwxyz"
  const UPPER := "ABCDEFGHIJKLMNOPQRSTUVWXYZ"
  const DIGITS := "0123456789"

  lemma Lower(c: char)
    ensures c in LOWER <==> 'a' <= c <= 'z'
  {
    if 'a' <= c <= 'z' { assert LOWER[c as int - 'a' as int] == c; }
  }

  lemma Upper(c: char)
    ensures c in UPPER <==> 'A' <= c <= 'Z'
  {
    if 'A' <= c <= 'Z' { assert UPPER[c as int - 'A' as int] == c; }
  }

  /** The classes, character by character. */
  lemma Classes(c: char)
    ensures IsSpace(c) <==> c in {' ', '\t', '\n', '\U{0B}', '\U{0C}', '\r'}
    ensures IsDigit(c) <==> c in DIGITS
    ensures IsAlpha(c) <==> c in LOWER || c in UPPER
    ensures IsAlnum(c) <==> IsAlpha(c) || IsDigit(c)
  {
    hide LOWER, UPPER;
    Lower(c);
    Upper(c);
    if IsDigit(c) { assert DIGITS[c as int - '0' as int] == c; }
  }

  /** Reading past the last character finds the terminator. */
  function At(s: string, i: nat): char
  {
    if i < |s| then s[i] else '\0'
  }

  function Drop(s: string, n: nat): string
  {
    if n <= |s| then s[n..] else []
  }

  function Trim(s: string): (r: string)
    ensures |r| <= |s|
  {
    if s != [] && IsSpace(s[0]) then Trim(s[1..]) else s
  }

  function Digits(s: string, value: nat): nat
  {
    if s != [] && IsDigit(s[0]) then Digits(s[1..], 10 * value + (s[0] as int - '0' as int)) else value
  }

  function Atoi(s: string): int
  {
    var t := Trim(s);
    if t != [] && t[0] == '-' then 0 - Digits(t[1..], 0)
    else if t != [] && t[0] == '+' then Digits(t[1..], 0)
    else Digits(t, 0)
  }

  lemma ColonIsZero(s: string)
    requires |s| > 0 && s[0] == ':'
    ensures Atoi(s) == 0
  {
    assert Trim(s) == s;
  }

  predicate ContainsDigits(s: string)
  {
    exists i | 0 <= i < |s| :: IsDigit(s[i])
  }
}

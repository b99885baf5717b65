/** Case mapping and substring search on Go strings, modelled as sequences of code points.

    Go lower-cases exactly two non-ASCII code points to ASCII letters, and case folding identifies
    exactly two non-ASCII code points with ASCII letters.  Those four are modelled; every other
    non-ASCII code point is left alone, which cannot affect a comparison with an ASCII name. */
module Text {

  const LONG_S: char := '\U{017F}'
  const KELVIN: char := '\U{212A}'
  const DOTTED_I: char := '\U{0130}'

  predicate IsUpper(c: char) {
    'A' <= c <= 'Z'
  }

  function AsciiLower(c: char): char {
    if IsUpper(c) then (c as int + 32) as char else c
  }

  /** One code point under `strings.ToLower`. */
  function LowerChar(c: char): char {
    if c == KELVIN then 'k' else if c == DOTTED_I then 'i' else AsciiLower(c)
  }

  /** The representative of a code point's class under `strings.EqualFold`. */
  function FoldChar(c: char): char {
    if c == KELVIN then 'k' else if c == LONG_S then 's' else AsciiLower(c)
  }

  function ToLower(s: string): (r: string)
    ensures |r| == |s|
  {
    seq(|s|, i requires 0 <= i < |s| => LowerChar(s[i]))
  }

  /** SQLite compares names without regard to ASCII case. */
  function SqliteFold(s: string): string {
    seq(|s|, i requires 0 <= i < |s| => AsciiLower(s[i]))
  }

  predicate EqualFold(s: string, t: string) {
    |s| == |t| && forall i :: 0 <= i < |s| ==> FoldChar(s[i]) == FoldChar(t[i])
  }

  predicate ContainsAt(text: string, part: string, i: nat) {
    i + |part| <= |text| && text[i..i + |part|] == part
  }

  predicate Contains(text: string, part: string) {
    exists i: nat :: i <= |text| && ContainsAt(text, part, i)
  }

  predicate IsAscii(s: string) {
    forall i :: 0 <= i < |s| ==> s[i] < '\U{0080}'
  }

  /** Against an ASCII lower-case name, folding equality and lower-casing equality disagree exactly on
      strings that fold to the name by a long s, or lower-case to it by a dotted capital I. */
  lemma FoldIsLower(s: string, name: string)
    requires IsAscii(name) && ToLower(name) == name
    ensures EqualFold(s, name) ==> (ToLower(s) != name <==> LONG_S in s)
    ensures ToLower(s) == name ==> (!EqualFold(s, name) <==> DOTTED_I in s)
  {
    if ToLower(s) == name && DOTTED_I in s {
      var i :| 0 <= i < |s| && s[i] == DOTTED_I;
      assert FoldChar(name[i]) != FoldChar(s[i]);
    }
    if EqualFold(s, name) && LONG_S in s {
      var i :| 0 <= i < |s| && s[i] == LONG_S;
      assert ToLower(s)[i] == LONG_S;
    }
  }

  /** An ASCII string is lowered letter by letter: capital letters move by 32, nothing else changes. */
  lemma LoweredAscii(s: string)
    requires IsAscii(s)
    ensures |ToLower(s)| == |s|
    ensures forall i :: 0 <= i < |s| ==>
              ToLower(s)[i] as int == s[i] as int + if 65 <= s[i] as int <= 90 then 32 else 0
  {
  }

  /** ASCII strings are equal up to case exactly when they differ, if at all, in the case of letters. */
  lemma FoldedAscii(s: string, t: string)
    requires IsAscii(s) && IsAscii(t)
    ensures EqualFold(s, t)
            <==> |s| == |t|
                 && forall i :: 0 <= i < |s| ==>
                      var a, b := s[i] as int, t[i] as int;
                      a == b || (65 <= a <= 90 && b == a + 32) || (65 <= b <= 90 && a == b + 32)
  {
    if |s| == |t| {
      forall i | 0 <= i < |s|
        ensures FoldChar(s[i]) == FoldChar(t[i])
                <==> var a, b := s[i] as int, t[i] as int;
                     a == b || (65 <= a <= 90 && b == a + 32) || (65 <= b <= 90 && a == b + 32)
      {
      }
    }
  }

  lemma ToLowerIdempotent(s: string)
    ensures ToLower(ToLower(s)) == ToLower(s)
  {
  }

  /** The identifier form `^[A-Za-z_][A-Za-z0-9_$]*$` shared by schema and function names. */
  predicate IsName(s: string) {
    && |s| > 0
    && (IsLetter(s[0]) || s[0] == '_')
    && forall i :: 0 <= i < |s| ==> IsLetter(s[i]) || '0' <= s[i] <= '9' || s[i] == '_' || s[i] == '$'
  }

  predicate IsLetter(c: char) {
    'A' <= c <= 'Z' || 'a' <= c <= 'z'
  }
}

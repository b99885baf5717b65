/** Quoted names and literals and decimal placeholders, written and read back. */
module Quoting {
  import opened Wrappers

  // ---------- quoting ----------

  /** Every quote character doubled, as strings.ReplaceAll does. */
  function Doubled(s: string, q: char): string {
    if s == [] then []
    else (if s[0] == q then [q, q] else [s[0]]) + Doubled(s[1..], q)
  }

  function Quoted(s: string, q: char): string {
    [q] + Doubled(s, q) + [q]
  }

  function QuoteIdentifier(s: string): string {
    Quoted(s, '"')
  }

  function QuoteStringLiteral(s: string): string {
    Quoted(s, '\'')
  }

  /** Reads the body of a quoted token: a doubled quote stands for one, a single one ends the token
      (sections 5.2 and 5.3 of ISO/IEC 9075-2).  What follows the token is left over. */
  function ReadBody(text: string, q: char): (r: Option<(string, string)>)
    ensures r.Some? ==> |r.value.1| < |text|
  {
    if text == [] then None
    else if text[0] != q then
      var more := ReadBody(text[1..], q);
      if more.None? then None else Some(([text[0]] + more.value.0, more.value.1))
    else if |text| > 1 && text[1] == q then
      var more := ReadBody(text[2..], q);
      if more.None? then None else Some(([q] + more.value.0, more.value.1))
    else Some(([], text[1..]))
  }

  function ReadQuoted(text: string, q: char): (r: Option<(string, string)>)
    ensures r.Some? ==> |r.value.1| < |text|
  {
    if text == [] || text[0] != q then None else ReadBody(text[1..], q)
  }

  lemma {:induction false} ReadBodyInvertsDoubled(s: string, q: char, rest: string)
    requires rest == [] || rest[0] != q
    ensures ReadBody(Doubled(s, q) + [q] + rest, q) == Some((s, rest))
  {
    var text := Doubled(s, q) + [q] + rest;
    if s == [] {
      assert text == [q] + rest;
    } else {
      ReadBodyInvertsDoubled(s[1..], q, rest);
      var tail := Doubled(s[1..], q) + [q] + rest;
      if s[0] == q {
        assert text == [q, q] + tail && text[2..] == tail;
      } else {
        assert text == [s[0]] + tail && text[1..] == tail;
      }
      assert [s[0]] + s[1..] == s;
    }
  }

  /** A quoted name or literal reads back as the original string, whatever it contains. */
  lemma ReadInvertsQuoted(s: string, q: char, rest: string)
    requires rest == [] || rest[0] != q
    ensures ReadQuoted(Quoted(s, q) + rest, q) == Some((s, rest))
  {
    var text := Quoted(s, q) + rest;
    assert text[1..] == Doubled(s, q) + [q] + rest;
    ReadBodyInvertsDoubled(s, q, rest);
  }

  /** Quoted identifiers and string literals both read back. */
  lemma NamesAndLiteralsReadBack(s: string, rest: string)
    requires rest == [] || (rest[0] != '"' && rest[0] != '\'')
    ensures ReadQuoted(QuoteIdentifier(s) + rest, '"') == Some((s, rest))
    ensures ReadQuoted(QuoteStringLiteral(s) + rest, '\'') == Some((s, rest))
  {
    ReadInvertsQuoted(s, '"', rest);
    ReadInvertsQuoted(s, '\'', rest);
  }

  /** A name without quotation marks is only put between two of them; a mark within it is doubled. */
  lemma QuotedSpelled(s: string, t: string, q: char)
    requires q !in s && q !in t
    ensures Quoted(s, q) == [q] + s + [q]
    ensures Quoted(s + [q] + t, q) == [q] + (s + [q, q] + t) + [q]
  {
    NothingDoubled(s, q);
    NothingDoubled(t, q);
    DoubledMark(q);
    hide Doubled;
    DoubledConcat(s + [q], t, q);
    DoubledConcat(s, [q], q);
  }

  lemma DoubledMark(q: char)
    ensures Doubled([q], q) == [q, q]
  {
    assert [q][1..] == [];
  }

  lemma {:induction false} NothingDoubled(s: string, q: char)
    requires q !in s
    ensures Doubled(s, q) == s
  {
    if s != [] {
      NothingDoubled(s[1..], q);
      assert [s[0]] + s[1..] == s;
    }
  }

  lemma {:induction false} DoubledConcat(s: string, t: string, q: char)
    ensures Doubled(s + t, q) == Doubled(s, q) + Doubled(t, q)
  {
    if s == [] {
      assert s + t == t;
    } else {
      assert (s + t)[1..] == s[1..] + t;
      DoubledConcat(s[1..], t, q);
    }
  }

  // ---------- numbers ----------

  predicate IsDigit(c: char) {
    '0' <= c <= '9'
  }

  function Digit(d: nat): (c: char)
    requires d < 10
    ensures IsDigit(c)
  {
    (d + '0' as int) as char
  }

  function DigitValue(c: char): nat
    requires IsDigit(c)
  {
    c as int - '0' as int
  }

  function Decimal(n: nat): (r: string)
    ensures r != [] && forall i :: 0 <= i < |r| ==> IsDigit(r[i])
  {
    if n < 10 then [Digit(n)] else Decimal(n / 10) + [Digit(n % 10)]
  }

  /** The number a row of digits denotes. */
  function Number(s: string): nat
    requires forall i :: 0 <= i < |s| ==> IsDigit(s[i])
  {
    if s == [] then 0 else 10 * Number(s[..|s| - 1]) + DigitValue(s[|s| - 1])
  }

  lemma {:induction false} NumberInvertsDecimal(n: nat)
    ensures Number(Decimal(n)) == n
  {
    if n < 10 {
      assert Decimal(n)[..0] == [];
    } else {
      NumberInvertsDecimal(n / 10);
      assert Decimal(n)[..|Decimal(n)| - 1] == Decimal(n / 10);
    }
  }

  function DigitsLength(text: string): (n: nat)
    ensures n <= |text| && forall i :: 0 <= i < n ==> IsDigit(text[i])
    ensures n < |text| ==> !IsDigit(text[n])
  {
    if text == [] || !IsDigit(text[0]) then 0 else 1 + DigitsLength(text[1..])
  }

  /** Reads the longest row of digits. */
  function ReadNumber(text: string): (r: Option<(nat, string)>)
    ensures r.Some? ==> |r.value.1| < |text|
  {
    var n := DigitsLength(text);
    if n == 0 then None else Some((Number(text[..n]), text[n..]))
  }

  lemma {:induction false} AllDigitsAreRead(d: string, rest: string)
    requires forall i :: 0 <= i < |d| ==> IsDigit(d[i])
    requires rest == [] || !IsDigit(rest[0])
    ensures DigitsLength(d + rest) == |d|
  {
    if d == [] {
      assert d + rest == rest;
    } else {
      assert (d + rest)[1..] == d[1..] + rest;
      AllDigitsAreRead(d[1..], rest);
    }
  }

  lemma ReadInvertsDecimal(n: nat, rest: string)
    requires rest == [] || !IsDigit(rest[0])
    ensures ReadNumber(Decimal(n) + rest) == Some((n, rest))
  {
    var text, d := Decimal(n) + rest, Decimal(n);
    AllDigitsAreRead(d, rest);
    assert text[..|d|] == d && text[|d|..] == rest;
    NumberInvertsDecimal(n);
  }

  /** Digits stand in the usual order. */
  lemma DecimalSpelled()
    ensures Decimal(0) == "0" && Decimal(7) == "7" && Decimal(120) == "120"
  {
    assert Decimal(12) == "12";
  }
}

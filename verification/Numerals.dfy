/** Numbers as text, in decimal and in hexadecimal, without leading zeros. */
module Numerals {
  import opened Text

  predicate Base(base: nat) {
    base == 10 || base == 16
  }

  function Digit(d: nat): char
    requires d < 16
  {
    "0123456789abcdef"[d]
  }

  function Numeral(n: nat, base: nat): string
    requires Base(base)
  {
    if n < base then [Digit(n)] else Numeral(n / base, base) + [Digit(n % base)]
  }

  // ---- Reading --------------------------------------------------------------------------------------

  function DigitOf(c: char): nat {
    if '0' <= c <= '9' then (c - '0') as nat else if 'a' <= c <= 'f' then (c - 'a') as nat + 10 else 16
  }

  predicate Digits(s: string, base: nat) {
    forall i :: 0 <= i < |s| ==> DigitOf(s[i]) < base
  }

  function Value(s: string, base: nat): nat {
    if s == "" then 0 else base * Value(s[..|s| - 1], base) + DigitOf(s[|s| - 1])
  }

  function DigitsLength(s: string, base: nat): (n: nat)
    ensures n <= |s|
  {
    if s == "" || DigitOf(s[0]) >= base then 0 else 1 + DigitsLength(s[1..], base)
  }

  /** The number in front, which has at least one digit, and the text after it. */
  function ReadNumeral(s: string, base: nat): (r: Option<(nat, string)>)
    ensures r.Some? ==> |r.value.1| < |s|
  {
    var n := DigitsLength(s, base);
    if n == 0 then None else Some((Value(s[..n], base), s[n..]))
  }

  predicate NoDigit(s: string, base: nat) {
    s == "" || DigitOf(s[0]) >= base
  }

  lemma DigitIsDigit(d: nat)
    requires d < 16
    ensures DigitOf(Digit(d)) == d
  {
  }

  lemma ValueSnoc(s: string, c: char, base: nat)
    ensures Value(s + [c], base) == base * Value(s, base) + DigitOf(c)
  {
    assert (s + [c])[..|s|] == s;
  }

  lemma ValueOfNothing(base: nat)
    ensures Value("", base) == 0
  {
  }

  lemma {:induction false} NumeralValue(n: nat, base: nat)
    requires Base(base)
    ensures var s := Numeral(n, base); s != "" && Digits(s, base) && Value(s, base) == n
    decreases n
  {
    hide Digit, DigitOf, Value;
    DigitIsDigit(n % base);
    if n < base {
      DigitIsDigit(n);
      ValueOfNothing(base);
      ValueSnoc("", Digit(n), base);
      assert "" + [Digit(n)] == [Digit(n)];
    } else {
      NumeralValue(n / base, base);
      ValueSnoc(Numeral(n / base, base), Digit(n % base), base);
    }
  }

  lemma {:induction false} DigitsLengthOf(s: string, rest: string, base: nat)
    requires Digits(s, base) && NoDigit(rest, base)
    ensures DigitsLength(s + rest, base) == |s|
  {
    hide DigitOf;
    if s == "" {
      assert s + rest == rest;
    } else {
      DigitsLengthOf(s[1..], rest, base);
      assert (s + rest)[1..] == s[1..] + rest;
    }
  }

  /** A numeral is read back, up to the first character that is no digit. */
  lemma NumeralRoundTrip(n: nat, base: nat, rest: string)
    requires Base(base) && NoDigit(rest, base)
    ensures ReadNumeral(Numeral(n, base) + rest, base) == Some((n, rest))
  {
    hide Numeral, Value, DigitsLength, Digits;
    var s := Numeral(n, base);
    NumeralValue(n, base);
    DigitsLengthOf(s, rest, base);
    assert (s + rest)[..|s|] == s && (s + rest)[|s|..] == rest;
  }

  /** Nothing in a numeral has to be escaped or ends it. */
  lemma {:induction false} NumeralIsPlain(n: nat, base: nat)
    requires Base(base)
    ensures Numeral(n, base) != "" && Digits(Numeral(n, base), 16)
  {
    NumeralValue(n, base);
  }
}

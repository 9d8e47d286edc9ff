/** Decimal numerals as `strconv.Itoa` and the `%d` verb print them. */
module Decimal {

  predicate IsDigit(c: char) { '0' <= c <= '9' }

  function DigitChar(d: nat): (c: char)
    requires d < 10
    ensures IsDigit(c)
  {
    '0' + d as char
  }

  function Digits(n: nat): string {
    if n < 10 then [DigitChar(n)] else Digits(n / 10) + [DigitChar(n % 10)]
  }

  function Itoa(i: int): string {
    if i < 0 then "-" + Digits(-i) else Digits(i)
  }

  predicate AllDigits(s: string) {
    forall i :: 0 <= i < |s| ==> IsDigit(s[i])
  }

  function Value(s: string): nat
    requires AllDigits(s)
  {
    if s == "" then 0
    else
      var init := s[..|s| - 1];
      10 * Value(init) + (s[|s| - 1] as int - '0' as int)
  }

  /** Reading a numeral back gives the number, so numerals are injective. */
  lemma {:induction false} DigitsRoundTrip(n: nat)
    ensures Digits(n) != "" && AllDigits(Digits(n)) && Value(Digits(n)) == n
  {
    if n < 10 {
      assert Digits(n)[..0] == "";
    } else {
      DigitsRoundTrip(n / 10);
      assert Digits(n)[..|Digits(n)| - 1] == Digits(n / 10);
    }
  }

  /** The inverse of `Itoa`; zero when the text is not a numeral. */
  function Atoi(s: string): int {
    if s != "" && s[0] == '-' && AllDigits(s[1..]) then -(Value(s[1..]) as int)
    else if AllDigits(s) then Value(s)
    else 0
  }

  lemma ItoaRoundTrip(i: int)
    ensures Atoi(Itoa(i)) == i
    ensures Itoa(i) != ""
    ensures forall c :: c in Itoa(i) ==> IsDigit(c) || c == '-'
  {
    DigitsRoundTrip(if i < 0 then -i else i);
    if i < 0 {
      assert Itoa(i)[1..] == Digits(-i);
    } else {
      assert IsDigit(Itoa(i)[0]);
    }
  }
}

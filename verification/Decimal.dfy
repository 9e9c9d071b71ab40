/** Decimal rendering of non-negative numbers, as std::ostream prints them. */
module Decimal {
  import opened Wrappers

  predicate IsDigit(c: char) {
    '0' <= c <= '9'
  }

  predicate AllDigits(s: string) {
    forall k :: 0 <= k < |s| ==> IsDigit(s[k])
  }

  function DigitValue(c: char): (d: nat)
    requires IsDigit(c)
    ensures d < 10
  {
    c as int - '0' as int
  }

  function DigitChar(d: nat): (c: char)
    requires d < 10
    ensures IsDigit(c) && DigitValue(c) == d
  {
    ('0' as int + d) as char
  }

  /** The number a string of digits denotes. */
  function Value(s: string): nat
    requires AllDigits(s)
  {
    if s == [] then 0 else 10 * Value(s[..|s| - 1]) + DigitValue(s[|s| - 1])
  }

  /** Shortest decimal representation. */
  function Show(n: nat): (s: string)
    ensures AllDigits(s) && |s| >= 1
  {
    if n < 10 then [DigitChar(n)] else Show(n / 10) + [DigitChar(n % 10)]
  }

  function Zeros(k: nat): (s: string)
    ensures |s| == k && AllDigits(s)
  {
    seq(k, _ => '0')
  }

  /** Printing with `setfill('0') << setw(width)`; a width of zero pads nothing. */
  function Render(n: nat, width: nat): (s: string)
    ensures AllDigits(s) && |s| == Max(width, |Show(n)|)
  {
    var digits := Show(n);
    if |digits| >= width then digits else Zeros(width - |digits|) + digits
  }

  /** The digits are the usual ones, the most significant first. */
  lemma ShowsDecimal()
    ensures Show(9876543210) == "9876543210" && Value("9876543210") == 9876543210 && Render(7, 3) == "007"
  {
    Digits98765();
    assert Show(987654) == Show(98765) + "4" && Show(9876543) == Show(987654) + "3";
    assert Show(98765432) == Show(9876543) + "2" && Show(987654321) == Show(98765432) + "1";
    assert Show(9876543210) == Show(987654321) + "0";
    ValueOfShow(9876543210);
    assert Zeros(2) == "00" && Show(7) == "7";
  }

  lemma Digits98765()
    ensures Show(98765) == "98765"
  {
    assert Show(9) == "9" && Show(98) == Show(9) + "8" && Show(987) == Show(98) + "7";
    assert Show(9876) == Show(987) + "6" && Show(98765) == Show(9876) + "5";
  }

  lemma {:induction false} ValueOfShow(n: nat)
    ensures Value(Show(n)) == n
  {
    if n >= 10 {
      ValueOfShow(n / 10);
      assert Show(n)[..|Show(n)| - 1] == Show(n / 10);
    }
  }

  lemma {:induction false} LeadingZeros(k: nat, s: string)
    requires AllDigits(s)
    ensures Value(Zeros(k) + s) == Value(s)
  {
    var z := Zeros(k) + s;
    if s != [] {
      LeadingZeros(k, s[..|s| - 1]);
      assert z[..|z| - 1] == Zeros(k) + s[..|s| - 1];
    } else if k > 0 {
      LeadingZeros(k - 1, s);
      assert z[..|z| - 1] == Zeros(k - 1) + s;
    }
  }

  /** Padding never changes the number that is read back. */
  lemma ValueOfRender(n: nat, width: nat)
    ensures Value(Render(n, width)) == n
  {
    ValueOfShow(n);
    if |Show(n)| < width {
      LeadingZeros(width - |Show(n)|, Show(n));
    }
  }

  lemma {:induction false} LengthMonotone(m: nat, n: nat)
    requires m <= n
    ensures |Show(m)| <= |Show(n)|
  {
    if m >= 10 {
      LengthMonotone(m / 10, n / 10);
    }
  }
}

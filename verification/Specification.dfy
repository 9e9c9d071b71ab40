/** What a frame specification is, and the range it stands for: the grammar, without a parser. */
module Specification {
  import opened Decimal

  /** isspace in the C locale. */
  predicate IsSpace(c: char) {
    c == ' ' || '\t' <= c <= '\r'
  }

  /** Space, tab, newline, vertical tab, form feed, carriage return. */
  lemma SpacesAre(c: char)
    ensures IsSpace(c) <==> c as int in {32, 9, 10, 11, 12, 13}
  {
  }

  predicate Spaces(s: string) {
    forall k :: 0 <= k < |s| ==> IsSpace(s[k])
  }

  predicate IsSign(s: string) {
    s == "" || s == "+" || s == "-"
  }

  /** The long for a number is the number itself, or the limit that it is beyond. */
  predicate Nearest(x: int, long: int) {
    && -0x8000_0000_0000_0000 <= long <= 0x7FFF_FFFF_FFFF_FFFF
    && (x < long ==> long == -0x8000_0000_0000_0000)
    && (x > long ==> long == 0x7FFF_FFFF_FFFF_FFFF)
  }

  /** The int that agrees with the long in its low 32 bits. */
  predicate LowBits(long: int, n: int) {
    -0x8000_0000 <= n < 0x8000_0000 && (long - n) % 0x1_0000_0000 == 0
  }

  /** Spaces, a sign or none, and at least one digit; the number this is as an int. */
  ghost predicate NumberOf(spaces: string, sign: string, digits: string, n: int) {
    && Spaces(spaces) && IsSign(sign) && digits != "" && AllDigits(digits)
    && exists long :: Nearest(if sign == "-" then 0 - Value(digits) else Value(digits), long) && LowBits(long, n)
  }

  ghost predicate IsNumber(s: string, n: int) {
    exists spaces, sign, digits :: s == spaces + sign + digits && NumberOf(spaces, sign, digits, n)
  }

  /** The string up to its first NUL. */
  ghost predicate CString(spec: string, s: string) {
    && s <= spec && '\0' !in s
    && (|s| < |spec| ==> spec[|s|] == '\0')
  }

  ghost predicate TwoNumbers(s: string, first: int, last: int) {
    exists a, b :: s == a + "," + b && IsNumber(a, first) && IsNumber(b, last)
  }

  ghost predicate ThreeNumbers(s: string, first: int, last: int, step: int) {
    exists a, b, c :: s == a + "," + b + "," + c && IsNumber(a, first) && IsNumber(b, last) && IsNumber(c, step)
  }

  /** One, two or three numbers with single commas between them. */
  ghost predicate Denotes(s: string, first: int, last: int, step: int) {
    || (IsNumber(s, first) && last == first && step == 1)
    || (TwoNumbers(s, first, last) && step == if first <= last then 1 else -1)
    || ThreeNumbers(s, first, last, step)
  }

  ghost predicate IsSpecification(spec: string) {
    exists s, first, last, step :: CString(spec, s) && Denotes(s, first, last, step)
  }
}

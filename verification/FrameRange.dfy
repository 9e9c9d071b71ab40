/** The frame sequence: src/Frames.hpp and src/Frames.cpp. */
module FrameRange {
  import opened Wrappers
  import opened Decimal
  import opened Specification

  newtype int32 = x: int | -0x8000_0000 <= x < 0x8000_0000

  datatype Range = Range(first: int, last: int, step: int)

  predicate PastEnd(r: Range, frame: int) {
    if r.step > 0 then frame > r.last else frame < r.last
  }

  function Abs(x: int): nat {
    if x < 0 then -x else x
  }

  /** Whether the loop over the frames ends. */
  predicate Ends(r: Range) {
    r.step != 0 || PastEnd(r, r.first)
  }

  function Count(r: Range): nat
    requires Ends(r)
  {
    if PastEnd(r, r.first) then 0 else Abs(r.last - r.first) / Abs(r.step) + 1
  }

  /** Every frame of the range, in order. */
  function All(r: Range): (all: seq<int>)
    requires Ends(r)
    ensures |all| == Count(r)
    ensures forall k :: 0 <= k < |all| ==> all[k] == r.first + k * r.step
  {
    seq(Count(r), k => r.first + k * r.step)
  }

  lemma {:induction false} Multiples(n: nat, d: nat, q: int)
    requires d > 0
    ensures q * d <= n <==> q <= n / d
  {
    assert n == n / d * d + n % d;
    if q <= n / d {
      assert q * d <= n / d * d by { MulMonotone(q, n / d, d); }
    } else {
      assert (n / d + 1) * d <= q * d by { MulMonotone(n / d + 1, q, d); }
      assert (n / d + 1) * d == n / d * d + d;
    }
  }

  lemma MulMonotone(a: int, b: int, d: nat)
    requires a <= b
    ensures a * d <= b * d
  {
    assert b * d - a * d == (b - a) * d;
  }

  /** The k-th value is still in the range exactly for the first Count values. */
  lemma InRangeExactly(r: Range, k: nat)
    requires Ends(r)
    ensures PastEnd(r, r.first + k * r.step) <==> k >= Count(r) || PastEnd(r, r.first)
  {
    if r.step > 0 {
      if r.first <= r.last {
        Multiples(r.last - r.first, r.step, k);
      } else {
        assert k * r.step >= 0;
      }
    } else if r.step < 0 {
      if r.first >= r.last {
        Multiples(r.first - r.last, -r.step, k);
        assert k * -r.step == -(k * r.step);
      } else {
        assert k * r.step <= 0;
      }
    }
  }

  /** The values the loop variable would take without end, over unbounded integers. */
  function Iterate(r: Range, k: nat): int {
    r.first + k * r.step
  }

  /**
   * The loop reaches its end exactly for a nonzero step, or a range that is
   * empty from the start. A zero step with first >= last never ends.
   */
  lemma EndsExactly(r: Range)
    ensures Ends(r) <==> exists k: nat :: PastEnd(r, Iterate(r, k))
  {
    if Ends(r) {
      InRangeExactly(r, Count(r));
      assert PastEnd(r, Iterate(r, Count(r)));
    } else {
      forall k: nat ensures !PastEnd(r, Iterate(r, k)) {
        assert k * r.step == 0;
      }
    }
  }

  /** The frames are strictly ordered in the step's direction, so they are distinct. */
  lemma Monotone(r: Range, i: nat, j: nat)
    requires Ends(r) && i < j < Count(r)
    ensures if r.step > 0 then All(r)[i] < All(r)[j] else All(r)[i] > All(r)[j]
  {
    if r.step > 0 {
      MulMonotone(i + 1, j, r.step);
      assert (i + 1) * r.step == i * r.step + r.step;
    } else {
      MulMonotone(i + 1, j, -r.step);
      assert (i + 1) * -r.step == i * -r.step - r.step;
      assert i * -r.step == -(i * r.step) && j * -r.step == -(j * r.step);
    }
  }

  lemma Distinct(r: Range, i: nat, j: nat)
    requires Ends(r) && i < Count(r) && j < Count(r) && i != j
    ensures All(r)[i] != All(r)[j]
  {
    Monotone(r, if i < j then i else j, if i < j then j else i);
  }

  /** Exactly the values first + k*step from first to last are frames. */
  lemma Membership(r: Range, frame: int)
    requires Ends(r)
    ensures frame in All(r) <==>
      !PastEnd(r, frame) && exists k: nat :: frame == Iterate(r, k)
  {
    if frame in All(r) {
      var k: nat :| k < Count(r) && All(r)[k] == frame;
      InRangeExactly(r, k);
      assert frame == Iterate(r, k);
    }
    if !PastEnd(r, frame) && exists k: nat :: frame == Iterate(r, k) {
      var k: nat :| frame == Iterate(r, k);
      InRangeExactly(r, k);
      assert r.step == 0 ==> k * r.step == 0;
      assert All(r)[k] == frame;
    }
  }

  /** As an interval: upward and downward both ends belong to it, and without a step there is nothing. */
  lemma FramesExactly(r: Range, frame: int)
    ensures Ends(r) <==> r.step != 0 || r.first < r.last
    ensures Ends(r) && r.step > 0 ==>
      (frame in All(r) <==> r.first <= frame <= r.last && (frame - r.first) % r.step == 0)
    ensures Ends(r) && r.step < 0 ==>
      (frame in All(r) <==> r.last <= frame <= r.first && (r.first - frame) % -r.step == 0)
    ensures Ends(r) && r.step == 0 ==> All(r) == []
  {
    hide All, Count;
    if r.step > 0 {
      Membership(r, frame);
      SteppedUp(r, frame);
    } else if r.step < 0 {
      Membership(r, frame);
      SteppedDown(r, frame);
    } else if Ends(r) {
      assert Count(r) == 0 by { NoStep(r); }
    }
  }

  lemma NoStep(r: Range)
    requires Ends(r) && r.step == 0
    ensures Count(r) == 0
  {
  }

  lemma SteppedUp(r: Range, frame: int)
    requires r.step > 0
    ensures (exists k: nat :: frame == Iterate(r, k)) <==> frame >= r.first && (frame - r.first) % r.step == 0
  {
    if k: nat :| frame == Iterate(r, k) {
      StepsApart(frame - r.first, r.step, k);
    }
    if frame >= r.first && (frame - r.first) % r.step == 0 {
      assert frame == Iterate(r, (frame - r.first) / r.step);
    }
  }

  lemma SteppedDown(r: Range, frame: int)
    requires r.step < 0
    ensures (exists k: nat :: frame == Iterate(r, k)) <==> frame <= r.first && (r.first - frame) % -r.step == 0
  {
    if k: nat :| frame == Iterate(r, k) {
      assert k * -r.step == -(k * r.step);
      StepsApart(r.first - frame, -r.step, k);
    }
    if frame <= r.first && (r.first - frame) % -r.step == 0 {
      var k := (r.first - frame) / -r.step;
      assert k * -r.step == -(k * r.step);
      assert frame == Iterate(r, k);
    }
  }

  lemma StepsApart(x: int, d: nat, k: nat)
    requires d > 0 && x == k * d
    ensures x >= 0 && x % d == 0
  {
    MulMonotone(0, k, d);
    Multiples(k * d, d, k);
    Multiples(k * d, d, k + 1);
    assert k * d == k * d / d * d + k * d % d;
  }

  predicate Fits(x: int) {
    -0x8000_0000 <= x < 0x8000_0000
  }

  function Between(a: int, b: int): (r: Range) {
    Range(a, b, if a <= b then 1 else -1)
  }

  /** A spec without a step yields the whole inclusive interval, ending in last. */
  lemma DefaultStep(a: int, b: int)
    ensures Ends(Between(a, b)) && Count(Between(a, b)) == Abs(b - a) + 1
    ensures All(Between(a, b))[0] == a && All(Between(a, b))[Abs(b - a)] == b
    ensures forall x :: x in All(Between(a, b)) <==> a <= x <= b || b <= x <= a
  {
    var r := Between(a, b);
    forall x ensures x in All(r) <==> a <= x <= b || b <= x <= a {
      Membership(r, x);
      if a <= x <= b || b <= x <= a {
        assert x == Iterate(r, Abs(x - a));
      } else if x in All(r) {
        var k: nat :| x == Iterate(r, k);
      }
    }
  }

  // Parsing of "first[,last[,step]]".

  function CharAt(s: string, p: nat): char {
    if p < |s| then s[p] else '\0'
  }

  function SkipSpaces(s: string, p: nat): (q: nat)
    requires p <= |s|
    ensures p <= q <= |s|
    decreases |s| - p
  {
    if p < |s| && IsSpace(s[p]) then SkipSpaces(s, p + 1) else p
  }

  function SkipDigits(s: string, p: nat): (q: nat)
    requires p <= |s|
    ensures p <= q <= |s| && forall k :: p <= k < q ==> IsDigit(s[k])
    decreases |s| - p
  {
    if p < |s| && IsDigit(s[p]) then SkipDigits(s, p + 1) else p
  }

  /** strtol saturates at the limits of a 64-bit long. */
  function Saturate(x: int): int {
    if x < -0x8000_0000_0000_0000 then -0x8000_0000_0000_0000
    else if x > 0x7FFF_FFFF_FFFF_FFFF then 0x7FFF_FFFF_FFFF_FFFF
    else x
  }

  /** Conversion of a long to an int keeps the low 32 bits. */
  function ToInt32(x: int): (r: int)
    ensures Fits(r)
  {
    if Fits(x) then x
    else
      var low := x % 0x1_0000_0000;
      if low < 0x8000_0000 then low else low - 0x1_0000_0000
  }

  function Signed(negative: bool, magnitude: nat): int {
    if negative then 0 - magnitude as int else magnitude
  }

  /** parse_int: the number at p and the position after it, or None. */
  function ParseInt(s: string, p: nat): (r: Option<(int, nat)>)
    requires p <= |s|
    ensures r.Some? ==> Fits(r.value.0) && p < r.value.1 <= |s|
  {
    var sign := SkipSpaces(s, p);
    var start := if CharAt(s, sign) == '-' || CharAt(s, sign) == '+' then sign + 1 else sign;
    var end := SkipDigits(s, start);
    if end == start then None
    else Some((ToInt32(Saturate(Signed(CharAt(s, sign) == '-', Value(s[start..end])))), end))
  }

  /** Frames::parse; a string ends at its first NUL. */
  function Parse(spec: string): Option<Range> {
    match ParseInt(spec, 0)
    case None => None
    case Some((first, p)) =>
      if CharAt(spec, p) == ',' then
        match ParseInt(spec, p + 1)
        case None => None
        case Some((last, q)) =>
          if CharAt(spec, q) == ',' then
            match ParseInt(spec, q + 1)
            case None => None
            case Some((step, e)) => if CharAt(spec, e) == '\0' then Some(Range(first, last, step)) else None
          else if CharAt(spec, q) == '\0' then Some(Between(first, last)) else None
      else if CharAt(spec, p) == '\0' then Some(Range(first, first, 1)) else None
  }

  function ShowInt(n: int): (s: string)
    ensures s != []
  {
    if n < 0 then "-" + Show(-n) else Show(n)
  }

  lemma {:induction false} SkipDigitsTo(s: string, p: nat, q: nat)
    requires p <= q <= |s| && (forall k :: p <= k < q ==> IsDigit(s[k])) && !IsDigit(CharAt(s, q))
    ensures SkipDigits(s, p) == q
    decreases q - p
  {
    if p < q {
      SkipDigitsTo(s, p + 1, q);
    }
  }

  /** A number is read back as itself, whatever stands before it and after its last digit. */
  lemma ParseIntShown(a: string, n: int, b: string)
    requires Fits(n) && (b == [] || !IsDigit(b[0]))
    ensures ParseInt(a + ShowInt(n) + b, |a|) == Some((n, |a| + |ShowInt(n)|))
  {
    hide Show, Value, SkipDigits;
    var s, shown := a + ShowInt(n) + b, ShowInt(n);
    var p, q := |a|, |a| + |ShowInt(n)|;
    var digits := Show(if n < 0 then -n else n);
    var start := if n < 0 then p + 1 else p;
    assert s[p] == shown[0] && s[start..q] == digits;
    assert forall k :: start <= k < q ==> s[k] == digits[k - start];
    assert CharAt(s, q) == (if b == [] then '\0' else b[0]);
    assert !IsSpace(s[p]);
    SkipDigitsTo(s, start, q);
    ValueOfShow(if n < 0 then -n else n);
  }

  /** What is written as one, two or three numbers is the range meant, for every int. */
  lemma ParseOne(first: int)
    requires Fits(first)
    ensures Parse(ShowInt(first)) == Some(Range(first, first, 1))
  {
    hide ParseInt;
    ParseIntShown([], first, []);
    assert [] + ShowInt(first) + [] == ShowInt(first);
  }

  lemma ParseTwo(first: int, last: int)
    requires Fits(first) && Fits(last)
    ensures Parse(ShowInt(first) + "," + ShowInt(last)) == Some(Between(first, last))
  {
    hide ParseInt, ShowInt;
    var spec := ShowInt(first) + "," + ShowInt(last);
    ParseIntShown([], first, "," + ShowInt(last));
    assert [] + ShowInt(first) + ("," + ShowInt(last)) == spec;
    ParseIntShown(ShowInt(first) + ",", last, []);
    assert ShowInt(first) + "," + ShowInt(last) + [] == spec;
  }

  lemma ParseThree(first: int, last: int, step: int)
    requires Fits(first) && Fits(last) && Fits(step)
    ensures Parse(ShowInt(first) + "," + ShowInt(last) + "," + ShowInt(step)) == Some(Range(first, last, step))
  {
    hide ParseInt, ShowInt;
    var a, b, c := ShowInt(first), ShowInt(last), ShowInt(step);
    var spec := a + "," + b + "," + c;
    ParseIntShown([], first, "," + b + "," + c);
    assert [] + a + ("," + b + "," + c) == spec;
    ParseIntShown(a + ",", last, "," + c);
    assert a + "," + b + ("," + c) == spec;
    ParseIntShown(a + "," + b + ",", step, []);
    assert a + "," + b + "," + c + [] == spec;
  }

  // Exactly what is accepted, and as which range.

  lemma OneLong(x: int, a: int, b: int)
    requires Nearest(x, a) && Nearest(x, b)
    ensures a == b
  {
  }

  lemma OneInt(long: int, m: int, n: int)
    requires LowBits(long, m) && LowBits(long, n)
    ensures m == n
  {
  }

  lemma LowBitsOf(x: int)
    ensures Nearest(x, Saturate(x)) && LowBits(Saturate(x), ToInt32(Saturate(x)))
  {
  }

  /** No comma and no NUL, and a digit at the end. */
  lemma NumberChars(s: string, n: int)
    requires IsNumber(s, n)
    ensures s != "" && ',' !in s && '\0' !in s && IsDigit(s[|s| - 1])
  {
    hide Value;
    var spaces, sign, digits :| s == spaces + sign + digits && NumberOf(spaces, sign, digits, n);
  }

  lemma {:induction false} SkipSpacesTo(s: string, p: nat, q: nat)
    requires p <= q <= |s| && (forall k :: p <= k < q ==> IsSpace(s[k])) && !IsSpace(CharAt(s, q))
    ensures SkipSpaces(s, p) == q
    decreases q - p
  {
    if p < q {
      SkipSpacesTo(s, p + 1, q);
    }
  }

  lemma {:induction false} SkippedSpaces(s: string, p: nat)
    requires p <= |s|
    ensures forall k :: p <= k < SkipSpaces(s, p) ==> IsSpace(s[k])
    decreases |s| - p
  {
    if p < |s| && IsSpace(s[p]) {
      SkippedSpaces(s, p + 1);
    }
  }

  lemma {:induction false} SkippedAll(s: string, p: nat)
    requires p <= |s|
    ensures !IsDigit(CharAt(s, SkipDigits(s, p)))
    decreases |s| - p
  {
    if p < |s| && IsDigit(s[p]) {
      SkippedAll(s, p + 1);
    }
  }

  /** What is read is a number, and no digit follows it. */
  lemma ReadsNumber(s: string, p: nat)
    requires p <= |s| && ParseInt(s, p).Some?
    ensures var (n, e) := ParseInt(s, p).value; IsNumber(s[p..e], n) && !IsDigit(CharAt(s, e))
  {
    hide Value, SkipDigits, SkipSpaces, ToInt32, Saturate;
    var at := SkipSpaces(s, p);
    var start := if CharAt(s, at) == '-' || CharAt(s, at) == '+' then at + 1 else at;
    var e := SkipDigits(s, start);
    var spaces, sign, digits := s[p..at], s[at..start], s[start..e];
    SkippedSpaces(s, p);
    SkippedAll(s, start);
    var x := Signed(CharAt(s, at) == '-', Value(digits));
    LowBitsOf(x);
    assert x == if sign == "-" then 0 - Value(digits) else Value(digits);
    assert NumberOf(spaces, sign, digits, ParseInt(s, p).value.0);
    PartsMeet(s, p, at, start);
    PartsMeet(s, p, start, e);
  }

  lemma PartsMeet(s: string, p: nat, q: nat, r: nat)
    requires p <= q <= r <= |s|
    ensures s[p..q] + s[q..r] == s[p..r]
  {
  }

  lemma PartOfPart(s: string, p: nat, q: nat, i: nat, j: nat)
    requires p <= q <= |s| && i <= j <= q - p
    ensures s[p..q][i..j] == s[p + i..p + j]
  {
    var a, b := s[p..q][i..j], s[p + i..p + j];
    assert |a| == |b|;
    forall k | 0 <= k < |a| ensures a[k] == b[k] {
      assert a[k] == s[p..q][i + k] == s[p + i + k];
    }
  }

  /** Where the parts of a number are. */
  lemma PartsAt(s: string, p: nat, q: nat, spaces: string, sign: string, digits: string)
    requires p <= q <= |s| && s[p..q] == spaces + sign + digits
    ensures var at := p + |spaces|; var start := at + |sign|;
      start + |digits| == q && s[p..at] == spaces && s[at..start] == sign && s[start..q] == digits
  {
    var n, m := |spaces|, |spaces| + |sign|;
    PartOfPart(s, p, q, 0, n);
    PartOfPart(s, p, q, n, m);
    PartOfPart(s, p, q, m, q - p);
    assert (spaces + sign + digits)[0..n] == spaces && (spaces + sign + digits)[n..m] == sign;
    assert (spaces + sign + digits)[m..q - p] == digits;
  }

  lemma PartsSkipped(s: string, p: nat, at: nat, start: nat, e: nat)
    requires p <= at <= start < e <= |s| && Spaces(s[p..at]) && IsSign(s[at..start])
    requires AllDigits(s[start..e]) && !IsDigit(CharAt(s, e))
    ensures SkipSpaces(s, p) == at && SkipDigits(s, start) == e
    ensures start == if CharAt(s, at) == '-' || CharAt(s, at) == '+' then at + 1 else at
    ensures CharAt(s, at) == '-' <==> s[at..start] == "-"
  {
    hide SkipSpaces, SkipDigits;
    assert forall k :: p <= k < at ==> s[k] == s[p..at][k - p];
    assert forall k :: start <= k < e ==> s[k] == s[start..e][k - start];
    assert at < start ==> s[at] == s[at..start][0];
    SkipSpacesTo(s, p, at);
    SkipDigitsTo(s, start, e);
  }

  /** A number with no digit behind it is read to its end. */
  lemma NumberIsRead(s: string, p: nat, e: nat, n: int)
    requires p <= e <= |s| && IsNumber(s[p..e], n) && !IsDigit(CharAt(s, e))
    ensures ParseInt(s, p) == Some((n, e))
  {
    hide Value, SkipDigits, SkipSpaces, ToInt32, Saturate, IsSign, Spaces, Nearest, LowBits;
    var spaces, sign, digits :| s[p..e] == spaces + sign + digits && NumberOf(spaces, sign, digits, n);
    PartsAt(s, p, e, spaces, sign, digits);
    PartsSkipped(s, p, p + |spaces|, p + |spaces| + |sign|, e);
    var x := Signed(sign == "-", Value(digits));
    var long :| Nearest(x, long) && LowBits(long, n);
    LowBitsOf(x);
    OneLong(x, long, Saturate(x));
    OneInt(long, n, ToInt32(Saturate(x)));
  }

  /** A number behind a comma. */
  lemma CommaBetween(spec: string, p: nat, q: nat)
    requires p < q <= |spec| && spec[p] == ','
    ensures spec[..q] == spec[..p] + "," + spec[p + 1..q]
    ensures '\0' !in spec[..p] && '\0' !in spec[p + 1..q] ==> '\0' !in spec[..q]
  {
    PartsMeet(spec, 0, p, p + 1);
    PartsMeet(spec, 0, p + 1, q);
    assert spec[p..p + 1] == ",";
    assert spec[0..q] == spec[..q] && spec[0..p] == spec[..p];
    var whole := spec[..p] + "," + spec[p + 1..q];
    assert '\0' in whole ==> '\0' in spec[..p] || '\0' in spec[p + 1..q];
  }

  lemma EndsCString(spec: string, e: nat)
    requires e <= |spec| && '\0' !in spec[..e] && CharAt(spec, e) == '\0'
    ensures CString(spec, spec[..e])
  {
  }

  lemma AcceptedDenotes(spec: string)
    requires Parse(spec).Some?
    ensures var r := Parse(spec).value; exists s :: CString(spec, s) && Denotes(s, r.first, r.last, r.step)
  {
    hide ParseInt, IsNumber, CString;
    var r := Parse(spec).value;
    var (first, p) := ParseInt(spec, 0).value;
    ReadsNumber(spec, 0);
    assert spec[0..p] == spec[..p];
    NumberChars(spec[..p], first);
    if CharAt(spec, p) == ',' {
      var (last, q) := ParseInt(spec, p + 1).value;
      ReadsNumber(spec, p + 1);
      NumberChars(spec[p + 1..q], last);
      CommaBetween(spec, p, q);
      if CharAt(spec, q) == ',' {
        var (step, e) := ParseInt(spec, q + 1).value;
        ReadsNumber(spec, q + 1);
        NumberChars(spec[q + 1..e], step);
        CommaBetween(spec, q, e);
        EndsCString(spec, e);
        assert ThreeNumbers(spec[..e], r.first, r.last, r.step);
      } else {
        EndsCString(spec, q);
        assert TwoNumbers(spec[..q], r.first, r.last);
      }
    } else {
      EndsCString(spec, p);
    }
  }

  lemma OneAccepted(spec: string, s: string, first: int)
    requires CString(spec, s) && IsNumber(s, first)
    ensures Parse(spec) == Some(Range(first, first, 1))
  {
    hide ParseInt, IsNumber;
    assert spec[0..|s|] == s;
    NumberIsRead(spec, 0, |s|, first);
  }

  lemma TwoAccepted(spec: string, a: string, b: string, first: int, last: int)
    requires CString(spec, a + "," + b) && IsNumber(a, first) && IsNumber(b, last)
    ensures Parse(spec) == Some(Between(first, last))
  {
    hide ParseInt, IsNumber;
    var s, p := a + "," + b, |a|;
    assert spec[..|s|] == s;
    assert spec[0..p] == s[0..p] == a && spec[p] == s[p] == ',';
    assert spec[p + 1..|s|] == s[p + 1..] == b;
    NumberIsRead(spec, 0, p, first);
    NumberIsRead(spec, p + 1, |s|, last);
  }

  lemma ThreeAccepted(spec: string, a: string, b: string, c: string, first: int, last: int, step: int)
    requires CString(spec, a + "," + b + "," + c) && IsNumber(a, first) && IsNumber(b, last) && IsNumber(c, step)
    ensures Parse(spec) == Some(Range(first, last, step))
  {
    hide ParseInt, IsNumber;
    var s, p, q := a + "," + b + "," + c, |a|, |a| + 1 + |b|;
    assert spec[..|s|] == s;
    assert spec[0..p] == s[0..p] == a && spec[p] == s[p] == ',';
    assert spec[p + 1..q] == s[p + 1..q] == b && spec[q] == s[q] == ',';
    assert spec[q + 1..|s|] == s[q + 1..] == c;
    NumberIsRead(spec, 0, p, first);
    NumberIsRead(spec, p + 1, q, last);
    NumberIsRead(spec, q + 1, |s|, step);
  }

  lemma DenotedIsAccepted(spec: string, s: string, r: Range)
    requires CString(spec, s) && Denotes(s, r.first, r.last, r.step)
    ensures Parse(spec) == Some(r)
  {
    hide ParseInt, IsNumber, CString;
    if ThreeNumbers(s, r.first, r.last, r.step) {
      var a, b, c :| s == a + "," + b + "," + c && IsNumber(a, r.first) && IsNumber(b, r.last) && IsNumber(c, r.step);
      ThreeAccepted(spec, a, b, c, r.first, r.last, r.step);
    } else if TwoNumbers(s, r.first, r.last) && r.step == Between(r.first, r.last).step {
      var a, b :| s == a + "," + b && IsNumber(a, r.first) && IsNumber(b, r.last);
      TwoAccepted(spec, a, b, r.first, r.last);
    } else {
      OneAccepted(spec, s, r.first);
    }
  }

  /** Accepted are exactly the specifications, and each as the range it denotes. */
  lemma ParseExactly(spec: string)
    ensures Parse(spec).Some? <==> IsSpecification(spec)
    ensures forall s, first, last, step ::
      CString(spec, s) && Denotes(s, first, last, step) ==> Parse(spec) == Some(Range(first, last, step))
  {
    hide Parse, Denotes;
    forall s, first, last, step | CString(spec, s) && Denotes(s, first, last, step)
      ensures Parse(spec) == Some(Range(first, last, step))
    {
      DenotedIsAccepted(spec, s, Range(first, last, step));
    }
    if Parse(spec).Some? {
      AcceptedDenotes(spec);
    }
  }

  lemma EndsInDigit(s: string, first: int, last: int, step: int)
    requires Denotes(s, first, last, step)
    ensures s != "" && IsDigit(s[|s| - 1])
  {
    hide IsNumber;
    if IsNumber(s, first) {
      NumberChars(s, first);
    } else if TwoNumbers(s, first, last) {
      var a, b :| s == a + "," + b && IsNumber(a, first) && IsNumber(b, last);
      NumberChars(b, last);
    } else {
      var a, b, c :| s == a + "," + b + "," + c && IsNumber(a, first) && IsNumber(b, last) && IsNumber(c, step);
      NumberChars(c, step);
    }
  }

  /** What does not end in a digit is refused, such as a specification with anything else behind it. */
  lemma RefusedBehind(spec: string)
    requires '\0' !in spec && (spec == "" || !IsDigit(spec[|spec| - 1]))
    ensures Parse(spec) == None
  {
    hide Parse, Denotes;
    ParseExactly(spec);
    if s, first, last, step :| CString(spec, s) && Denotes(s, first, last, step) {
      assert s == spec;
      EndsInDigit(s, first, last, step);
    }
  }

  class Frames {
    var first: int32
    var last: int32
    var step: int32

    function View(): Range
      reads this
    {
      Range(first as int, last as int, step as int)
    }

    constructor (first: int32, last: int32, step: int32)
      ensures View() == Range(first as int, last as int, step as int)
    {
      this.first, this.last, this.step := first, last, step;
    }

    /** A failed parse may leave some fields set, as the original does. */
    method ParseSpec(spec: string) returns (success: bool)
      modifies this
      ensures match Parse(spec)
        case Some(r) => success && View() == r
        case None => !success
      ensures success <==> IsSpecification(spec)
      ensures forall s, first, last, step ::
        CString(spec, s) && Denotes(s, first, last, step) ==> View() == Range(first, last, step)
    {
      hide SkipDigits, SkipSpaces, Value, Saturate, ToInt32, IsSpecification, Denotes, CString;
      ParseExactly(spec);
      var number := ParseInt(spec, 0);
      if number == None {
        return false;
      }
      first := number.value.0 as int32;
      var p := number.value.1;
      if CharAt(spec, p) == ',' {
        number := ParseInt(spec, p + 1);
        if number == None {
          return false;
        }
        last := number.value.0 as int32;
        p := number.value.1;
        if CharAt(spec, p) == ',' {
          number := ParseInt(spec, p + 1);
          if number == None {
            return false;
          }
          step := number.value.0 as int32;
          p := number.value.1;
        } else {
          step := if first <= last then 1 else -1;
        }
      } else {
        last := first;
        step := 1;
      }
      success := CharAt(spec, p) == '\0';
    }

    function IsDone(frame: int32): (done: bool)
      reads this
      ensures done <==> PastEnd(View(), frame as int)
    {
      if step > 0 then frame > last else frame < last
    }

    /**
     * The loop leaves the 32-bit range exactly if the value one step beyond
     * the last frame does, and ends exactly under Ends.
     */
    method GetAll() returns (all: seq<int>)
      requires Ends(View()) && Fits(Iterate(View(), Count(View())))
      ensures all == All(View())
    {
      var r := View();
      var frame := first;
      all := [];
      InRangeExactly(r, 0);
      while !IsDone(frame)
        invariant |all| <= Count(r) && all == All(r)[..|all|]
        invariant frame as int == Iterate(r, |all|)
        invariant PastEnd(r, frame as int) <==> |all| == Count(r)
        decreases Count(r) - |all|
      {
        NextFits(r, |all| + 1);
        all := all + [frame as int];
        frame := (frame as int + step as int) as int32;
        InRangeExactly(r, |all|);
      }
    }
  }

  lemma NextFits(r: Range, k: nat)
    requires Ends(r) && 0 < k <= Count(r) && Fits(r.first) && Fits(Iterate(r, Count(r)))
    ensures Fits(Iterate(r, k)) && Iterate(r, k) == Iterate(r, k - 1) + r.step
  {
    var n := Count(r);
    if r.step > 0 {
      MulMonotone(0, k, r.step);
      MulMonotone(k, n, r.step);
    } else {
      MulMonotone(0, k, -r.step);
      MulMonotone(k, n, -r.step);
      assert k * -r.step == -(k * r.step) && n * -r.step == -(n * r.step);
    }
    assert k * r.step == (k - 1) * r.step + r.step;
  }

  /**
   * No value the loop variable takes overflows exactly if the one it stops at
   * does not, and that one is not a frame itself.
   */
  lemma NoOverflowExactly(r: Range)
    requires Ends(r) && Fits(r.first)
    ensures Fits(Iterate(r, Count(r))) <==> forall k: nat :: k <= Count(r) ==> Fits(Iterate(r, k))
  {
    if Fits(Iterate(r, Count(r))) {
      forall k: nat | k <= Count(r) ensures Fits(Iterate(r, k)) {
        if k > 0 {
          NextFits(r, k);
        }
      }
    }
  }
}

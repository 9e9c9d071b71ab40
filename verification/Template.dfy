/** Filename templates: src/util.cpp, lines 84-162. */
module Template {
  import opened Wrappers
  import opened Decimal

  /** A parameter occupies template[begin..end]; its width is 0 for "%d". */
  datatype Match = Match(begin: nat, end: nat, width: nat)

  /** The C string: reading at or past the end yields the terminating NUL. */
  function CharAt(s: string, p: nat): char {
    if p < |s| then s[p] else '\0'
  }

  predicate DigitsIn(s: string, lo: nat, hi: nat)
    requires lo <= hi <= |s|
  {
    forall k :: lo <= k < hi ==> IsDigit(s[k])
  }

  /** str[begin..end] is "%d", or "%0" followed by digits and 'd'. */
  predicate IsParameter(s: string, begin: nat, end: nat) {
    && begin + 2 <= end <= |s|
    && s[begin] == '%'
    && s[end - 1] == 'd'
    && DigitsIn(s, begin + 1, end - 1)
    && (begin + 2 < end ==> s[begin + 1] == '0')
  }

  /** A C string ends at the first NUL, so nothing after one is ever looked at. */
  predicate Visible(s: string, p: nat) {
    p <= |s| && '\0' !in s[..p]
  }

  ghost predicate IsLeftmost(s: string, m: Match) {
    && IsParameter(s, m.begin, m.end)
    && Visible(s, m.begin)
    && m.width == Value(s[m.begin + 1..m.end - 1])
    && forall b: nat, e: nat :: IsParameter(s, b, e) ==> m.begin <= b
  }

  ghost predicate HasNone(s: string) {
    forall b: nat, e: nat :: IsParameter(s, b, e) ==> !Visible(s, b)
  }

  function DigitsEnd(s: string, p: nat): (q: nat)
    requires p <= |s|
    ensures p <= q <= |s| && DigitsIn(s, p, q)
    ensures !IsDigit(CharAt(s, q))
    decreases |s| - p
  {
    if p < |s| && IsDigit(s[p]) then DigitsEnd(s, p + 1) else p
  }

  /** Position by position search for the leftmost parameter. */
  function FindFrom(s: string, p: nat): (r: Option<Match>)
    requires p <= |s|
    decreases |s| - p
  {
    if p == |s| || s[p] == '\0' then
      None
    else
      var q := DigitsEnd(s, p + 1);
      if IsParameter(s, p, q + 1) then Some(Match(p, q + 1, Value(s[p + 1..q]))) else FindFrom(s, p + 1)
  }

  function FindParameter(s: string): Option<Match> {
    FindFrom(s, 0)
  }

  predicate StringHasParameter(s: string) {
    FindParameter(s).Some?
  }

  lemma ParameterEndsAtDigits(s: string, b: nat, e: nat)
    requires IsParameter(s, b, e)
    ensures e == DigitsEnd(s, b + 1) + 1
  {
    assert !IsDigit(s[e - 1]);
  }

  lemma {:induction false} FindFromCorrect(s: string, p: nat)
    requires p <= |s| && Visible(s, p)
    requires forall b: nat, e: nat :: IsParameter(s, b, e) ==> p <= b
    ensures match FindFrom(s, p) case Some(m) => IsLeftmost(s, m) case None => HasNone(s)
    decreases |s| - p
  {
    if p < |s| && s[p] != '\0' {
      var q := DigitsEnd(s, p + 1);
      if !IsParameter(s, p, q + 1) {
        forall b: nat, e: nat | IsParameter(s, b, e) ensures p + 1 <= b {
          ParameterEndsAtDigits(s, b, e);
        }
        assert s[..p + 1] == s[..p] + [s[p]];
        FindFromCorrect(s, p + 1);
      } else {
        assert q + 1 - 1 == q;
      }
    } else {
      forall b: nat, e: nat | IsParameter(s, b, e) ensures !Visible(s, b) {
        assert p < b ==> s[..b][p] == s[p];
      }
    }
  }

  /**
   * The scanner returns the leftmost parameter with its extent and width, and
   * fails exactly when the C string holds none.
   */
  lemma LeftmostMatch(s: string)
    ensures match FindParameter(s) case Some(m) => IsLeftmost(s, m) case None => HasNone(s)
    ensures StringHasParameter(s) <==> exists b: nat, e: nat :: IsParameter(s, b, e) && Visible(s, b)
  {
    FindFromCorrect(s, 0);
    if FindParameter(s).Some? {
      var m := FindParameter(s).value;
      assert IsParameter(s, m.begin, m.end) && Visible(s, m.begin);
    }
  }

  /** strchr: the first '%' at or after p, or None at the terminating NUL. */
  function StrChr(s: string, p: nat): (r: Option<nat>)
    requires p <= |s|
    ensures r.Some? ==> p <= r.value < |s| && s[r.value] == '%'
    decreases |s| - p
  {
    if p == |s| || s[p] == '\0' then None else if s[p] == '%' then Some(p) else StrChr(s, p + 1)
  }

  lemma {:induction false} StrChrSkips(s: string, p: nat)
    requires p <= |s|
    ensures match StrChr(s, p) case Some(q) => FindFrom(s, p) == FindFrom(s, q) case None => FindFrom(s, p) == None
    decreases |s| - p
  {
    if p < |s| && s[p] != '\0' && s[p] != '%' {
      StrChrSkips(s, p + 1);
    }
  }

  /** Digits hold no parameter, so the scan may resume after them. */
  lemma {:induction false} DigitsSkip(s: string, p: nat, q: nat)
    requires p <= q <= |s| && DigitsIn(s, p, q)
    ensures FindFrom(s, p) == FindFrom(s, q)
    decreases q - p
  {
    if p < q {
      DigitsSkip(s, p + 1, q);
    }
  }

  /**
   * The pointer scan with its skip over the digits of a failed match, against
   * the position by position search.
   */
  method ScanForParameter(s: string) returns (found: bool, begin: nat, end: nat, width: nat)
    ensures FindParameter(s) == if found then Some(Match(begin, end, width)) else None
  {
    hide FindFrom, DigitsEnd, StrChr;
    var p := 0;
    begin, end, width := 0, 0, 0;
    while true
      invariant p <= |s|
      invariant FindFrom(s, p) == FindFrom(s, 0)
      decreases |s| - p
    {
      StrChrSkips(s, p);
      var percent := StrChr(s, p);
      if percent == None {
        return false, begin, end, width;
      }
      p := percent.value;
      begin := p;
      p := p + 1;
      if CharAt(s, p) == '0' || CharAt(s, p) == 'd' {
        width := 0;
        while IsDigit(CharAt(s, p))
          invariant begin + 1 <= p <= |s|
          invariant DigitsIn(s, begin + 1, p) && width == Value(s[begin + 1..p])
          decreases |s| - p
        {
          ReadDigit(s, begin + 1, p);
          width := 10 * width + DigitValue(s[p]);
          p := p + 1;
        }
        if CharAt(s, p) == 'd' {
          end := p + 1;
          MatchIsFound(s, begin, end);
          return true, begin, end, width;
        }
      }
      FailedMatchSkips(s, begin, p);
    }
  }

  lemma ReadDigit(s: string, lo: nat, p: nat)
    requires lo <= p < |s| && DigitsIn(s, lo, p + 1)
    ensures Value(s[lo..p + 1]) == 10 * Value(s[lo..p]) + DigitValue(s[p])
  {
    assert s[lo..p + 1][..p - lo] == s[lo..p];
  }

  lemma MatchIsFound(s: string, begin: nat, end: nat)
    requires IsParameter(s, begin, end)
    ensures FindFrom(s, begin) == Some(Match(begin, end, Value(s[begin + 1..end - 1])))
  {
    ParameterEndsAtDigits(s, begin, end);
  }

  /** After a '%' that starts no parameter the scan resumes past the digits read. */
  lemma FailedMatchSkips(s: string, begin: nat, p: nat)
    requires begin < p <= |s| && s[begin] == '%' && DigitsIn(s, begin + 1, p)
    requires p == begin + 1 || !IsDigit(CharAt(s, p))
    requires CharAt(s, begin + 1) == '0' || CharAt(s, begin + 1) == 'd' ==>
      CharAt(s, p) != 'd' && !IsDigit(CharAt(s, p))
    ensures FindFrom(s, begin) == FindFrom(s, p)
  {
    assert !IsParameter(s, begin, DigitsEnd(s, begin + 1) + 1);
    DigitsSkip(s, begin + 1, p);
  }

  /** substitute_parameter: every parameter replaced by the value, left to right. */
  function Substitute(s: string, value: int): string
    decreases |s|
  {
    if value >= 0 && FindParameter(s).Some? then
      LeftmostMatch(s);
      var m := FindParameter(s).value;
      s[..m.begin] + Render(value, m.width) + Substitute(s[m.end..], value)
    else
      s
  }

  /**
   * Substitution is the identity exactly for a negative value or a string
   * without parameter.
   */
  lemma SubstituteIdentity(s: string, value: int)
    ensures Substitute(s, value) == s <==> value < 0 || !StringHasParameter(s)
  {
    if value >= 0 && StringHasParameter(s) {
      LeftmostMatch(s);
      var m := FindParameter(s).value;
      var digits := Render(value, m.width);
      assert Substitute(s, value)[m.begin] == digits[0];
    }
  }

  lemma {:induction false} LengthGrows(s: string, a: nat, b: nat)
    requires a <= b
    ensures |Substitute(s, a)| <= |Substitute(s, b)|
    decreases |s|
  {
    LeftmostMatch(s);
    if FindParameter(s).Some? {
      LengthMonotone(a, b);
      LengthGrows(s[FindParameter(s).value.end..], a, b);
    }
  }

  lemma OrderedValuesDiffer(s: string, a: nat, b: nat)
    requires a < b && StringHasParameter(s)
    ensures Substitute(s, a) != Substitute(s, b)
  {
    LeftmostMatch(s);
    var m := FindParameter(s).value;
    var ra, rb := Render(a, m.width), Render(b, m.width);
    LengthMonotone(a, b);
    LengthGrows(s[m.end..], a, b);
    if Substitute(s, a) == Substitute(s, b) {
      assert |ra| == |rb|;
      assert ra == Substitute(s, a)[m.begin..m.begin + |ra|];
      assert rb == Substitute(s, b)[m.begin..m.begin + |rb|];
      ValueOfRender(a, m.width);
      ValueOfRender(b, m.width);
    }
  }

  /**
   * Two frames are given the same name exactly when they are the same frame or
   * the template has no parameter.
   */
  lemma Injective(s: string, a: nat, b: nat)
    ensures Substitute(s, a) == Substitute(s, b) <==> a == b || !StringHasParameter(s)
  {
    if StringHasParameter(s) {
      if a < b {
        OrderedValuesDiffer(s, a, b);
      } else if b < a {
        OrderedValuesDiffer(s, b, a);
      }
    }
  }

  predicate HasDotDot(s: string) {
    exists k :: 0 <= k < |s| - 1 && s[k] == '.' && s[k + 1] == '.'
  }

  /** Neither absolute nor holding two consecutive dots. */
  predicate IsPathnameLocal(s: string) {
    !(|s| > 0 && s[0] == '/') && !HasDotDot(s)
  }

  /** A non-empty dot-free middle keeps two dots from meeting. */
  lemma DotDotSplits(a: string, mid: string, b: string)
    requires mid != [] && '.' !in mid
    ensures HasDotDot(a + mid + b) <==> HasDotDot(a) || HasDotDot(b)
  {
    var s := a + mid + b;
    var n := |a| + |mid|;
    assert forall k :: |a| <= k < n ==> s[k] == mid[k - |a|];
    if HasDotDot(s) {
      var k :| 0 <= k < |s| - 1 && s[k] == '.' && s[k + 1] == '.';
      if k < |a| {
        assert a[k] == s[k] && a[k + 1] == s[k + 1];
      } else {
        assert b[k - n] == s[k] && b[k + 1 - n] == s[k + 1];
      }
    }
    if HasDotDot(a) {
      var k :| 0 <= k < |a| - 1 && a[k] == '.' && a[k + 1] == '.';
      assert s[k] == a[k] && s[k + 1] == a[k + 1];
    }
    if HasDotDot(b) {
      var k :| 0 <= k < |b| - 1 && b[k] == '.' && b[k + 1] == '.';
      assert s[k + n] == b[k] && s[k + n + 1] == b[k + 1];
    }
  }

  lemma ParameterHasNoDot(s: string, b: nat, e: nat)
    requires IsParameter(s, b, e)
    ensures '.' !in s[b..e]
  {
    assert forall k :: b <= k < e ==> s[k] != '.';
  }

  lemma {:induction false} SubstituteKeepsDots(s: string, value: int)
    ensures HasDotDot(Substitute(s, value)) <==> HasDotDot(s)
    decreases |s|
  {
    LeftmostMatch(s);
    if value >= 0 && FindParameter(s).Some? {
      var m := FindParameter(s).value;
      SubstituteKeepsDots(s[m.end..], value);
      ParameterHasNoDot(s, m.begin, m.end);
      assert s == s[..m.begin] + s[m.begin..m.end] + s[m.end..];
      DotDotSplits(s[..m.begin], s[m.begin..m.end], s[m.end..]);
      DotDotSplits(s[..m.begin], Render(value, m.width), Substitute(s[m.end..], value));
    }
  }

  /** A template is local exactly when each of its substitutions is. */
  lemma LocalitySurvives(s: string, value: int)
    ensures IsPathnameLocal(Substitute(s, value)) <==> IsPathnameLocal(s)
  {
    SubstituteKeepsDots(s, value);
    LeftmostMatch(s);
    if value >= 0 && FindParameter(s).Some? {
      var m := FindParameter(s).value;
      if m.begin == 0 {
        assert Substitute(s, value)[0] == Render(value, m.width)[0];
      }
    }
  }
}

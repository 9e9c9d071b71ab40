/** Templates that hold a parameter again after substitution. */
module Twice {
  import opened Wrappers
  import opened Decimal
  import opened Template

  // A template from its front.

  /** Where a parameter at the front would end. */
  function FrontEnd(s: string): nat
    requires s != ""
  {
    DigitsEnd(s, 1) + 1
  }

  /** The string begins with a parameter. */
  predicate Starts(s: string) {
    s != "" && IsParameter(s, 0, FrontEnd(s))
  }

  function FrontWidth(s: string): nat
    requires Starts(s)
  {
    Value(s[1..FrontEnd(s) - 1])
  }

  /** Nothing but digits up to a 'd'. */
  predicate RunsOn(s: string) {
    s != "" && (s[0] == 'd' || (IsDigit(s[0]) && RunsOn(s[1..])))
  }

  lemma {:induction false} DigitsRunOn(s: string, p: nat)
    requires p <= |s|
    ensures RunsOn(s[p..]) <==> DigitsEnd(s, p) < |s| && s[DigitsEnd(s, p)] == 'd'
    decreases |s| - p
  {
    if p < |s| {
      assert s[p..][0] == s[p] && s[p..][1..] == s[p + 1..];
      if IsDigit(s[p]) {
        DigitsRunOn(s, p + 1);
      }
    }
  }

  lemma StartsExactly(s: string)
    ensures Starts(s) <==> |s| >= 2 && s[0] == '%' && (s[1] == 'd' || (s[1] == '0' && RunsOn(s[2..])))
  {
    if |s| >= 2 {
      DigitsRunOn(s, 2);
    }
  }

  lemma {:induction false} DigitsShift(s: string, p: nat)
    requires s != "" && p <= |s| - 1
    ensures DigitsEnd(s, p + 1) == DigitsEnd(s[1..], p) + 1
    decreases |s| - p
  {
    if p < |s| - 1 && IsDigit(s[p + 1]) {
      DigitsShift(s, p + 1);
    }
  }

  function Shifted(m: Option<Match>): Option<Match> {
    match m case None => None case Some(x) => Some(Match(x.begin + 1, x.end + 1, x.width))
  }

  lemma ParameterShift(s: string, b: nat, e: nat)
    requires s != ""
    ensures IsParameter(s, b + 1, e + 1) <==> IsParameter(s[1..], b, e)
  {
    if b + 2 <= e <= |s| - 1 {
      assert forall k :: b + 1 <= k < e - 1 ==> s[1..][k] == s[k + 1];
      assert forall k :: b + 2 <= k < e ==> s[k] == s[1..][k - 1];
    }
  }

  lemma {:induction false} FindShift(s: string, p: nat)
    requires s != "" && p <= |s| - 1
    ensures FindFrom(s, p + 1) == Shifted(FindFrom(s[1..], p))
    decreases |s| - p
  {
    hide IsParameter, DigitsEnd;
    if p < |s| - 1 && s[p + 1] != '\0' {
      DigitsShift(s, p + 1);
      var q := DigitsEnd(s[1..], p + 1);
      ParameterShift(s, p, q + 1);
      if IsParameter(s[1..], p, q + 1) {
        assert s[p + 2..q + 1] == s[1..][p + 1..q];
      } else {
        FindShift(s, p + 1);
      }
    }
  }

  /** Looking for a parameter from the front. */
  lemma FromFront(s: string)
    ensures StringHasParameter(s) <==> s != "" && s[0] != '\0' && (Starts(s) || StringHasParameter(s[1..]))
    ensures Starts(s) ==> FindParameter(s) == Some(Match(0, FrontEnd(s), FrontWidth(s)))
    ensures s != "" && s[0] != '\0' && !Starts(s) ==> FindParameter(s) == Shifted(FindParameter(s[1..]))
  {
    if s != "" {
      FindShift(s, 0);
    }
  }

  lemma Extent(s: string)
    ensures Starts(s) ==> 2 <= FrontEnd(s) <= |s|
    ensures StringHasParameter(s) ==> FindParameter(s).value.begin < FindParameter(s).value.end <= |s|
  {
    LeftmostMatch(s);
  }

  /** Behind the first character the rest is substituted by itself. */
  lemma SubstituteBehind(s: string, value: nat)
    requires s != "" && FindParameter(s) == Shifted(FindParameter(s[1..]))
    ensures Substitute(s, value) == [s[0]] + Substitute(s[1..], value)
  {
    hide IsParameter, DigitsEnd, FindFrom;
    if FindParameter(s).Some? {
      Extent(s[1..]);
      var m := FindParameter(s[1..]).value;
      assert s[..m.begin + 1] == [s[0]] + s[1..][..m.begin];
      assert s[m.end + 1..] == s[1..][m.end..];
    }
  }

  /** Substituting from the front. */
  lemma SubstituteFront(s: string, value: nat)
    ensures s == "" || s[0] == '\0' ==> Substitute(s, value) == s
    ensures Starts(s) ==> FrontEnd(s) <= |s|
    ensures Starts(s) ==>
      Substitute(s, value) == Render(value, FrontWidth(s)) + Substitute(s[FrontEnd(s)..], value)
    ensures s != "" && s[0] != '\0' && !Starts(s) ==> Substitute(s, value) == [s[0]] + Substitute(s[1..], value)
  {
    hide IsParameter, DigitsEnd, FindFrom;
    FromFront(s);
    Extent(s);
    if Starts(s) {
      assert s[..0] == "";
    } else if s != "" && s[0] != '\0' {
      SubstituteBehind(s, value);
    }
  }

  // What the substituted digits become part of.

  /** Printed to this width the number begins with a zero. */
  predicate ZeroLed(value: nat, width: nat) {
    value == 0 || width > |Show(value)|
  }

  lemma {:induction false} ShowsNoZero(n: nat)
    ensures Show(n)[0] == '0' <==> n == 0
  {
    if n >= 10 {
      ShowsNoZero(n / 10);
      assert Show(n)[0] == Show(n / 10)[0];
    }
  }

  lemma ZeroLedExactly(value: nat, width: nat)
    ensures Render(value, width)[0] == '0' <==> ZeroLed(value, width)
  {
    ShowsNoZero(value);
  }

  /** Behind "%0": digits and parameters up to a 'd'. */
  predicate Continues(s: string)
    decreases |s|
  {
    s != "" && if Starts(s) then Continues(s[FrontEnd(s)..])
               else s[0] == 'd' || (IsDigit(s[0]) && Continues(s[1..]))
  }

  /** Behind a '%': a zero, or a parameter whose digits begin with one, and so on up to a 'd'. */
  predicate Opens(s: string, value: nat) {
    s != "" && if Starts(s) then ZeroLed(value, FrontWidth(s)) && Continues(s[FrontEnd(s)..])
               else s[0] == '0' && Continues(s[1..])
  }

  /** Outside of its parameters the template has a '%' that opens one through the digits of others. */
  predicate Gains(s: string, value: nat)
    decreases |s|
  {
    s != "" && s[0] != '\0'
    && if Starts(s) then Gains(s[FrontEnd(s)..], value)
       else (s[0] == '%' && Opens(s[1..], value)) || Gains(s[1..], value)
  }

  lemma {:induction false} DigitsRun(digits: string, s: string)
    requires AllDigits(digits)
    ensures RunsOn(digits + s) <==> RunsOn(s)
  {
    if digits == "" {
      assert digits + s == s;
    } else {
      assert (digits + s)[1..] == digits[1..] + s;
      DigitsRun(digits[1..], s);
    }
  }

  lemma {:induction false} ContinuesExactly(s: string, value: nat)
    ensures RunsOn(Substitute(s, value)) <==> Continues(s)
    decreases |s|
  {
    hide Starts, Substitute, Render;
    SubstituteFront(s, value);
    if Starts(s) {
      Extent(s);
      StartsExactly(s);
      DigitsRun(Render(value, FrontWidth(s)), Substitute(s[FrontEnd(s)..], value));
      ContinuesExactly(s[FrontEnd(s)..], value);
    } else if s != "" && s[0] != '\0' {
      assert ([s[0]] + Substitute(s[1..], value))[1..] == Substitute(s[1..], value);
      ContinuesExactly(s[1..], value);
    }
  }

  /** Whether a '%' that began no parameter begins one now. */
  lemma OpensExactly(s: string, value: nat)
    requires s != "" && s[0] == '%' && !Starts(s)
    ensures Starts(Substitute(s, value)) <==> Opens(s[1..], value)
  {
    hide Starts, Substitute, Render;
    var rest := s[1..];
    var after := Substitute(rest, value);
    SubstituteFront(s, value);
    SubstituteFront(rest, value);
    StartsExactly(s);
    StartsExactly(Substitute(s, value));
    assert Substitute(s, value)[1..] == after;
    assert |after| >= 1 ==> Substitute(s, value)[2..] == after[1..];
    if Starts(rest) {
      Extent(rest);
      StartsExactly(rest);
      var digits := Render(value, FrontWidth(rest));
      ZeroLedExactly(value, FrontWidth(rest));
      assert after[1..] == digits[1..] + Substitute(rest[FrontEnd(rest)..], value);
      DigitsRun(digits[1..], Substitute(rest[FrontEnd(rest)..], value));
      ContinuesExactly(rest[FrontEnd(rest)..], value);
    } else if rest != "" && rest[0] != '\0' {
      assert after[1..] == Substitute(rest[1..], value);
      ContinuesExactly(rest[1..], value);
    }
  }

  lemma {:induction false} DigitsHoldNone(digits: string, s: string)
    requires AllDigits(digits)
    ensures StringHasParameter(digits + s) <==> StringHasParameter(s)
  {
    hide StringHasParameter, Starts;
    if digits == "" {
      assert digits + s == s;
    } else {
      assert (digits + s)[1..] == digits[1..] + s;
      FromFront(digits + s);
      StartsExactly(digits + s);
      DigitsHoldNone(digits[1..], s);
    }
  }

  lemma {:induction false} GainsExactly(s: string, value: nat)
    ensures StringHasParameter(Substitute(s, value)) <==> Gains(s, value)
    decreases |s|
  {
    hide Starts, Substitute, Render, StringHasParameter, Opens;
    SubstituteFront(s, value);
    var after := Substitute(s, value);
    FromFront(after);
    if Starts(s) {
      Extent(s);
      StartsExactly(s);
      DigitsHoldNone(Render(value, FrontWidth(s)), Substitute(s[FrontEnd(s)..], value));
      GainsExactly(s[FrontEnd(s)..], value);
    } else if s != "" && s[0] != '\0' {
      assert after[1..] == Substitute(s[1..], value);
      GainsExactly(s[1..], value);
      StartsExactly(after);
      if s[0] == '%' {
        OpensExactly(s, value);
      }
    }
  }

  /**
   * Substituting twice is substituting once exactly if no '%' of the template,
   * outside of its parameters, is followed by a zero, given or printed, and
   * then by digits and parameters up to a 'd'; that is, if the first time
   * leaves no parameter.
   */
  lemma TwiceExactly(s: string, value: int)
    ensures Substitute(Substitute(s, value), value) == Substitute(s, value) <==> value < 0 || !Gains(s, value)
    ensures value >= 0 ==> (Gains(s, value) <==> StringHasParameter(Substitute(s, value)))
  {
    SubstituteIdentity(Substitute(s, value), value);
    if value >= 0 {
      GainsExactly(s, value);
    }
  }

  /** It may leave one: "%0" and "d" meet around a substituted 5. */
  lemma TwiceDiffers()
    ensures Substitute("%0%dd", 5) == "%05d" && Substitute("%05d", 5) == "00005"
  {
    FirstTime();
    SecondTime();
  }

  lemma FirstTime()
    ensures Substitute("%0%dd", 5) == "%05d"
  {
    assert Show(5) == "5";
    OneParameter("%0%dd", 2, 4);
    NoParameter("d");
    assert "%0%dd"[3..3] == "" && "%0%dd"[..2] == "%0" && "%0%dd"[4..] == "d";
  }

  lemma SecondTime()
    ensures Substitute("%05d", 5) == "00005"
  {
    assert Show(5) == "5";
    OneParameter("%05d", 0, 4);
    NoParameter("");
    assert Value("05") == 5 by {
      assert "05"[..1] == "0" && "0"[..0] == "";
    }
    assert "%05d"[1..3] == "05" && "%05d"[..0] == "" && "%05d"[4..] == "";
    assert Zeros(4) + "5" == "00005";
  }

  lemma OneParameter(s: string, begin: nat, end: nat)
    requires IsParameter(s, begin, end) && Visible(s, begin)
    requires forall b: nat, e: nat :: IsParameter(s, b, e) ==> begin <= b
    ensures FindParameter(s) == Some(Match(begin, end, Value(s[begin + 1..end - 1])))
  {
    LeftmostMatch(s);
    var m := FindParameter(s).value;
    ParameterEndsAtDigits(s, begin, end);
    ParameterEndsAtDigits(s, m.begin, m.end);
  }

  lemma NoParameter(s: string)
    requires '%' !in s
    ensures !StringHasParameter(s)
  {
    LeftmostMatch(s);
  }

  /** A printed zero makes "%0" of a '%'; without one nothing is gained. */
  lemma ValueMatters()
    ensures StringHasParameter(Substitute("%%02dd", 5)) && !StringHasParameter(Substitute("%%02dd", 55))
  {
    var s, rest := "%%02dd", "%02dd";
    assert s[1..] == rest;
    FirstPercent();
    Padded();
    GainsExactly(s, 5);
    GainsExactly(s, 55);
  }

  lemma FirstPercent()
    ensures !Starts("%%02dd")
  {
    StartsExactly("%%02dd");
  }

  lemma Padded()
    ensures Starts("%02dd") && FrontEnd("%02dd") == 4 && FrontWidth("%02dd") == 2
    ensures ZeroLed(5, 2) && !ZeroLed(55, 2) && Continues("d") && "%02dd"[4..] == "d"
    ensures !Gains("d", 55)
  {
    assert Value("02") == 2 by {
      assert "02"[..1] == "0" && "0"[..0] == "";
    }
    assert "%02dd"[1..3] == "02";
    assert Show(55) == Show(5) + [DigitChar(5)];
    StartsExactly("d");
  }
}

/** What local pathnames are good for: they never lead out of the directory they are used in. */
module Locality {
  import opened Template

  /** Not local is exactly what is absolute or has two dots in a row somewhere. */
  lemma LocalExactly(s: string)
    ensures !IsPathnameLocal(s) <==> (s != "" && s[0] == '/') || exists a, b :: s == a + ".." + b
  {
    if HasDotDot(s) {
      var k :| 0 <= k < |s| - 1 && s[k] == '.' && s[k + 1] == '.';
      assert s == s[..k] + ".." + s[k + 2..];
    }
    if a, b :| s == a + ".." + b {
      assert s[|a|] == '.' && s[|a| + 1] == '.';
    }
  }

  // Walking along a pathname.

  /** Where the first component ends. */
  function FirstEnd(s: string): (n: nat)
    ensures n <= |s| && '/' !in s[..n] && (n < |s| ==> s[n] == '/')
  {
    if s == "" || s[0] == '/' then 0
    else
      var n := FirstEnd(s[1..]) + 1;
      assert s[..n] == [s[0]] + s[1..][..n - 1];
      n
  }

  /** The parts between slashes. */
  function Components(s: string): seq<string>
    decreases |s|
  {
    var n := FirstEnd(s);
    if n == |s| then [s] else [s[..n]] + Components(s[n + 1..])
  }

  function Joined(components: seq<string>): string {
    if components == [] then ""
    else if |components| == 1 then components[0]
    else components[0] + "/" + Joined(components[1..])
  }

  /** These are the parts, each without a slash. */
  lemma {:induction false} ComponentsJoin(s: string)
    ensures Joined(Components(s)) == s && Components(s) != []
    ensures forall c :: c in Components(s) ==> '/' !in c
    decreases |s|
  {
    var n := FirstEnd(s);
    if n < |s| {
      ComponentsJoin(s[n + 1..]);
      assert ([s[..n]] + Components(s[n + 1..]))[1..] == Components(s[n + 1..]);
      assert s == s[..n] + "/" + s[n + 1..];
    } else {
      assert s[..n] == s;
    }
  }

  /** What a component does to the depth below the directory the walk began in. */
  function Descent(component: string): int {
    if component == ".." then -1 else if component == "." || component == "" then 0 else 1
  }

  /** The depth after each of the first n components. */
  function Depth(components: seq<string>, n: nat): int
    requires n <= |components|
  {
    if n == 0 then 0 else Depth(components, n - 1) + Descent(components[n - 1])
  }

  /** Not from the root, and never above where the walk began. */
  predicate StaysBelow(s: string) {
    && (s != "" ==> s[0] != '/')
    && forall n :: 0 <= n <= |Components(s)| ==> Depth(Components(s), n) >= 0
  }

  lemma PartHasNone(s: string, i: nat, j: nat)
    requires i <= j <= |s| && !HasDotDot(s)
    ensures !HasDotDot(s[i..j])
  {
    forall k | 0 <= k < j - i - 1 ensures !(s[i..j][k] == '.' && s[i..j][k + 1] == '.') {
      assert !(s[i + k] == '.' && s[i + k + 1] == '.');
    }
  }

  lemma {:induction false} NoUpward(s: string)
    requires !HasDotDot(s)
    ensures ".." !in Components(s)
    decreases |s|
  {
    var n := FirstEnd(s);
    PartHasNone(s, 0, n);
    assert s[0..n] == s[..n] && HasDotDot("..") by { TwoDots(); }
    if n < |s| {
      PartHasNone(s, n + 1, |s|);
      assert s[n + 1..|s|] == s[n + 1..];
      NoUpward(s[n + 1..]);
    } else {
      assert s[..n] == s;
    }
  }

  lemma TwoDots()
    ensures HasDotDot("..")
  {
    assert ".."[0] == '.' && ".."[1] == '.';
  }

  lemma {:induction false} NeverNegative(components: seq<string>, n: nat)
    requires ".." !in components && n <= |components|
    ensures Depth(components, n) >= 0
  {
    if n > 0 {
      NeverNegative(components, n - 1);
    }
  }

  lemma LocalStaysBelow(s: string)
    requires IsPathnameLocal(s)
    ensures StaysBelow(s)
  {
    hide HasDotDot;
    NoUpward(s);
    forall n | 0 <= n <= |Components(s)| ensures Depth(Components(s), n) >= 0 {
      NeverNegative(Components(s), n);
    }
  }

  /** A local template keeps every frame's file in or below the directory it is used in. */
  lemma EverySubstitutionStaysBelow(s: string, value: int)
    requires IsPathnameLocal(s)
    ensures StaysBelow(Substitute(s, value))
  {
    LocalitySurvives(s, value);
    LocalStaysBelow(Substitute(s, value));
  }

  /** Above: what the test is there for. */
  lemma UpwardIsRefused()
    ensures !IsPathnameLocal("../x") && !StaysBelow("../x")
  {
    assert "../x" == "" + ".." + "/x";
    LocalExactly("../x");
    var s := "../x";
    FirstPart(s, 2);
    assert s[..2] == "..";
    assert Components(s)[0] == "..";
    assert Depth(Components(s), 1) == Depth(Components(s), 0) + Descent("..");
  }

  /** The test refuses more than it has to. */
  lemma RefusesMore()
    ensures !IsPathnameLocal("a..b") && StaysBelow("a..b")
  {
    assert "a..b" == "a" + ".." + "b";
    LocalExactly("a..b");
    var s := "a..b";
    FirstPart(s, 4);
    assert Components(s) == [s];
    assert Depth([s], 1) == Depth([s], 0) + Descent(s);
  }

  lemma {:induction false} FirstPart(s: string, n: nat)
    requires n <= |s| && '/' !in s[..n] && (n < |s| ==> s[n] == '/')
    ensures FirstEnd(s) == n
  {
    if n > 0 {
      assert s[..n][0] == s[0] && s[1..][..n - 1] == s[..n][1..];
      FirstPart(s[1..], n - 1);
    }
  }
}

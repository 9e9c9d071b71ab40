/** Sums over sequences. */
module Totals {
  function Total<T>(s: seq<T>, f: T -> nat): nat {
    if s == [] then 0 else f(s[0]) + Total(s[1..], f)
  }

  function Is(x: int): int -> nat {
    (y: int) => if y == x then 1 else 0
  }

  function One(): int -> nat {
    _ => 1
  }

  lemma {:induction false} TotalConcat<T>(a: seq<T>, b: seq<T>, f: T -> nat)
    ensures Total(a + b, f) == Total(a, f) + Total(b, f)
  {
    if a == [] {
      assert a + b == b;
    } else {
      assert (a + b)[1..] == a[1..] + b;
      TotalConcat(a[1..], b, f);
    }
  }

  lemma TotalAt<T>(s: seq<T>, k: nat, f: T -> nat)
    requires k < |s|
    ensures Total(s, f) == Total(s[..k] + s[k + 1..], f) + f(s[k])
  {
    assert s == s[..k] + ([s[k]] + s[k + 1..]);
    TotalConcat(s[..k], [s[k]] + s[k + 1..], f);
    TotalConcat([s[k]], s[k + 1..], f);
    TotalConcat(s[..k], s[k + 1..], f);
    assert Total([s[k]], f) == f(s[k]);
  }

  lemma TotalUpdate<T>(s: seq<T>, k: nat, x: T, f: T -> nat)
    requires k < |s|
    ensures Total(s[k := x], f) + f(s[k]) == Total(s, f) + f(x)
  {
    TotalAt(s, k, f);
    TotalAt(s[k := x], k, f);
    assert s[k := x][..k] == s[..k] && s[k := x][k + 1..] == s[k + 1..];
  }

  lemma TotalPush<T>(s: seq<T>, x: T, f: T -> nat)
    ensures Total(s + [x], f) == Total(s, f) + f(x)
    ensures Total([x] + s, f) == Total(s, f) + f(x)
  {
    TotalConcat(s, [x], f);
    TotalConcat([x], s, f);
    assert Total([x], f) == f(x);
  }

  lemma {:induction false} TotalMonotone<T>(s: seq<T>, f: T -> nat, g: T -> nat)
    requires forall k :: 0 <= k < |s| ==> f(s[k]) <= g(s[k])
    ensures Total(s, f) <= Total(s, g)
  {
    if s != [] {
      TotalMonotone(s[1..], f, g);
    }
  }

  /** Without repetition nothing is counted twice. */
  lemma {:induction false} DistinctCount(s: seq<int>, x: int)
    requires forall i, j :: 0 <= i < j < |s| ==> s[i] != s[j]
    ensures Total(s, Is(x)) == if x in s then 1 else 0
  {
    if s != [] {
      assert forall i, j :: 0 <= i < j < |s[1..]| ==> s[1..][i] != s[1..][j];
      DistinctCount(s[1..], x);
      assert forall j :: 0 <= j < |s[1..]| ==> s[1..][j] == s[j + 1];
    }
  }

  lemma {:induction false} LengthCount(s: seq<int>)
    ensures Total(s, One()) == |s|
  {
    if s != [] {
      LengthCount(s[1..]);
    }
  }
}

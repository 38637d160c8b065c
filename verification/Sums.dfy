/** Sums of a real-valued column over the rows of a table. */
module Sums {

  function Sum<T>(s: seq<T>, f: T -> real): real {
    if s == [] then 0.0 else Sum(s[..|s| - 1], f) + f(s[|s| - 1])
  }

  lemma {:induction false} SumConcat<T>(a: seq<T>, b: seq<T>, f: T -> real)
    ensures Sum(a + b, f) == Sum(a, f) + Sum(b, f)
  {
    if b == [] {
      assert a + b == a;
    } else {
      SumConcat(a, b[..|b| - 1], f);
      assert (a + b)[..|a + b| - 1] == a + b[..|b| - 1];
    }
  }

  lemma {:induction false} SumOneMore<T>(s: seq<T>, x: T, f: T -> real)
    ensures Sum(s + [x], f) == Sum(s, f) + f(x)
  {
    assert (s + [x])[..|s|] == s;
  }

  lemma {:induction false} SumReplaced<T>(s: seq<T>, i: nat, x: T, f: T -> real)
    requires i < |s|
    ensures Sum(s[i := x], f) == Sum(s, f) - f(s[i]) + f(x)
  {
    var n := |s| - 1;
    if i < n {
      SumReplaced(s[..n], i, x, f);
      assert s[i := x][..n] == s[..n][i := x];
    } else {
      assert s[i := x][..n] == s[..n];
    }
  }

  lemma {:induction false} SumSame<T>(s: seq<T>, f: T -> real, g: T -> real)
    requires forall x :: x in s ==> f(x) == g(x)
    ensures Sum(s, f) == Sum(s, g)
  {
    if s != [] {
      SumSame(s[..|s| - 1], f, g);
    }
  }

  lemma {:induction false} SumZero<T>(s: seq<T>, f: T -> real)
    requires forall x :: x in s ==> f(x) == 0.0
    ensures Sum(s, f) == 0.0
  {
    if s != [] {
      SumZero(s[..|s| - 1], f);
    }
  }

  lemma {:induction false} SumPlus<T>(s: seq<T>, f: T -> real, g: T -> real, h: T -> real)
    requires forall x :: x in s ==> h(x) == f(x) + g(x)
    ensures Sum(s, h) == Sum(s, f) + Sum(s, g)
  {
    if s != [] {
      SumPlus(s[..|s| - 1], f, g, h);
    }
  }

  /** Two columns of different tables that agree row by row have the same total. */
  lemma {:induction false} SumMapped<T, U>(s: seq<T>, t: seq<U>, f: T -> real, g: U -> real)
    requires |s| == |t|
    requires forall i :: 0 <= i < |s| ==> f(s[i]) == g(t[i])
    ensures Sum(s, f) == Sum(t, g)
  {
    if s != [] {
      SumMapped(s[..|s| - 1], t[..|t| - 1], f, g);
    }
  }

  lemma {:induction false} SumWithoutOne<T>(s: seq<T>, k: nat, f: T -> real)
    requires k < |s|
    ensures Sum(s, f) == Sum(s[..k] + s[k + 1..], f) + f(s[k])
  {
    var n := |s| - 1;
    if k == n {
      assert s[..k] + s[k + 1..] == s[..n];
    } else {
      SumWithoutOne(s[..n], k, f);
      var rest := s[..n][..k] + s[..n][k + 1..];
      assert s[..k] + s[k + 1..] == rest + [s[n]];
      SumOneMore(rest, s[n], f);
    }
  }

  /** Taking an element out of a sequence takes it once out of what the sequence holds. */
  lemma {:induction false} WithoutOne<T>(s: seq<T>, k: nat)
    requires k < |s|
    ensures multiset(s) == multiset(s[..k] + s[k + 1..]) + multiset{s[k]}
  {
    var p, q := s[..k], s[k + 1..];
    assert s == p + ([s[k]] + q);
    assert multiset(s) == multiset(p) + (multiset([s[k]]) + multiset(q));
  }

  lemma {:induction false} SameRest<T>(s: seq<T>, t: seq<T>) returns (k: nat)
    requires s != [] && multiset(s) == multiset(t)
    ensures k < |t| && t[k] == s[|s| - 1] && multiset(s[..|s| - 1]) == multiset(t[..k] + t[k + 1..])
  {
    var n := |s| - 1;
    assert s == s[..n] + [s[n]];
    assert s[n] in multiset(s);
    k :| 0 <= k < |t| && t[k] == s[n];
    WithoutOne(t, k);
    assert multiset(s[..n]) == multiset(s) - multiset{s[n]};
    assert multiset(t[..k] + t[k + 1..]) == multiset(t) - multiset{t[k]};
  }

  /** A total does not depend on the order of the rows. */
  lemma {:induction false} SumInAnyOrder<T>(s: seq<T>, t: seq<T>, f: T -> real)
    requires multiset(s) == multiset(t)
    ensures Sum(s, f) == Sum(t, f)
  {
    if s == [] {
      assert |multiset(t)| == |t|;
    } else {
      var k := SameRest(s, t);
      SumInAnyOrder(s[..|s| - 1], t[..k] + t[k + 1..], f);
      SumWithoutOne(t, k, f);
    }
  }
}

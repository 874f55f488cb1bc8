/** Small shared vocabulary: optional values, results, and sums over sequences. */
module Common {

  datatype Option<+T> = None | Some(value: T)

  datatype Result<+T, +E> = Ok(value: T) | Err(error: E)

  function Min(a: int, b: int): int { if a <= b then a else b }

  function Max(a: int, b: int): int { if a >= b then a else b }

  /** The sum of f over the elements of s. */
  ghost function SumBy<T>(s: seq<T>, f: T -> int): int
  {
    if s == [] then 0 else SumBy(s[..|s| - 1], f) + f(s[|s| - 1])
  }

  lemma SumByAppend<T>(s: seq<T>, x: T, f: T -> int)
    ensures SumBy(s + [x], f) == SumBy(s, f) + f(x)
  {
  }

  /** Replacing one element changes the sum by the difference of its contributions. */
  lemma {:induction false} SumByUpdate<T>(s: seq<T>, i: nat, x: T, f: T -> int)
    requires i < |s|
    ensures SumBy(s[i := x], f) == SumBy(s, f) - f(s[i]) + f(x)
  {
    var n := |s| - 1;
    if i == n {
      assert s[i := x][..n] == s[..n];
    } else {
      SumByUpdate(s[..n], i, x, f);
      assert s[i := x][..n] == s[..n][i := x];
    }
  }

  lemma {:induction false} SumByNonNegative<T>(s: seq<T>, f: T -> int)
    requires forall x <- s :: f(x) >= 0
    ensures SumBy(s, f) >= 0
    ensures forall x <- s :: f(x) <= SumBy(s, f)
  {
    if s != [] {
      var t := s[..|s| - 1];
      SumByNonNegative(t, f);
      forall x <- s ensures f(x) <= SumBy(s, f) {
        if x !in t { assert x == s[|s| - 1]; }
      }
    }
  }

  lemma {:induction false} SumByZero<T>(s: seq<T>, f: T -> int)
    requires forall x <- s :: f(x) == 0
    ensures SumBy(s, f) == 0
  {
    if s != [] { SumByZero(s[..|s| - 1], f); }
  }

  lemma {:induction false} SumByConcat<T>(s: seq<T>, t: seq<T>, f: T -> int)
    ensures SumBy(s + t, f) == SumBy(s, f) + SumBy(t, f)
  {
    if t == [] {
      assert s + t == s;
    } else {
      SumByConcat(s, t[..|t| - 1], f);
      assert (s + t)[..|s + t| - 1] == s + t[..|t| - 1];
    }
  }

  lemma SumByRemove<T>(t: seq<T>, i: nat, f: T -> int)
    requires i < |t|
    ensures SumBy(t, f) == SumBy(t[..i] + t[i + 1..], f) + f(t[i])
  {
    hide SumBy;
    assert t == t[..i + 1] + t[i + 1..];
    SumByConcat(t[..i + 1], t[i + 1..], f);
    assert t[..i + 1] == t[..i] + [t[i]];
    SumByAppend(t[..i], t[i], f);
    SumByConcat(t[..i], t[i + 1..], f);
  }

  lemma Without<T>(t: seq<T>, i: nat)
    requires i < |t|
    ensures multiset(t) == multiset(t[..i] + t[i + 1..]) + multiset{t[i]}
  {
    assert t == t[..i] + [t[i]] + t[i + 1..];
  }

  lemma Cancel<T>(a: multiset<T>, b: multiset<T>, x: T)
    requires a + multiset{x} == b + multiset{x}
    ensures a == b
  {
    assert a == (a + multiset{x}) - multiset{x} && b == (b + multiset{x}) - multiset{x};
  }

  lemma TakeOut<T>(s: seq<T>, t: seq<T>) returns (i: nat)
    requires multiset(s) == multiset(t) && s != []
    ensures i < |t| && t[i] == s[|s| - 1] && multiset(s[..|s| - 1]) == multiset(t[..i] + t[i + 1..])
  {
    var n := |s| - 1;
    assert s[n] in multiset(t);
    i :| 0 <= i < |t| && t[i] == s[n];
    Without(t, i);
    Without(s, n);
    assert s[..n] + s[n + 1..] == s[..n];
    Cancel(multiset(s[..n]), multiset(t[..i] + t[i + 1..]), s[n]);
  }

  /** A sum does not depend on the order. */
  lemma {:induction false} SumByPermutation<T>(s: seq<T>, t: seq<T>, f: T -> int)
    requires multiset(s) == multiset(t)
    ensures SumBy(s, f) == SumBy(t, f)
  {
    if s == [] {
      assert |multiset(t)| == 0;
    } else {
      var i := TakeOut(s, t);
      SumByRemove(t, i, f);
      SumByPermutation(s[..|s| - 1], t[..i] + t[i + 1..], f);
    }
  }
}

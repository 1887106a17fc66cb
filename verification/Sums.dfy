/**
 * Finite sums of natural numbers, over a sequence and over an initial range of the naturals.
 *
 * The sums over pairs are for counts over all directed links: they can be taken by sender or by
 * receiver first, and a single pair can be changed by itself.
 */
module Sums {

  function SumBy<T>(s: seq<T>, f: T -> nat): nat
  {
    if s == [] then 0 else f(s[0]) + SumBy(s[1..], f)
  }

  lemma {:induction false} SumByConcat<T>(s: seq<T>, t: seq<T>, f: T -> nat)
    ensures SumBy(s + t, f) == SumBy(s, f) + SumBy(t, f)
  {
    if s == [] {
      assert s + t == t;
    } else {
      SumByConcat(s[1..], t, f);
      assert (s + t)[1..] == s[1..] + t;
    }
  }

  lemma SumByAppend<T>(s: seq<T>, x: T, f: T -> nat)
    ensures SumBy(s + [x], f) == SumBy(s, f) + f(x)
  {
    SumByConcat(s, [x], f);
    assert SumBy([x], f) == f(x) + SumBy([], f);
  }

  /** Taking the element at position i out. */
  lemma SumByRemove<T>(s: seq<T>, i: nat, f: T -> nat)
    requires i < |s|
    ensures SumBy(s, f) == SumBy(s[..i] + s[i + 1..], f) + f(s[i])
  {
    assert s == (s[..i] + [s[i]]) + s[i + 1..];
    SumByConcat(s[..i] + [s[i]], s[i + 1..], f);
    SumByAppend(s[..i], s[i], f);
    SumByConcat(s[..i], s[i + 1..], f);
  }

  lemma SumByUpdate<T>(s: seq<T>, i: nat, x: T, f: T -> nat)
    requires i < |s|
    ensures SumBy(s[i := x], f) + f(s[i]) == SumBy(s, f) + f(x)
  {
    SumByRemove(s, i, f);
    SumByRemove(s[i := x], i, f);
    assert s[i := x][..i] == s[..i] && s[i := x][i + 1..] == s[i + 1..];
  }

  lemma {:induction false} SumByAtLeast<T>(s: seq<T>, i: nat, f: T -> nat)
    requires i < |s|
    ensures SumBy(s, f) >= f(s[i])
  {
    SumByRemove(s, i, f);
  }

  lemma {:induction false} SumByZero<T>(s: seq<T>, f: T -> nat)
    requires forall i :: 0 <= i < |s| ==> f(s[i]) == 0
    ensures SumBy(s, f) == 0
  {
    if s != [] {
      SumByZero(s[1..], f);
    }
  }

  lemma {:induction false} SumByEqual<T>(s: seq<T>, f: T -> nat, g: T -> nat)
    requires forall i :: 0 <= i < |s| ==> f(s[i]) == g(s[i])
    ensures SumBy(s, f) == SumBy(s, g)
  {
    if s != [] {
      SumByEqual(s[1..], f, g);
    }
  }

  // Sums over 0 <= i < n

  function SumTo(n: nat, f: nat -> nat): nat
  {
    if n == 0 then 0 else SumTo(n - 1, f) + f(n - 1)
  }

  lemma {:induction false} SumToEqual(n: nat, f: nat -> nat, g: nat -> nat)
    requires forall i: nat :: i < n ==> f(i) == g(i)
    ensures SumTo(n, f) == SumTo(n, g)
  {
    if n > 0 {
      SumToEqual(n - 1, f, g);
    }
  }

  lemma {:induction false} SumToChange(n: nat, k: nat, f: nat -> nat, g: nat -> nat)
    requires k < n
    requires forall i: nat :: i < n && i != k ==> f(i) == g(i)
    ensures SumTo(n, g) + f(k) == SumTo(n, f) + g(k)
  {
    if k == n - 1 {
      SumToEqual(n - 1, f, g);
    } else {
      SumToChange(n - 1, k, f, g);
    }
  }

  lemma {:induction false} SumToPlus(n: nat, f: nat -> nat, g: nat -> nat, h: nat -> nat)
    requires forall i: nat :: i < n ==> h(i) == f(i) + g(i)
    ensures SumTo(n, h) == SumTo(n, f) + SumTo(n, g)
  {
    if n > 0 {
      SumToPlus(n - 1, f, g, h);
    }
  }

  lemma {:induction false} SumToZero(n: nat, f: nat -> nat)
    requires forall i: nat :: i < n ==> f(i) == 0
    ensures SumTo(n, f) == 0
  {
    if n > 0 {
      SumToZero(n - 1, f);
    }
  }

  // Sums over pairs 0 <= u, v < n

  function Row(a: (nat, nat) -> nat, u: nat): nat -> nat {
    (v: nat) => a(u, v)
  }

  function RowSums(n: nat, a: (nat, nat) -> nat): nat -> nat {
    (u: nat) => SumTo(n, Row(a, u))
  }

  function Grid(n: nat, a: (nat, nat) -> nat): nat {
    SumTo(n, RowSums(n, a))
  }

  function Transpose(a: (nat, nat) -> nat): (nat, nat) -> nat {
    (u: nat, v: nat) => a(v, u)
  }

  lemma {:induction false} SwapSums(m: nat, n: nat, a: (nat, nat) -> nat)
    ensures SumTo(m, RowSums(n, a)) == SumTo(n, RowSums(m, Transpose(a)))
  {
    if m == 0 {
      SumToZero(n, RowSums(0, Transpose(a)));
    } else {
      SwapSums(m - 1, n, a);
      forall v: nat | v < n
        ensures RowSums(m, Transpose(a))(v) == RowSums(m - 1, Transpose(a))(v) + Row(a, m - 1)(v) {}
      SumToPlus(n, RowSums(m - 1, Transpose(a)), Row(a, m - 1), RowSums(m, Transpose(a)));
    }
  }

  lemma GridSwap(n: nat, a: (nat, nat) -> nat)
    ensures Grid(n, a) == Grid(n, Transpose(a))
  {
    SwapSums(n, n, a);
  }

  lemma GridPlus(n: nat, a: (nat, nat) -> nat, b: (nat, nat) -> nat, h: (nat, nat) -> nat)
    requires forall u: nat, v: nat :: u < n && v < n ==> h(u, v) == a(u, v) + b(u, v)
    ensures Grid(n, h) == Grid(n, a) + Grid(n, b)
  {
    forall u: nat | u < n ensures RowSums(n, h)(u) == RowSums(n, a)(u) + RowSums(n, b)(u) {
      SumToPlus(n, Row(a, u), Row(b, u), Row(h, u));
    }
    SumToPlus(n, RowSums(n, a), RowSums(n, b), RowSums(n, h));
  }

  /** A sum with one term 1 and the others 0. */
  lemma {:induction false} SumToUnit(n: nat, k: nat, f: nat -> nat)
    requires k < n && f(k) == 1
    requires forall i: nat :: i < n && i != k ==> f(i) == 0
    ensures SumTo(n, f) == 1
  {
    if k == n - 1 {
      SumToZero(n - 1, f);
    } else {
      SumToUnit(n - 1, k, f);
    }
  }

  /** Two functions of pairs that differ at one pair only. */
  lemma GridChange(n: nat, u: nat, v: nat, a: (nat, nat) -> nat, b: (nat, nat) -> nat)
    requires u < n && v < n
    requires forall x: nat, y: nat :: x < n && y < n && (x, y) != (u, v) ==> a(x, y) == b(x, y)
    ensures Grid(n, b) + a(u, v) == Grid(n, a) + b(u, v)
  {
    forall x: nat | x < n && x != u ensures RowSums(n, a)(x) == RowSums(n, b)(x) {
      SumToEqual(n, Row(a, x), Row(b, x));
    }
    SumToChange(n, u, RowSums(n, a), RowSums(n, b));
    SumToChange(n, v, Row(a, u), Row(b, u));
  }
}

/**
 * Sequences without repetitions, their element sets and permutations.
 *
 * A shuffle is any permutation of what it is given, so whatever is proved here of the members, the
 * size and the ascending order of a sequence holds after every shuffle.
 */
module Sequences {

  function Elements<T(==)>(s: seq<T>): set<T> {
    set x | x in s
  }

  function Range(n: nat): (r: seq<nat>)
    ensures |r| == n && forall i :: 0 <= i < n ==> r[i] == i
  {
    seq(n, i => i)
  }

  ghost predicate Distinct(s: seq<nat>) {
    forall i, j :: 0 <= i < j < |s| ==> s[i] != s[j]
  }

  lemma {:induction false} DistinctSize(s: seq<nat>)
    requires Distinct(s)
    ensures |Elements(s)| == |s|
  {
    if s != [] {
      var front := s[..|s| - 1];
      DistinctSize(front);
      assert s == front + [s[|s| - 1]];
      assert Elements(s) == Elements(front) + {s[|s| - 1]};
    }
  }

  lemma SubsetFull<T>(s: set<T>, t: set<T>)
    requires s <= t && |s| == |t|
    ensures s == t
  {
    var rest := t - s;
    assert t == s + rest;
    assert |t| == |s| + |rest|;
  }

  lemma SubsetSize<T>(s: set<T>, t: set<T>)
    requires s <= t
    ensures |s| <= |t|
  {
    var rest := t - s;
    assert t == s + rest;
    assert |t| == |s| + |rest|;
  }

  lemma DistinctBounded(n: nat, s: seq<nat>)
    requires Distinct(s) && forall v :: v in s ==> v < n
    ensures |s| <= n
  {
    DistinctSize(s);
    forall v | v in Elements(s) ensures v in Elements(Range(n)) {
      assert Range(n)[v] == v;
    }
    SubsetSize(Elements(s), Elements(Range(n)));
    DistinctSize(Range(n));
  }

  /** Fewer exclusions than nodes leave a node. */
  lemma SomeoneLeft(excluded: set<nat>, node: nat) returns (v: nat)
    requires |excluded| < node
    ensures v < node && v !in excluded
  {
    DistinctSize(Range(node));
    if Elements(Range(node)) <= excluded {
      SubsetSize(Elements(Range(node)), excluded);
    }
    v :| v in Elements(Range(node)) && v !in excluded;
  }

  lemma MoveOne<T>(done: set<T>, rest: set<T>, t: T)
    requires done !! rest && t in rest
    ensures (done + {t}) !! (rest - {t}) && (done + {t}) + (rest - {t}) == done + rest
    ensures |done + {t}| == |done| + 1
  {}

  lemma {:induction false} DistinctMultiplicity(s: seq<nat>, x: nat)
    requires Distinct(s)
    ensures multiset(s)[x] <= 1
  {
    if s != [] {
      var front, last := s[..|s| - 1], s[|s| - 1];
      DistinctMultiplicity(front, x);
      assert s == front + [last];
      assert last !in front;
    }
  }

  lemma PermutationDistinct(s: seq<nat>, t: seq<nat>)
    requires Distinct(s) && multiset(s) == multiset(t)
    ensures Distinct(t)
  {
    forall i, j | 0 <= i < j < |t| ensures t[i] != t[j] {
      DistinctMultiplicity(s, t[i]);
      assert t == t[..j] + t[j..];
      assert t[..j][i] == t[i] && t[j..][0] == t[j];
      assert multiset(t) == multiset(t[..j]) + multiset(t[j..]);
    }
  }

  /** Sequences that agree on a prefix and at the next position agree on the longer prefix. */
  lemma SamePrefix<T>(s: seq<T>, t: seq<T>, k: nat)
    requires k < |s| && k < |t| && s[..k] == t[..k] && s[k] == t[k]
    ensures s[..k + 1] == t[..k + 1]
  {
    assert s[..k + 1] == s[..k] + [s[k]] && t[..k + 1] == t[..k] + [t[k]];
  }

  lemma PermutationMembers<T>(s: seq<T>, t: seq<T>, x: T)
    requires multiset(s) == multiset(t)
    ensures x in s <==> x in t
  {
    assert x in s <==> x in multiset(s);
    assert x in t <==> x in multiset(t);
  }

  ghost predicate InOrder(s: seq<nat>, i: int, j: int) {
    0 <= i < j < |s| ==> s[i] < s[j]
  }

  ghost predicate Ascending(s: seq<nat>) {
    forall i, j {:trigger InOrder(s, i, j)} :: InOrder(s, i, j)
  }

  lemma AscendingDistinct(s: seq<nat>)
    requires Ascending(s)
    ensures Distinct(s)
  {
    forall i, j | 0 <= i < j < |s| ensures s[i] != s[j] {
      assert InOrder(s, i, j);
    }
  }

  function InsertInOrder(x: nat, s: seq<nat>): (r: seq<nat>)
    ensures multiset(r) == multiset(s) + multiset{x}
  {
    if s == [] then [x]
    else if x < s[0] then [x] + s
    else
      assert s == [s[0]] + s[1..];
      [s[0]] + InsertInOrder(x, s[1..])
  }

  lemma {:induction false} InsertKeepsOrder(x: nat, s: seq<nat>)
    requires Ascending(s) && x !in s
    ensures Ascending(InsertInOrder(x, s))
  {
    if s == [] {
    } else if x < s[0] {
      forall i, j ensures InOrder([x] + s, i, j) {
        assert InOrder(s, i - 1, j - 1) && InOrder(s, 0, j - 1);
      }
    } else {
      var rest := InsertInOrder(x, s[1..]);
      assert s[0] in s;
      AscendingTail(s);
      InsertKeepsOrder(x, s[1..]);
      forall i, j ensures InOrder([s[0]] + rest, i, j) {
        assert InOrder(rest, i - 1, j - 1);
        if 0 == i < j < |rest| + 1 {
          assert rest[j - 1] in multiset(rest);
          assert rest[j - 1] == x || rest[j - 1] in s[1..];
        }
      }
    }
  }

  lemma AscendingTail(s: seq<nat>)
    requires Ascending(s) && s != []
    ensures Ascending(s[1..]) && forall x :: x in s[1..] ==> s[0] < x
  {
    var tail := s[1..];
    forall i, j ensures InOrder(tail, i, j) {
      assert InOrder(s, i + 1, j + 1);
    }
    forall x | x in tail ensures s[0] < x {
      var i :| 0 <= i < |tail| && tail[i] == x;
      assert InOrder(s, 0, i + 1);
    }
  }

  function Sorted(s: seq<nat>): (r: seq<nat>)
    ensures multiset(r) == multiset(s)
  {
    if s == [] then []
    else
      assert s == s[..|s| - 1] + [s[|s| - 1]];
      InsertInOrder(s[|s| - 1], Sorted(s[..|s| - 1]))
  }

  lemma {:induction false} SortedIsAscending(s: seq<nat>)
    requires Distinct(s)
    ensures Ascending(Sorted(s))
  {
    if s != [] {
      var front, last := s[..|s| - 1], s[|s| - 1];
      SortedIsAscending(front);
      PermutationMembers(Sorted(front), front, last);
      InsertKeepsOrder(last, Sorted(front));
    }
  }

  method SortAscending(s: seq<nat>) returns (sorted: seq<nat>)
    requires Distinct(s)
    ensures sorted == Sorted(s) && Ascending(sorted) && |sorted| == |s|
  {
    sorted := [];
    var i := 0;
    while i < |s|
      invariant 0 <= i <= |s| && sorted == Sorted(s[..i])
    {
      assert s[..i + 1][..i] == s[..i];
      sorted := InsertInOrder(s[i], sorted);
      i := i + 1;
    }
    assert s[..i] == s;
    SortedIsAscending(s);
    assert |multiset(sorted)| == |multiset(s)|;
  }

  /** Sorting forgets the order of the input. */
  lemma SortedIgnoresOrder(s: seq<nat>, t: seq<nat>)
    requires Distinct(s) && multiset(s) == multiset(t)
    ensures Sorted(s) == Sorted(t)
  {
    PermutationDistinct(s, t);
    SortedIsAscending(s);
    SortedIsAscending(t);
    forall x ensures x in Sorted(s) <==> x in Sorted(t) {
      PermutationMembers(Sorted(s), Sorted(t), x);
    }
    AscendingUnique(Sorted(s), Sorted(t));
  }

  /** An ascending sequence is determined by its members. */
  lemma {:induction false} AscendingUnique(s: seq<nat>, t: seq<nat>)
    requires Ascending(s) && Ascending(t) && forall x :: x in s <==> x in t
    ensures s == t
  {
    if s == [] {
      NoMembers(t);
    } else {
      assert s[0] in t && t[0] in s;
      AscendingTail(s);
      AscendingTail(t);
      assert s == [s[0]] + s[1..] && t == [t[0]] + t[1..];
      forall x ensures x in s[1..] <==> x in t[1..] {
        assert x in s <==> x == s[0] || x in s[1..];
        assert x in t <==> x == t[0] || x in t[1..];
      }
      AscendingUnique(s[1..], t[1..]);
    }
  }

  lemma NoMembers<T>(s: seq<T>)
    ensures (forall x :: x !in s) ==> s == []
  {
    if s != [] {
      assert s[0] in s;
    }
  }
}

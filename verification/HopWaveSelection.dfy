/** The trough relay's choice of targets: sorted candidates, a seeded shuffle, and a prefix of it. */
module HopWaveSelection {
  import opened HopWave
  import opened Sequences

  /** The draws of the seeded source: the one for position i is out of 0 .. i. */
  type Draws = seq<nat>

  /** The draw for the last of i positions; where there is none that fits, it is 0. */
  function Pick(draw: Draws, i: nat): (j: nat)
    requires i > 0
    ensures j < i
  {
    if i <= |draw| && draw[i - 1] < i then draw[i - 1] else 0
  }

  /** Two positions trade places. */
  function Exchanged(s: seq<nat>, i: nat, j: nat): (r: seq<nat>)
    requires j <= i < |s|
    ensures |r| == |s|
  {
    s[i := s[j]][j := s[i]]
  }

  lemma ExchangedMembers(s: seq<nat>, i: nat, j: nat)
    requires j <= i < |s|
    ensures multiset(Exchanged(s, i, j)) == multiset(s)
  {
    assert multiset(s[i := s[j]]) == multiset(s) - multiset{s[i]} + multiset{s[j]};
  }

  /** The exchanges at positions i, i-1, .., 1. */
  ghost function Shuffled(s: seq<nat>, i: nat, draw: Draws): (r: seq<nat>)
    requires i <= |s|
    ensures |r| == |s|
    decreases i
  {
    if i <= 1 then s else Shuffled(Exchanged(s, i - 1, Pick(draw, i)), i - 1, draw)
  }

  /** Exchanges make a permutation. */
  lemma {:induction false} ShuffledMembers(s: seq<nat>, i: nat, draw: Draws)
    requires i <= |s|
    ensures multiset(Shuffled(s, i, draw)) == multiset(s)
    decreases i
  {
    if i > 1 {
      ExchangedMembers(s, i - 1, Pick(draw, i));
      ShuffledMembers(Exchanged(s, i - 1, Pick(draw, i)), i - 1, draw);
    }
  }

  method Shuffle(s: seq<nat>, draw: Draws) returns (t: seq<nat>)
    ensures t == Shuffled(s, |s|, draw)
  {
    t := s;
    var i := |s|;
    while i > 1
      invariant 0 <= i <= |t| && |t| == |s|
      invariant Shuffled(t, i, draw) == Shuffled(s, |s|, draw)
    {
      var j := Pick(draw, i);
      t := t[i - 1 := t[j]][j := t[i - 1]];
      i := i - 1;
    }
  }

  /** The chosen subset: a prefix of the shuffled ascending order of the eligible neighbours. */
  ghost function Chosen(eligible: seq<nat>, factor: real, draw: Draws): set<nat> {
    Elements(Shuffled(Sorted(eligible), |Sorted(eligible)|, draw)[..TargetCount(factor, |Sorted(eligible)|)])
  }

  /** The same neighbours in any order, with the same draws, lead to the same choice. */
  lemma ChoiceIgnoresOrder(eligible: seq<nat>, eligible': seq<nat>, factor: real, draw: Draws)
    requires Distinct(eligible) && multiset(eligible) == multiset(eligible')
    ensures Chosen(eligible, factor, draw) == Chosen(eligible', factor, draw)
  {
    SortedIgnoresOrder(eligible, eligible');
  }

  lemma SortedSize(s: seq<nat>)
    ensures |Sorted(s)| == |s|
  {
    assert |multiset(Sorted(s))| == |multiset(s)|;
  }

  /** A prefix of a permutation of the eligible neighbours. */
  lemma PrefixShare(eligible: seq<nat>, shuffled: seq<nat>, count: nat)
    requires Distinct(eligible) && multiset(shuffled) == multiset(eligible) && count <= |shuffled|
    ensures Elements(shuffled[..count]) <= Elements(eligible) && |Elements(shuffled[..count])| == count
    ensures Elements(shuffled) == Elements(eligible)
  {
    PermutationDistinct(eligible, shuffled);
    assert Distinct(shuffled[..count]);
    DistinctSize(shuffled[..count]);
    forall x ensures x in shuffled <==> x in eligible {
      PermutationMembers(eligible, shuffled, x);
    }
  }

  /** The chosen are eligible, and as many as the factor asks for. */
  lemma ChosenShare(eligible: seq<nat>, factor: real, draw: Draws)
    requires Distinct(eligible)
    ensures Chosen(eligible, factor, draw) <= Elements(eligible)
    ensures |Chosen(eligible, factor, draw)| == TargetCount(factor, |eligible|)
    ensures factor >= 1.0 ==> Chosen(eligible, factor, draw) == Elements(eligible)
  {
    SortedSize(eligible);
    var shuffled := Shuffled(Sorted(eligible), |eligible|, draw);
    var count := TargetCount(factor, |eligible|);
    ShuffledMembers(Sorted(eligible), |eligible|, draw);
    PrefixShare(eligible, shuffled, count);
    if factor >= 1.0 {
      assert shuffled[..count] == shuffled;
    }
  }

  method Prefix(s: seq<nat>, count: nat) returns (selected: set<nat>)
    requires count <= |s|
    ensures selected == Elements(s[..count])
  {
    selected := {};
    var i := 0;
    while i < count
      invariant 0 <= i <= count && selected == Elements(s[..i])
    {
      assert s[..i + 1] == s[..i] + [s[i]];
      selected := selected + {s[i]};
      i := i + 1;
    }
  }

  /** The rounded share of the eligible neighbours, at least one of them. */
  method ShareOf(factor: real, n: nat) returns (count: nat)
    requires n > 0 && 0.0 < factor < 1.0
    ensures count == TargetCount(factor, n)
  {
    count := Round(factor * n as real);
    if count < 1 {
      count := 1;
    }
    if count > n {
      count := n;
    }
  }

  method SelectTargets(eligible: seq<nat>, factor: real, draw: Draws) returns (selected: set<nat>)
    requires Distinct(eligible)
    ensures selected == Chosen(eligible, factor, draw)
    ensures selected <= Elements(eligible) && |selected| == TargetCount(factor, |eligible|)
  {
    ChosenShare(eligible, factor, draw);
    if |eligible| == 0 || factor <= 0.0 {
      return {};
    }
    if factor >= 1.0 {
      assert eligible[..|eligible|] == eligible;
      selected := Prefix(eligible, |eligible|);
      return;
    }
    var count := ShareOf(factor, |eligible|);
    var candidates := SortAscending(eligible);
    var shuffled := Shuffle(candidates, draw);
    selected := Prefix(shuffled, count);
  }

  // Nobody is left out for good

  lemma {:induction false} ShuffledAlike(s: seq<nat>, i: nat, draw: Draws, draw': Draws)
    requires i <= |s| && i <= |draw| && i <= |draw'| && draw[..i] == draw'[..i]
    ensures Shuffled(s, i, draw) == Shuffled(s, i, draw')
    decreases i
  {
    if i > 1 {
      assert draw[i - 1] == draw[..i][i - 1] == draw'[..i][i - 1] == draw'[i - 1];
      assert draw[..i - 1] == draw[..i][..i - 1] == draw'[..i][..i - 1] == draw'[..i - 1];
      ShuffledAlike(Exchanged(s, i - 1, Pick(draw, i)), i - 1, draw, draw');
    }
  }

  /** The same members, and from position i on the same order. */
  ghost predicate Settled(s: seq<nat>, i: nat, t: seq<nat>) {
    && i <= |s| == |t| && multiset(t) == multiset(s)
    && forall k :: i <= k < |s| ==> s[k] == t[k]
  }

  lemma FrontMember(s: seq<nat>, i: nat, t: seq<nat>) returns (j: nat)
    requires Settled(s, i, t) && i > 0
    ensures j < i && s[j] == t[i - 1]
  {
    var x := t[i - 1];
    assert s == s[..i] + s[i..] && t == t[..i] + t[i..] && s[i..] == t[i..];
    assert multiset(s)[x] == multiset(s[..i])[x] + multiset(s[i..])[x];
    assert multiset(t)[x] == multiset(t[..i])[x] + multiset(t[i..])[x];
    assert t[..i][i - 1] == x && x in multiset(t[..i]);
    assert x in multiset(s[..i]);
    j :| 0 <= j < i && s[..i][j] == x;
  }

  lemma AllSettled(s: seq<nat>, i: nat, t: seq<nat>, draw: Draws)
    requires Settled(s, i, t) && i <= 1
    ensures Shuffled(s, i, draw) == t
  {
    if i == 1 {
      var j := FrontMember(s, i, t);
    }
  }

  lemma ShuffledWith(s: seq<nat>, i: nat, j: nat, rest: Draws)
    requires 1 < i <= |s| && j < i && |rest| == i - 1
    ensures Shuffled(s, i, rest + [j]) == Shuffled(Exchanged(s, i - 1, j), i - 1, rest)
  {
    ShuffledAlike(Exchanged(s, i - 1, j), i - 1, rest + [j], rest);
  }

  /** An exchange settles one position more, whatever the draws for the others are. */
  lemma SettleNext(s: seq<nat>, i: nat, t: seq<nat>) returns (j: nat, next: seq<nat>)
    requires Settled(s, i, t) && i > 1
    ensures j < i && Settled(next, i - 1, t)
    ensures forall rest: Draws :: |rest| == i - 1 ==> Shuffled(s, i, rest + [j]) == Shuffled(next, i - 1, rest)
  {
    j := FrontMember(s, i, t);
    next := Exchanged(s, i - 1, j);
    ExchangedMembers(s, i - 1, j);
    forall rest: Draws | |rest| == i - 1 ensures Shuffled(s, i, rest + [j]) == Shuffled(next, i - 1, rest) {
      ShuffledWith(s, i, j, rest);
    }
  }

  /** Every order of the sequence comes out for some draws. */
  lemma {:induction false} EveryOrderComesOut(s: seq<nat>, i: nat, t: seq<nat>) returns (draw: Draws)
    requires Settled(s, i, t)
    ensures |draw| == i && Shuffled(s, i, draw) == t
    decreases i
  {
    if i <= 1 {
      draw := seq(i, _ => 0);
      AllSettled(s, i, t, draw);
    } else {
      var j, next := SettleNext(s, i, t);
      var rest := EveryOrderComesOut(next, i - 1, t);
      draw := rest + [j];
    }
  }

  ghost function Where(s: seq<nat>, among: set<nat>, inside: bool): seq<nat> {
    if s == [] then []
    else (if (s[0] in among) == inside then [s[0]] else []) + Where(s[1..], among, inside)
  }

  lemma {:induction false} WhereSplits(s: seq<nat>, among: set<nat>)
    ensures multiset(Where(s, among, true) + Where(s, among, false)) == multiset(s)
    ensures forall x :: x in Where(s, among, true) <==> x in s && x in among
  {
    if s != [] {
      WhereSplits(s[1..], among);
      assert s == [s[0]] + s[1..];
    }
  }

  /** An order of the sequence that has the members of the set first. */
  lemma ShareFirst(s: seq<nat>, share: set<nat>) returns (t: seq<nat>)
    requires Distinct(s) && share <= Elements(s)
    ensures |t| == |s| && multiset(t) == multiset(s) && |share| <= |t| && Elements(t[..|share|]) == share
  {
    var first, last := Where(s, share, true), Where(s, share, false);
    WhereSplits(s, share);
    t := first + last;
    assert |multiset(t)| == |multiset(s)|;
    PermutationDistinct(s, t);
    assert forall i :: 0 <= i < |first| ==> t[i] == first[i];
    DistinctSize(first);
    assert Elements(first) == share;
    assert t[..|first|] == first;
  }

  /** Whichever eligible neighbours make up the asked number, some draws choose just these. */
  lemma EveryShareComesOut(eligible: seq<nat>, factor: real, share: set<nat>) returns (draw: Draws)
    requires Distinct(eligible) && share <= Elements(eligible) && |share| == TargetCount(factor, |eligible|)
    ensures Chosen(eligible, factor, draw) == share
  {
    var s := Sorted(eligible);
    SortedSize(eligible);
    PermutationDistinct(eligible, s);
    forall x | x in share ensures x in Elements(s) {
      PermutationMembers(s, eligible, x);
    }
    var t := ShareFirst(s, share);
    draw := EveryOrderComesOut(s, |s|, t);
  }
}

/**
 * Which pairs have their delay looked up, in which order, and what that makes of the samples.
 *
 * A pair takes the next sample of the stream at its first use and keeps it. The lookups of a run are a
 * function of its clique alone, so the stream decides every delay that the run ever uses.
 */
module PairSamples {
  import opened EdgeLists

  type Delays = map<(nat, nat), real>

  /** Later memos keep every earlier value. */
  ghost predicate Extends(more: Delays, known: Delays) {
    forall p :: p in known ==> p in more && more[p] == known[p]
  }

  ghost function SampleAt(samples: seq<real>, k: nat): real {
    if k < |samples| then samples[k] else 0.0
  }

  /** The memo after these lookups: a pair takes the next sample at its first use. */
  ghost function Replay(uses: seq<(nat, nat)>, samples: seq<real>): Delays {
    if uses == [] then map[]
    else
      var known, key := Replay(uses[..|uses| - 1], samples), uses[|uses| - 1];
      if key in known then known else known[key := SampleAt(samples, |known|)]
  }

  lemma {:induction false} ReplayKeys(uses: seq<(nat, nat)>, samples: seq<real>)
    ensures forall p :: p in Replay(uses, samples) <==> p in uses
  {
    if uses != [] {
      var front, key := uses[..|uses| - 1], uses[|uses| - 1];
      ReplayKeys(front, samples);
      assert uses == front + [key];
    }
  }

  lemma {:induction false} ReplayExtends(uses: seq<(nat, nat)>, more: seq<(nat, nat)>, samples: seq<real>)
    ensures Extends(Replay(uses + more, samples), Replay(uses, samples))
    ensures |Replay(uses, samples)| <= |Replay(uses + more, samples)|
    decreases |more|
  {
    if more == [] {
      assert uses + more == uses;
    } else {
      var front := more[..|more| - 1];
      ReplayExtends(uses, front, samples);
      assert (uses + more)[..|uses + more| - 1] == uses + front;
    }
  }

  ghost predicate Alike(s: seq<real>, t: seq<real>, k: nat) {
    forall i: nat {:trigger SampleAt(s, i)} :: i < k ==> SampleAt(s, i) == SampleAt(t, i)
  }

  /** Only as many samples matter as there are different pairs. */
  lemma {:induction false} ReplayAlike(uses: seq<(nat, nat)>, s: seq<real>, t: seq<real>)
    requires Alike(s, t, |Replay(uses, s)|)
    ensures Replay(uses, s) == Replay(uses, t)
  {
    if uses != [] {
      var front := uses[..|uses| - 1];
      assert uses == front + [uses[|uses| - 1]];
      ReplayExtends(front, [uses[|uses| - 1]], s);
      ReplayAlike(front, s, t);
      assert SampleAt(s, |Replay(front, s)|) == SampleAt(s, |Replay(front, s)|);
    }
  }

  lemma ReplayNext(uses: seq<(nat, nat)>, samples: seq<real>, key: (nat, nat), sample: real)
    requires |samples| == |Replay(uses, samples)|
    ensures
      var known := Replay(uses, samples);
      && (key in known ==> Replay(uses + [key], samples) == known)
      && (key !in known ==> Replay(uses + [key], samples + [sample]) == known[key := sample])
  {
    assert (uses + [key])[..|uses|] == uses;
    ReplayAlike(uses, samples, samples + [sample]);
  }

  // The lookups of the performance-aware growth

  /** From node c to each of the chosen. */
  ghost function KeysTo(c: nat, chosen: seq<nat>): seq<(nat, nat)> {
    if chosen == [] then [] else KeysTo(c, chosen[..|chosen| - 1]) + [Key(c, chosen[|chosen| - 1])]
  }

  lemma {:induction false} KeysToMembers(c: nat, chosen: seq<nat>, i: nat)
    requires i < |chosen|
    ensures Key(c, chosen[i]) in KeysTo(c, chosen)
  {
    if i < |chosen| - 1 {
      KeysToMembers(c, chosen[..|chosen| - 1], i);
    }
  }

  lemma KeysToNext(start: seq<(nat, nat)>, c: nat, chosen: seq<nat>, i: nat)
    requires i < |chosen|
    ensures start + KeysTo(c, chosen[..i]) + [Key(c, chosen[i])] == start + KeysTo(c, chosen[..i + 1])
  {
    assert chosen[..i + 1][..i] == chosen[..i];
  }

  /** One scan for the next member of the clique: every node below n that is not chosen, to all the chosen. */
  ghost function ScanUses(n: nat, chosen: seq<nat>): seq<(nat, nat)> {
    if n == 0 then []
    else ScanUses(n - 1, chosen) + if n - 1 in chosen then [] else KeysTo(n - 1, chosen)
  }

  lemma {:induction false} ScanUsesMembers(n: nat, chosen: seq<nat>, c: nat, i: nat)
    requires c < n && c !in chosen && i < |chosen|
    ensures Key(c, chosen[i]) in ScanUses(n, chosen)
  {
    var before, now := ScanUses(n - 1, chosen), if n - 1 in chosen then [] else KeysTo(n - 1, chosen);
    if c < n - 1 {
      ScanUsesMembers(n - 1, chosen, c, i);
      assert Key(c, chosen[i]) in before;
    } else {
      KeysToMembers(c, chosen, i);
      assert Key(c, chosen[i]) in now;
    }
    assert ScanUses(n, chosen) == before + now;
  }

  lemma ScanUsesNext(start: seq<(nat, nat)>, c: nat, chosen: seq<nat>)
    ensures c in chosen ==> start + ScanUses(c + 1, chosen) == start + ScanUses(c, chosen)
    ensures c !in chosen ==> start + ScanUses(c, chosen) + KeysTo(c, chosen) == start + ScanUses(c + 1, chosen)
  {}

  /** The scans for all members of the clique but the first. */
  ghost function SelectionUses(n: nat, selected: seq<nat>): seq<(nat, nat)> {
    if |selected| <= 1 then []
    else SelectionUses(n, selected[..|selected| - 1]) + ScanUses(n, selected[..|selected| - 1])
  }

  lemma {:induction false} SelectionUsesPrefix(n: nat, selected: seq<nat>, k: nat) returns (rest: seq<(nat, nat)>)
    requires k <= |selected|
    ensures SelectionUses(n, selected) == SelectionUses(n, selected[..k]) + rest
  {
    if k == |selected| {
      assert selected[..k] == selected;
      rest := [];
    } else if |selected| <= 1 {
      rest := [];
    } else {
      var front := selected[..|selected| - 1];
      var before := SelectionUsesPrefix(n, front, k);
      assert front[..k] == selected[..k];
      rest := before + ScanUses(n, front);
      Regroup(SelectionUses(n, selected[..k]), before, ScanUses(n, front));
    }
  }

  lemma Regroup(a: seq<(nat, nat)>, b: seq<(nat, nat)>, c: seq<(nat, nat)>)
    ensures a + b + c == a + (b + c)
  {}

  /** The nodes below n that are not in the clique, in index order. */
  ghost function Others(n: nat, initial: seq<nat>): seq<nat> {
    if n == 0 then [] else Others(n - 1, initial) + if n - 1 in initial then [] else [n - 1]
  }

  /** Every arriving node to all the nodes present. */
  ghost function ArrivalUses(n: nat, initial: seq<nat>): seq<(nat, nat)> {
    if n == 0 then []
    else ArrivalUses(n - 1, initial) + if n - 1 in initial then [] else KeysTo(n - 1, initial + Others(n - 1, initial))
  }

  lemma ArrivalUsesNext(start: seq<(nat, nat)>, v: nat, initial: seq<nat>, existing: seq<nat>)
    requires existing == initial + Others(v, initial)
    ensures v in initial ==> start + ArrivalUses(v + 1, initial) == start + ArrivalUses(v, initial)
    ensures v !in initial ==>
      start + ArrivalUses(v, initial) + KeysTo(v, existing) == start + ArrivalUses(v + 1, initial)
  {}

  /** The whole generation; the edges of the clique take delays that its selection has looked up. */
  ghost function AllUses(n: nat, initial: seq<nat>): seq<(nat, nat)> {
    SelectionUses(n, initial) + ArrivalUses(n, initial)
  }
}

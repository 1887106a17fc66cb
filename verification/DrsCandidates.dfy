/** The pairs of a ring in the order in which its scan first meets them. */
module DrsCandidates {
  import opened EdgeLists
  import opened Rings
  import opened Sequences
  import opened Wrappers

  /** The pair reached from place i at the given cyclic distance. */
  ghost function PairAt(ring: seq<nat>, i: nat, d: nat): (nat, nat)
    requires i < |ring| && d <= |ring|
  {
    Key(ring[i], ring[Ahead(|ring|, i, d)])
  }

  /** All pairs at distances below d, and at distance d from places below i, have been met. */
  ghost predicate Met(ring: seq<nat>, seen: set<(nat, nat)>, d: nat, i: nat) {
    forall e: nat, j: nat {:trigger PairAt(ring, j, e)} ::
      2 <= e <= |ring| / 2 && j < |ring| && (e < d || (e == d && j < i)) ==>
      PairAt(ring, j, e) in seen
  }

  /** The candidates are the pairs met that were not joined, each once. */
  ghost predicate Listed(ring: seq<nat>, pairs: set<(nat, nat)>, seen: set<(nat, nat)>, candidates: seq<Edge>) {
    && NoRepeats(candidates) && AllPlain(candidates)
    && (forall p :: p in Pairs(candidates) <==> p in seen && p !in pairs)
    && InRing(ring, candidates)
  }

  /** Every pair of the ring is joined or listed. */
  ghost predicate Complete(ring: seq<nat>, pairs: set<(nat, nat)>, candidates: seq<Edge>) {
    forall a: nat, c: nat :: a in ring && c in ring && a != c ==> Key(a, c) in pairs || Key(a, c) in Pairs(candidates)
  }

  lemma MetAll(ring: seq<nat>, edges: seq<Edge>, seen: set<(nat, nat)>, candidates: seq<Edge>)
    requires Met(ring, seen, |ring| / 2 + 1, 0) && Listed(ring, Pairs(edges), seen, candidates)
    requires RingPairs(ring, |ring|) <= Pairs(edges)
    ensures Complete(ring, Pairs(edges), candidates)
  {
    forall a: nat, c: nat | a in ring && c in ring && a != c
      ensures Key(a, c) in Pairs(edges) || Key(a, c) in Pairs(candidates)
    {
      var i: nat :| i < |ring| && ring[i] == a;
      var j: nat :| j < |ring| && ring[j] == c;
      if i < j {
        MetPair(ring, edges, seen, i, j);
      } else {
        MetPair(ring, edges, seen, j, i);
      }
      assert Key(a, c) == Key(c, a);
    }
  }

  /** Neighbours on the ring are joined; any other two places meet within half the ring. */
  lemma MetPair(ring: seq<nat>, edges: seq<Edge>, seen: set<(nat, nat)>, i: nat, j: nat)
    requires Met(ring, seen, |ring| / 2 + 1, 0) && RingPairs(ring, |ring|) <= Pairs(edges) && i < j < |ring|
    ensures Key(ring[i], ring[j]) in Pairs(edges) || Key(ring[i], ring[j]) in seen
  {
    var from, d := WithinHalf(|ring|, i, j);
    assert PairAt(ring, from, d) == Key(ring[i], ring[j]);
    if d == 1 {
      RingPairsMember(ring, |ring|, PairAt(ring, from, d));
      assert RingPair(ring, from, PairAt(ring, from, d));
    }
  }

  lemma ListedNext(ring: seq<nat>, pairs: set<(nat, nat)>, seen: set<(nat, nat)>, candidates: seq<Edge>, a: nat, c: nat)
    requires Listed(ring, pairs, seen, candidates) && Key(a, c) !in seen && a != c && a in ring && c in ring
    ensures Key(a, c) in pairs ==> Listed(ring, pairs, seen + {Key(a, c)}, candidates)
    ensures Key(a, c) !in pairs ==> Listed(ring, pairs, seen + {Key(a, c)}, candidates + [Plain(a, c)])
  {
    PairsAppend(candidates, Plain(a, c));
    NoRepeatsAppend(candidates, Plain(a, c));
  }

  lemma MetNext(ring: seq<nat>, seen: set<(nat, nat)>, d: nat, i: nat)
    requires Met(ring, seen, d, i) && i < |ring| && 2 <= d <= |ring| / 2
    ensures Met(ring, seen + {PairAt(ring, i, d)}, d, i + 1)
  {}

  ghost predicate InRing(ring: seq<nat>, candidates: seq<Edge>) {
    forall e :: e in candidates ==> e.a < e.b && e.a in ring && e.b in ring
  }

  /** A meeting on the scan: from a place, at a cyclic distance. */
  datatype Meeting = Meeting(distance: nat, place: nat)

  /** The order of the scan: by distance, then by place. */
  ghost predicate Earlier(m: Meeting, m': Meeting) {
    m.distance < m'.distance || (m.distance == m'.distance && m.place < m'.place)
  }

  ghost predicate Meets(ring: seq<nat>, p: (nat, nat), m: Meeting) {
    2 <= m.distance <= |ring| / 2 && m.place < |ring| && PairAt(ring, m.place, m.distance) == p
  }

  /** Of all meetings of the pair this one is the first: at the least distance, and there from the least place. */
  ghost predicate FirstMeeting(ring: seq<nat>, p: (nat, nat), m: Meeting) {
    && Meets(ring, p, m)
    && forall m' :: Meets(ring, p, m') ==> m' == m || Earlier(m, m')
  }

  ghost predicate MetFirstAt(ring: seq<nat>, candidates: seq<Edge>, meetings: seq<Meeting>, i: int) {
    0 <= i < |candidates| ==> i < |meetings| && FirstMeeting(ring, candidates[i].Pair(), meetings[i])
  }

  ghost predicate InTurn(meetings: seq<Meeting>, i: int, j: int) {
    0 <= i < j < |meetings| ==> Earlier(meetings[i], meetings[j])
  }

  /** The candidates in the order in which a scan of the ring, near pairs before far ones, first meets them. */
  ghost predicate NearestFirst(ring: seq<nat>, candidates: seq<Edge>, meetings: seq<Meeting>) {
    && |meetings| == |candidates|
    && (forall i {:trigger MetFirstAt(ring, candidates, meetings, i)} :: MetFirstAt(ring, candidates, meetings, i))
    && forall i, j {:trigger InTurn(meetings, i, j)} :: InTurn(meetings, i, j)
  }

  ghost predicate AllEarlier(meetings: seq<Meeting>, m: Meeting) {
    forall k :: 0 <= k < |meetings| ==> Earlier(meetings[k], m)
  }

  lemma NearestNext(ring: seq<nat>, candidates: seq<Edge>, meetings: seq<Meeting>, e: Edge, m: Meeting)
    requires NearestFirst(ring, candidates, meetings) && AllEarlier(meetings, m) && FirstMeeting(ring, e.Pair(), m)
    ensures NearestFirst(ring, candidates + [e], meetings + [m])
  {
    forall i ensures MetFirstAt(ring, candidates + [e], meetings + [m], i) {
      assert MetFirstAt(ring, candidates, meetings, i);
    }
    forall i, j ensures InTurn(meetings + [m], i, j) {
      assert InTurn(meetings, i, j);
    }
  }

  /** A pair that the scan has not seen is met for the first time. */
  lemma UnseenIsFirst(ring: seq<nat>, seen: set<(nat, nat)>, d: nat, i: nat)
    requires Met(ring, seen, d, i) && i < |ring| && 2 <= d <= |ring| / 2 && PairAt(ring, i, d) !in seen
    ensures FirstMeeting(ring, PairAt(ring, i, d), Meeting(d, i))
  {
    forall m | Meets(ring, PairAt(ring, i, d), m) ensures m == Meeting(d, i) || Earlier(Meeting(d, i), m) {
      assert PairAt(ring, m.place, m.distance) !in seen;
    }
  }

  /** The candidates of a ring are new plain edges, each once, and no other pair of the ring is left. */
  ghost predicate Fresh(ring: seq<nat>, candidates: seq<Edge>, before: set<(nat, nat)>) {
    && InRing(ring, candidates) && NoRepeats(candidates) && AllPlain(candidates) && Complete(ring, before, candidates)
    && forall e :: e in candidates ==> e.Pair() !in before
  }

  lemma FreshMember(ring: seq<nat>, before: set<(nat, nat)>, s: seq<Edge>, t: seq<Edge>, i: nat) returns (j: nat)
    requires Fresh(ring, s, before) && Fresh(ring, t, before) && i < |s|
    ensures j < |t| && t[j] == s[i]
  {
    var e := s[i];
    assert e in s && Key(e.a, e.b) == e.Pair();
    assert e.Pair() in Pairs(t);
    var f :| f in t && f.Pair() == e.Pair();
    j :| 0 <= j < |t| && t[j] == f;
  }

  /** Where both lists agree before place k, the other list has the k-th member at its place or later. */
  lemma MemberNotBefore(ring: seq<nat>, before: set<(nat, nat)>, s: seq<Edge>, t: seq<Edge>, k: nat) returns (j: nat)
    requires Fresh(ring, s, before) && Fresh(ring, t, before) && k < |s| && k <= |t| && s[..k] == t[..k]
    ensures k <= j < |t| && t[j] == s[k]
  {
    j := FreshMember(ring, before, s, t, k);
    forall i | 0 <= i < k ensures t[i] != s[k] {
      assert s[i] == s[..k][i] == t[..k][i] == t[i];
      assert Differ(s, i, k);
    }
  }

  lemma FirstMeetingUnique(ring: seq<nat>, p: (nat, nat), m: Meeting, m': Meeting)
    requires FirstMeeting(ring, p, m) && FirstMeeting(ring, p, m')
    ensures m == m'
  {}

  /** The ring and the edges before decide the candidates and their order. */
  lemma {:induction false} CandidatesUnique(ring: seq<nat>, before: set<(nat, nat)>, s: seq<Edge>, t: seq<Edge>,
                                            m: seq<Meeting>, m': seq<Meeting>, k: nat)
    requires Fresh(ring, s, before) && NearestFirst(ring, s, m) && k <= |s|
    requires Fresh(ring, t, before) && NearestFirst(ring, t, m')
    ensures k <= |t| && s[..k] == t[..k] && m[..k] == m'[..k]
  {
    if k > 0 {
      CandidatesUnique(ring, before, s, t, m, m', k - 1);
      var j := MemberNotBefore(ring, before, s, t, k - 1);
      var i := MemberNotBefore(ring, before, t, s, k - 1);
      assert MetFirstAt(ring, s, m, k - 1) && MetFirstAt(ring, t, m', j);
      FirstMeetingUnique(ring, s[k - 1].Pair(), m[k - 1], m'[j]);
      assert MetFirstAt(ring, t, m', k - 1) && MetFirstAt(ring, s, m, i);
      FirstMeetingUnique(ring, t[k - 1].Pair(), m'[k - 1], m[i]);
      assert InTurn(m', k - 1, j) && InTurn(m, k - 1, i);
      SamePrefix(s, t, k - 1);
      SamePrefix(m, m', k - 1);
    }
  }

  lemma DistinctPlaces(ring: seq<nat>, i: nat, d: nat)
    requires Ascending(ring) && i < |ring| && 2 <= d <= |ring| / 2
    ensures ring[Ahead(|ring|, i, d)] != ring[i] && (i + d) % |ring| == Ahead(|ring|, i, d)
    ensures ring[i] in ring && ring[Ahead(|ring|, i, d)] in ring
  {
    AheadIsModulo(|ring|, i, d);
    AscendingDistinct(ring);
  }

  /** Between two meetings of the scan. */
  ghost predicate ScannedTo(ring: seq<nat>, pairs: set<(nat, nat)>, seen: set<(nat, nat)>, candidates: seq<Edge>,
                            meetings: seq<Meeting>, distance: nat, i: nat)
  {
    && 2 <= distance && i <= |ring| && Met(ring, seen, distance, i) && Listed(ring, pairs, seen, candidates)
    && NearestFirst(ring, candidates, meetings) && AllEarlier(meetings, Meeting(distance, i))
  }

  method ScanNext(n: nat, b: Builder, ring: seq<nat>, seen: set<(nat, nat)>, candidates: seq<Edge>,
                  ghost meetings: seq<Meeting>, distance: nat, i: nat)
    returns (seen': set<(nat, nat)>, candidates': seq<Edge>, ghost meetings': seq<Meeting>)
    requires b.n == n && b.Valid() && Ascending(ring) && (forall i :: 0 <= i < |ring| ==> ring[i] < n)
    requires ScannedTo(ring, Pairs(b.edges), seen, candidates, meetings, distance, i)
    requires i < |ring| && distance <= |ring| / 2
    ensures ScannedTo(ring, Pairs(b.edges), seen', candidates', meetings', distance, i + 1)
  {
    seen', candidates', meetings' := seen, candidates, meetings;
    DistinctPlaces(ring, i, distance);
    var node := ring[i];
    var target := ring[(i + distance) % |ring|];
    assert Key(node, target) == PairAt(ring, i, distance);
    MetNext(ring, seen, distance, i);
    if node != target && Key(node, target) !in seen {
      var first, second := if node > target then target else node, if node > target then node else target;
      ListedNext(ring, Pairs(b.edges), seen, candidates, node, target);
      UnseenIsFirst(ring, seen, distance, i);
      seen' := seen + {(first, second)};
      if second !in b.adjacency[first] {
        NearestNext(ring, candidates, meetings, Edge(first, second, None), Meeting(distance, i));
        candidates', meetings' := candidates + [Edge(first, second, None)], meetings + [Meeting(distance, i)];
      }
    }
  }

  /** The pairs of the ring that are not joined, near ones first and in index order within a distance. */
  method RingCandidates(n: nat, b: Builder, ring: seq<nat>)
    returns (candidates: seq<Edge>, ghost meetings: seq<Meeting>)
    requires b.n == n && b.Valid() && Ascending(ring) && (forall i :: 0 <= i < |ring| ==> ring[i] < n)
    requires RingPairs(ring, |ring|) <= Pairs(b.edges)
    ensures Fresh(ring, candidates, Pairs(b.edges)) && NearestFirst(ring, candidates, meetings)
  {
    candidates, meetings := [], [];
    var seen: set<(nat, nat)> := {};
    var distance := 2;
    while distance <= |ring| / 2
      invariant distance <= |ring| / 2 + 1 || distance == 2
      invariant ScannedTo(ring, Pairs(b.edges), seen, candidates, meetings, distance, 0)
    {
      for i := 0 to |ring|
        invariant ScannedTo(ring, Pairs(b.edges), seen, candidates, meetings, distance, i)
      {
        seen, candidates, meetings := ScanNext(n, b, ring, seen, candidates, meetings, distance, i);
      }
      distance := distance + 1;
    }
    MetAll(ring, b.edges, seen, candidates);
  }
}

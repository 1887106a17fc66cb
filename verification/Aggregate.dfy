/** Aggregation of recorded events: one accumulator per message, rows in order, totals over the rows. */
module Aggregate {
  import opened Wrappers
  import Sequences

  type MessageID = string

  datatype EventType =
    | MessageCreated | MessageReceived | MessageSent | MessageDropped | MessageSuppressed
    | ControlSent | ControlReceived | ControlDropped | OtherType

  datatype Event = Event(
    timestampNS: int,
    kind: EventType,
    protocol: string,
    node: string,
    messageID: MessageID,
    origin: string,
    duplicate: bool,
    controlBytes: int)

  datatype Accumulator = Accumulator(
    origin: string,
    createdAt: int,
    lastUniqueAt: int,
    reached: set<string>,
    transmissions: int,
    duplicates: int,
    drops: int,
    suppressions: int,
    controlSent: int,
    controlReceived: int,
    controlDrops: int,
    controlBytes: int)

  const FRESH := Accumulator("", 0, 0, {}, 0, 0, 0, 0, 0, 0, 0, 0)

  type Messages = map<MessageID, Accumulator>

  function Consumed(acc: Accumulator, e: Event): Accumulator {
    match e.kind
    case MessageCreated =>
      acc.(origin := e.origin, createdAt := e.timestampNS, lastUniqueAt := e.timestampNS,
           reached := acc.reached + {e.node})
    case MessageReceived =>
      if e.duplicate then acc.(duplicates := acc.duplicates + 1)
      else acc.(reached := acc.reached + {e.node},
                lastUniqueAt := if e.timestampNS > acc.lastUniqueAt then e.timestampNS else acc.lastUniqueAt)
    case MessageSent => acc.(transmissions := acc.transmissions + 1)
    case MessageDropped => acc.(drops := acc.drops + 1)
    case MessageSuppressed => acc.(suppressions := acc.suppressions + 1)
    case ControlSent => acc.(controlSent := acc.controlSent + 1, controlBytes := acc.controlBytes + e.controlBytes)
    case ControlReceived => acc.(controlReceived := acc.controlReceived + 1)
    case ControlDropped => acc.(controlDrops := acc.controlDrops + 1)
    case OtherType => acc
  }

  function AccumulatorOf(messages: Messages, id: MessageID): Accumulator {
    if id in messages then messages[id] else FRESH
  }

  function Fold(events: seq<Event>): Messages {
    if events == [] then map[]
    else
      var messages, e := Fold(events[..|events| - 1]), events[|events| - 1];
      if e.messageID == "" then messages
      else messages[e.messageID := Consumed(AccumulatorOf(messages, e.messageID), e)]
  }

  datatype Counter = Transmissions | Duplicates | Drops | Suppressions | Sent | Heard | Lost | Bytes

  function Reading(acc: Accumulator, c: Counter): int {
    match c
    case Transmissions => acc.transmissions
    case Duplicates => acc.duplicates
    case Drops => acc.drops
    case Suppressions => acc.suppressions
    case Sent => acc.controlSent
    case Heard => acc.controlReceived
    case Lost => acc.controlDrops
    case Bytes => acc.controlBytes
  }

  /** What one event adds to a counter, whichever message it is about. */
  function Amount(c: Counter, e: Event): int {
    match c
    case Transmissions => if e.kind.MessageSent? then 1 else 0
    case Duplicates => if e.kind.MessageReceived? && e.duplicate then 1 else 0
    case Drops => if e.kind.MessageDropped? then 1 else 0
    case Suppressions => if e.kind.MessageSuppressed? then 1 else 0
    case Sent => if e.kind.ControlSent? then 1 else 0
    case Heard => if e.kind.ControlReceived? then 1 else 0
    case Lost => if e.kind.ControlDropped? then 1 else 0
    case Bytes => if e.kind.ControlSent? then e.controlBytes else 0
  }

  /** One message, or any message that has an identifier. */
  datatype Subject = One(id: MessageID) | AnyNamed

  ghost predicate Concerns(subject: Subject, e: Event) {
    match subject
    case One(id) => e.messageID == id
    case AnyNamed => e.messageID != ""
  }

  /** Plain counting over the events about the subject. */
  ghost function Tally(events: seq<Event>, subject: Subject, c: Counter): int {
    if events == [] then 0
    else
      var e := events[|events| - 1];
      Tally(events[..|events| - 1], subject, c) + if Concerns(subject, e) then Amount(c, e) else 0
  }

  ghost predicate Reaches(e: Event) {
    e.kind.MessageCreated? || (e.kind.MessageReceived? && !e.duplicate)
  }

  ghost predicate Names(events: seq<Event>, id: MessageID) {
    exists e :: e in events && e.messageID == id
  }

  /** The nodes with a creation or a first reception of the message. */
  ghost function ReachedNodes(events: seq<Event>, id: MessageID): set<string> {
    set e | e in events && e.messageID == id && Reaches(e) :: e.node
  }

  /** Every counter of every accumulator agrees with plain counting. */
  lemma {:induction false} FoldCounts(events: seq<Event>, id: MessageID, c: Counter)
    requires id != ""
    ensures Reading(AccumulatorOf(Fold(events), id), c) == Tally(events, One(id), c)
  {
    if events != [] {
      FoldCounts(events[..|events| - 1], id, c);
    }
  }

  lemma {:induction false} FoldReaches(events: seq<Event>, id: MessageID)
    requires id != ""
    ensures id in Fold(events) <==> Names(events, id)
    ensures AccumulatorOf(Fold(events), id).reached == ReachedNodes(events, id)
    ensures "" !in Fold(events)
  {
    if events != [] {
      var front, e := events[..|events| - 1], events[|events| - 1];
      FoldReaches(front, id);
      assert events == front + [e];
      assert Names(events, id) <==> Names(front, id) || e.messageID == id by {
        if Names(front, id) {
          var x :| x in front && x.messageID == id;
          assert x in events;
        }
        assert e in events;
      }
      ReachedNext(front, e, id);
    }
  }

  lemma ReachedNext(front: seq<Event>, e: Event, id: MessageID)
    ensures ReachedNodes(front + [e], id)
         == ReachedNodes(front, id) + if e.messageID == id && Reaches(e) then {e.node} else {}
  {
    var all := front + [e];
    forall node
      ensures node in ReachedNodes(all, id) <==>
        node in ReachedNodes(front, id) + if e.messageID == id && Reaches(e) then {e.node} else {}
    {
      if node in ReachedNodes(front, id) {
        var x :| x in front && x.messageID == id && Reaches(x) && x.node == node;
        assert x in all;
      }
      assert e in all;
    }
  }

  lemma {:induction false} TallyConcat(s: seq<Event>, t: seq<Event>, subject: Subject, c: Counter)
    ensures Tally(s + t, subject, c) == Tally(s, subject, c) + Tally(t, subject, c)
  {
    if t == [] {
      assert s + t == s;
    } else {
      TallyConcat(s, t[..|t| - 1], subject, c);
      assert (s + t)[..|s + t| - 1] == s + t[..|t| - 1];
    }
  }

  function Without(t: seq<Event>, i: nat): seq<Event>
    requires i < |t|
  {
    t[..i] + t[i + 1..]
  }

  lemma WithoutMembers(t: seq<Event>, i: nat)
    requires i < |t|
    ensures multiset(Without(t, i)) == multiset(t) - multiset{t[i]}
  {
    assert t == t[..i] + ([t[i]] + t[i + 1..]);
    assert multiset(t) == multiset(Without(t, i)) + multiset{t[i]};
  }

  lemma TallyWithout(t: seq<Event>, i: nat, subject: Subject, c: Counter)
    requires i < |t|
    ensures Tally(t, subject, c)
         == Tally(Without(t, i), subject, c) + if Concerns(subject, t[i]) then Amount(c, t[i]) else 0
  {
    assert t == t[..i + 1] + t[i + 1..];
    TallyConcat(t[..i + 1], t[i + 1..], subject, c);
    TallyConcat(t[..i], t[i + 1..], subject, c);
    assert t[..i + 1][..i] == t[..i];
  }

  lemma {:induction false} TallyPermuted(s: seq<Event>, t: seq<Event>, subject: Subject, c: Counter)
    requires multiset(s) == multiset(t)
    ensures Tally(s, subject, c) == Tally(t, subject, c)
    decreases |s|
  {
    assert |s| == |multiset(s)| == |multiset(t)| == |t|;
    if s != [] {
      var last := |s| - 1;
      assert s[last] in multiset(t);
      var i :| 0 <= i < |t| && t[i] == s[last];
      WithoutMembers(s, last);
      WithoutMembers(t, i);
      TallyPermuted(Without(s, last), Without(t, i), subject, c);
      TallyWithout(s, last, subject, c);
      TallyWithout(t, i, subject, c);
    }
  }

  /** However the event files interleave, the messages, their reached nodes and all counters are the same. */
  lemma AggregationIgnoresOrder(s: seq<Event>, t: seq<Event>, id: MessageID, c: Counter)
    requires multiset(s) == multiset(t) && id != ""
    ensures id in Fold(s) <==> id in Fold(t)
    ensures AccumulatorOf(Fold(s), id).reached == AccumulatorOf(Fold(t), id).reached
    ensures Reading(AccumulatorOf(Fold(s), id), c) == Reading(AccumulatorOf(Fold(t), id), c)
  {
    FoldCounts(s, id, c);
    FoldCounts(t, id, c);
    TallyPermuted(s, t, One(id), c);
    FoldReaches(s, id);
    FoldReaches(t, id);
    forall e ensures e in s <==> e in t {
      Sequences.PermutationMembers(s, t, e);
    }
    assert Names(s, id) <==> Names(t, id);
    assert ReachedNodes(s, id) == ReachedNodes(t, id);
  }

  /** So are the run totals. */
  lemma TotalsIgnoreOrder(s: seq<Event>, t: seq<Event>, nodeCount: int, rows: seq<MessageSummary>,
                          rows': seq<MessageSummary>, c: Counter)
    requires multiset(s) == multiset(t)
    requires RowsOf(Fold(s), nodeCount, rows) && RowsOf(Fold(t), nodeCount, rows')
    ensures RowTotal(rows, c) == RowTotal(rows', c)
  {
    TotalsArePlainCounts(s, nodeCount, rows, c);
    TotalsArePlainCounts(t, nodeCount, rows', c);
    TallyPermuted(s, t, AnyNamed, c);
  }

  ghost predicate IsCreation(e: Event, id: MessageID) {
    e.messageID == id && e.kind.MessageCreated?
  }

  ghost predicate IsUnique(e: Event, id: MessageID) {
    e.messageID == id && e.kind.MessageReceived? && !e.duplicate
  }

  /** The latest first reception among the events, or the given floor if that is later. */
  ghost function Latest(events: seq<Event>, id: MessageID, floor: int): int {
    if events == [] then floor
    else
      var e, before := events[|events| - 1], Latest(events[..|events| - 1], id, floor);
      if IsUnique(e, id) && e.timestampNS > before then e.timestampNS else before
  }

  lemma {:induction false} LatestBound(events: seq<Event>, id: MessageID, floor: int)
    ensures Latest(events, id, floor) >= floor
    ensures forall i :: 0 <= i < |events| && IsUnique(events[i], id) ==>
      events[i].timestampNS <= Latest(events, id, floor)
    ensures Latest(events, id, floor) == floor
      || exists i :: 0 <= i < |events| && IsUnique(events[i], id) && events[i].timestampNS == Latest(events, id, floor)
  {
    if events != [] {
      LatestBound(events[..|events| - 1], id, floor);
    }
  }

  /** The accumulator takes the creation time and raises it by the first receptions consumed later. */
  lemma {:induction false} LastUniqueSinceCreation(events: seq<Event>, id: MessageID, k: nat)
    requires id != "" && k < |events| && IsCreation(events[k], id)
    requires forall j :: k < j < |events| ==> !IsCreation(events[j], id)
    ensures AccumulatorOf(Fold(events), id).createdAt == events[k].timestampNS
    ensures AccumulatorOf(Fold(events), id).origin == events[k].origin
    ensures AccumulatorOf(Fold(events), id).lastUniqueAt == Latest(events[k + 1..], id, events[k].timestampNS)
  {
    if k < |events| - 1 {
      LastUniqueSinceCreation(events[..|events| - 1], id, k);
      assert events[k + 1..][..|events| - k - 2] == events[..|events| - 1][k + 1..];
    }
  }

  lemma {:induction false} LastUniqueWithoutCreation(events: seq<Event>, id: MessageID)
    requires id != "" && forall j :: 0 <= j < |events| ==> !IsCreation(events[j], id)
    ensures AccumulatorOf(Fold(events), id).lastUniqueAt == Latest(events, id, 0)
    ensures AccumulatorOf(Fold(events), id).createdAt == 0 && AccumulatorOf(Fold(events), id).origin == ""
  {
    if events != [] {
      LastUniqueWithoutCreation(events[..|events| - 1], id);
    }
  }

  /**
   * The recorded time is the latest of the creation and all first receptions if and only if no first
   * reception consumed before the creation is later than everything from the creation on.
   */
  lemma LastUniqueIsLatest(events: seq<Event>, id: MessageID, k: nat)
    requires id != "" && k < |events| && IsCreation(events[k], id)
    requires forall j :: k < j < |events| ==> !IsCreation(events[j], id)
    ensures
      var from := Latest(events[k + 1..], id, events[k].timestampNS);
      AccumulatorOf(Fold(events), id).lastUniqueAt == Latest(events[..k], id, from) <==>
      forall j :: 0 <= j < k && IsUnique(events[j], id) ==> events[j].timestampNS <= from
  {
    LastUniqueSinceCreation(events, id, k);
    var from := Latest(events[k + 1..], id, events[k].timestampNS);
    LatestBound(events[..k], id, from);
    if j :| 0 <= j < k && IsUnique(events[j], id) && events[j].timestampNS > from {
      assert events[..k][j] == events[j];
    }
  }

  /**
   * The event files are read in the order of their names, so where a peer named before the origin
   * receives the message, its reception is consumed before the creation and overwritten.
   */
  lemma EarlyReceptionIsLost()
    ensures
      var received := Event(10, MessageReceived, "base", "n1", "m", "n2", false, 0);
      var created := Event(5, MessageCreated, "base", "n2", "m", "n2", false, 0);
      && IdLess("n1", "n2")
      && AccumulatorOf(Fold(Flatten([[received], [created]])), "m").lastUniqueAt == 5
      && AccumulatorOf(Fold(Flatten([[created], [received]])), "m").lastUniqueAt == 10
  {
    var received := Event(10, MessageReceived, "base", "n1", "m", "n2", false, 0);
    var created := Event(5, MessageCreated, "base", "n2", "m", "n2", false, 0);
    TwoFiles([received], [created]);
    TwoFiles([created], [received]);
    LastUniqueSinceCreation([created, received], "m", 0);
    assert [created, received][1..] == [received];
    assert Latest([received], "m", 5) == 10 by {
      assert [received][..0] == [];
    }
    LastUniqueSinceCreation([received, created], "m", 1);
    assert [received, created][2..] == [];
  }

  lemma TwoFiles(a: seq<Event>, b: seq<Event>)
    ensures Flatten([a, b]) == a + b
  {
    FlattenNext([a, b], 0);
    FlattenNext([a, b], 1);
    assert [a, b][..0] == [] && [a, b][..2] == [a, b];
  }

  datatype MessageSummary = MessageSummary(id: MessageID, totalNodes: int, acc: Accumulator, reachability: real,
                                           delayMS: real)

  datatype RunSummary = RunSummary(
    protocol: string,
    messages: nat,
    nodes: int,
    averageReachability: real,
    averageDelayMS: real,
    transmissions: int,
    duplicates: int,
    drops: int,
    suppressions: int,
    controlSent: int,
    controlReceived: int,
    controlDrops: int,
    controlBytes: int)

  function Total(s: RunSummary, c: Counter): int {
    match c
    case Transmissions => s.transmissions
    case Duplicates => s.duplicates
    case Drops => s.drops
    case Suppressions => s.suppressions
    case Sent => s.controlSent
    case Heard => s.controlReceived
    case Lost => s.controlDrops
    case Bytes => s.controlBytes
  }

  /** The share of the nodes reached, and the milliseconds from the creation to the last unique reception. */
  function Row(id: MessageID, acc: Accumulator, nodeCount: int): (r: MessageSummary)
    ensures if nodeCount > 0 then r.reachability * nodeCount as real == |acc.reached| as real else r.reachability == 0.0
    ensures if 0 < acc.createdAt <= acc.lastUniqueAt
      then r.delayMS * 1000000.0 == (acc.lastUniqueAt - acc.createdAt) as real
      else r.delayMS == 0.0
  {
    MessageSummary(id, nodeCount, acc,
      if nodeCount > 0 then |acc.reached| as real / nodeCount as real else 0.0,
      if acc.createdAt > 0 && acc.lastUniqueAt >= acc.createdAt
      then (acc.lastUniqueAt - acc.createdAt) as real / 1000000.0 else 0.0)
  }

  /**
   * The completion delay of a message is the time from its creation to the latest first reception read
   * after it, and 0 for a message whose creation was not read.
   */
  lemma CompletionDelay(events: seq<Event>, id: MessageID, k: nat, nodeCount: int)
    requires id != "" && forall j :: k <= j < |events| ==> (IsCreation(events[j], id) <==> j == k)
    requires k >= |events| ==> forall j :: 0 <= j < |events| ==> !IsCreation(events[j], id)
    ensures
      var row := Row(id, AccumulatorOf(Fold(events), id), nodeCount);
      if k < |events| && events[k].timestampNS > 0
      then row.delayMS * 1000000.0
           == (Latest(events[k + 1..], id, events[k].timestampNS) - events[k].timestampNS) as real
      else row.delayMS == 0.0
  {
    if k < |events| {
      LastUniqueSinceCreation(events, id, k);
      LatestBound(events[k + 1..], id, events[k].timestampNS);
    } else {
      LastUniqueWithoutCreation(events, id);
    }
  }

  /** The byte order of identifiers. */
  predicate IdLess(a: MessageID, b: MessageID) {
    |b| > 0 && (|a| == 0 || a[0] < b[0] || (a[0] == b[0] && IdLess(a[1..], b[1..])))
  }

  lemma {:induction false} IdOrder(a: MessageID, b: MessageID, c: MessageID)
    ensures !IdLess(a, a)
    ensures a == b || IdLess(a, b) || IdLess(b, a)
    ensures IdLess(a, b) && IdLess(b, c) ==> IdLess(a, c)
    decreases |a|
  {
    if |a| > 0 && |b| > 0 && |c| > 0 {
      IdOrder(a[1..], b[1..], c[1..]);
    } else if |a| > 0 && |b| > 0 {
      IdOrder(a[1..], b[1..], "");
    } else if |a| > 0 {
      IdOrder(a[1..], "", "");
    }
    if |a| > 0 && |b| > 0 && a[0] == b[0] && a[1..] == b[1..] {
      assert a == [a[0]] + a[1..] && b == [b[0]] + b[1..];
    }
  }

  predicate RowLess(r: MessageSummary, s: MessageSummary) {
    r.acc.createdAt < s.acc.createdAt || (r.acc.createdAt == s.acc.createdAt && IdLess(r.id, s.id))
  }

  ghost predicate InRowOrder(rows: seq<MessageSummary>, i: int, j: int) {
    0 <= i < j < |rows| ==> RowLess(rows[i], rows[j])
  }

  ghost predicate RowsSorted(rows: seq<MessageSummary>) {
    forall i, j {:trigger InRowOrder(rows, i, j)} :: InRowOrder(rows, i, j)
  }

  lemma RowLessTotal(r: MessageSummary, s: MessageSummary, t: MessageSummary)
    ensures !RowLess(r, r)
    ensures r.id == s.id || RowLess(r, s) || RowLess(s, r)
    ensures RowLess(r, s) && RowLess(s, t) ==> RowLess(r, t)
  {
    IdOrder(r.id, s.id, t.id);
    IdOrder(s.id, r.id, t.id);
  }

  /** One row for every message, and no other. */
  ghost predicate RowsOf(messages: Messages, nodeCount: int, rows: seq<MessageSummary>) {
    && RowsSorted(rows)
    && forall r :: r in rows <==> r.id in messages && r == Row(r.id, messages[r.id], nodeCount)
  }

  function InsertRow(r: MessageSummary, rows: seq<MessageSummary>): (s: seq<MessageSummary>)
    ensures forall x :: x in s <==> x == r || x in rows
  {
    if rows == [] then [r]
    else if RowLess(r, rows[0]) then [r] + rows
    else
      assert rows == [rows[0]] + rows[1..];
      [rows[0]] + InsertRow(r, rows[1..])
  }

  lemma RowsTail(rows: seq<MessageSummary>)
    requires RowsSorted(rows) && rows != []
    ensures RowsSorted(rows[1..]) && forall x :: x in rows[1..] ==> RowLess(rows[0], x)
  {
    var tail := rows[1..];
    forall i, j ensures InRowOrder(tail, i, j) {
      assert InRowOrder(rows, i + 1, j + 1);
    }
    forall x | x in tail ensures RowLess(rows[0], x) {
      var i :| 0 <= i < |tail| && tail[i] == x;
      assert InRowOrder(rows, 0, i + 1);
    }
  }

  lemma RowsCons(r: MessageSummary, rows: seq<MessageSummary>)
    requires RowsSorted(rows) && forall x :: x in rows ==> RowLess(r, x)
    ensures RowsSorted([r] + rows)
  {
    forall i, j ensures InRowOrder([r] + rows, i, j) {
      assert InRowOrder(rows, i - 1, j - 1);
      if 0 == i < j <= |rows| {
        assert rows[j - 1] in rows;
      }
    }
  }

  lemma {:induction false} InsertRowSorted(r: MessageSummary, rows: seq<MessageSummary>)
    requires RowsSorted(rows) && forall x :: x in rows ==> x.id != r.id
    ensures RowsSorted(InsertRow(r, rows))
  {
    if rows == [] {
    } else {
      RowsTail(rows);
      assert rows[0] in rows;
      RowLessTotal(r, rows[0], rows[0]);
      if RowLess(r, rows[0]) {
        forall x | x in rows ensures RowLess(r, x) {
          RowLessTotal(r, rows[0], x);
          assert x == rows[0] || x in rows[1..];
        }
        RowsCons(r, rows);
      } else {
        InsertRowSorted(r, rows[1..]);
        RowsCons(rows[0], InsertRow(r, rows[1..]));
      }
    }
  }

  /** The order of the rows is no accident of the table: there is one list of them. */
  lemma {:induction false} RowsUnique(rows: seq<MessageSummary>, rows': seq<MessageSummary>)
    requires RowsSorted(rows) && RowsSorted(rows') && forall r :: r in rows <==> r in rows'
    ensures rows == rows'
  {
    if rows == [] {
      Sequences.NoMembers(rows');
    } else {
      assert rows[0] in rows' && rows'[0] in rows;
      RowsTail(rows);
      RowsTail(rows');
      assert rows == [rows[0]] + rows[1..] && rows' == [rows'[0]] + rows'[1..];
      RowLessTotal(rows[0], rows'[0], rows[0]);
      assert rows[0] == rows'[0];
      forall r ensures r in rows[1..] <==> r in rows'[1..] {
        RowLessTotal(r, r, r);
        assert r in rows <==> r == rows[0] || r in rows[1..];
        assert r in rows' <==> r == rows'[0] || r in rows'[1..];
      }
      RowsUnique(rows[1..], rows'[1..]);
    }
  }

  ghost function RowTotal(rows: seq<MessageSummary>, c: Counter): int {
    if rows == [] then 0 else RowTotal(rows[1..], c) + Reading(rows[0].acc, c)
  }

  ghost predicate Listed(rows: seq<MessageSummary>, id: MessageID) {
    exists r :: r in rows && r.id == id
  }

  ghost function TallyTotal(rows: seq<MessageSummary>, events: seq<Event>, c: Counter): int {
    if rows == [] then 0 else TallyTotal(rows[1..], events, c) + Tally(events, One(rows[0].id), c)
  }

  /** One more event adds its amount once, if its message is listed. */
  lemma {:induction false} TallyTotalNext(rows: seq<MessageSummary>, events: seq<Event>, e: Event, c: Counter)
    requires RowsSorted(rows) && forall r, s :: r in rows && s in rows && r.id == s.id ==> r == s
    ensures TallyTotal(rows, events + [e], c)
         == TallyTotal(rows, events, c) + if Listed(rows, e.messageID) then Amount(c, e) else 0
  {
    if rows != [] {
      RowsTail(rows);
      RowLessTotal(rows[0], rows[0], rows[0]);
      assert rows == [rows[0]] + rows[1..];
      TallyTotalNext(rows[1..], events, e, c);
      assert (events + [e])[..|events|] == events;
      assert Listed(rows, e.messageID) <==> rows[0].id == e.messageID || Listed(rows[1..], e.messageID);
      assert rows[0].id == e.messageID ==> !Listed(rows[1..], e.messageID);
    }
  }

  /** Summing the tallies message by message is counting all named events. */
  lemma {:induction false} TallyTotalIsGrand(rows: seq<MessageSummary>, events: seq<Event>, c: Counter)
    requires RowsSorted(rows) && forall r, s :: r in rows && s in rows && r.id == s.id ==> r == s
    requires forall e :: e in events && e.messageID != "" ==> Listed(rows, e.messageID)
    requires !Listed(rows, "")
    ensures TallyTotal(rows, events, c) == Tally(events, AnyNamed, c)
  {
    if events == [] {
      TallyTotalZero(rows, c);
    } else {
      var front, e := events[..|events| - 1], events[|events| - 1];
      assert events == front + [e];
      assert e in events;
      TallyTotalIsGrand(rows, front, c);
      TallyTotalNext(rows, front, e, c);
    }
  }

  lemma {:induction false} TallyTotalZero(rows: seq<MessageSummary>, c: Counter)
    ensures TallyTotal(rows, [], c) == 0
  {
    if rows != [] {
      TallyTotalZero(rows[1..], c);
    }
  }

  lemma {:induction false} RowTotalIsTally(rows: seq<MessageSummary>, events: seq<Event>, c: Counter)
    requires forall r :: r in rows ==> r.id != "" && r.acc == AccumulatorOf(Fold(events), r.id)
    ensures RowTotal(rows, c) == TallyTotal(rows, events, c)
  {
    if rows != [] {
      assert rows[0] in rows;
      FoldCounts(events, rows[0].id, c);
      RowTotalIsTally(rows[1..], events, c);
    }
  }

  /** Each run total is the plain count, or byte sum, over all events that name a message. */
  lemma TotalsArePlainCounts(events: seq<Event>, nodeCount: int, rows: seq<MessageSummary>, c: Counter)
    requires RowsOf(Fold(events), nodeCount, rows)
    ensures RowTotal(rows, c) == Tally(events, AnyNamed, c)
  {
    FoldReaches(events, "x");
    forall e | e in events && e.messageID != "" ensures Listed(rows, e.messageID) {
      FoldReaches(events, e.messageID);
      assert Names(events, e.messageID);
      var r := Row(e.messageID, Fold(events)[e.messageID], nodeCount);
      assert r in rows;
    }
    RowTotalIsTally(rows, events, c);
    TallyTotalIsGrand(rows, events, c);
  }

  ghost function SumReachability(rows: seq<MessageSummary>): real {
    if rows == [] then 0.0 else rows[0].reachability + SumReachability(rows[1..])
  }

  ghost function SumDelay(rows: seq<MessageSummary>): real {
    if rows == [] then 0.0 else rows[0].delayMS + SumDelay(rows[1..])
  }

  /** The nanoseconds that the rows' delays stand for. */
  ghost function SpanOf(acc: Accumulator): int {
    if 0 < acc.createdAt <= acc.lastUniqueAt then acc.lastUniqueAt - acc.createdAt else 0
  }

  ghost function SumSpans(rows: seq<MessageSummary>): int {
    if rows == [] then 0 else SpanOf(rows[0].acc) + SumSpans(rows[1..])
  }

  /** The delays add up to the time from creation to last unique reception, message by message. */
  lemma {:induction false} DelaysAreSpans(nodeCount: int, rows: seq<MessageSummary>)
    requires forall r :: r in rows ==> r == Row(r.id, r.acc, nodeCount)
    ensures SumDelay(rows) * 1000000.0 == SumSpans(rows) as real
  {
    if rows != [] {
      assert rows[0] in rows;
      DelaysAreSpans(nodeCount, rows[1..]);
    }
  }

  function Mean(sum: real, n: nat): (m: real)
    ensures if n == 0 then m == 0.0 else m * n as real == sum
  {
    if n == 0 then 0.0 else sum / (n as real)
  }

  /** The pairs of a message and a node it was created at or first received by. */
  ghost function ReachedPairs(events: seq<Event>): set<(MessageID, string)> {
    set e | e in events && e.messageID != "" && Reaches(e) :: (e.messageID, e.node)
  }

  ghost function NamedMessages(events: seq<Event>): set<MessageID> {
    set e | e in events && e.messageID != "" :: e.messageID
  }

  ghost function RowPairs(r: MessageSummary): set<(MessageID, string)> {
    set node | node in r.acc.reached :: (r.id, node)
  }

  ghost function PairsOf(rows: seq<MessageSummary>): set<(MessageID, string)> {
    if rows == [] then {} else RowPairs(rows[0]) + PairsOf(rows[1..])
  }

  ghost function IdsOf(rows: seq<MessageSummary>): set<MessageID> {
    if rows == [] then {} else {rows[0].id} + IdsOf(rows[1..])
  }

  lemma {:induction false} TaggedSize(id: MessageID, nodes: set<string>)
    ensures |set node | node in nodes :: (id, node)| == |nodes|
  {
    if node :| node in nodes {
      TaggedSize(id, nodes - {node});
      assert (set x | x in nodes :: (id, x)) == (set x | x in nodes - {node} :: (id, x)) + {(id, node)};
    }
  }

  lemma {:induction false} PairsOfMembers(rows: seq<MessageSummary>, p: (MessageID, string))
    ensures p in PairsOf(rows) <==> exists r :: r in rows && r.id == p.0 && p.1 in r.acc.reached
    ensures p.0 in IdsOf(rows) <==> Listed(rows, p.0)
  {
    if rows != [] {
      PairsOfMembers(rows[1..], p);
      assert rows == [rows[0]] + rows[1..];
    }
  }

  /** Different rows are about different messages. */
  ghost predicate DistinctIds(rows: seq<MessageSummary>) {
    RowsSorted(rows) && forall r, s :: r in rows && s in rows && r.id == s.id ==> r == s
  }

  lemma FirstIsApart(rows: seq<MessageSummary>)
    requires DistinctIds(rows) && rows != []
    ensures DistinctIds(rows[1..]) && rows[0].id !in IdsOf(rows[1..])
    ensures RowPairs(rows[0]) !! PairsOf(rows[1..])
  {
    RowsTail(rows);
    RowLessTotal(rows[0], rows[0], rows[0]);
    assert rows == [rows[0]] + rows[1..];
    PairsOfMembers(rows[1..], (rows[0].id, ""));
    forall p | p in PairsOf(rows[1..]) ensures p !in RowPairs(rows[0]) {
      PairsOfMembers(rows[1..], p);
    }
  }

  lemma AddShares(a: int, b: int, n: int)
    requires n > 0
    ensures a as real / n as real + b as real / n as real == (a + b) as real / n as real
  {}

  /** Rows of different messages: their reached nodes are counted once each, and so are they. */
  lemma {:induction false} SumIsPairCount(rows: seq<MessageSummary>, nodeCount: int)
    requires nodeCount > 0 && DistinctIds(rows)
    requires forall r :: r in rows ==> r.reachability == |r.acc.reached| as real / nodeCount as real
    ensures SumReachability(rows) == |PairsOf(rows)| as real / nodeCount as real
  {
    if rows != [] {
      FirstIsApart(rows);
      SumIsPairCount(rows[1..], nodeCount);
      TaggedSize(rows[0].id, rows[0].acc.reached);
      AddShares(|rows[0].acc.reached|, |PairsOf(rows[1..])|, nodeCount);
    }
  }

  lemma {:induction false} RowCount(rows: seq<MessageSummary>)
    requires DistinctIds(rows)
    ensures |rows| == |IdsOf(rows)|
  {
    if rows != [] {
      FirstIsApart(rows);
      RowCount(rows[1..]);
    }
  }

  lemma RowsCover(events: seq<Event>, nodeCount: int, rows: seq<MessageSummary>)
    requires RowsOf(Fold(events), nodeCount, rows)
    ensures PairsOf(rows) == ReachedPairs(events) && IdsOf(rows) == NamedMessages(events)
  {
    forall p: (MessageID, string)
      ensures p in PairsOf(rows) <==> p in ReachedPairs(events)
      ensures p.0 in IdsOf(rows) <==> p.0 in NamedMessages(events)
    {
      PairsOfMembers(rows, p);
      RowsCoverOne(events, nodeCount, rows, p.0);
    }
    forall id ensures id in IdsOf(rows) <==> id in NamedMessages(events) {
      assert (id, "").0 == id;
      PairsOfMembers(rows, (id, ""));
      RowsCoverOne(events, nodeCount, rows, id);
    }
  }

  lemma RowsCoverOne(events: seq<Event>, nodeCount: int, rows: seq<MessageSummary>, id: MessageID)
    requires RowsOf(Fold(events), nodeCount, rows)
    ensures Listed(rows, id) <==> id in NamedMessages(events)
    ensures forall node ::
      (exists r :: r in rows && r.id == id && node in r.acc.reached) <==> (id, node) in ReachedPairs(events)
  {
    FoldReaches(events, if id == "" then "x" else id);
    if id in Fold(events) {
      assert Row(id, Fold(events)[id], nodeCount) in rows;
    }
    forall node ensures (id, node) in ReachedPairs(events) <==> id != "" && node in ReachedNodes(events, id) {}
  }

  /** The mean reachability is the number of reached pairs over that of nodes and messages. */
  lemma MeanReachabilityIsPlainCount(events: seq<Event>, nodeCount: int, rows: seq<MessageSummary>)
    requires RowsOf(Fold(events), nodeCount, rows) && nodeCount > 0
    ensures Mean(SumReachability(rows), |rows|)
         == Mean(|ReachedPairs(events)| as real / nodeCount as real, |NamedMessages(events)|)
  {
    SumIsPairCount(rows, nodeCount);
    RowCount(rows);
    RowsCover(events, nodeCount, rows);
  }

  /** So it is the same for every permutation of the events. */
  lemma MeanReachabilityIgnoresOrder(s: seq<Event>, t: seq<Event>, nodeCount: int,
                                     rows: seq<MessageSummary>, rows': seq<MessageSummary>)
    requires multiset(s) == multiset(t)
    requires RowsOf(Fold(s), nodeCount, rows) && RowsOf(Fold(t), nodeCount, rows')
    ensures |rows| == |rows'|
    ensures Mean(SumReachability(rows), |rows|) == Mean(SumReachability(rows'), |rows'|)
  {
    forall e ensures e in s <==> e in t {
      Sequences.PermutationMembers(s, t, e);
    }
    assert ReachedPairs(s) == ReachedPairs(t) && NamedMessages(s) == NamedMessages(t);
    RowCount(rows);
    RowCount(rows');
    RowsCover(s, nodeCount, rows);
    RowsCover(t, nodeCount, rows');
    if nodeCount > 0 {
      SumIsPairCount(rows, nodeCount);
      SumIsPairCount(rows', nodeCount);
    } else {
      NoReachability(rows);
      NoReachability(rows');
    }
  }

  lemma {:induction false} NoReachability(rows: seq<MessageSummary>)
    requires forall r :: r in rows ==> r.reachability == 0.0
    ensures SumReachability(rows) == 0.0
  {
    if rows != [] {
      NoReachability(rows[1..]);
    }
  }

  /** The first protocol name that any event carries. */
  ghost function FirstProtocol(events: seq<Event>): string {
    if events == [] then ""
    else
      var before := FirstProtocol(events[..|events| - 1]);
      if before == "" then events[|events| - 1].protocol else before
  }

  /** Which is the one of the first event that has any. */
  lemma {:induction false} FirstProtocolIs(events: seq<Event>, k: nat)
    requires k <= |events| && forall j :: 0 <= j < k ==> events[j].protocol == ""
    ensures k == |events| ==> FirstProtocol(events) == ""
    ensures k < |events| && events[k].protocol != "" ==> FirstProtocol(events) == events[k].protocol
    decreases |events|
  {
    if k < |events| {
      if k < |events| - 1 {
        FirstProtocolIs(events[..|events| - 1], k);
      } else {
        FirstProtocolIs(events[..k], k);
      }
    } else if events != [] {
      FirstProtocolIs(events[..k - 1], k - 1);
    }
  }

  ghost function Flatten(files: seq<seq<Event>>): seq<Event> {
    if files == [] then [] else Flatten(files[..|files| - 1]) + files[|files| - 1]
  }

  /** The consumer of one event: the accumulator of its message, made on first sight, is updated in the table. */
  method Consume(messages: Messages, event: Event) returns (messages': Messages)
    ensures messages' == if event.messageID == "" then messages
                         else messages[event.messageID := Consumed(AccumulatorOf(messages, event.messageID), event)]
  {
    if event.messageID == "" {
      return messages;
    }
    var acc := if event.messageID in messages then messages[event.messageID] else FRESH;
    match event.kind {
      case MessageCreated =>
        acc := acc.(origin := event.origin);
        acc := acc.(createdAt := event.timestampNS);
        acc := acc.(lastUniqueAt := event.timestampNS);
        acc := acc.(reached := acc.reached + {event.node});
      case MessageReceived =>
        if event.duplicate {
          acc := acc.(duplicates := acc.duplicates + 1);
        } else {
          acc := acc.(reached := acc.reached + {event.node});
          if event.timestampNS > acc.lastUniqueAt {
            acc := acc.(lastUniqueAt := event.timestampNS);
          }
        }
      case MessageSent => acc := acc.(transmissions := acc.transmissions + 1);
      case MessageDropped => acc := acc.(drops := acc.drops + 1);
      case MessageSuppressed => acc := acc.(suppressions := acc.suppressions + 1);
      case ControlSent =>
        acc := acc.(controlSent := acc.controlSent + 1);
        acc := acc.(controlBytes := acc.controlBytes + event.controlBytes);
      case ControlReceived => acc := acc.(controlReceived := acc.controlReceived + 1);
      case ControlDropped => acc := acc.(controlDrops := acc.controlDrops + 1);
      case OtherType =>
    }
    messages' := messages[event.messageID := acc];
  }

  lemma FoldNext(events: seq<Event>, e: Event)
    ensures Fold(events + [e]) ==
      if e.messageID == "" then Fold(events)
      else Fold(events)[e.messageID := Consumed(AccumulatorOf(Fold(events), e.messageID), e)]
    ensures FirstProtocol(events + [e]) == if FirstProtocol(events) == "" then e.protocol else FirstProtocol(events)
  {
    assert (events + [e])[..|events|] == events;
  }

  /** One event file, read after those before it. */
  method ReadFile(ghost before: seq<Event>, file: seq<Event>, messages: Messages, protocol: string)
    returns (messages': Messages, protocol': string)
    requires messages == Fold(before) && protocol == FirstProtocol(before)
    ensures messages' == Fold(before + file) && protocol' == FirstProtocol(before + file)
  {
    messages', protocol' := messages, protocol;
    assert before + file[..0] == before;
    var k := 0;
    while k < |file|
      invariant 0 <= k <= |file|
      invariant messages' == Fold(before + file[..k]) && protocol' == FirstProtocol(before + file[..k])
    {
      FoldNext(before + file[..k], file[k]);
      assert before + file[..k + 1] == before + file[..k] + [file[k]];
      if protocol' == "" && file[k].protocol != "" {
        protocol' := file[k].protocol;
      }
      messages' := Consume(messages', file[k]);
      k := k + 1;
    }
    assert file[..k] == file;
  }

  lemma FlattenNext(files: seq<seq<Event>>, i: nat)
    requires i < |files|
    ensures Flatten(files[..i + 1]) == Flatten(files[..i]) + files[i]
  {
    assert files[..i + 1][..i] == files[..i];
  }

  method ReadEvents(files: seq<seq<Event>>) returns (messages: Messages, protocol: string)
    ensures messages == Fold(Flatten(files)) && protocol == FirstProtocol(Flatten(files))
  {
    messages, protocol := map[], "";
    var i := 0;
    while i < |files|
      invariant 0 <= i <= |files|
      invariant messages == Fold(Flatten(files[..i])) && protocol == FirstProtocol(Flatten(files[..i]))
    {
      FlattenNext(files, i);
      messages, protocol := ReadFile(Flatten(files[..i]), files[i], messages, protocol);
      i := i + 1;
    }
    assert files[..i] == files;
  }

  /** The rows, taken from the table in any order and sorted by creation time and identifier. */
  method SummarizeMessages(messages: Messages, nodeCount: int) returns (rows: seq<MessageSummary>)
    ensures RowsOf(messages, nodeCount, rows) && |rows| == |messages|
  {
    rows := [];
    var rest := messages.Keys;
    while rest != {}
      invariant rest <= messages.Keys && RowsSorted(rows) && |rows| + |rest| == |messages|
      invariant forall r :: r in rows <==> r.id in messages.Keys - rest && r == Row(r.id, messages[r.id], nodeCount)
      decreases |rest|
    {
      var id :| id in rest;
      InsertRowSorted(Row(id, messages[id], nodeCount), rows);
      InsertRowSize(Row(id, messages[id], nodeCount), rows);
      rows := InsertRow(Row(id, messages[id], nodeCount), rows);
      rest := rest - {id};
    }
  }

  lemma {:induction false} InsertRowSize(r: MessageSummary, rows: seq<MessageSummary>)
    ensures |InsertRow(r, rows)| == |rows| + 1
  {
    if rows != [] {
      InsertRowSize(r, rows[1..]);
    }
  }

  /** The sums over the rows from position i on are still to come. */
  ghost predicate Summed(rows: seq<MessageSummary>, i: nat, s: RunSummary) {
    && i <= |rows|
    && (forall c :: Total(s, c) + RowTotal(rows[i..], c) == RowTotal(rows, c))
    && s.averageReachability + SumReachability(rows[i..]) == SumReachability(rows)
    && s.averageDelayMS + SumDelay(rows[i..]) == SumDelay(rows)
  }

  method SumRows(rows: seq<MessageSummary>, protocol: string, nodeCount: int) returns (summary: RunSummary)
    ensures summary.protocol == protocol && summary.messages == |rows| && summary.nodes == nodeCount
    ensures forall c :: Total(summary, c) == RowTotal(rows, c)
    ensures summary.averageReachability == Mean(SumReachability(rows), |rows|)
    ensures summary.averageDelayMS == Mean(SumDelay(rows), |rows|)
  {
    summary := RunSummary(protocol, |rows|, nodeCount, 0.0, 0.0, 0, 0, 0, 0, 0, 0, 0, 0);
    assert rows[0..] == rows;
    var i := 0;
    while i < |rows|
      invariant 0 <= i <= |rows| && Summed(rows, i, summary)
      invariant summary.protocol == protocol && summary.messages == |rows| && summary.nodes == nodeCount
    {
      var row := rows[i];
      assert rows[i..][1..] == rows[i + 1..];
      summary := AddRow(summary, row);
      i := i + 1;
    }
    assert rows[i..] == [];
    if |rows| > 0 {
      summary := summary.(averageReachability := summary.averageReachability / (|rows| as real));
      summary := summary.(averageDelayMS := summary.averageDelayMS / (|rows| as real));
    }
  }

  function AddRow(s: RunSummary, row: MessageSummary): (r: RunSummary)
    ensures forall c :: Total(r, c) == Total(s, c) + Reading(row.acc, c)
  {
    s.(averageReachability := s.averageReachability + row.reachability,
       averageDelayMS := s.averageDelayMS + row.delayMS,
       transmissions := s.transmissions + row.acc.transmissions,
       duplicates := s.duplicates + row.acc.duplicates,
       drops := s.drops + row.acc.drops,
       suppressions := s.suppressions + row.acc.suppressions,
       controlSent := s.controlSent + row.acc.controlSent,
       controlReceived := s.controlReceived + row.acc.controlReceived,
       controlDrops := s.controlDrops + row.acc.controlDrops,
       controlBytes := s.controlBytes + row.acc.controlBytes)
  }

  datatype AggregateError = NoEventFiles

  /** The summary agrees with its rows, and both with plain counting over the events. */
  ghost predicate Faithful(events: seq<Event>, nodeCount: int, rows: seq<MessageSummary>, summary: RunSummary) {
    && RowsOf(Fold(events), nodeCount, rows)
    && summary.messages == |rows| == |Fold(events)| && summary.nodes == nodeCount
    && summary.protocol == FirstProtocol(events)
    && (forall c :: Total(summary, c) == Tally(events, AnyNamed, c))
    && summary.averageReachability == Mean(SumReachability(rows), |rows|)
    && summary.averageDelayMS == Mean(SumDelay(rows), |rows|)
  }

  lemma CountsAreFaithful(events: seq<Event>, nodeCount: int, rows: seq<MessageSummary>, summary: RunSummary)
    requires RowsOf(Fold(events), nodeCount, rows) && forall c :: Total(summary, c) == RowTotal(rows, c)
    ensures forall c :: Total(summary, c) == Tally(events, AnyNamed, c)
  {
    forall c ensures Total(summary, c) == Tally(events, AnyNamed, c) {
      TotalsArePlainCounts(events, nodeCount, rows, c);
    }
  }

  method Aggregate(files: seq<seq<Event>>, nodeCount: int)
    returns (result: Result<RunSummary, AggregateError>, rows: seq<MessageSummary>)
    ensures result.Err? <==> files == []
    ensures result.Ok? ==> Faithful(Flatten(files), nodeCount, rows, result.value)
  {
    if |files| == 0 {
      return Err(NoEventFiles), [];
    }
    var messages, protocol := ReadEvents(files);
    rows := SummarizeMessages(messages, nodeCount);
    var summary := SumRows(rows, protocol, nodeCount);
    CountsAreFaithful(Flatten(files), nodeCount, rows, summary);
    result := Ok(summary);
  }
}

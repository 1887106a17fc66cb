/** First in, first out: a process queue and the transit of a link hand on what came first. */
module FloodingOrder {
  import opened Wire
  import opened Flooding

  /** The first k are gone, and the rest are in front, in their order, of what has come in since. */
  ghost predicate Advanced<T>(before: seq<T>, after: seq<T>, k: nat) {
    k <= |before| ==> before[k..] <= after
  }

  lemma Onward<T>(a: seq<T>, b: seq<T>, c: seq<T>, k: nat, k': nat)
    requires Advanced(a, b, k) && Advanced(b, c, k')
    ensures Advanced(a, c, k + k')
  {
    if k + k' <= |a| {
      assert a[k + k'..] == a[k..][k'..];
      assert a[k..][k'..] <= b[k'..];
    }
  }

  ghost function Takes(step: Step, u: Node): nat {
    if step.TakeItem? && step.u == u then 1 else 0
  }

  ghost function Delivers(step: Step, u: Node, v: Node): nat {
    if step == Deliver(u, v) then 1 else 0
  }

  /** How many messages the workers of u take in these steps. */
  ghost function TakenBy(steps: seq<Step>, u: Node): nat {
    if steps == [] then 0 else Takes(steps[0], u) + TakenBy(steps[1..], u)
  }

  /** How many frames of the link u-v its receiver reads in these steps. */
  ghost function DeliveredOver(steps: seq<Step>, u: Node, v: Node): nat {
    if steps == [] then 0 else Delivers(steps[0], u, v) + DeliveredOver(steps[1..], u, v)
  }

  lemma QueueStep(c: Config, s: State, step: Step, u: Node)
    requires Enabled(c, s, step) && u < |s.peers|
    ensures |Apply(c, s, step).peers| == |s.peers|
    ensures Advanced(s.peers[u].queue, Apply(c, s, step).peers[u].queue, Takes(step, u))
  {
    assert s.peers[u].queue[0..] == s.peers[u].queue;
  }

  lemma WireStep(c: Config, s: State, step: Step, u: Node, v: Node)
    requires Enabled(c, s, step) && LinkAt(s, u, v)
    ensures LinkAt(Apply(c, s, step), u, v)
    ensures Advanced(s.links[(u, v)].wire, Apply(c, s, step).links[(u, v)].wire, Delivers(step, u, v))
  {
    assert s.links[(u, v)].wire[0..] == s.links[(u, v)].wire;
  }

  /**
   * Over whole runs the workers of a peer take the oldest messages of its queue: the survivors keep
   * their order, and newcomers are behind them.
   */
  lemma {:induction false} OldestMessageFirst(c: Config, s: State, steps: seq<Step>, t: State, u: Node)
    requires Run(c, s, steps, t) && u < |s.peers|
    ensures u < |t.peers| && Advanced(s.peers[u].queue, t.peers[u].queue, TakenBy(steps, u))
    decreases |steps|
  {
    if steps == [] {
      assert s.peers[u].queue[0..] == s.peers[u].queue;
    } else {
      var next := Apply(c, s, steps[0]);
      QueueStep(c, s, steps[0], u);
      OldestMessageFirst(c, next, steps[1..], t, u);
      Onward(s.peers[u].queue, next.peers[u].queue, t.peers[u].queue, Takes(steps[0], u), TakenBy(steps[1..], u));
    }
  }

  /** So does the receiver of a link with the frames in transit. */
  lemma {:induction false} OldestFrameFirst(c: Config, s: State, steps: seq<Step>, t: State, u: Node, v: Node)
    requires Run(c, s, steps, t) && LinkAt(s, u, v)
    ensures LinkAt(t, u, v)
    ensures Advanced(s.links[(u, v)].wire, t.links[(u, v)].wire, DeliveredOver(steps, u, v))
    decreases |steps|
  {
    if steps == [] {
      assert s.links[(u, v)].wire[0..] == s.links[(u, v)].wire;
    } else {
      var next := Apply(c, s, steps[0]);
      WireStep(c, s, steps[0], u, v);
      OldestFrameFirst(c, next, steps[1..], t, u, v);
      Onward(s.links[(u, v)].wire, next.links[(u, v)].wire, t.links[(u, v)].wire,
             Delivers(steps[0], u, v), DeliveredOver(steps[1..], u, v));
    }
  }
}

/** HopWave: the crest/trough cycle and the choice of trough targets. */
module HopWave {
  import opened Arithmetic
  import opened Wire

  datatype Decision = Decision(crest: bool, outgoing: nat)

  /** The Go expression uint32(I - 1). */
  function Threshold(i: nat): nat
    requires i >= 1
  {
    (i - 1) % UINT32
  }

  function DecideRelay(i: nat, source: bool, received: nat): (d: Decision)
    requires i >= 1
    ensures d.crest ==> d.outgoing == 0
  {
    if source || i <= 1 || received >= Threshold(i) then Decision(true, 0)
    else Decision(false, received + 1)
  }

  /** The number of relay levels between two crests as the code computes it. */
  function Period(i: nat): nat
    requires i >= 1
  {
    Threshold(i) + 1
  }

  /** The cycle field carried by frames sent from a node at this depth in the delivery tree. */
  function WaveAt(protocol: Protocol, depth: nat): nat
    requires protocol.Valid()
  {
    if protocol.HopWave? then depth % Period(protocol.i) else 0
  }

  /** The cycle field of the message a node at this depth processes. */
  function ReceivedWave(protocol: Protocol, depth: nat): nat
    requires protocol.Valid()
  {
    if depth == 0 then 0 else WaveAt(protocol, depth - 1)
  }

  /** The cycle length is I itself exactly for I up to 2^32. */
  lemma PeriodIsI(i: nat)
    requires i >= 1
    ensures Period(i) == i <==> i <= UINT32
    ensures Period(i) <= i
  {
  }

  /** Beyond that the cycle collapses: with I = 2^32 + 1 every node relays to all its neighbours. */
  lemma CollapsedCycle(source: bool, received: nat)
    ensures Period(UINT32 + 1) == 1
    ensures DecideRelay(UINT32 + 1, source, received) == Decision(true, 0)
  {
    MulMod(1, 0, UINT32);
  }

  lemma ModStep(a: nat, p: nat)
    requires p > 0
    ensures a % p == p - 1 ==> (a + 1) % p == 0
    ensures a % p < p - 1 ==> (a + 1) % p == a % p + 1
  {
    var q, r := a / p, a % p;
    assert a == p * q + r;
    if r == p - 1 {
      assert a + 1 == p * (q + 1);
      MulMod(q + 1, 0, p);
    } else {
      MulMod(q, r + 1, p);
    }
  }

  /**
   * The relay decision of a node at depth d in the delivery tree: it is a crest exactly when the
   * depth is a multiple of the period, and the outgoing field is the depth modulo the period.
   */
  lemma RelayFollowsDepth(protocol: Protocol, depth: nat)
    requires protocol.HopWave? && protocol.Valid()
    ensures
      var d := DecideRelay(protocol.i, depth == 0, ReceivedWave(protocol, depth));
      d.outgoing == WaveAt(protocol, depth) && (d.crest <==> depth % Period(protocol.i) == 0)
  {
    var p := Period(protocol.i);
    if depth == 0 {
      MulMod(0, 0, p);
    } else {
      ModStep(depth - 1, p);
    }
  }

  /**
   * The relays are crests at exactly the depths that are multiples of I, in every delivery tree,
   * if and only if I is at most 2^32.
   */
  lemma CrestsEveryI(protocol: Protocol)
    requires protocol.HopWave? && protocol.Valid()
    ensures
      (forall depth: nat ::
        DecideRelay(protocol.i, depth == 0, ReceivedWave(protocol, depth)).crest <==> depth % protocol.i == 0)
      <==> protocol.i <= UINT32
  {
    var i, p := protocol.i, Period(protocol.i);
    PeriodIsI(i);
    if i <= UINT32 {
      forall depth: nat ensures DecideRelay(i, depth == 0, ReceivedWave(protocol, depth)).crest <==> depth % i == 0 {
        RelayFollowsDepth(protocol, depth);
      }
    } else {
      RelayFollowsDepth(protocol, p);
      MulMod(1, 0, p);
      MulMod(0, p, i);
      assert DecideRelay(i, p == 0, ReceivedWave(protocol, p)).crest && p % i != 0;
    }
  }

  /** math.Round on a non-negative value: halves go away from zero. */
  function Round(x: real): (r: nat)
    requires x >= 0.0
    ensures r as real - 0.5 <= x < r as real + 0.5
  {
    (x + 0.5).Floor
  }

  /** How many of n eligible neighbours a trough relay chooses. */
  function TargetCount(f: real, n: nat): (r: nat)
    ensures r <= n
    ensures n > 0 && f > 0.0 ==> r >= 1
    ensures n == 0 || f <= 0.0 ==> r == 0
    ensures f >= 1.0 ==> r == n
    ensures n > 0 && 0.0 < f < 1.0 ==>
      if f * n as real < 0.5 then r == 1 else r as real - 0.5 <= f * n as real < r as real + 0.5
  {
    if n == 0 || f <= 0.0 then 0
    else if f >= 1.0 then n
    else
      var count := Round(f * n as real);
      if count < 1 then 1 else if count > n then n else count
  }
}

/**
 * The random source. A draw is any value in its range and a shuffle any permutation the swaps can
 * produce, so what is proved of a generator holds for every seed.
 */
module Random {

  class Rand {
    constructor () {}

    method Intn(n: nat) returns (r: nat)
      requires n > 0
      ensures r < n
    {
      r :| r < n;
    }

    method Float64() returns (r: real)
      ensures 0.0 <= r < 1.0
    {
      r :| 0.0 <= r < 1.0;
    }

    /** One sample of a delay distribution in milliseconds; negative samples never come out. */
    method SampleMilliseconds() returns (r: real)
      ensures r >= 0.0
    {
      r :| r >= 0.0;
    }

    /** The exchange of pairs from the end of the sequence towards its front. */
    method Shuffle<T>(s: seq<T>) returns (t: seq<T>)
      ensures |t| == |s| && multiset(t) == multiset(s)
    {
      t := s;
      var i := |t|;
      while i > 1
        invariant 0 <= i <= |t| == |s|
        invariant multiset(t) == multiset(s)
      {
        i := i - 1;
        var j := Intn(i + 1);
        t := t[i := t[j]][j := t[i]];
      }
    }
  }
}

/**
 Counting the ticks of a trace at which some Boolean signal holds.
 A trace is projected to a `seq<bool>` (one entry per tick) and counted here.
 */
module Counting {

  /** Number of `true` entries in `bs`. */
  function Count(bs: seq<bool>): nat
    decreases |bs|
  {
    if |bs| == 0 then 0
    else Count(bs[..|bs| - 1]) + (if bs[|bs| - 1] then 1 else 0)
  }

  function Min(a: nat, b: nat): nat {
    if a <= b then a else b
  }

  /** Counting is additive over concatenation. */
  lemma {:induction false} CountConcat(a: seq<bool>, b: seq<bool>)
    ensures Count(a + b) == Count(a) + Count(b)
    decreases |b|
  {
    if |b| == 0 {
      assert a + b == a;
    } else {
      var b' := b[..|b| - 1];
      assert (a + b)[..|a + b| - 1] == a + b';
      CountConcat(a, b');
    }
  }

  /** A signal that holds exactly on the ticks of the band `[lo, hi)` is counted
      as many times as the band has ticks inside the trace. */
  lemma {:induction false} CountBand(bs: seq<bool>, lo: nat, hi: nat)
    requires lo <= hi
    requires forall i :: 0 <= i < |bs| ==> (bs[i] <==> lo <= i < hi)
    ensures Count(bs) == Min(hi, |bs|) - Min(lo, |bs|)
    decreases |bs|
  {
    if |bs| > 0 {
      CountBand(bs[..|bs| - 1], lo, hi);
    }
  }

  /** Division with remainder is unique. */
  lemma ModUnique(x: int, w: int, q: int, r: int)
    requires w > 0 && 0 <= r < w && x == q * w + r
    ensures x % w == r
  {
    var d := q - x / w;
    assert d * w == x % w - r;
  }

  /** Adding one period does not change the phase. */
  lemma ShiftByPeriod(k: nat, w: nat)
    requires w > 0
    ensures (k + w) % w == k % w
  {
    ModUnique(k + w, w, k / w + 1, k % w);
  }

  /** A value below twice the modulus wraps at most once. */
  lemma WrapOnce(x: int, w: int)
    requires 0 < w <= x < 2 * w
    ensures x % w == x - w
  {
  }

  /** Rotating a one-period window of a signal does not change how often it holds:
      the ticks `b, b+1, …, W-1, 0, …, b-1` see each phase exactly once. */
  lemma CountRotation(p: int -> bool, w: nat, b: nat)
    requires b < w
    ensures Count(seq(w, i => p((b + i) % w))) == Count(seq(w, i => p(i)))
  {
    var rotated := seq(w, i => p((b + i) % w));
    var head := seq(b, i => p(i));
    var tail := seq(w - b, i => p(b + i));
    forall i | 0 <= i < w
      ensures rotated[i] == (tail + head)[i]
    {
      if i < w - b {
        assert (b + i) % w == b + i;
      } else {
        WrapOnce(b + i, w);
      }
    }
    assert rotated == tail + head;
    assert seq(w, i => p(i)) == head + tail;
    CountConcat(tail, head);
    CountConcat(head, tail);
  }
}

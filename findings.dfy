/**
  The counter of the loop in visit_for (src/InterpreterAlpha/InterpreterAlpha.java)
  as written: a Java int that starts at 1 and is incremented, wrapping, while
  it is at most the loop's end point.
*/
module LoopCounter {
  import opened JavaInt

  /** tmp++ on an int. */
  function Increment(tmp: Int32): Int32 { Wrap(tmp as int + 1) }

  /** The counter after k passes of the body. */
  function CounterAfter(k: nat): Int32
    decreases k
  {
    if k == 0 then 1 else Increment(CounterAfter(k - 1))
  }

  /** The passes the loop is meant to make: end_point of them, none when it is below 1. */
  function Passes(endPoint: Int32): nat {
    if endPoint <= 0 then 0 else endPoint as nat
  }

  /** Incrementing the wrap of k is wrapping k + 1. */
  lemma IncrementWrapped(k: int)
    ensures Increment(Wrap(k)) == Wrap(k + 1)
  {
    WrapAdd(k, 1);
  }

  lemma {:induction false} CounterValue(k: nat)
    ensures CounterAfter(k) == Wrap(1 + k)
    decreases k
  {
    if k > 0 {
      CounterValue(k - 1);
      IncrementWrapped(k);
    }
  }

  /** Below Integer.MAX_VALUE the guard holds for exactly the first Passes(endPoint) passes. */
  lemma ExitsBelowMax(endPoint: Int32)
    requires endPoint < MaxInt
    ensures forall k: nat :: k < Passes(endPoint) ==> CounterAfter(k) <= endPoint
    ensures CounterAfter(Passes(endPoint)) > endPoint
  {
    forall k: nat | k <= Passes(endPoint)
      ensures CounterAfter(k) == 1 + k
    {
      CounterValue(k);
    }
  }

  /**
    At Integer.MAX_VALUE the guard never fails: after MAX_VALUE passes the
    counter wraps to MIN_VALUE, which is again at most the end point, so
    the loop does not terminate.
  */
  lemma NeverExitsAtMax(endPoint: Int32)
    requires endPoint == MaxInt
    ensures forall k: nat :: CounterAfter(k) <= endPoint
    ensures CounterAfter(endPoint as nat - 1) == endPoint
    ensures CounterAfter(endPoint as nat) == MinInt
  {
    var m := endPoint as nat;
    CounterValue(m - 1);
    CounterValue(m);
    WrapUnique(1 + m, MinInt);
  }
}

/** The deterministic clock the statistics tests install: a fixed, non-empty
    list of timestamps read one per call, which keeps returning its last
    entry once the list is used up. */
module ScriptedClock {

  /** The reading the clock gives when its cursor stands at idx. */
  function ScriptedTime(times: seq<int>, idx: nat): (t: int)
    requires |times| > 0
    ensures idx < |times| ==> t == times[idx]
    ensures idx >= |times| ==> t == times[|times| - 1]
  {
    times[if idx < |times| - 1 then idx else |times| - 1]
  }

  predicate NonDecreasing(times: seq<int>)
  {
    forall i, j :: 0 <= i <= j < |times| ==> times[i] <= times[j]
  }

  /** Over a non-decreasing list the clock never runs backwards, however
      far the cursor is advanced. */
  lemma ScriptedTimeMonotone(times: seq<int>, i: nat, j: nat)
    requires |times| > 0 && NonDecreasing(times) && i <= j
    ensures ScriptedTime(times, i) <= ScriptedTime(times, j)
  {
  }

  /** Millisecond timestamps one minute apart, starting at 0: the list
      the statistics tests feed to the clock. */
  function MinuteTimes(n: nat): (s: seq<int>)
    ensures |s| == n && NonDecreasing(s)
    ensures forall k :: 0 <= k < n ==> s[k] == 1000 * 60 * k
  {
    seq(n, k => 1000 * 60 * k)
  }
}

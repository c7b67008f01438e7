/** The rolling statistics of thin-block relay, as the statistics tests
    drive it: a recorder whose clock is the scripted one, with one channel
    of time-stamped samples per statistic. Each summary renders its
    channel's aggregate.

    How the recorder uses its clock is an assumption of this model: each
    update reads the clock exactly once, stamps its sample with that reading
    and prunes against the same reading, and no summary reads the clock. */
module ThinBlockStats {
  import opened Aggregates
  import opened Formatting
  import opened ScriptedClock

  /** Retention window of the channels: 24 hours, in milliseconds. */
  const DEFAULT_WINDOW: nat := 24 * 60 * 60 * 1000

  /** A summary line: a caption, the value it reports, and a tail. */
  function Labelled(caption: string, value: string, tail: string): (r: string)
    ensures Contains(r, value)
  {
    ContainsInfix(caption, value, tail);
    caption + value + tail
  }

  /** The recorder with the scripted clock installed. */
  class ThinBlockData {
    const times: seq<int>
    var timesIdx: nat
    const window: nat

    var inBound: seq<Sample<SizePair>>
    var outBound: seq<Sample<SizePair>>
    var inBoundBloomFilters: seq<Sample<nat>>
    var outBoundBloomFilters: seq<Sample<nat>>
    var reRequestedTx: seq<Sample<nat>>
    var mempoolLimiterBytesSaved: seq<Sample<nat>>

    /** A recorder with empty channels whose clock will read `times0` in
        order; the list must not be empty. */
    constructor (times0: seq<int>, window0: nat)
      requires |times0| > 0
      ensures times == times0 && timesIdx == 0 && window == window0
      ensures inBound == [] && outBound == []
      ensures inBoundBloomFilters == [] && outBoundBloomFilters == []
      ensures reRequestedTx == [] && mempoolLimiterBytesSaved == []
    {
      times := times0;
      timesIdx := 0;
      window := window0;
      inBound, outBound := [], [];
      inBoundBloomFilters, outBoundBloomFilters := [], [];
      reRequestedTx, mempoolLimiterBytesSaved := [], [];
    }

    /** The reading the clock will give next. */
    function NextTime(): int
      requires |times| > 0
      reads this
    {
      ScriptedTime(times, timesIdx)
    }

    /** Reads the clock: the entry at the cursor, or the last entry once the
        list is used up; the cursor advances either way. */
    method GetTimeForStats() returns (t: int)
      requires |times| > 0
      modifies this`timesIdx
      ensures t == ScriptedTime(times, old(timesIdx))
      ensures timesIdx == old(timesIdx) + 1
    {
      t := ScriptedTime(times, timesIdx);
      timesIdx := timesIdx + 1;
    }

    /** Rewinds the clock to the first entry. */
    method ResetTimeIdx()
      modifies this`timesIdx
      ensures timesIdx == 0
    {
      timesIdx := 0;
    }

    /** The channel s after a sample of v stamped `now` is recorded: the
        new sample is kept, only samples within the window remain, and of
        the old samples exactly the recent ones remain, in their order. */
    function Record<T>(s: seq<Sample<T>>, now: int, v: T): (r: seq<Sample<T>>)
      ensures Sample(now, v) in r && r[|r| - 1] == Sample(now, v)
      ensures forall k :: 0 <= k < |r| ==> r[k].time >= now - window
      ensures r == Retained(s, now - window) + [Sample(now, v)]
    {
      RetainedAppend(s, [Sample(now, v)], now - window);
      RetainedSingle(Sample(now, v), now - window);
      Retained(s + [Sample(now, v)], now - window)
    }

    /** No sample of s is older than the window allows at time now. */
    predicate WithinWindow<T>(s: seq<Sample<T>>, now: int)
    {
      forall k :: 0 <= k < |s| ==> s[k].time >= now - window
    }

    method UpdateInBound(thin: nat, full: nat)
      requires |times| > 0
      modifies this`timesIdx, this`inBound
      ensures timesIdx == old(timesIdx) + 1
      ensures inBound == Record(old(inBound), old(NextTime()), SizePair(thin, full))
      ensures WithinWindow(inBound, old(NextTime()))
    {
      var now := GetTimeForStats();
      inBound := Record(inBound, now, SizePair(thin, full));
    }

    method UpdateOutBound(thin: nat, full: nat)
      requires |times| > 0
      modifies this`timesIdx, this`outBound
      ensures timesIdx == old(timesIdx) + 1
      ensures outBound == Record(old(outBound), old(NextTime()), SizePair(thin, full))
      ensures WithinWindow(outBound, old(NextTime()))
    {
      var now := GetTimeForStats();
      outBound := Record(outBound, now, SizePair(thin, full));
    }

    method UpdateInBoundBloomFilter(bytes: nat)
      requires |times| > 0
      modifies this`timesIdx, this`inBoundBloomFilters
      ensures timesIdx == old(timesIdx) + 1
      ensures inBoundBloomFilters == Record(old(inBoundBloomFilters), old(NextTime()), bytes)
      ensures WithinWindow(inBoundBloomFilters, old(NextTime()))
    {
      var now := GetTimeForStats();
      inBoundBloomFilters := Record(inBoundBloomFilters, now, bytes);
    }

    method UpdateOutBoundBloomFilter(bytes: nat)
      requires |times| > 0
      modifies this`timesIdx, this`outBoundBloomFilters
      ensures timesIdx == old(timesIdx) + 1
      ensures outBoundBloomFilters == Record(old(outBoundBloomFilters), old(NextTime()), bytes)
      ensures WithinWindow(outBoundBloomFilters, old(NextTime()))
    {
      var now := GetTimeForStats();
      outBoundBloomFilters := Record(outBoundBloomFilters, now, bytes);
    }

    method UpdateInBoundReRequestedTx(count: nat)
      requires |times| > 0
      modifies this`timesIdx, this`reRequestedTx
      ensures timesIdx == old(timesIdx) + 1
      ensures reRequestedTx == Record(old(reRequestedTx), old(NextTime()), count)
      ensures WithinWindow(reRequestedTx, old(NextTime()))
    {
      var now := GetTimeForStats();
      reRequestedTx := Record(reRequestedTx, now, count);
    }

    method UpdateMempoolLimiterBytesSaved(bytes: nat)
      requires |times| > 0
      modifies this`timesIdx, this`mempoolLimiterBytesSaved
      ensures timesIdx == old(timesIdx) + 1
      ensures mempoolLimiterBytesSaved == Record(old(mempoolLimiterBytesSaved), old(NextTime()), bytes)
      ensures WithinWindow(mempoolLimiterBytesSaved, old(NextTime()))
    {
      var now := GetTimeForStats();
      mempoolLimiterBytesSaved := Record(mempoolLimiterBytesSaved, now, bytes);
    }

    /** Share of inbound full-block bytes saved, as a percentage. */
    function InBoundPercentToString(): (r: string)
      reads this
      ensures Contains(r, Percent(RatioSaved(inBound)))
    {
      Labelled("Compression for " + NatToString(|inBound|) + " inbound thin blocks: ",
               Percent(RatioSaved(inBound)), "")
    }

    /** Share of outbound full-block bytes saved, as a percentage. */
    function OutBoundPercentToString(): (r: string)
      reads this
      ensures Contains(r, Percent(RatioSaved(outBound)))
    {
      Labelled("Compression for " + NatToString(|outBound|) + " outbound thin blocks: ",
               Percent(RatioSaved(outBound)), "")
    }

    /** Average size of the inbound bloom filters. */
    function InBoundBloomFiltersToString(): (r: string)
      reads this
      ensures Contains(r, FormatInfoUnit(Average(inBoundBloomFilters)))
    {
      Labelled("Inbound bloom filter size, average: ", FormatInfoUnit(Average(inBoundBloomFilters)), "")
    }

    /** Average size of the outbound bloom filters. */
    function OutBoundBloomFiltersToString(): (r: string)
      reads this
      ensures Contains(r, FormatInfoUnit(Average(outBoundBloomFilters)))
    {
      Labelled("Outbound bloom filter size, average: ", FormatInfoUnit(Average(outBoundBloomFilters)), "")
    }

    /** Number of re-request events, right after a colon. */
    function ReRequestedTxToString(): (r: string)
      reads this
      ensures Contains(r, ":" + NatToString(|reRequestedTx|))
    {
      Labelled("Re-requested transactions, total re-requests", ":" + NatToString(|reRequestedTx|), "")
    }

    /** Bytes the mempool limiter saved, summed over the channel. */
    function MempoolLimiterBytesSavedToString(): (r: string)
      reads this
      ensures Contains(r, FormatInfoUnit(ValueTotal(mempoolLimiterBytesSaved) as real))
    {
      Labelled("Mempool limiting has saved ", FormatInfoUnit(ValueTotal(mempoolLimiterBytesSaved) as real),
               " of bandwidth")
    }

    /** All the summaries above, one per line. */
    function ToString(): (r: string)
      reads this
      ensures Contains(r, InBoundPercentToString()) && Contains(r, OutBoundPercentToString())
      ensures Contains(r, InBoundBloomFiltersToString()) && Contains(r, OutBoundBloomFiltersToString())
      ensures Contains(r, ReRequestedTxToString()) && Contains(r, MempoolLimiterBytesSavedToString())
    {
      var lines := [InBoundPercentToString(), OutBoundPercentToString(), InBoundBloomFiltersToString(),
                    OutBoundBloomFiltersToString(), ReRequestedTxToString(), MempoolLimiterBytesSavedToString()];
      JoinLinesContains(lines, 0);
      JoinLinesContains(lines, 1);
      JoinLinesContains(lines, 2);
      JoinLinesContains(lines, 3);
      JoinLinesContains(lines, 4);
      JoinLinesContains(lines, 5);
      JoinLines(lines)
    }
  }
}

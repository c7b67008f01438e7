/** The scenarios of the thin-block data tests, each proved to end with the
    values the tests check: the byte tracker's totals through a series of
    adds, deletes and resets, and each statistics summary after a hundred
    updates stamped one minute apart. */
module ThinBlockDataTests {
  import opened Formatting
  import opened Aggregates
  import opened ScriptedClock
  import opened ByteTracker
  import opened ThinBlockStats

  // Renderings of the aggregates the scenarios reach, one evaluation step
  // at a time.

  lemma Decimal667()
    ensures UnsignedDecimal(667, 1) == "66.7"
  {
    DecimalParts(667, 1);
    assert IntegerPart(667, 1) == 66;
    assert FractionPart(667, 1) == 7;
    assert PadDigits(7, 1) == "7";
    assert NatToString(66) == "66";
  }

  lemma PercentOfTwoThirds()
    ensures Percent(1.0 - 1.0 / 3.0) == "66.7%"
  {
    var x := 100.0 * (1.0 - 1.0 / 3.0);
    assert ScaledDigits(x, 1) == 667;
    FixedPointUnsigned(x, 1);
    Decimal667();
  }

  lemma Decimal4950()
    ensures UnsignedDecimal(4950, 2) == "49.50"
  {
    DecimalParts(4950, 2);
    assert IntegerPart(4950, 2) == 49;
    assert FractionPart(4950, 2) == 50;
    assert PadDigits(50, 2) == "50";
    assert NatToString(49) == "49";
  }

  lemma Kilo()
    ensures ScaleToUnit(49500.0, 0) == (49.5, 1)
  {
    assert ScaleToUnit(49.5, 1) == (49.5, 1);
  }

  lemma KilobytesOfAverage()
    ensures FormatInfoUnit(49500.0) == "49.50KB"
  {
    Kilo();
    assert ScaledDigits(49.5, 2) == 4950;
    FixedPointUnsigned(49.5, 2);
    Decimal4950();
  }

  lemma Decimal495()
    ensures UnsignedDecimal(495, 2) == "4.95"
  {
    DecimalParts(495, 2);
    assert IntegerPart(495, 2) == 4;
    assert FractionPart(495, 2) == 95;
    assert PadDigits(95, 2) == "95";
    assert NatToString(4) == "4";
  }

  lemma Mega()
    ensures ScaleToUnit(4950000.0, 0) == (4.95, 2)
  {
    assert ScaleToUnit(4.95, 2) == (4.95, 2);
    assert ScaleToUnit(4950.0, 1) == (4.95, 2);
  }

  lemma MegabytesOfSum()
    ensures FormatInfoUnit(4950000.0) == "4.95MB"
  {
    Mega();
    assert ScaledDigits(4.95, 2) == 495;
    FixedPointUnsigned(4.95, 2);
    Decimal495();
  }

  lemma HundredDigits()
    ensures NatToString(100) == "100"
  {
  }

  // The aggregates of empty channels, rendered.

  lemma EmptyRatio(s: seq<Sample<SizePair>>)
    requires s == []
    ensures Percent(RatioSaved(s)) == "0.0%"
  {
    ZeroPercent(RatioSaved(s));
  }

  lemma EmptyAverage(s: seq<Sample<nat>>)
    requires s == []
    ensures FormatInfoUnit(Average(s)) == "0.00B"
  {
    ZeroBytes(Average(s));
  }

  lemma EmptySum(s: seq<Sample<nat>>)
    requires s == []
    ensures FormatInfoUnit(ValueTotal(s) as real) == "0.00B"
  {
    ZeroBytes(ValueTotal(s) as real);
  }

  // The channels the update loops build.

  /** The clock list of the statistics tests: 1000 readings a minute apart. */
  function TestTimes(): seq<int>
  {
    MinuteTimes(1000)
  }

  /** Samples (k, 3k) stamped k minutes in, for k < n. */
  function SizeRamp(n: nat): (s: seq<Sample<SizePair>>)
    ensures |s| == n
    ensures forall k :: 0 <= k < n ==> s[k].time == 1000 * 60 * k && s[k].value == SizePair(k, 3 * k)
  {
    seq(n, k requires 0 <= k < n => Sample(1000 * 60 * k, SizePair(k, 3 * k)))
  }

  /** Samples 1000 * k stamped k minutes in, for k < n. */
  function ByteRamp(n: nat): (s: seq<Sample<nat>>)
    ensures |s| == n
    ensures forall k :: 0 <= k < n ==> s[k].time == 1000 * 60 * k && s[k].value == 1000 * k
  {
    seq(n, k requires 0 <= k < n => Sample(1000 * 60 * k, 1000 * k))
  }

  /** Recording the next sample of the ramp at its minute drops nothing:
      every sample lies within a day of the newest. */
  lemma SizeRampGrows(n: nat, window: nat)
    requires n < 100 && window == DEFAULT_WINDOW
    ensures Retained(SizeRamp(n) + [Sample(ScriptedTime(TestTimes(), n), SizePair(n, 3 * n))],
                     ScriptedTime(TestTimes(), n) - window) == SizeRamp(n + 1)
  {
    assert SizeRamp(n) + [Sample(ScriptedTime(TestTimes(), n), SizePair(n, 3 * n))] == SizeRamp(n + 1);
    RetainedAll(SizeRamp(n + 1), ScriptedTime(TestTimes(), n) - window);
  }

  lemma ByteRampGrows(n: nat, window: nat)
    requires n < 100 && window == DEFAULT_WINDOW
    ensures Retained(ByteRamp(n) + [Sample(ScriptedTime(TestTimes(), n), 1000 * n)],
                     ScriptedTime(TestTimes(), n) - window) == ByteRamp(n + 1)
  {
    assert ByteRamp(n) + [Sample(ScriptedTime(TestTimes(), n), 1000 * n)] == ByteRamp(n + 1);
    RetainedAll(ByteRamp(n + 1), ScriptedTime(TestTimes(), n) - window);
  }

  /** Over the size ramp two thirds of the full-block bytes are saved. */
  lemma SizeRampSaved()
    ensures RatioSaved(SizeRamp(100)) == 1.0 - 1.0 / 3.0
  {
    ThinTotalOfRamp(SizeRamp(100));
    RatioSavedOfProportional(SizeRamp(100), 3);
  }

  /** The byte ramp sums to 4,950,000 and averages 49,500. */
  lemma ByteRampTotals()
    ensures ValueTotal(ByteRamp(100)) == 4950000
    ensures Average(ByteRamp(100)) == 49500.0
  {
    ValueTotalOfRamp(ByteRamp(100), 1000);
  }

  // The scenarios.

  /** Byte tracking for one block and then, after the block is cleared, a
      second: returns the total after every step and the block's count where
      the test checks it. The delete of 436993 is refused. */
  method ByteTrackingScenario() returns (totals: seq<nat>, blockSizes: seq<nat>)
    ensures totals == [0, 0, 1000, 450932, 450932, 450931, 436992, 436992,
                       437992, 437992, 437991, 436992, 0]
    ensures blockSizes == [0, 0, 1000, 450932, 450932, 1000]
  {
    var thinrelay := new ThinRelay();
    var pblock := new BlockThinRelay();
    var firstTotals, firstSizes := FirstBlock(thinrelay, pblock);
    var secondTotals, secondSizes := SecondBlock(thinrelay, pblock);
    totals := firstTotals + secondTotals;
    blockSizes := firstSizes + secondSizes;
  }

  /** The first block: adds, fitting deletes and a refused one. */
  method FirstBlock(thinrelay: ThinRelay, pblock: BlockThinRelay) returns (totals: seq<nat>, blockSizes: seq<nat>)
    modifies thinrelay`totalBlockBytes, pblock`nCurrentBlockSize
    ensures totals == [0, 0, 1000, 450932, 450932, 450931, 436992, 436992]
    ensures blockSizes == [0, 0, 1000, 450932, 450932]
    ensures thinrelay.totalBlockBytes == 436992
  {
    pblock.SetNull();
    thinrelay.ResetTotalBlockBytes();
    var t0 := thinrelay.GetTotalBlockBytes();
    assert t0 == 0;
    var b0 := pblock.nCurrentBlockSize;
    assert b0 == 0;
    thinrelay.AddTotalBlockBytes(0, pblock);
    var t1 := thinrelay.GetTotalBlockBytes();
    assert t1 == 0;
    var b1 := pblock.nCurrentBlockSize;
    assert b1 == 0;
    thinrelay.AddTotalBlockBytes(1000, pblock);
    var t2 := thinrelay.GetTotalBlockBytes();
    assert t2 == 1000;
    var b2 := pblock.nCurrentBlockSize;
    assert b2 == 1000;
    thinrelay.AddTotalBlockBytes(449932, pblock);
    var t3 := thinrelay.GetTotalBlockBytes();
    assert t3 == 450932;
    var b3 := pblock.nCurrentBlockSize;
    assert b3 == 450932;
    thinrelay.DeleteTotalBlockBytes(0);
    var t4 := thinrelay.GetTotalBlockBytes();
    assert t4 == 450932;
    var b4 := pblock.nCurrentBlockSize;
    assert b4 == 450932;
    thinrelay.DeleteTotalBlockBytes(1);
    var t5 := thinrelay.GetTotalBlockBytes();
    assert t5 == 450931;
    thinrelay.DeleteTotalBlockBytes(13939);
    var t6 := thinrelay.GetTotalBlockBytes();
    assert t6 == 436992;
    // more than is tracked: refused, the total stays at 436992
    thinrelay.DeleteTotalBlockBytes(436993);
    var t7 := thinrelay.GetTotalBlockBytes();
    assert t7 == 436992;

    totals := [t0, t1, t2, t3, t4, t5, t6, t7];
    blockSizes := [b0, b1, b2, b3, b4];
  }

  /** The second block, after the first is cleared, and the final reset. */
  method SecondBlock(thinrelay: ThinRelay, pblock: BlockThinRelay) returns (totals: seq<nat>, blockSizes: seq<nat>)
    requires thinrelay.totalBlockBytes == 436992
    modifies thinrelay`totalBlockBytes, pblock`nCurrentBlockSize
    ensures totals == [437992, 437992, 437991, 436992, 0]
    ensures blockSizes == [1000]
  {
    pblock.SetNull();
    thinrelay.AddTotalBlockBytes(1000, pblock);
    var t8 := thinrelay.GetTotalBlockBytes();
    assert t8 == 437992;
    var b5 := pblock.nCurrentBlockSize;
    assert b5 == 1000;
    thinrelay.DeleteTotalBlockBytes(0);
    var t9 := thinrelay.GetTotalBlockBytes();
    assert t9 == 437992;
    thinrelay.DeleteTotalBlockBytes(1);
    var t10 := thinrelay.GetTotalBlockBytes();
    assert t10 == 437991;
    thinrelay.DeleteTotalBlockBytes(999);
    var t11 := thinrelay.GetTotalBlockBytes();
    assert t11 == 436992;
    thinrelay.ResetTotalBlockBytes();
    var t12 := thinrelay.GetTotalBlockBytes();
    assert t12 == 0;

    totals := [t8, t9, t10, t11, t12];
    blockSizes := [b5];
  }

  /** Every summary of a fresh recorder is a well-formed string reporting a
      zero aggregate. */
  method EmptySummariesScenario() returns (summaries: seq<string>)
    ensures |summaries| == 7
    ensures Contains(summaries[0], "0.0%") && Contains(summaries[1], "0.0%")
    ensures Contains(summaries[2], "0.00B") && Contains(summaries[3], "0.00B")
    ensures Contains(summaries[4], ":0") && Contains(summaries[5], "0.00B")
    ensures Contains(summaries[6], summaries[0])
  {
    var tbd := new ThinBlockData(TestTimes(), DEFAULT_WINDOW);
    EmptyRatio(tbd.inBound);
    var inPercent := tbd.InBoundPercentToString();
    assert Contains(inPercent, "0.0%");
    EmptyRatio(tbd.outBound);
    var outPercent := tbd.OutBoundPercentToString();
    assert Contains(outPercent, "0.0%");
    EmptyAverage(tbd.inBoundBloomFilters);
    var inFilters := tbd.InBoundBloomFiltersToString();
    assert Contains(inFilters, "0.00B");
    EmptyAverage(tbd.outBoundBloomFilters);
    var outFilters := tbd.OutBoundBloomFiltersToString();
    assert Contains(outFilters, "0.00B");
    assert ":" + NatToString(|tbd.reRequestedTx|) == ":0";
    var reRequested := tbd.ReRequestedTxToString();
    assert Contains(reRequested, ":0");
    EmptySum(tbd.mempoolLimiterBytesSaved);
    var limiter := tbd.MempoolLimiterBytesSavedToString();
    assert Contains(limiter, "0.00B");
    var report := tbd.ToString();
    summaries := [inPercent, outPercent, inFilters, outFilters, reRequested, limiter, report];
  }

  /** Inbound updates (k, 3k) for k < 100: two thirds saved, "66.7%". */
  method InBoundScenario() returns (res: string)
    ensures Contains(res, "66.7%")
  {
    var tbd := new ThinBlockData(TestTimes(), DEFAULT_WINDOW);
    var i := 0;
    while i < 100
      invariant 0 <= i <= 100
      invariant tbd.timesIdx == i
      invariant tbd.inBound == SizeRamp(i)
    {
      SizeRampGrows(i, tbd.window);
      tbd.UpdateInBound(i, 3 * i);
      i := i + 1;
    }
    res := tbd.InBoundPercentToString();
    SizeRampSaved();
    PercentOfTwoThirds();
  }

  /** Outbound updates behave as inbound ones: "66.7%". */
  method OutBoundScenario() returns (res: string)
    ensures Contains(res, "66.7%")
  {
    var tbd := new ThinBlockData(TestTimes(), DEFAULT_WINDOW);
    var i := 0;
    while i < 100
      invariant 0 <= i <= 100
      invariant tbd.timesIdx == i
      invariant tbd.outBound == SizeRamp(i)
    {
      SizeRampGrows(i, tbd.window);
      tbd.UpdateOutBound(i, 3 * i);
      i := i + 1;
    }
    res := tbd.OutBoundPercentToString();
    SizeRampSaved();
    PercentOfTwoThirds();
  }

  /** Inbound bloom filters of 1000k bytes for k < 100 average "49.50KB". */
  method InBoundBloomFilterScenario() returns (res: string)
    ensures Contains(res, "49.50KB")
  {
    var tbd := new ThinBlockData(TestTimes(), DEFAULT_WINDOW);
    var i := 0;
    while i < 100
      invariant 0 <= i <= 100
      invariant tbd.timesIdx == i
      invariant tbd.inBoundBloomFilters == ByteRamp(i)
    {
      ByteRampGrows(i, tbd.window);
      tbd.UpdateInBoundBloomFilter(1000 * i);
      i := i + 1;
    }
    res := tbd.InBoundBloomFiltersToString();
    ByteRampTotals();
    KilobytesOfAverage();
  }

  /** Outbound bloom filters behave as inbound ones: "49.50KB". */
  method OutBoundBloomFilterScenario() returns (res: string)
    ensures Contains(res, "49.50KB")
  {
    var tbd := new ThinBlockData(TestTimes(), DEFAULT_WINDOW);
    var i := 0;
    while i < 100
      invariant 0 <= i <= 100
      invariant tbd.timesIdx == i
      invariant tbd.outBoundBloomFilters == ByteRamp(i)
    {
      ByteRampGrows(i, tbd.window);
      tbd.UpdateOutBoundBloomFilter(1000 * i);
      i := i + 1;
    }
    res := tbd.OutBoundBloomFiltersToString();
    ByteRampTotals();
    KilobytesOfAverage();
  }

  /** A hundred re-request events are counted: ":100". */
  method ReRequestedTxScenario() returns (res: string)
    ensures Contains(res, ":100")
  {
    var tbd := new ThinBlockData(TestTimes(), DEFAULT_WINDOW);
    var i := 0;
    while i < 100
      invariant 0 <= i <= 100
      invariant tbd.timesIdx == i
      invariant tbd.reRequestedTx == ByteRamp(i)
    {
      ByteRampGrows(i, tbd.window);
      tbd.UpdateInBoundReRequestedTx(1000 * i);
      i := i + 1;
    }
    res := tbd.ReRequestedTxToString();
    HundredDigits();
    assert ":" + NatToString(|tbd.reRequestedTx|) == ":100";
  }

  /** Mempool-limiter savings of 1000k bytes for k < 100 sum to "4.95MB". */
  method MempoolLimiterScenario() returns (res: string)
    ensures Contains(res, "4.95MB")
  {
    var tbd := new ThinBlockData(TestTimes(), DEFAULT_WINDOW);
    var i := 0;
    while i < 100
      invariant 0 <= i <= 100
      invariant tbd.timesIdx == i
      invariant tbd.mempoolLimiterBytesSaved == ByteRamp(i)
    {
      ByteRampGrows(i, tbd.window);
      tbd.UpdateMempoolLimiterBytesSaved(1000 * i);
      i := i + 1;
    }
    res := tbd.MempoolLimiterBytesSavedToString();
    ByteRampTotals();
    MegabytesOfSum();
  }
}

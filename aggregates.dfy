/** Time-stamped samples of a statistics channel and the aggregates the
    summaries report over them: the fraction of bytes saved, the average,
    the sum and the number of samples. Every aggregate is defined on an
    empty channel (as 0), so no summary ever divides by zero. */
module Aggregates {

  /** One recorded event: the clock reading it was stamped with and its value. */
  datatype Sample<T> = Sample(time: int, value: T)

  /** A thin-block size together with the size of the full block it stands for. */
  datatype SizePair = SizePair(thin: nat, full: nat)

  /** Sum of the thin sizes of a size-saved channel. */
  function ThinTotal(s: seq<Sample<SizePair>>): nat
  {
    if s == [] then 0 else ThinTotal(s[..|s| - 1]) + s[|s| - 1].value.thin
  }

  /** Sum of the full-block sizes of a size-saved channel. */
  function FullTotal(s: seq<Sample<SizePair>>): nat
  {
    if s == [] then 0 else FullTotal(s[..|s| - 1]) + s[|s| - 1].value.full
  }

  /** Sum of the values of a byte or count channel. */
  function ValueTotal(s: seq<Sample<nat>>): nat
  {
    if s == [] then 0 else ValueTotal(s[..|s| - 1]) + s[|s| - 1].value
  }

  /** Fraction of the full-block bytes that the thin blocks did not need:
      1 - (sum of thin sizes) / (sum of full sizes), and 0 when no full
      bytes were recorded. */
  function RatioSaved(s: seq<Sample<SizePair>>): (r: real)
    ensures FullTotal(s) == 0 ==> r == 0.0
    ensures r <= 1.0
  {
    if FullTotal(s) == 0 then 0.0
    else 1.0 - ThinTotal(s) as real / FullTotal(s) as real
  }

  /** Mean value of a channel, 0 for an empty channel. */
  function Average(s: seq<Sample<nat>>): real
  {
    if |s| == 0 then 0.0 else ValueTotal(s) as real / |s| as real
  }

  /** The samples stamped at or after cutoff, in their original order. */
  function Retained<T>(s: seq<Sample<T>>, cutoff: int): (r: seq<Sample<T>>)
    ensures |r| <= |s|
    ensures forall k :: 0 <= k < |r| ==> r[k] in s && r[k].time >= cutoff
    ensures forall k :: 0 <= k < |s| && s[k].time >= cutoff ==> s[k] in r
  {
    if s == [] then []
    else
      var rest := Retained(s[..|s| - 1], cutoff);
      assert forall k :: 0 <= k < |s| - 1 ==> s[..|s| - 1][k] == s[k];
      if s[|s| - 1].time >= cutoff then rest + [s[|s| - 1]] else rest
  }

  /** Retention keeps every copy of a recent sample and no copy of an old
      one: the kept multiset is the recent part of the channel's multiset,
      so two identical samples are both kept or both dropped. */
  lemma {:induction false} RetainedCounts<T>(s: seq<Sample<T>>, cutoff: int)
    ensures forall x: Sample<T> :: x.time >= cutoff ==> multiset(Retained(s, cutoff))[x] == multiset(s)[x]
    ensures forall x: Sample<T> :: x.time < cutoff ==> multiset(Retained(s, cutoff))[x] == 0
  {
    if s != [] {
      var init, last := s[..|s| - 1], s[|s| - 1];
      RetainedCounts(init, cutoff);
      assert s == init + [last];
      assert multiset(s) == multiset(init) + multiset{last};
    }
  }

  /** Retention works sample by sample and keeps the order: retaining a
      concatenation retains each part. */
  lemma {:induction false} RetainedAppend<T>(a: seq<Sample<T>>, b: seq<Sample<T>>, cutoff: int)
    ensures Retained(a + b, cutoff) == Retained(a, cutoff) + Retained(b, cutoff)
    decreases |b|
  {
    if b == [] {
      assert a + b == a;
    } else {
      var init, last := b[..|b| - 1], b[|b| - 1];
      var ab := a + b;
      assert ab[..|ab| - 1] == a + init;
      assert ab[|ab| - 1] == last;
      RetainedAppend(a, init, cutoff);
      var ra, ri := Retained(a, cutoff), Retained(init, cutoff);
      if last.time >= cutoff {
        assert Retained(ab, cutoff) == (ra + ri) + [last];
        assert Retained(b, cutoff) == ri + [last];
        assert (ra + ri) + [last] == ra + (ri + [last]);
      } else {
        assert Retained(ab, cutoff) == ra + ri;
        assert Retained(b, cutoff) == ri;
      }
    }
  }

  /** A single sample is kept exactly when it is recent enough. */
  lemma RetainedSingle<T>(x: Sample<T>, cutoff: int)
    ensures Retained([x], cutoff) == if x.time >= cutoff then [x] else []
  {
    assert [x][..0] == [];
  }

  /** Retention drops nothing while every sample is recent enough. */
  lemma {:induction false} RetainedAll<T>(s: seq<Sample<T>>, cutoff: int)
    requires forall k :: 0 <= k < |s| ==> s[k].time >= cutoff
    ensures Retained(s, cutoff) == s
  {
    if s != [] {
      RetainedAll(s[..|s| - 1], cutoff);
      assert s[..|s| - 1] + [s[|s| - 1]] == s;
    }
  }

  /** Where full bytes were recorded, the part not saved, times the full
      total, is the thin total. */
  lemma RatioSavedMeaning(s: seq<Sample<SizePair>>)
    requires FullTotal(s) > 0
    ensures (1.0 - RatioSaved(s)) * FullTotal(s) as real == ThinTotal(s) as real
  {
    var t, f := ThinTotal(s) as real, FullTotal(s) as real;
    assert 1.0 - RatioSaved(s) == t / f;
    assert (t / f) * f == t;
  }

  lemma {:induction false} ThinAtMostFull(s: seq<Sample<SizePair>>)
    requires forall k :: 0 <= k < |s| ==> s[k].value.thin <= s[k].value.full
    ensures ThinTotal(s) <= FullTotal(s)
  {
    if s != [] {
      ThinAtMostFull(s[..|s| - 1]);
    }
  }

  /** When no thin block is larger than the block it stands for, the saved
      fraction lies between 0 and 1. */
  lemma RatioSavedInUnitRange(s: seq<Sample<SizePair>>)
    requires forall k :: 0 <= k < |s| ==> s[k].value.thin <= s[k].value.full
    ensures 0.0 <= RatioSaved(s) <= 1.0
  {
    ThinAtMostFull(s);
    if FullTotal(s) > 0 {
      var t, f := ThinTotal(s) as real, FullTotal(s) as real;
      assert t / f <= 1.0 by {
        assert t <= f;
      }
    }
  }

  lemma {:induction false} FullIsMultiple(s: seq<Sample<SizePair>>, factor: nat)
    requires forall k :: 0 <= k < |s| ==> s[k].value.full == factor * s[k].value.thin
    ensures FullTotal(s) == factor * ThinTotal(s)
  {
    if s != [] {
      FullIsMultiple(s[..|s| - 1], factor);
    }
  }

  /** When every full size is `factor` times its thin size, the saved
      fraction is 1 - 1/factor (0 while nothing has been recorded). */
  lemma RatioSavedOfProportional(s: seq<Sample<SizePair>>, factor: nat)
    requires factor > 0
    requires forall k :: 0 <= k < |s| ==> s[k].value.full == factor * s[k].value.thin
    ensures RatioSaved(s) == if ThinTotal(s) == 0 then 0.0 else 1.0 - 1.0 / factor as real
  {
    FullIsMultiple(s, factor);
    if ThinTotal(s) > 0 {
      ShareOfMultiple(ThinTotal(s), factor);
    }
  }

  lemma ShareOfMultiple(t: nat, factor: nat)
    requires t > 0 && factor > 0
    ensures t as real / (factor * t) as real == 1.0 / factor as real
  {
    var x, f := t as real, factor as real;
    assert (factor * t) as real == f * x;
    assert (1.0 / f) * (f * x) == x by {
      assert (1.0 / f) * f == 1.0;
    }
    QuotientOf(x, f * x, 1.0 / f);
  }

  lemma QuotientOf(x: real, y: real, z: real)
    requires y != 0.0 && z * y == x
    ensures x / y == z
  {
  }

  lemma {:induction false} ValueTotalBounded(s: seq<Sample<nat>>, bound: nat)
    requires forall k :: 0 <= k < |s| ==> s[k].value <= bound
    ensures ValueTotal(s) <= |s| * bound
  {
    if s != [] {
      ValueTotalBounded(s[..|s| - 1], bound);
    }
  }

  /** The average times the number of samples is the sum, and the average
      never exceeds a bound on every value. */
  lemma AverageMeaning(s: seq<Sample<nat>>, bound: nat)
    requires forall k :: 0 <= k < |s| ==> s[k].value <= bound
    ensures Average(s) * |s| as real == ValueTotal(s) as real
    ensures 0.0 <= Average(s) <= bound as real
  {
    ValueTotalBounded(s, bound);
    if |s| > 0 {
      var total, n := ValueTotal(s), |s|;
      assert Average(s) == total as real / n as real;
      MeanBounds(total, n, bound);
    }
  }

  lemma MeanBounds(total: nat, n: nat, bound: nat)
    requires n > 0 && total <= n * bound
    ensures (total as real / n as real) * n as real == total as real
    ensures 0.0 <= total as real / n as real <= bound as real
  {
    var x, m, b := total as real, n as real, bound as real;
    assert (n * bound) as real == m * b;
    assert x <= m * b;
    assert x / m <= b by {
      assert (x / m) * m == x;
    }
  }

  /** Twice the sum of the values step * k over positions k < |s|. */
  lemma {:induction false} ValueTotalOfRamp(s: seq<Sample<nat>>, step: nat)
    requires forall k :: 0 <= k < |s| ==> s[k].value == step * k
    ensures 2 * ValueTotal(s) == step * (|s| * (|s| - 1))
  {
    if s != [] {
      var n := |s| - 1;
      ValueTotalOfRamp(s[..n], step);
      var prev, last := ValueTotal(s[..n]), s[n].value;
      assert ValueTotal(s) == prev + last;
      assert last == step * n;
      RampStep(prev, n, step);
    }
  }

  /** One more term step * n of the ramp sum. */
  lemma RampStep(prev: nat, n: nat, step: nat)
    requires 2 * prev == step * (n * (n - 1))
    ensures 2 * (prev + step * n) == step * ((n + 1) * n)
  {
    assert step * (n * (n - 1)) + 2 * (step * n) == step * (n * (n - 1) + 2 * n);
    assert n * (n - 1) + 2 * n == (n + 1) * n;
  }

  /** Twice the sum of the thin sizes k over positions k < |s|. */
  lemma {:induction false} ThinTotalOfRamp(s: seq<Sample<SizePair>>)
    requires forall k :: 0 <= k < |s| ==> s[k].value.thin == k
    ensures 2 * ThinTotal(s) == |s| * (|s| - 1)
  {
    if s != [] {
      var n := |s| - 1;
      ThinTotalOfRamp(s[..n]);
      assert n * (n - 1) + 2 * n == (n + 1) * n;
    }
  }
}

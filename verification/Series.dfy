/** back/src/dora/series.ts and the membership test of back/src/common/period.ts. */
module Series {
  import opened Lists
  import opened Numbers
  import opened Sums

  /** Bounds in milliseconds, both included. */
  datatype Period = Period(from: int, to: int)

  predicate Within(at: int, period: Period) {
    period.from <= at <= period.to
  }

  /** JavaScript's rounding: halves go up. */
  function Round(x: real): int { (x + 0.5).Floor }

  function SliceCount(span: int, maxSlices: real): int {
    Max(1, Min(maxSlices.Floor, (span as real / DAY_MS as real).Floor))
  }

  function Start(period: Period, count: int, i: int): int
    requires count > 0
  {
    Round(period.from as real + i as real * ((period.to - period.from) as real / count as real))
  }

  function Slice(period: Period, count: int, i: int): Period
    requires count > 0
  {
    Period(Start(period, count, i), if i == count - 1 then period.to else Start(period, count, i + 1) - 1)
  }

  function SliceRange(period: Period, maxSlices: real): seq<Period> {
    var span := period.to - period.from;
    if maxSlices < 1.0 || span <= 0 then []
    else
      var count := SliceCount(span, maxSlices);
      seq(count, i => Slice(period, count, i))
  }

  /** A step of at least a day moves the rounded start by at least a day. */
  lemma StartsADayApart(period: Period, count: int, i: int)
    requires count > 0 && count * DAY_MS <= period.to - period.from
    ensures Start(period, count, i) + DAY_MS <= Start(period, count, i + 1)
  {
    var step := (period.to - period.from) as real / count as real;
    assert (period.to - period.from) as real >= count as real * DAY_MS as real;
    assert step >= DAY_MS as real;
    var x := period.from as real + i as real * step;
    assert period.from as real + (i + 1) as real * step == x + step;
    assert (x + DAY_MS as real + 0.5).Floor == (x + 0.5).Floor + DAY_MS;
  }

  /** The first slice starts on the period, and the last one a day before its end. */
  lemma OuterStarts(period: Period, count: int)
    requires count > 0
    ensures Start(period, count, 0) == period.from
    ensures Start(period, count, count) == period.to
  {
    var span := (period.to - period.from) as real;
    assert count as real * (span / count as real) == span;
    assert period.from as real + span == period.to as real;
  }

  /** A cut of several slices has whole days to give each of them. */
  lemma CountLeavesDays(span: int, maxSlices: real)
    requires maxSlices >= 1.0 && span > 0
    ensures 1 <= SliceCount(span, maxSlices)
    ensures SliceCount(span, maxSlices) as real <= maxSlices
    ensures SliceCount(span, maxSlices) >= 2 ==> SliceCount(span, maxSlices) * DAY_MS <= span
  {
    var days := (span as real / DAY_MS as real).Floor;
    assert days as real <= span as real / DAY_MS as real;
    assert days as real * DAY_MS as real <= span as real;
  }

  /**
   * The cut is a partition into days or more: never more than asked, flush with
   * both ends of the period, each slice opening a millisecond after the last.
   */
  lemma {:induction false} SlicesPartition(period: Period, maxSlices: real)
    requires maxSlices >= 1.0 && period.from < period.to
    ensures var slices := SliceRange(period, maxSlices);
      && 1 <= |slices| && |slices| as real <= maxSlices
      && slices[0].from == period.from
      && slices[|slices| - 1].to == period.to
      && (forall i :: 0 <= i < |slices| - 1 ==> slices[i + 1].from == slices[i].to + 1)
      && (|slices| >= 2 ==> forall i :: 0 <= i < |slices| ==> slices[i].to - slices[i].from + 1 >= DAY_MS)
  {
    var span := period.to - period.from;
    var count := SliceCount(span, maxSlices);
    CountLeavesDays(span, maxSlices);
    OuterStarts(period, count);
    if count >= 2 {
      forall i | 0 <= i < count
        ensures Start(period, count, i) + DAY_MS <= Start(period, count, i + 1)
      {
        StartsADayApart(period, count, i);
      }
    }
  }

  /** Where the `i`th of `n` equal parts starts, to the nearest millisecond, halves going up. */
  predicate StartsEvenly(start: int, period: Period, n: int, i: int) {
    2 * i * (period.to - period.from) - n < 2 * n * (start - period.from) <= 2 * i * (period.to - period.from) + n
  }

  lemma RoundedStart(period: Period, n: int, i: int)
    requires n > 0
    ensures StartsEvenly(Start(period, n, i), period, n, i)
  {
    var span := period.to - period.from;
    var offset := i as real * (span as real / n as real);
    var start := Start(period, n, i);
    assert start as real <= period.from as real + offset + 0.5 < start as real + 1.0;
    assert n as real * offset == i as real * span as real;
    Scaled(start - period.from, offset, n, i * span);
  }

  /** Bounds on a rounded number, multiplied out. */
  lemma Scaled(d: int, offset: real, n: int, total: int)
    requires n > 0 && n as real * offset == total as real
    requires d as real <= offset + 0.5 && offset + 0.5 < d as real + 1.0
    ensures 2 * total - n < 2 * n * d <= 2 * total + n
  {
    assert n as real * d as real == (n * d) as real;
    Times(n as real, d as real, offset, (n * d) as real, total as real);
    Doubled(n * d, total, n);
    assert 2 * n * d == 2 * (n * d);
  }

  lemma Times(x: real, a: real, offset: real, xa: real, xo: real)
    requires x > 0.0 && a <= offset + 0.5 < a + 1.0
    requires xa == x * a && xo == x * offset
    ensures xa <= xo + x * 0.5 < xa + x
  {
    var over := offset + 0.5 - a;
    PartOf(x, over);
    Expands(x, a, offset);
    assert x * over == xo + x * 0.5 - xa;
  }

  lemma PartOf(x: real, part: real)
    requires x > 0.0 && 0.0 <= part < 1.0
    ensures 0.0 <= x * part < x
  {
    assert x * (1.0 - part) > 0.0;
  }

  lemma Expands(x: real, a: real, offset: real)
    ensures x * (offset + 0.5 - a) == x * offset + x * 0.5 - x * a
  {
  }

  lemma Doubled(nd: int, total: int, n: int)
    requires nd as real <= total as real + n as real * 0.5 < nd as real + n as real
    ensures 2 * total - n < 2 * nd <= 2 * total + n
  {
    assert 2.0 * nd as real <= 2.0 * total as real + n as real < 2.0 * nd as real + 2.0 * n as real;
  }

  /** The parts are as many as asked and the days allow, and as equal as whole milliseconds get. */
  lemma SlicesAreEven(period: Period, maxSlices: real)
    requires maxSlices >= 1.0 && period.from < period.to
    ensures var slices := SliceRange(period, maxSlices);
      && (maxSlices < (|slices| + 1) as real || period.to - period.from < (|slices| + 1) * 24 * 60 * 60 * 1000)
      && forall i :: 0 <= i < |slices| ==> StartsEvenly(slices[i].from, period, |slices|, i)
  {
    var span := period.to - period.from;
    var count := SliceCount(span, maxSlices);
    CountLeavesDays(span, maxSlices);
    CountIsGreatest(span, maxSlices);
    forall i | 0 <= i < count ensures StartsEvenly(Start(period, count, i), period, count, i) {
      RoundedStart(period, count, i);
    }
  }

  lemma CountIsGreatest(span: int, maxSlices: real)
    requires maxSlices >= 1.0 && span > 0
    ensures var n := SliceCount(span, maxSlices); maxSlices < (n + 1) as real || span < (n + 1) * DAY_MS
  {
    var days := span as real / DAY_MS as real;
    assert days * DAY_MS as real == span as real;
    assert days < days.Floor as real + 1.0;
  }

  predicate Chained(slices: seq<Period>) {
    && (forall i :: 0 <= i < |slices| ==> slices[i].from <= slices[i].to)
    && (forall i :: 0 <= i < |slices| - 1 ==> slices[i + 1].from == slices[i].to + 1)
  }

  function InPeriod(period: Period): int -> bool { at => Within(at, period) }

  function Holds(at: int): Period -> real { slice => if Within(at, slice) then 1.0 else 0.0 }

  /** Chained slices hold every instant between their ends once, and no other. */
  lemma {:induction false} HeldOnce(slices: seq<Period>, at: int)
    requires slices != [] && Chained(slices)
    ensures slices[0].from <= slices[|slices| - 1].to
    ensures Sum(slices, Holds(at)) == if slices[0].from <= at <= slices[|slices| - 1].to then 1.0 else 0.0
  {
    var n := |slices| - 1;
    if n > 0 {
      HeldOnce(slices[..n], at);
      assert slices[n].from == slices[n - 1].to + 1;
    } else {
      assert slices[..n] == [];
    }
  }

  /** Every instant of the period falls within one slice, and only one. */
  lemma {:induction false} ExactlyOneSlice(period: Period, maxSlices: real, at: int)
    requires maxSlices >= 1.0 && period.from < period.to
    ensures Sum(SliceRange(period, maxSlices), Holds(at)) == if Within(at, period) then 1.0 else 0.0
  {
    SlicesPartition(period, maxSlices);
    HeldOnce(SliceRange(period, maxSlices), at);
  }

  /** How many of the events a slice holds: what `computeOver` filters them to. */
  function Held(events: seq<int>): Period -> real { slice => |Filter(events, InPeriod(slice))| as real }

  lemma {:induction false} CountsAddUp(slices: seq<Period>, events: seq<int>, whole: Period)
    requires forall at :: at in events ==> Sum(slices, Holds(at)) == if Within(at, whole) then 1.0 else 0.0
    ensures Sum(slices, Held(events)) == |Filter(events, InPeriod(whole))| as real
  {
    if events == [] {
      SumAgree(slices, Held(events), Zero());
      SumOfZero(slices);
    } else {
      var n := |events| - 1;
      var at := events[n];
      assert events == events[..n] + [at];
      CountsAddUp(slices, events[..n], whole);
      forall slice | slice in slices ensures Held(events)(slice) == Plus(Held(events[..n]), Holds(at))(slice) {
        FilterSnoc(events[..n], at, InPeriod(slice));
      }
      SumAgree(slices, Held(events), Plus(Held(events[..n]), Holds(at)));
      SumPlus(slices, Held(events[..n]), Holds(at));
      FilterSnoc(events[..n], at, InPeriod(whole));
    }
  }

  /**
   * Slicing conserves events exactly when the cut is not refused. A period of one
   * instant is refused although it holds that instant; an inverted one, which
   * holds none, loses nothing by it.
   */
  lemma SlicingConservesIff(period: Period, maxSlices: real)
    ensures (forall events :: Sum(SliceRange(period, maxSlices), Held(events))
                              == |Filter(events, InPeriod(period))| as real)
       <==> period.from > period.to || (maxSlices >= 1.0 && period.from < period.to)
  {
    var slices := SliceRange(period, maxSlices);
    if maxSlices >= 1.0 && period.from < period.to {
      forall events ensures Sum(slices, Held(events)) == |Filter(events, InPeriod(period))| as real {
        forall at | at in events ensures Sum(slices, Holds(at)) == if Within(at, period) then 1.0 else 0.0 {
          ExactlyOneSlice(period, maxSlices, at);
        }
        CountsAddUp(slices, events, period);
      }
    } else {
      assert slices == [];
      if period.from > period.to {
        forall events ensures Sum(slices, Held(events)) == |Filter(events, InPeriod(period))| as real {
          CountsAddUp(slices, events, period);
        }
      } else {
        var lost := [period.from];
        FilterSnoc([], period.from, InPeriod(period));
        assert [] + [period.from] == lost;
        assert Sum(slices, Held(lost)) == 0.0 && |Filter(lost, InPeriod(period))| == 1;
      }
    }
  }
}

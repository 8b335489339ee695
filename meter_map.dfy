/**
 * Piecewise-constant time signatures along the timeline and the bar grid they
 * induce (src/domain/MeterMap.{hpp,cpp}).
 */
module MeterMaps {
  import opened IntDiv
  import opened Sequences
  import opened TimeTypes
  import opened ChangeMaps

  type MeterChange = Change<TimeSignature>

  /** Every signature has a non-zero bar length, so the bar arithmetic never divides by zero. */
  ghost predicate Measurable(cs: seq<MeterChange>)
  {
    forall i :: 0 <= i < |cs| ==> cs[i].value.denominator != 0 && TicksPerBar(cs[i].value) != 0
  }

  /** Every signature has a positive bar length. */
  ghost predicate PositiveBars(cs: seq<MeterChange>)
  {
    Measurable(cs) && forall i :: 0 <= i < |cs| ==> TicksPerBar(cs[i].value) > 0
  }

  function BarLength(cs: seq<MeterChange>, i: nat): int
    requires Measurable(cs) && i < |cs|
  {
    TicksPerBar(cs[i].value)
  }

  /** Where the section of change i ends: the next change, or just after t for the last one. */
  function RangeEnd(cs: seq<MeterChange>, i: nat, t: int): int
    requires i < |cs|
  {
    if i + 1 < |cs| then cs[i + 1].atTick else t + 1
  }

  function Min(a: int, b: int): int { if a < b then a else b }

  /**
   * The start of the bar holding t: bars are laid from the start of the section
   * holding t.  With no changes, 4/4 bars from tick 0; before the first change,
   * bars of the last signature from tick 0.
   */
  function BarStartAt(cs: seq<MeterChange>, t: int): int
    requires Increasing(cs) && Measurable(cs)
  {
    if cs == [] then
      Quot(t, TicksPerBar(CommonTime)) * TicksPerBar(CommonTime)
    else if t < cs[0].atTick then
      var barLength := BarLength(cs, |cs| - 1);
      Quot(t, barLength) * barLength
    else
      var i := Segment(cs, t);
      var barLength := BarLength(cs, i);
      cs[i].atTick + Quot(t - cs[i].atTick, barLength) * barLength
  }

  /** Whole bars of section i that lie before t. */
  function SectionBars(cs: seq<MeterChange>, i: nat, t: int): int
    requires Measurable(cs) && i < |cs|
  {
    Quot(Min(t, RangeEnd(cs, i, t)) - cs[i].atTick, BarLength(cs, i))
  }

  /** Bars counted over the first n sections. */
  function BarsBefore(cs: seq<MeterChange>, n: nat, t: int): int
    requires Measurable(cs) && n <= |cs|
  {
    if n == 0 then 0 else BarsBefore(cs, n - 1, t) + SectionBars(cs, n - 1, t)
  }

  /**
   * The 0-based index of the bar holding t: whole bars of every section up to
   * the one holding t.  With no changes, 4/4 bars from tick 0; before the first
   * change, bar 0.
   */
  function BarIndexAt(cs: seq<MeterChange>, t: int): int
    requires Increasing(cs) && Measurable(cs)
  {
    if cs == [] then Quot(t, TicksPerBar(CommonTime))
    else if t < cs[0].atTick then 0
    else BarsBefore(cs, Segment(cs, t) + 1, t)
  }

  /** The bars of the sections that end before t: independent of t. */
  function FullBars(cs: seq<MeterChange>, n: nat): int
    requires Measurable(cs) && n < |cs|
  {
    if n == 0 then 0
    else FullBars(cs, n - 1) + Quot(cs[n].atTick - cs[n - 1].atTick, BarLength(cs, n - 1))
  }

  class MeterMap {
    /** Meter changes in increasing tick order, at most one per tick. */
    var changes: seq<MeterChange>

    ghost predicate Valid()
      reads this
    {
      Increasing(changes)
    }

    constructor ()
      ensures Valid() && changes == [Change(0, CommonTime)]
    {
      changes := [Change(0, CommonTime)];
    }

    constructor WithSignature(initialSignature: TimeSignature)
      ensures Valid() && changes == [Change(0, initialSignature)]
    {
      changes := [Change(0, initialSignature)];
    }

    /** Replaces any change at atTick by the new signature and re-sorts. */
    method AddChange(atTick: int, signature: TimeSignature)
      requires Valid()
      modifies this
      ensures Valid()
      ensures changes == Replace(old(changes), atTick, signature)
    {
      RemoveChangeAt(atTick);
      changes := changes + [Change(atTick, signature)];
      SortChanges();
      ReplaceByKey(old(changes), Change(atTick, signature), AtTick, changes);
    }

    /** Erases every change at tick, keeping the others in order. */
    method RemoveChangeAt(tick: int)
      requires Valid()
      modifies this
      ensures Valid()
      ensures changes == Without(old(changes), tick)
    {
      WithoutIncreasing(changes, tick);
      changes := Without(changes, tick);
    }

    /** The signature of the last change at or before tick (4/4 for an empty map). */
    method GetSignatureAt(tick: int) returns (sig: TimeSignature)
      requires Valid()
      ensures sig == ValueAt(changes, tick, CommonTime)
    {
      sig := LatestValue(changes, tick, CommonTime);
    }

    method Clear()
      modifies this
      ensures Valid() && changes == []
    {
      changes := [];
    }

    method SetConstantMeter(signature: TimeSignature)
      modifies this
      ensures Valid() && changes == [Change(0, signature)]
    {
      changes := [Change(0, signature)];
    }

    /** Walks the sections until the one holding tick. */
    method GetBarStartAt(tick: int) returns (start: int)
      requires Valid() && Measurable(changes)
      ensures start == BarStartAt(changes, tick)
    {
      if |changes| == 0 {
        var barLength := TicksPerBar(CommonTime);
        return Quot(tick, barLength) * barLength;
      }
      var i := 0;
      while i < |changes|
        invariant 0 <= i < |changes|
        invariant i > 0 ==> changes[0].atTick <= tick && changes[i].atTick <= tick
      {
        var rangeStart := changes[i].atTick;
        var rangeEnd := if i + 1 < |changes| then changes[i + 1].atTick else tick + 1;
        if tick < rangeStart {
          break;
        }
        if tick >= rangeStart && tick < rangeEnd {
          SegmentUnique(changes, tick, i);
          var barLength := TicksPerBar(changes[i].value);
          var offsetInSection := tick - rangeStart;
          return rangeStart + Quot(offsetInSection, barLength) * barLength;
        }
        i := i + 1;
      }
      var barLength := TicksPerBar(changes[|changes| - 1].value);
      start := Quot(tick, barLength) * barLength;
    }

    /** Adds up the whole bars of each section up to the one holding tick. */
    method GetBarIndexAt(tick: int) returns (index: int)
      requires Valid() && Measurable(changes)
      ensures index == BarIndexAt(changes, tick)
    {
      if |changes| == 0 {
        return Quot(tick, TicksPerBar(CommonTime));
      }
      var barCount := 0;
      var i := 0;
      while i < |changes|
        invariant 0 <= i < |changes|
        invariant i > 0 ==> changes[0].atTick <= tick && changes[i].atTick <= tick
        invariant barCount == BarsBefore(changes, i, tick)
      {
        var rangeStart := changes[i].atTick;
        var rangeEnd := if i + 1 < |changes| then changes[i + 1].atTick else tick + 1;
        if tick < rangeStart {
          break;
        }
        var barLength := TicksPerBar(changes[i].value);
        var effectiveEnd := if tick < rangeEnd then tick else rangeEnd;
        var barsInSection := Quot(effectiveEnd - rangeStart, barLength);
        barCount := barCount + barsInSection;
        if tick < rangeEnd {
          SegmentUnique(changes, tick, i);
          return barCount;
        }
        i := i + 1;
      }
      index := barCount;
    }

    /** std::sort by tick. */
    method SortChanges()
      modifies this
      ensures SortedBy(changes, AtTick)
      ensures multiset(changes) == multiset(old(changes))
    {
      changes := SortByKey(changes, AtTick);
    }
  }

  // ---- Properties of the bar grid ---------------------------------------------------

  /** The bar start is the last bar line of its section at or before t. */
  lemma BarStartInSection(cs: seq<MeterChange>, t: int)
    requires Increasing(cs) && PositiveBars(cs) && cs != [] && cs[0].atTick <= t
    ensures cs[Segment(cs, t)].atTick <= BarStartAt(cs, t) <= t
    ensures t < BarStartAt(cs, t) + BarLength(cs, Segment(cs, t))
    ensures Rem(BarStartAt(cs, t) - cs[Segment(cs, t)].atTick, BarLength(cs, Segment(cs, t))) == 0
  {
    var i := Segment(cs, t);
    var barLength := BarLength(cs, i);
    var q := Quot(t - cs[i].atTick, barLength);
    QuotRem(t - cs[i].atTick, barLength);
    RemOfMultiple(q, barLength);
  }

  /** Sections that end before t contribute all their bars. */
  lemma {:induction false} BarsBeforeFull(cs: seq<MeterChange>, n: nat, t: int)
    requires Increasing(cs) && Measurable(cs) && cs != [] && cs[0].atTick <= t
    requires n <= Segment(cs, t)
    ensures BarsBefore(cs, n, t) == FullBars(cs, n)
  {
    if n > 0 {
      BarsBeforeFull(cs, n - 1, t);
      assert cs[n].atTick <= cs[Segment(cs, t)].atTick;
    }
  }

  /** The bar index is the bars of the earlier sections plus the whole bars into the current one. */
  lemma BarIndexInSection(cs: seq<MeterChange>, t: int)
    requires Increasing(cs) && Measurable(cs) && cs != [] && cs[0].atTick <= t
    ensures BarIndexAt(cs, t)
      == FullBars(cs, Segment(cs, t)) + Quot(t - cs[Segment(cs, t)].atTick, BarLength(cs, Segment(cs, t)))
  {
    BarsBeforeFull(cs, Segment(cs, t), t);
  }

  lemma {:induction false} FullBarsMonotone(cs: seq<MeterChange>, m: nat, n: nat)
    requires Increasing(cs) && PositiveBars(cs) && m <= n < |cs|
    ensures FullBars(cs, m) <= FullBars(cs, n)
  {
    if m < n {
      FullBarsMonotone(cs, m, n - 1);
      QuotMonotone(0, cs[n].atTick - cs[n - 1].atTick, BarLength(cs, n - 1));
    }
  }

  /** Later ticks never have a smaller bar index. */
  lemma BarIndexMonotone(cs: seq<MeterChange>, t1: int, t2: int)
    requires Increasing(cs) && PositiveBars(cs) && cs != [] && cs[0].atTick <= t1 <= t2
    ensures BarIndexAt(cs, t1) <= BarIndexAt(cs, t2)
  {
    if Segment(cs, t1) == Segment(cs, t2) {
      BarIndexMonotoneWithin(cs, t1, t2);
    } else {
      BarIndexMonotoneAcross(cs, t1, t2);
    }
  }

  lemma BarIndexMonotoneWithin(cs: seq<MeterChange>, t1: int, t2: int)
    requires Increasing(cs) && PositiveBars(cs) && cs != [] && cs[0].atTick <= t1 <= t2
    requires Segment(cs, t1) == Segment(cs, t2)
    ensures BarIndexAt(cs, t1) <= BarIndexAt(cs, t2)
  {
    var k := Segment(cs, t1);
    BarIndexInSection(cs, t1);
    BarIndexInSection(cs, t2);
    QuotMonotone(t1 - cs[k].atTick, t2 - cs[k].atTick, BarLength(cs, k));
  }

  lemma BarIndexMonotoneAcross(cs: seq<MeterChange>, t1: int, t2: int)
    requires Increasing(cs) && PositiveBars(cs) && cs != [] && cs[0].atTick <= t1 <= t2
    requires Segment(cs, t1) != Segment(cs, t2)
    ensures BarIndexAt(cs, t1) <= BarIndexAt(cs, t2)
  {
    var k1, k2 := Segment(cs, t1), Segment(cs, t2);
    assert k1 < k2;
    var boundary := FullBars(cs, k1 + 1);
    assert BarIndexAt(cs, t1) <= boundary by {
      BarIndexInSection(cs, t1);
      BarsUpToNextSection(cs, k1, t1);
    }
    assert boundary <= BarIndexAt(cs, t2) by {
      BarIndexInSection(cs, t2);
      FullBarsMonotone(cs, k1 + 1, k2);
      QuotMonotone(0, t2 - cs[k2].atTick, BarLength(cs, k2));
    }
  }

  /** A tick inside section k has no more bars before it than the start of section k + 1. */
  lemma BarsUpToNextSection(cs: seq<MeterChange>, k: nat, t: int)
    requires Increasing(cs) && PositiveBars(cs) && k + 1 < |cs| && cs[k].atTick <= t < cs[k + 1].atTick
    ensures FullBars(cs, k) + Quot(t - cs[k].atTick, BarLength(cs, k)) <= FullBars(cs, k + 1)
  {
    QuotMonotone(t - cs[k].atTick, cs[k + 1].atTick - cs[k].atTick, BarLength(cs, k));
  }

  /** The start of the bar holding t has the same bar index as t. */
  lemma BarIndexOfBarStart(cs: seq<MeterChange>, t: int)
    requires Increasing(cs) && PositiveBars(cs) && cs != [] && cs[0].atTick <= t
    ensures BarIndexAt(cs, BarStartAt(cs, t)) == BarIndexAt(cs, t)
  {
    var i := Segment(cs, t);
    var barLength := BarLength(cs, i);
    var q := Quot(t - cs[i].atTick, barLength);
    var start := BarStartAt(cs, t);
    BarStartInSection(cs, t);
    assert cs[0].atTick <= cs[i].atTick <= start;
    SegmentUnique(cs, start, i);
    BarIndexInSection(cs, t);
    BarIndexInSection(cs, start);
    assert start - cs[i].atTick == q * barLength;
    RemOfMultiple(q, barLength);
  }

  /** Under one signature from tick 0, bars are plain multiples of the bar length. */
  lemma ConstantMeter(sig: TimeSignature, t: int)
    requires sig.denominator != 0 && TicksPerBar(sig) > 0 && t >= 0
    ensures Increasing([Change(0, sig)]) && Measurable([Change(0, sig)])
    ensures BarStartAt([Change(0, sig)], t) == (t / TicksPerBar(sig)) * TicksPerBar(sig)
    ensures BarIndexAt([Change(0, sig)], t) == t / TicksPerBar(sig)
  {
    var cs := [Change(0, sig)];
    SegmentUnique(cs, t, 0);
    var barLength := TicksPerBar(sig);
    QuotIsDiv(t, barLength);
    assert BarStartAt(cs, t) == 0 + Quot(t - 0, barLength) * barLength;
    assert SectionBars(cs, 0, t) == Quot(t, barLength);
    assert BarIndexAt(cs, t) == BarsBefore(cs, 1, t) == SectionBars(cs, 0, t);
  }

  /** An empty meter map behaves as 4/4 from tick 0 for every non-negative tick. */
  lemma EmptyMapIsCommonTime(t: int, fallback: TimeSignature)
    requires t >= 0
    ensures Increasing([Change(0, CommonTime)]) && Measurable([Change(0, CommonTime)])
    ensures ValueAt([], t, CommonTime) == ValueAt([Change(0, CommonTime)], t, fallback)
    ensures BarStartAt([], t) == BarStartAt([Change(0, CommonTime)], t)
    ensures BarIndexAt([], t) == BarIndexAt([Change(0, CommonTime)], t)
  {
    ConstantMeter(CommonTime, t);
    QuotIsDiv(t, TicksPerBar(CommonTime));
  }
}

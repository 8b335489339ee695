/**
 * Regions: blocks on the timeline that reference a pattern by id
 * (src/domain/Region.{hpp,cpp}).  A region occupies the half-open tick
 * interval [startTick, startTick + lengthTicks).
 */
module Regions {
  import opened TimeTypes

  datatype RegionType = Groove | Fill | Signature | Tempo

  datatype StretchMode = Repeat | Truncate | VariantSelect

  datatype Region = Region(
    id: string,
    regionType: RegionType,
    startTick: int,
    lengthTicks: int,
    patternId: string,
    stretchMode: StretchMode,
    snapToBars: bool)
  {
    /** The first tick after the region. */
    function EndTick(): int
    {
      startTick + lengthTicks
    }

    predicate Contains(t: int)
    {
      t >= startTick && t < EndTick()
    }

    predicate Overlaps(other: Region)
    {
      startTick < other.EndTick() && other.startTick < EndTick()
    }

    function WithStartTick(t: int): (r: Region)
      ensures r.startTick == t && r.(startTick := startTick) == this
    {
      this.(startTick := t)
    }

    function WithLengthTicks(ticks: int): (r: Region)
      ensures r.lengthTicks == ticks && r.(lengthTicks := lengthTicks) == this
    {
      this.(lengthTicks := ticks)
    }

    function WithPatternId(pid: string): (r: Region)
      ensures r.patternId == pid && r.(patternId := patternId) == this
    {
      this.(patternId := pid)
    }

    function WithStretchMode(mode: StretchMode): (r: Region)
      ensures r.stretchMode == mode && r.(stretchMode := stretchMode) == this
    {
      this.(stretchMode := mode)
    }

    function WithSnapToBars(snap: bool): (r: Region)
      ensures r.snapToBars == snap && r.(snapToBars := snapToBars) == this
    {
      this.(snapToBars := snap)
    }
  }

  /** Region(): a one-bar groove at tick 0 with no pattern, repeating, snapping to bars. */
  const DefaultRegion: Region := Region("", Groove, 0, 4 * PPQ, "", Repeat, true)

  /** Region(id, type, start, length): the other fields keep their defaults. */
  function NewRegion(id: string, regionType: RegionType, startTick: int, lengthTicks: int): (r: Region)
    ensures r.(id := "", regionType := Groove, startTick := 0, lengthTicks := 4 * PPQ) == DefaultRegion
    ensures r.id == id && r.regionType == regionType
    ensures r.startTick == startTick && r.EndTick() == startTick + lengthTicks
  {
    DefaultRegion.(id := id, regionType := regionType, startTick := startTick, lengthTicks := lengthTicks)
  }

  /** The end tick is exclusive and the start tick inclusive. */
  lemma EndIsExclusive(r: Region)
    requires r.lengthTicks > 0
    ensures r.Contains(r.startTick) && r.Contains(r.EndTick() - 1)
    ensures !r.Contains(r.startTick - 1) && !r.Contains(r.EndTick())
  {
  }

  lemma OverlapsSymmetric(a: Region, b: Region)
    ensures a.Overlaps(b) <==> b.Overlaps(a)
  {
  }

  /** Two non-empty regions overlap exactly when some tick lies in both. */
  lemma OverlapsIffSharedTick(a: Region, b: Region)
    requires a.lengthTicks > 0 && b.lengthTicks > 0
    ensures a.Overlaps(b) <==> exists t :: a.Contains(t) && b.Contains(t)
  {
    if a.Overlaps(b) {
      var t := if a.startTick < b.startTick then b.startTick else a.startTick;
      assert a.Contains(t) && b.Contains(t);
    }
  }

  /** A region that ends where another starts does not overlap it. */
  lemma AdjacentRegionsDoNotOverlap(a: Region, b: Region)
    requires a.EndTick() == b.startTick
    ensures !a.Overlaps(b) && !b.Overlaps(a)
  {
  }

  /** The cases the region unit tests check. */
  lemma RegionExamples()
    ensures NewRegion("r", Groove, 1000, 2000).Contains(1000)
    ensures NewRegion("r", Groove, 1000, 2000).Contains(2999)
    ensures !NewRegion("r", Groove, 1000, 2000).Contains(999)
    ensures !NewRegion("r", Groove, 1000, 2000).Contains(3000)
    ensures !NewRegion("a", Groove, 0, 1000).Overlaps(NewRegion("b", Groove, 1000, 1000))
    ensures NewRegion("a", Groove, 0, 1000).Overlaps(NewRegion("c", Groove, 500, 1000))
  {
  }
}

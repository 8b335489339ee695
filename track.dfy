/**
 * Tracks: lanes of regions kept in start order (src/domain/Track.{hpp,cpp}).
 */
module Tracks {
  import opened Options
  import opened Sequences
  import opened Regions

  function StartOf(r: Region): int { r.startTick }

  /** The query used by getRegionsInRange: the region meets [s, e). */
  function IntersectsWindow(s: int, e: int): Region -> bool
  {
    (r: Region) => r.startTick < e && s < r.EndTick()
  }

  function RegionIdIsNot(id: string): Region -> bool { (r: Region) => r.id != id }

  function RegionHasId(id: string): Region -> bool { (r: Region) => r.id == id }

  /** getRegion: the first region with the id. */
  function FindRegion(rs: seq<Region>, id: string): (r: Option<Region>)
    ensures r.None? <==> forall i :: 0 <= i < |rs| ==> rs[i].id != id
    ensures r.Some? ==>
      exists i :: 0 <= i < |rs| && rs[i] == r.value && r.value.id == id && forall j :: 0 <= j < i ==> rs[j].id != id
  {
    match FirstIndex(rs, RegionHasId(id))
    case None => None
    case Some(i) => Some(rs[i])
  }

  /** No two regions at different positions overlap. */
  ghost predicate NonOverlapping(rs: seq<Region>)
  {
    forall i, j :: 0 <= i < |rs| && 0 <= j < |rs| && i != j ==> !rs[i].Overlaps(rs[j])
  }

  class Track {
    /** The id has no setter: it is fixed when the track is made. */
    const id: string
    var name: string
    var muted: bool
    var soloed: bool
    var regions: seq<Region>

    /** addRegion keeps the regions in start order. */
    ghost predicate Valid()
      reads this
    {
      SortedBy(regions, StartOf)
    }

    /** Track(): no id, named "Track", audible, empty. */
    constructor Default()
      ensures Valid()
      ensures id == "" && name == "Track" && !muted && !soloed && regions == []
    {
      id := "";
      name := "Track";
      muted := false;
      soloed := false;
      regions := [];
    }

    constructor (id: string, name: string)
      ensures Valid()
      ensures this.id == id && this.name == name && !muted && !soloed && regions == []
    {
      this.id := id;
      this.name := name;
      muted := false;
      soloed := false;
      regions := [];
    }

    /** The copy a project stores when a track is added by value. */
    constructor Copy(other: Track)
      ensures id == other.id && name == other.name && muted == other.muted
      ensures soloed == other.soloed && regions == other.regions
    {
      id := other.id;
      name := other.name;
      muted := other.muted;
      soloed := other.soloed;
      regions := other.regions;
    }

    method SetName(newName: string)
      modifies this
      ensures name == newName
      ensures muted == old(muted) && soloed == old(soloed) && regions == old(regions)
    {
      name := newName;
    }

    method SetMuted(m: bool)
      modifies this
      ensures muted == m
      ensures name == old(name) && soloed == old(soloed) && regions == old(regions)
    {
      muted := m;
    }

    method SetSoloed(s: bool)
      modifies this
      ensures soloed == s
      ensures name == old(name) && muted == old(muted) && regions == old(regions)
    {
      soloed := s;
    }

    /** Appends the region and re-sorts by start; no overlap check. */
    method AddRegion(region: Region)
      requires Valid()
      modifies this
      ensures Valid()
      ensures multiset(regions) == multiset(old(regions)) + multiset{region}
      ensures name == old(name) && muted == old(muted) && soloed == old(soloed)
    {
      regions := SortByKey(regions + [region], StartOf);
    }

    /** Erases every region with the id, keeping the others in order. */
    method RemoveRegion(regionId: string)
      requires Valid()
      modifies this
      ensures Valid()
      ensures regions == Filter(old(regions), RegionIdIsNot(regionId))
      ensures name == old(name) && muted == old(muted) && soloed == old(soloed)
    {
      FilterSorted(regions, RegionIdIsNot(regionId), StartOf);
      regions := Filter(regions, RegionIdIsNot(regionId));
    }

    method GetRegion(regionId: string) returns (r: Option<Region>)
      ensures r == FindRegion(regions, regionId)
    {
      r := FindRegion(regions, regionId);
    }

    /** The regions meeting [startTick, endTick), in stored order. */
    method GetRegionsInRange(startTick: int, endTick: int) returns (result: seq<Region>)
      ensures result == Filter(regions, IntersectsWindow(startTick, endTick))
    {
      result := [];
      var i := 0;
      while i < |regions|
        invariant 0 <= i <= |regions|
        invariant result == Filter(regions[..i], IntersectsWindow(startTick, endTick))
      {
        assert regions[..i + 1][..i] == regions[..i];
        var region := regions[i];
        if region.startTick < endTick && startTick < region.EndTick() {
          result := result + [region];
        }
        i := i + 1;
      }
      assert regions[..|regions|] == regions;
    }

    /** Whether newRegion overlaps any region already on the track. */
    method WouldOverlap(newRegion: Region) returns (b: bool)
      ensures b <==> exists i :: 0 <= i < |regions| && newRegion.Overlaps(regions[i])
    {
      var i := 0;
      while i < |regions|
        invariant 0 <= i <= |regions|
        invariant forall j :: 0 <= j < i ==> !newRegion.Overlaps(regions[j])
      {
        if newRegion.Overlaps(regions[i]) {
          return true;
        }
        i := i + 1;
      }
      return false;
    }

    method ClearRegions()
      modifies this
      ensures Valid() && regions == []
      ensures name == old(name) && muted == old(muted) && soloed == old(soloed)
    {
      regions := [];
    }
  }

  /**
   * Adding a region that wouldOverlap rejects keeps a non-overlapping track
   * non-overlapping, whatever order the sort leaves equal starts in.
   */
  lemma AddKeepsNonOverlapping(before: seq<Region>, region: Region, after: seq<Region>)
    requires NonOverlapping(before)
    requires forall i :: 0 <= i < |before| ==> !region.Overlaps(before[i])
    requires multiset(after) == multiset(before) + multiset{region}
    ensures NonOverlapping(after)
  {
    forall i, j | 0 <= i < |after| && 0 <= j < |after| && i != j
      ensures !after[i].Overlaps(after[j])
    {
      var x, y := after[i], after[j];
      TwoPositions(after, i, j);
      assert multiset{x, y} <= multiset(before) + multiset{region};
      if x == region && y == region {
        assert region in multiset(before);
      } else if x == region {
        assert y in multiset(before);
      } else if y == region {
        assert x in multiset(before);
      } else {
        assert multiset{x, y} <= multiset(before);
        var i', j' := PositionsOfPair(before, x, y);
      }
    }
  }

  /** Every region returned by a range query meets the window, and every region meeting it is returned. */
  lemma RangeQueryExact(rs: seq<Region>, s: int, e: int, r: Region)
    requires r in rs
    ensures r in Filter(rs, IntersectsWindow(s, e)) <==> r.startTick < e && s < r.EndTick()
  {
    var k :| 0 <= k < |rs| && rs[k] == r;
  }

  /** In a sorted track the regions meeting [s, e) are in start order. */
  lemma RangeQuerySorted(rs: seq<Region>, s: int, e: int)
    requires SortedBy(rs, StartOf)
    ensures SortedBy(Filter(rs, IntersectsWindow(s, e)), StartOf)
  {
    FilterSorted(rs, IntersectsWindow(s, e), StartOf);
  }
}

/** Piecewise-constant tempo along the timeline (src/domain/TempoMap.{hpp,cpp}). */
module TempoMaps {
  import opened Sequences
  import opened ChangeMaps

  /** The tempo of a new map and of an empty one. */
  const DefaultBpm: real := 120.0

  class TempoMap {
    /** Tempo changes in increasing tick order, at most one per tick. */
    var changes: seq<Change<real>>

    ghost predicate Valid()
      reads this
    {
      Increasing(changes)
    }

    constructor ()
      ensures Valid() && changes == [Change(0, DefaultBpm)]
    {
      changes := [Change(0, DefaultBpm)];
    }

    constructor WithTempo(initialBpm: real)
      ensures Valid() && changes == [Change(0, initialBpm)]
    {
      changes := [Change(0, initialBpm)];
    }

    /** Replaces any change at atTick by the new tempo and re-sorts. */
    method AddChange(atTick: int, bpm: real)
      requires Valid()
      modifies this
      ensures Valid()
      ensures changes == Replace(old(changes), atTick, bpm)
    {
      RemoveChangeAt(atTick);
      changes := changes + [Change(atTick, bpm)];
      SortChanges();
      ReplaceByKey(old(changes), Change(atTick, bpm), AtTick, changes);
    }

    /** Erases every change at tick, keeping the others in order. */
    method RemoveChangeAt(tick: int)
      requires Valid()
      modifies this
      ensures Valid()
      ensures changes == Without(old(changes), tick)
    {
      WithoutIncreasing(changes, tick);
      changes := Without(changes, tick);
    }

    /** The tempo of the last change at or before tick (120 for an empty map). */
    method GetBpmAt(tick: int) returns (bpm: real)
      requires Valid()
      ensures bpm == ValueAt(changes, tick, DefaultBpm)
    {
      bpm := LatestValue(changes, tick, DefaultBpm);
    }

    method Clear()
      modifies this
      ensures Valid() && changes == []
    {
      changes := [];
    }

    method SetConstantTempo(bpm: real)
      modifies this
      ensures Valid() && changes == [Change(0, bpm)]
    {
      changes := [Change(0, bpm)];
    }

    /** std::sort by tick. */
    method SortChanges()
      modifies this
      ensures SortedBy(changes, AtTick)
      ensures multiset(changes) == multiset(old(changes))
    {
      changes := SortByKey(changes, AtTick);
    }
  }
}

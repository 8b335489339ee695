/**
 * The scheduler object (src/engine/Scheduler.{hpp,cpp}): it holds either a
 * project (timeline mode) or a single pattern (loop mode) and turns a tick
 * window [startTick, endTick) into compiled events sorted by tick.  Each
 * query method follows the loops of the source and is proved equal to the
 * functions of module Schedule, whose properties are proved there.
 */
module Schedulers {
  import opened IntDiv
  import opened Sequences
  import opened Patterns
  import opened Regions
  import opened Tracks
  import opened Projects
  import opened Schedule

  /**
   * The note loop shared by every query: each note placed at base, kept when
   * its event passes the window test of the calling loop.
   */
  method PlaceNotes(base: int, notes: seq<StepNote>, keep: CompiledEvent -> bool) returns (events: seq<CompiledEvent>)
    ensures events == NoteEvents(base, notes, keep)
  {
    events := [];
    var j := 0;
    while j < |notes|
      invariant 0 <= j <= |notes|
      invariant events == NoteEvents(base, notes[..j], keep)
    {
      assert notes[..j + 1][..j] == notes[..j];
      var event := CompiledEvent(base + notes[j].offsetTick, notes[j].instrumentId, notes[j].velocity);
      if keep(event) {
        events := events + [event];
      }
      j := j + 1;
    }
    assert notes[..|notes|] == notes;
  }

  /**
   * The looping branch for a positive loop length: loopTick runs over the
   * multiples of the loop length from loopStart up to loopEnd.
   */
  method LoopIterations(notes: seq<StepNote>, loopLength: int, startTick: int, endTick: int) returns (events: seq<CompiledEvent>)
    requires loopLength > 0
    ensures events == LoopRun(notes, loopLength, Quot(startTick, loopLength), Quot(endTick + loopLength - 1, loopLength), TickIn(startTick, endTick))
  {
    var keep := TickIn(startTick, endTick);
    events := [];
    var first := Quot(startTick, loopLength);
    var last := Quot(endTick + loopLength - 1, loopLength);
    var loopEnd := last * loopLength;
    var m := first;
    var loopTick := first * loopLength;
    while loopTick < loopEnd
      invariant loopTick == m * loopLength
      invariant first <= m && (m <= last || m == first)
      invariant events == LoopRun(notes, loopLength, first, m, keep)
      decreases loopEnd - loopTick
    {
      var more := PlaceNotes(loopTick, notes, keep);
      MulOrder(m, last, loopLength);
      assert loopTick == RepeatStart(0, loopLength, m);
      LoopRunNext(notes, loopLength, first, m, keep);
      events := events + more;
      assert (m + 1) * loopLength == m * loopLength + loopLength;
      m := m + 1;
      loopTick := loopTick + loopLength;
    }
    MulOrder(m, last, loopLength);
    assert events == LoopRun(notes, loopLength, first, last, keep);
  }

  class Scheduler {
    var project: Project?
    var pattern: Pattern?
    var loopLengthTicks: int
    var looping: bool

    /** The two modes exclude each other. */
    predicate OneMode()
      reads this
    {
      project == null || pattern == null
    }

    constructor ()
      ensures project == null && pattern == null && loopLengthTicks == 0 && looping
      ensures OneMode()
    {
      project := null;
      pattern := null;
      loopLengthTicks := 0;
      looping := true;
    }

    /** Timeline mode: the legacy pattern is dropped. */
    method SetProject(p: Project?)
      modifies this
      ensures project == p && pattern == null && OneMode()
      ensures loopLengthTicks == old(loopLengthTicks) && looping == old(looping)
    {
      project := p;
      pattern := null;
    }

    /**
     * Loop mode: the project is dropped, and a loop length still unset (0)
     * is taken from the pattern.
     */
    method SetPattern(p: Pattern?)
      modifies this
      ensures pattern == p && project == null && OneMode()
      ensures loopLengthTicks == (if p != null && old(loopLengthTicks) == 0 then p.lengthTicks else old(loopLengthTicks))
      ensures looping == old(looping)
    {
      pattern := p;
      project := null;
      if pattern != null && loopLengthTicks == 0 {
        loopLengthTicks := pattern.lengthTicks;
      }
    }

    method SetLoopLength(ticks: int)
      modifies this
      ensures loopLengthTicks == ticks
      ensures project == old(project) && pattern == old(pattern) && looping == old(looping)
    {
      loopLengthTicks := ticks;
    }

    method SetLooping(enabled: bool)
      modifies this
      ensures looping == enabled
      ensures project == old(project) && pattern == old(pattern) && loopLengthTicks == old(loopLengthTicks)
    {
      looping := enabled;
    }

    /** Neither mode; the loop settings stay. */
    method Clear()
      modifies this
      ensures project == null && pattern == null && OneMode()
      ensures loopLengthTicks == old(loopLengthTicks) && looping == old(looping)
    {
      pattern := null;
      project := null;
    }

    /** The events of one region: the repetition loop around the note loop. */
    method GetEventsFromRegion(region: Region, p: Pattern, startTick: int, endTick: int) returns (events: seq<CompiledEvent>)
      ensures events == RegionEvents(region, p.lengthTicks, p.notes, startTick, endTick)
    {
      events := [];
      var regionStart := region.startTick;
      var regionEnd := regionStart + region.lengthTicks;
      if regionEnd <= startTick || regionStart >= endTick {
        return;
      }
      var patternLength := p.lengthTicks;
      if patternLength == 0 {
        return;
      }
      var notes := p.notes;
      var keep := EventIn(startTick, endTick, regionStart, regionEnd);
      var numRepeats := Quot(region.lengthTicks + patternLength - 1, patternLength);
      var rep := 0;
      while rep < numRepeats
        invariant 0 <= rep
        invariant rep <= numRepeats || rep == 0
        invariant events == RegionRepeats(regionStart, regionEnd, patternLength, notes, startTick, endTick, rep)
      {
        var repeatStart := regionStart + rep * patternLength;
        var more := RepetitionEvents(repeatStart, patternLength, notes, startTick, endTick, keep);
        RegionRepeatsNext(regionStart, regionEnd, patternLength, notes, startTick, endTick, rep);
        events := events + more;
        rep := rep + 1;
      }
      assert rep == NumRepeats(region.lengthTicks, patternLength);
    }

    /** One pass of the repetition loop: nothing when the repetition misses the window. */
    method RepetitionEvents(repeatStart: int, patternLength: int, notes: seq<StepNote>, startTick: int, endTick: int,
                            keep: CompiledEvent -> bool) returns (more: seq<CompiledEvent>)
      ensures more == if RepeatOutside(repeatStart, patternLength, startTick, endTick) then [] else NoteEvents(repeatStart, notes, keep)
    {
      var repeatEnd := repeatStart + patternLength;
      if repeatEnd <= startTick || repeatStart >= endTick {
        return [];
      }
      more := PlaceNotes(repeatStart, notes, keep);
    }

    /**
     * The body of getEventsFromTimeline for one track: the range query, then
     * each region through its pattern, skipped when the library has none.
     */
    method GetEventsFromTrack(track: Track, startTick: int, endTick: int) returns (events: seq<CompiledEvent>)
      requires project != null
      ensures events == LaneEvents(track.regions, project.patterns.patterns, startTick, endTick)
    {
      var regions := track.GetRegionsInRange(startTick, endTick);
      var library := project.patterns.patterns;
      events := [];
      var k := 0;
      while k < |regions|
        invariant 0 <= k <= |regions|
        invariant events == TrackEvents(regions[..k], library, startTick, endTick)
      {
        var p := project.patterns.GetPattern(regions[k].patternId);
        if p == null {
          TrackEventsNext(regions, k, library, startTick, endTick);
          k := k + 1;
          continue;
        }
        var regionEvents := GetEventsFromRegion(regions[k], p, startTick, endTick);
        TrackEventsNext(regions, k, library, startTick, endTick);
        events := events + regionEvents;
        k := k + 1;
      }
      assert regions[..|regions|] == regions;
    }

    /** The track loop of getEventsFromTimeline, before the sort. */
    method CollectTimeline(startTick: int, endTick: int) returns (all: seq<CompiledEvent>)
      requires project != null
      ensures all == TimelineEvents(RegionsOf(project.tracks), project.patterns.patterns, startTick, endTick)
    {
      var tracks := project.tracks;
      var library := project.patterns.patterns;
      ghost var lanes := RegionsOf(tracks);
      all := [];
      var i := 0;
      while i < |tracks|
        invariant 0 <= i <= |tracks|
        invariant all == TimelineEvents(lanes[..i], library, startTick, endTick)
      {
        var fromTrack := GetEventsFromTrack(tracks[i], startTick, endTick);
        TimelineEventsNext(lanes, i, library, startTick, endTick);
        all := all + fromTrack;
        i := i + 1;
      }
      assert lanes[..|tracks|] == lanes;
    }

    /**
     * Timeline mode: every track's regions meeting the window, each through
     * its pattern if the library has one, then sorted by tick.
     */
    method GetEventsFromTimeline(startTick: int, endTick: int) returns (events: seq<CompiledEvent>)
      requires project != null
      ensures SortedBy(events, TickOf)
      ensures multiset(events) == multiset(TimelineEvents(RegionsOf(project.tracks), project.patterns.patterns, startTick, endTick))
    {
      var all := CollectTimeline(startTick, endTick);
      ghost var collected := all;
      events := SortByKey(all, TickOf);
      assert multiset(events) == multiset(collected);
    }

    /**
     * Loop mode: nothing without a pattern, notes or loop length; otherwise
     * the loop iterations meeting the window (or the notes once when not
     * looping), sorted by tick.
     */
    method GetEventsFromSinglePattern(startTick: int, endTick: int) returns (events: seq<CompiledEvent>)
      requires pattern != null ==> LoopHalts(pattern.notes, loopLengthTicks, looping, startTick, endTick)
      ensures pattern == null ==> events == []
      ensures pattern != null ==> SortedBy(events, TickOf)
      ensures pattern != null ==>
        multiset(events) == multiset(SinglePatternEvents(pattern.notes, loopLengthTicks, looping, startTick, endTick))
    {
      events := [];
      if pattern == null || pattern.notes == [] {
        return;
      }
      var loopLength := loopLengthTicks;
      if loopLength == 0 {
        return;
      }
      var notes := pattern.notes;
      var keep := TickIn(startTick, endTick);
      if looping {
        if loopLength > 0 {
          events := LoopIterations(notes, loopLength, startTick, endTick);
          assert events == SinglePatternEvents(notes, loopLength, looping, startTick, endTick);
        } else {
          // A negative length reaches here only with loopStart >= loopEnd, where the loop does not run.
          assert events == SinglePatternEvents(notes, loopLength, looping, startTick, endTick);
        }
      } else {
        events := PlaceNotes(0, notes, keep);
        assert events == SinglePatternEvents(notes, loopLength, looping, startTick, endTick);
      }
      events := SortByKey(events, TickOf);
    }

    /** The mode the scheduler is in decides where events come from. */
    method GetEventsInRange(startTick: int, endTick: int) returns (events: seq<CompiledEvent>)
      requires project == null && pattern != null ==> LoopHalts(pattern.notes, loopLengthTicks, looping, startTick, endTick)
      ensures SortedBy(events, TickOf)
      ensures project != null ==>
        multiset(events) == multiset(TimelineEvents(RegionsOf(project.tracks), project.patterns.patterns, startTick, endTick))
      ensures project == null && pattern != null ==>
        multiset(events) == multiset(SinglePatternEvents(pattern.notes, loopLengthTicks, looping, startTick, endTick))
      ensures project == null && pattern == null ==> events == []
    {
      if project != null {
        events := GetEventsFromTimeline(startTick, endTick);
        return;
      }
      if pattern != null {
        events := GetEventsFromSinglePattern(startTick, endTick);
        return;
      }
      events := [];
    }
  }
}

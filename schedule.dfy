/**
 * What the scheduler emits for a half-open tick window [s, e), as pure
 * functions (src/engine/Scheduler.cpp).  The functions follow the loops of
 * the source step by step; the reference definitions (Candidates, the
 * windowed filters) describe the same events without the loops, and the lemmas
 * connect the two.
 */
module Schedule {
  import opened IntDiv
  import opened Sequences
  import opened Patterns
  import opened Regions
  import opened Tracks

  /** An event ready for the sampler; events compare by tick only. */
  datatype CompiledEvent = CompiledEvent(tick: int, instrumentId: int, velocity: real)

  function TickOf(ev: CompiledEvent): int { ev.tick }

  /** The event a note produces when its pattern starts at base. */
  function NoteEvent(base: int, n: StepNote): CompiledEvent
  {
    CompiledEvent(base + n.offsetTick, n.instrumentId, n.velocity)
  }

  /** The event filter of the single-pattern loops: the tick lies in [s, e). */
  function TickIn(s: int, e: int): CompiledEvent -> bool
  {
    (ev: CompiledEvent) => s <= ev.tick < e
  }

  /** The event filter of getEventsFromRegion: in the window and in the region. */
  function EventIn(s: int, e: int, rs: int, re: int): CompiledEvent -> bool
  {
    (ev: CompiledEvent) => s <= ev.tick < e && rs <= ev.tick < re
  }

  /** Offsets lie inside the pattern, the premise of the completeness results. */
  ghost predicate OffsetsWithin(notes: seq<StepNote>, patternLength: int)
  {
    forall j :: 0 <= j < |notes| ==> 0 <= notes[j].offsetTick < patternLength
  }

  /** The inner note loop: the events of notes placed at base that pass keep, in note order. */
  function NoteEvents(base: int, notes: seq<StepNote>, keep: CompiledEvent -> bool): (r: seq<CompiledEvent>)
    ensures |r| <= |notes|
    ensures forall i :: 0 <= i < |r| ==> keep(r[i])
  {
    if notes == [] then []
    else
      var ev := NoteEvent(base, notes[|notes| - 1]);
      NoteEvents(base, notes[..|notes| - 1], keep) + (if keep(ev) then [ev] else [])
  }

  // ---------------------------------------------------------------------------
  // Reference definitions
  // ---------------------------------------------------------------------------

  /** Where repetition rep of the pattern begins. */
  function RepeatStart(origin: int, patternLength: int, rep: int): int
  {
    origin + rep * patternLength
  }

  /** Every note of the pattern placed at base, in note order. */
  function Shifted(base: int, notes: seq<StepNote>): seq<CompiledEvent>
  {
    seq(|notes|, j requires 0 <= j < |notes| => NoteEvent(base, notes[j]))
  }

  /** Every (repetition, note) pair for repetitions 0 .. k-1, repetition-major. */
  function Candidates(origin: int, patternLength: int, notes: seq<StepNote>, k: nat): seq<CompiledEvent>
  {
    if k == 0 then []
    else Candidates(origin, patternLength, notes, k - 1) + Shifted(RepeatStart(origin, patternLength, k - 1), notes)
  }

  lemma {:induction false} CandidatesLength(origin: int, patternLength: int, notes: seq<StepNote>, k: nat)
    ensures |Candidates(origin, patternLength, notes, k)| == k * |notes|
  {
    if k > 0 {
      CandidatesLength(origin, patternLength, notes, k - 1);
      assert (k - 1) * |notes| + |notes| == k * |notes|;
    }
  }

  /** Position rep * |notes| + j of the candidate list holds note j of repetition rep. */
  lemma {:induction false} CandidateAt(origin: int, patternLength: int, notes: seq<StepNote>, k: nat, rep: int, j: int)
    requires 0 <= rep < k && 0 <= j < |notes|
    ensures 0 <= rep * |notes| + j < |Candidates(origin, patternLength, notes, k)|
    ensures Candidates(origin, patternLength, notes, k)[rep * |notes| + j] == NoteEvent(RepeatStart(origin, patternLength, rep), notes[j])
  {
    var n := |notes|;
    var idx := rep * n + j;
    var prev := Candidates(origin, patternLength, notes, k - 1);
    var last := Shifted(RepeatStart(origin, patternLength, k - 1), notes);
    CandidatesLength(origin, patternLength, notes, k - 1);
    assert Candidates(origin, patternLength, notes, k) == prev + last;
    assert 0 <= idx by {
      MulMonotone(0, rep, n);
    }
    if rep < k - 1 {
      CandidateAt(origin, patternLength, notes, k - 1, rep, j);
      assert (prev + last)[idx] == prev[idx];
    } else {
      assert idx == |prev| + j;
      assert (prev + last)[idx] == last[j];
    }
  }

  /** The candidate list enumerates each (repetition, note) pair exactly once. */
  lemma CandidatesEnumerate(origin: int, patternLength: int, notes: seq<StepNote>, k: nat)
    ensures |Candidates(origin, patternLength, notes, k)| == k * |notes|
    ensures forall rep, j :: 0 <= rep < k && 0 <= j < |notes| ==>
      Candidates(origin, patternLength, notes, k)[rep * |notes| + j] == NoteEvent(RepeatStart(origin, patternLength, rep), notes[j])
  {
    CandidatesLength(origin, patternLength, notes, k);
    forall rep, j | 0 <= rep < k && 0 <= j < |notes|
      ensures 0 <= rep * |notes| + j < |Candidates(origin, patternLength, notes, k)|
      ensures Candidates(origin, patternLength, notes, k)[rep * |notes| + j] == NoteEvent(RepeatStart(origin, patternLength, rep), notes[j])
    {
      CandidateAt(origin, patternLength, notes, k, rep, j);
    }
  }

  /** Candidates of notes within the pattern start at the origin and end before k repetitions. */
  lemma {:induction false} CandidatesBounds(origin: int, patternLength: int, notes: seq<StepNote>, k: nat)
    requires patternLength > 0 && OffsetsWithin(notes, patternLength)
    ensures forall ev :: ev in Candidates(origin, patternLength, notes, k) ==>
      origin <= ev.tick < RepeatStart(origin, patternLength, k)
  {
    if k > 0 {
      CandidatesBounds(origin, patternLength, notes, k - 1);
      var base := RepeatStart(origin, patternLength, k - 1);
      assert base + patternLength == RepeatStart(origin, patternLength, k);
      assert origin <= base by {
        assert (k - 1) * patternLength >= 0;
      }
      forall ev | ev in Shifted(base, notes)
        ensures origin <= ev.tick < RepeatStart(origin, patternLength, k)
      {
        var j :| 0 <= j < |notes| && Shifted(base, notes)[j] == ev;
      }
    }
  }

  /** Filtering the placed notes is the inner note loop. */
  lemma {:induction false} NoteEventsFilter(base: int, notes: seq<StepNote>, keep: CompiledEvent -> bool)
    ensures NoteEvents(base, notes, keep) == Filter(Shifted(base, notes), keep)
  {
    if notes != [] {
      var init := notes[..|notes| - 1];
      NoteEventsFilter(base, init, keep);
      var sh := Shifted(base, notes);
      assert sh[..|sh| - 1] == Shifted(base, init);
    }
  }

  /** Every event of the note loop is the event of one of the notes. */
  lemma NoteEventsSound(base: int, notes: seq<StepNote>, keep: CompiledEvent -> bool)
    ensures forall i :: 0 <= i < |NoteEvents(base, notes, keep)| ==>
      exists j :: 0 <= j < |notes| && NoteEvents(base, notes, keep)[i] == NoteEvent(base, notes[j])
  {
    var r := NoteEvents(base, notes, keep);
    var sh := Shifted(base, notes);
    NoteEventsFilter(base, notes, keep);
    forall i | 0 <= i < |r|
      ensures exists j :: 0 <= j < |notes| && r[i] == NoteEvent(base, notes[j])
    {
      var j :| 0 <= j < |sh| && sh[j] == r[i];
      assert r[i] == NoteEvent(base, notes[j]);
    }
  }

  /** A filter that rejects every element yields nothing. */
  lemma {:induction false} FilterNone<T>(xs: seq<T>, keep: T -> bool)
    requires forall i :: 0 <= i < |xs| ==> !keep(xs[i])
    ensures Filter(xs, keep) == []
  {
    if xs != [] {
      FilterNone(xs[..|xs| - 1], keep);
    }
  }

  /**
   * Two filters that split keep without overlap split the filtered multiset:
   * the basis of window additivity.
   */
  lemma {:induction false} FilterPartition<T>(xs: seq<T>, keep: T -> bool, k1: T -> bool, k2: T -> bool)
    requires forall i :: 0 <= i < |xs| ==> (keep(xs[i]) <==> k1(xs[i]) || k2(xs[i])) && !(k1(xs[i]) && k2(xs[i]))
    ensures multiset(Filter(xs, keep)) == multiset(Filter(xs, k1)) + multiset(Filter(xs, k2))
  {
    if xs != [] {
      var init := xs[..|xs| - 1];
      FilterPartition(init, keep, k1, k2);
    }
  }

  // ---------------------------------------------------------------------------
  // getEventsFromRegion
  // ---------------------------------------------------------------------------

  /** numRepeats: ceil(regionLength / patternLength) with C++ division; no repetition when not positive. */
  function NumRepeats(regionLength: int, patternLength: int): nat
    requires patternLength != 0
  {
    var q := Quot(regionLength + patternLength - 1, patternLength);
    if q > 0 then q else 0
  }

  /** The per-repetition skip test of getEventsFromRegion. */
  predicate RepeatOutside(repeatStart: int, patternLength: int, s: int, e: int)
  {
    repeatStart + patternLength <= s || repeatStart >= e
  }

  /** Events of repetitions 0 .. k-1 of a region, as the repetition loop collects them. */
  function RegionRepeats(rs: int, re: int, patternLength: int, notes: seq<StepNote>, s: int, e: int, k: nat): seq<CompiledEvent>
  {
    if k == 0 then []
    else
      var repeatStart := RepeatStart(rs, patternLength, k - 1);
      RegionRepeats(rs, re, patternLength, notes, s, e, k - 1) +
      (if RepeatOutside(repeatStart, patternLength, s, e) then [] else NoteEvents(repeatStart, notes, EventIn(s, e, rs, re)))
  }

  /** Every event of the repetition loop is in both windows and is some note of some repetition. */
  lemma {:induction false} RegionRepeatsSound(rs: int, re: int, patternLength: int, notes: seq<StepNote>, s: int, e: int, k: nat)
    ensures forall i :: 0 <= i < |RegionRepeats(rs, re, patternLength, notes, s, e, k)| ==>
      s <= RegionRepeats(rs, re, patternLength, notes, s, e, k)[i].tick < e &&
      rs <= RegionRepeats(rs, re, patternLength, notes, s, e, k)[i].tick < re
    ensures forall i :: 0 <= i < |RegionRepeats(rs, re, patternLength, notes, s, e, k)| ==>
      exists rep, j :: (0 <= rep < k && 0 <= j < |notes| &&
        RegionRepeats(rs, re, patternLength, notes, s, e, k)[i] == NoteEvent(RepeatStart(rs, patternLength, rep), notes[j]))
  {
    if k > 0 {
      RegionRepeatsSound(rs, re, patternLength, notes, s, e, k - 1);
      var prev := RegionRepeats(rs, re, patternLength, notes, s, e, k - 1);
      var repeatStart := RepeatStart(rs, patternLength, k - 1);
      var more := if RepeatOutside(repeatStart, patternLength, s, e) then [] else NoteEvents(repeatStart, notes, EventIn(s, e, rs, re));
      var r := prev + more;
      assert r == RegionRepeats(rs, re, patternLength, notes, s, e, k);
      NoteEventsSound(repeatStart, notes, EventIn(s, e, rs, re));
      forall i | 0 <= i < |r|
        ensures s <= r[i].tick < e && rs <= r[i].tick < re
        ensures exists rep, j :: 0 <= rep < k && 0 <= j < |notes| && r[i] == NoteEvent(RepeatStart(rs, patternLength, rep), notes[j])
      {
        if i < |prev| {
          assert r[i] == prev[i];
          var rep, j :| 0 <= rep < k - 1 && 0 <= j < |notes| && prev[i] == NoteEvent(RepeatStart(rs, patternLength, rep), notes[j]);
          assert r[i] == NoteEvent(RepeatStart(rs, patternLength, rep), notes[j]);
        } else {
          var m := i - |prev|;
          assert r[i] == more[m];
          var j :| 0 <= j < |notes| && more[m] == NoteEvent(repeatStart, notes[j]);
          assert EventIn(s, e, rs, re)(more[m]);
          assert r[i] == NoteEvent(RepeatStart(rs, patternLength, k - 1), notes[j]);
        }
      }
    } else {
      assert RegionRepeats(rs, re, patternLength, notes, s, e, k) == [];
    }
  }

  /** One more repetition appends its events, unless the skip test drops it. */
  lemma RegionRepeatsNext(rs: int, re: int, patternLength: int, notes: seq<StepNote>, s: int, e: int, k: nat)
    ensures RegionRepeats(rs, re, patternLength, notes, s, e, k + 1) ==
      RegionRepeats(rs, re, patternLength, notes, s, e, k) +
      (if RepeatOutside(RepeatStart(rs, patternLength, k), patternLength, s, e) then []
       else NoteEvents(RepeatStart(rs, patternLength, k), notes, EventIn(s, e, rs, re)))
  {
  }

  /**
   * getEventsFromRegion: nothing unless the region and the window meet and the
   * pattern has a length; otherwise the repetitions' events inside both the
   * window and the region.
   */
  function RegionEvents(region: Region, patternLength: int, notes: seq<StepNote>, s: int, e: int): seq<CompiledEvent>
  {
    var rs := region.startTick;
    var re := rs + region.lengthTicks;
    if re <= s || rs >= e then []
    else if patternLength == 0 then []
    else RegionRepeats(rs, re, patternLength, notes, s, e, NumRepeats(region.lengthTicks, patternLength))
  }

  /** Every event of getEventsFromRegion lies in the window and in the region. */
  lemma RegionEventsInWindow(region: Region, patternLength: int, notes: seq<StepNote>, s: int, e: int)
    ensures forall i :: 0 <= i < |RegionEvents(region, patternLength, notes, s, e)| ==>
      s <= RegionEvents(region, patternLength, notes, s, e)[i].tick < e &&
      region.Contains(RegionEvents(region, patternLength, notes, s, e)[i].tick)
  {
    if patternLength != 0 {
      RegionRepeatsSound(region.startTick, region.startTick + region.lengthTicks, patternLength, notes, s, e,
                         NumRepeats(region.lengthTicks, patternLength));
    }
  }

  /** Soundness: every event is some note of some repetition of the pattern. */
  lemma RegionEventsSound(region: Region, patternLength: int, notes: seq<StepNote>, s: int, e: int, ev: CompiledEvent)
    requires ev in RegionEvents(region, patternLength, notes, s, e)
    ensures patternLength != 0
    ensures exists rep, j :: (0 <= rep < NumRepeats(region.lengthTicks, patternLength) && 0 <= j < |notes| &&
      ev == NoteEvent(RepeatStart(region.startTick, patternLength, rep), notes[j]))
  {
    var r := RegionEvents(region, patternLength, notes, s, e);
    var i :| 0 <= i < |r| && r[i] == ev;
    RegionRepeatsSound(region.startTick, region.startTick + region.lengthTicks, patternLength, notes, s, e,
                       NumRepeats(region.lengthTicks, patternLength));
  }

  /** The repetition loop is the windowed filter of the candidates. */
  lemma {:induction false} RegionRepeatsExact(rs: int, re: int, patternLength: int, notes: seq<StepNote>, s: int, e: int, k: nat)
    requires patternLength > 0 && OffsetsWithin(notes, patternLength)
    ensures RegionRepeats(rs, re, patternLength, notes, s, e, k) == Filter(Candidates(rs, patternLength, notes, k), EventIn(s, e, rs, re))
  {
    if k > 0 {
      RegionRepeatsExact(rs, re, patternLength, notes, s, e, k - 1);
      var keep := EventIn(s, e, rs, re);
      var base := RepeatStart(rs, patternLength, k - 1);
      FilterAppend(Candidates(rs, patternLength, notes, k - 1), Shifted(base, notes), keep);
      NoteEventsFilter(base, notes, keep);
      if RepeatOutside(base, patternLength, s, e) {
        var sh := Shifted(base, notes);
        forall i | 0 <= i < |sh|
          ensures !keep(sh[i])
        {
          assert sh[i] == NoteEvent(base, notes[i]);
        }
        FilterNone(sh, keep);
      }
    }
  }

  /**
   * Completeness and exactness: with notes inside the pattern, a region emits
   * exactly the candidates lying in both the window and the region, each once
   * and in repetition-then-note order.
   */
  lemma RegionEventsExact(region: Region, patternLength: int, notes: seq<StepNote>, s: int, e: int)
    requires patternLength > 0 && OffsetsWithin(notes, patternLength)
    ensures RegionEvents(region, patternLength, notes, s, e) ==
      Filter(Candidates(region.startTick, patternLength, notes, NumRepeats(region.lengthTicks, patternLength)),
             EventIn(s, e, region.startTick, region.EndTick()))
  {
    var rs := region.startTick;
    var re := region.EndTick();
    var n := NumRepeats(region.lengthTicks, patternLength);
    if re <= s || rs >= e {
      DisjointWindowSilent(Candidates(rs, patternLength, notes, n), s, e, rs, re);
    } else {
      RegionRepeatsExact(rs, re, patternLength, notes, s, e, n);
    }
  }

  /** A window that misses the region lets no event through. */
  lemma DisjointWindowSilent(c: seq<CompiledEvent>, s: int, e: int, rs: int, re: int)
    requires re <= s || rs >= e
    ensures Filter(c, EventIn(s, e, rs, re)) == []
  {
    forall i | 0 <= i < |c|
      ensures !EventIn(s, e, rs, re)(c[i])
    {
    }
    FilterNone(c, EventIn(s, e, rs, re));
  }

  /**
   * Half-open windows: for a <= b <= c the events of [a, b) and [b, c) of a
   * region make up the events of [a, c), and no tick is in both.
   */
  lemma RegionWindowsAdd(region: Region, patternLength: int, notes: seq<StepNote>, a: int, b: int, c: int)
    requires patternLength > 0 && OffsetsWithin(notes, patternLength)
    requires a <= b <= c
    ensures multiset(RegionEvents(region, patternLength, notes, a, c)) ==
      multiset(RegionEvents(region, patternLength, notes, a, b)) + multiset(RegionEvents(region, patternLength, notes, b, c))
    ensures forall x, y :: x in RegionEvents(region, patternLength, notes, a, b) && y in RegionEvents(region, patternLength, notes, b, c) ==>
      x.tick < y.tick
  {
    var rs := region.startTick;
    var re := region.EndTick();
    var cands := Candidates(rs, patternLength, notes, NumRepeats(region.lengthTicks, patternLength));
    RegionEventsExact(region, patternLength, notes, a, c);
    RegionEventsExact(region, patternLength, notes, a, b);
    RegionEventsExact(region, patternLength, notes, b, c);
    FilterPartition(cands, EventIn(a, c, rs, re), EventIn(a, b, rs, re), EventIn(b, c, rs, re));
  }

  // ---------------------------------------------------------------------------
  // getEventsFromTimeline
  // ---------------------------------------------------------------------------

  /**
   * The inner loop over a track's regions: a region whose pattern id is not in
   * the library contributes nothing.
   */
  function TrackEvents(regions: seq<Region>, library: seq<Pattern>, s: int, e: int): (r: seq<CompiledEvent>)
    reads library
    ensures forall i :: 0 <= i < |r| ==> s <= r[i].tick < e
  {
    if regions == [] then []
    else
      var region := regions[|regions| - 1];
      var pattern := Find(library, region.patternId);
      TrackEvents(regions[..|regions| - 1], library, s, e)
        + (if pattern == null then [] else
             RegionEventsInWindow(region, pattern.lengthTicks, pattern.notes, s, e);
             RegionEvents(region, pattern.lengthTicks, pattern.notes, s, e))
  }

  /** One track's share: the regions of the range query, each through its pattern. */
  function LaneEvents(regions: seq<Region>, library: seq<Pattern>, s: int, e: int): (r: seq<CompiledEvent>)
    reads library
    ensures forall i :: 0 <= i < |r| ==> s <= r[i].tick < e
  {
    TrackEvents(Filter(regions, IntersectsWindow(s, e)), library, s, e)
  }

  /** The region lists of the tracks, in track order. */
  function RegionsOf(tracks: seq<Track>): (r: seq<seq<Region>>)
    reads tracks
    ensures |r| == |tracks| && forall k :: 0 <= k < |tracks| ==> r[k] == tracks[k].regions
  {
    seq(|tracks|, k requires 0 <= k < |tracks| reads tracks => tracks[k].regions)
  }

  /**
   * getEventsFromTimeline before the sort, over the tracks' region lists:
   * each track's regions in the window, in track order.
   */
  function TimelineEvents(lanes: seq<seq<Region>>, library: seq<Pattern>, s: int, e: int): (r: seq<CompiledEvent>)
    reads library
    ensures forall i :: 0 <= i < |r| ==> s <= r[i].tick < e
  {
    if lanes == [] then []
    else TimelineEvents(lanes[..|lanes| - 1], library, s, e) + LaneEvents(lanes[|lanes| - 1], library, s, e)
  }

  /** One more region appends its events, or nothing when its pattern is missing. */
  lemma TrackEventsNext(regions: seq<Region>, k: nat, library: seq<Pattern>, s: int, e: int)
    requires k < |regions|
    ensures TrackEvents(regions[..k + 1], library, s, e) ==
      TrackEvents(regions[..k], library, s, e) +
      (var p := Find(library, regions[k].patternId);
       if p == null then [] else RegionEvents(regions[k], p.lengthTicks, p.notes, s, e))
  {
    assert regions[..k + 1][..k] == regions[..k];
  }

  /** One more track appends the events of its regions meeting the window. */
  lemma TimelineEventsNext(lanes: seq<seq<Region>>, i: nat, library: seq<Pattern>, s: int, e: int)
    requires i < |lanes|
    ensures TimelineEvents(lanes[..i + 1], library, s, e) ==
      TimelineEvents(lanes[..i], library, s, e) + LaneEvents(lanes[i], library, s, e)
  {
    assert lanes[..i + 1][..i] == lanes[..i];
  }

  /** Every pattern of the library has a positive length and its notes inside it. */
  ghost predicate WellFormedLibrary(library: seq<Pattern>)
    reads library
  {
    forall k :: 0 <= k < |library| ==> library[k].lengthTicks > 0 && OffsetsWithin(library[k].notes, library[k].lengthTicks)
  }

  /** The range query in front of the region loop removes only regions that emit nothing. */
  lemma {:induction false} RangeQueryLosesNothing(regions: seq<Region>, library: seq<Pattern>, s: int, e: int)
    ensures TrackEvents(Filter(regions, IntersectsWindow(s, e)), library, s, e) == TrackEvents(regions, library, s, e)
  {
    if regions != [] {
      var init := regions[..|regions| - 1];
      var last := regions[|regions| - 1];
      RangeQueryLosesNothing(init, library, s, e);
      if IntersectsWindow(s, e)(last) {
        var f := Filter(init, IntersectsWindow(s, e)) + [last];
        assert f[..|f| - 1] == Filter(init, IntersectsWindow(s, e));
      }
    }
  }

  /** Window additivity for one track. */
  lemma {:induction false} TrackWindowsAdd(regions: seq<Region>, library: seq<Pattern>, a: int, b: int, c: int)
    requires WellFormedLibrary(library)
    requires a <= b <= c
    ensures multiset(TrackEvents(regions, library, a, c)) ==
      multiset(TrackEvents(regions, library, a, b)) + multiset(TrackEvents(regions, library, b, c))
  {
    if regions != [] {
      var init := regions[..|regions| - 1];
      var region := regions[|regions| - 1];
      TrackWindowsAdd(init, library, a, b, c);
      var pattern := Find(library, region.patternId);
      if pattern != null {
        var k :| 0 <= k < |library| && library[k] == pattern;
        RegionWindowsAdd(region, pattern.lengthTicks, pattern.notes, a, b, c);
      }
    }
  }

  /**
   * Window additivity for the whole timeline: splitting [a, c) at b splits the
   * emitted multiset, for a library whose notes lie inside their patterns.
   */
  lemma {:induction false} TimelineWindowsAdd(lanes: seq<seq<Region>>, library: seq<Pattern>, a: int, b: int, c: int)
    requires WellFormedLibrary(library)
    requires a <= b <= c
    ensures multiset(TimelineEvents(lanes, library, a, c)) ==
      multiset(TimelineEvents(lanes, library, a, b)) + multiset(TimelineEvents(lanes, library, b, c))
  {
    if lanes != [] {
      var init := lanes[..|lanes| - 1];
      var regions := lanes[|lanes| - 1];
      TimelineWindowsAdd(init, library, a, b, c);
      RangeQueryLosesNothing(regions, library, a, c);
      RangeQueryLosesNothing(regions, library, a, b);
      RangeQueryLosesNothing(regions, library, b, c);
      TrackWindowsAdd(regions, library, a, b, c);
    }
  }

  // ---------------------------------------------------------------------------
  // getEventsFromSinglePattern
  // ---------------------------------------------------------------------------

  /**
   * Loop iterations first .. last-1; iteration m places the pattern at
   * m * loopLength and keeps the events that pass keep.
   */
  function LoopRun(notes: seq<StepNote>, loopLength: int, first: int, last: int, keep: CompiledEvent -> bool): (r: seq<CompiledEvent>)
    ensures forall i :: 0 <= i < |r| ==> keep(r[i])
    decreases last - first
  {
    if last <= first then []
    else LoopRun(notes, loopLength, first, last - 1, keep) + NoteEvents(RepeatStart(0, loopLength, last - 1), notes, keep)
  }

  /** One more loop iteration appends its notes that pass keep. */
  lemma LoopRunNext(notes: seq<StepNote>, loopLength: int, first: int, m: int, keep: CompiledEvent -> bool)
    requires first <= m
    ensures LoopRun(notes, loopLength, first, m + 1, keep) ==
      LoopRun(notes, loopLength, first, m, keep) + NoteEvents(RepeatStart(0, loopLength, m), notes, keep)
  {
  }

  /**
   * The looping branch of getEventsFromSinglePattern steps loopTick by the
   * loop length from loopStart while it stays below loopEnd; with a negative
   * length and loopStart below loopEnd that loop never ends, so callers must
   * rule it out.
   */
  predicate LoopHalts(notes: seq<StepNote>, loopLength: int, looping: bool, s: int, e: int)
  {
    notes != [] && looping && loopLength < 0 ==>
      Quot(s, loopLength) * loopLength >= Quot(e + loopLength - 1, loopLength) * loopLength
  }

  /** getEventsFromSinglePattern before the sort. */
  function SinglePatternEvents(notes: seq<StepNote>, loopLength: int, looping: bool, s: int, e: int): (r: seq<CompiledEvent>)
    requires LoopHalts(notes, loopLength, looping, s, e)
    ensures forall i :: 0 <= i < |r| ==> s <= r[i].tick < e
  {
    if notes == [] || loopLength == 0 then []
    else if looping then
      if loopLength < 0 then []
      else LoopRun(notes, loopLength, Quot(s, loopLength), Quot(e + loopLength - 1, loopLength), TickIn(s, e))
    else NoteEvents(0, notes, TickIn(s, e))
  }

  /** When the first iterations contribute nothing, the run from first is the filtered candidates. */
  lemma {:induction false} LoopRunExact(notes: seq<StepNote>, loopLength: int, first: nat, last: nat, keep: CompiledEvent -> bool)
    requires first <= last
    requires Filter(Candidates(0, loopLength, notes, first), keep) == []
    ensures LoopRun(notes, loopLength, first, last, keep) == Filter(Candidates(0, loopLength, notes, last), keep)
    decreases last - first
  {
    if first < last {
      var k: nat := last - 1;
      var prev := Filter(Candidates(0, loopLength, notes, k), keep);
      var more := NoteEvents(RepeatStart(0, loopLength, k), notes, keep);
      assert LoopRun(notes, loopLength, first, k, keep) == prev by {
        LoopRunExact(notes, loopLength, first, k, keep);
      }
      assert Filter(Candidates(0, loopLength, notes, last), keep) == prev + more by {
        CandidatesStep(notes, loopLength, last, keep);
      }
      assert LoopRun(notes, loopLength, first, last, keep) == LoopRun(notes, loopLength, first, k, keep) + more by {
        LoopRunNext(notes, loopLength, first, k, keep);
      }
    }
  }

  /** One more loop iteration adds its filtered notes at the end. */
  lemma CandidatesStep(notes: seq<StepNote>, loopLength: int, k: nat, keep: CompiledEvent -> bool)
    requires k > 0
    ensures Filter(Candidates(0, loopLength, notes, k), keep) ==
      Filter(Candidates(0, loopLength, notes, k - 1), keep) + NoteEvents(RepeatStart(0, loopLength, k - 1), notes, keep)
  {
    var base := RepeatStart(0, loopLength, k - 1);
    FilterAppend(Candidates(0, loopLength, notes, k - 1), Shifted(base, notes), keep);
    NoteEventsFilter(base, notes, keep);
  }

  /** Iterations that start before the window give it nothing. */
  lemma EarlyIterationsSilent(notes: seq<StepNote>, loopLength: int, k: nat, s: int, e: int)
    requires loopLength > 0 && OffsetsWithin(notes, loopLength)
    requires RepeatStart(0, loopLength, k) <= s
    ensures Filter(Candidates(0, loopLength, notes, k), TickIn(s, e)) == []
  {
    var c := Candidates(0, loopLength, notes, k);
    CandidatesBounds(0, loopLength, notes, k);
    forall i | 0 <= i < |c|
      ensures !TickIn(s, e)(c[i])
    {
      assert c[i] in c;
    }
    FilterNone(c, TickIn(s, e));
  }

  /** The number of iterations from 0 that a looping pattern needs to cover [s, e). */
  function LoopsUpTo(loopLength: int, e: int): nat
    requires loopLength > 0
  {
    var q := Quot(e + loopLength - 1, loopLength);
    if q > 0 then q else 0
  }

  /** No iteration from LoopsUpTo on reaches into the window. */
  lemma LaterIterationsSilent(notes: seq<StepNote>, loopLength: int, k: nat, n: StepNote, e: int)
    requires loopLength > 0 && 0 <= n.offsetTick
    requires k >= LoopsUpTo(loopLength, e)
    ensures NoteEvent(RepeatStart(0, loopLength, k), n).tick >= e
  {
    var q := Quot(e + loopLength - 1, loopLength);
    if e > 0 {
      QuotIsDiv(e + loopLength - 1, loopLength);
      assert e + loopLength - 1 < (q + 1) * loopLength;
      assert k * loopLength >= q * loopLength;
    } else {
      assert k * loopLength >= 0;
    }
  }

  /**
   * Looping mode: with s >= 0 and notes inside the loop, the emitted events are
   * exactly the iterations k >= 0 (each note at k * L + offset) that fall in
   * [s, e); LaterIterationsSilent shows that no later iteration is missed.
   */
  lemma LoopingExact(notes: seq<StepNote>, loopLength: int, s: int, e: int)
    requires loopLength > 0 && OffsetsWithin(notes, loopLength)
    requires 0 <= s
    ensures SinglePatternEvents(notes, loopLength, true, s, e) ==
      Filter(Candidates(0, loopLength, notes, LoopsUpTo(loopLength, e)), TickIn(s, e))
  {
    var qs := Quot(s, loopLength);
    var qe := Quot(e + loopLength - 1, loopLength);
    var n := LoopsUpTo(loopLength, e);
    QuotIsDiv(s, loopLength);
    assert 0 <= qs && qs * loopLength <= s;
    if notes == [] {
      CandidatesLength(0, loopLength, notes, n);
      FilterNone(Candidates(0, loopLength, notes, n), TickIn(s, e));
    } else if qe > qs {
      EarlyIterationsSilent(notes, loopLength, qs, s, e);
      LoopRunExact(notes, loopLength, qs, qe, TickIn(s, e));
    } else {
      assert n <= qs;
      MulMonotone(n, qs, loopLength);
      EarlyIterationsSilent(notes, loopLength, n, s, e);
    }
  }

  /**
   * Why LoopingExact asks for s >= 0: C++ division truncates toward zero, so
   * for a negative s the loop starts one iteration late.  A note at offset 3 of
   * a 4-tick loop sounds at -5 in iteration -2, inside [-5, 0), yet only the
   * event of iteration -1 is emitted.
   */
  lemma NegativeWindowStartsLate()
    ensures SinglePatternEvents([StepNote(1, 3, 1.0, 1.0)], 4, true, -5, 0) == [CompiledEvent(-1, 1, 1.0)]
    ensures TickIn(-5, 0)(NoteEvent(RepeatStart(0, 4, -2), StepNote(1, 3, 1.0, 1.0)))
  {
    var notes := [StepNote(1, 3, 1.0, 1.0)];
    assert Quot(-5, 4) == -1;
    assert Quot(3, 4) == 0;
    assert notes[..0] == [];
    assert NoteEvents(RepeatStart(0, 4, -1), notes, TickIn(-5, 0)) == [CompiledEvent(-1, 1, 1.0)];
    assert LoopRun(notes, 4, -1, -1, TickIn(-5, 0)) == [];
  }

  /** One-shot mode: the notes at their own offsets that fall in the window. */
  lemma OneShotExact(notes: seq<StepNote>, loopLength: int, s: int, e: int)
    requires loopLength != 0
    ensures SinglePatternEvents(notes, loopLength, false, s, e) == Filter(Shifted(0, notes), TickIn(s, e))
  {
    NoteEventsFilter(0, notes, TickIn(s, e));
    if notes == [] {
      assert Shifted(0, notes) == [];
    }
  }
  /** An iteration from LoopsUpTo(e) on adds nothing to a window ending at e. */
  lemma LastIterationSilent(notes: seq<StepNote>, loopLength: int, k: nat, s: int, e: int)
    requires loopLength > 0 && OffsetsWithin(notes, loopLength)
    requires LoopsUpTo(loopLength, e) <= k
    ensures Filter(Candidates(0, loopLength, notes, k + 1), TickIn(s, e)) == Filter(Candidates(0, loopLength, notes, k), TickIn(s, e))
  {
    var base := RepeatStart(0, loopLength, k);
    var sh := Shifted(base, notes);
    forall j | 0 <= j < |sh|
      ensures !TickIn(s, e)(sh[j])
    {
      LaterIterationsSilent(notes, loopLength, k, notes[j], e);
    }
    FilterNone(sh, TickIn(s, e));
    NoteEventsFilter(base, notes, TickIn(s, e));
    CandidatesStep(notes, loopLength, k + 1, TickIn(s, e));
  }

  /** Iterations from m up to n that each add nothing leave the filtered candidates as they were after m. */
  lemma {:induction false} SilentIterations(notes: seq<StepNote>, loopLength: int, m: nat, n: nat, keep: CompiledEvent -> bool)
    requires m <= n
    requires forall k: nat :: m <= k < n ==>
      Filter(Candidates(0, loopLength, notes, k + 1), keep) == Filter(Candidates(0, loopLength, notes, k), keep)
    ensures Filter(Candidates(0, loopLength, notes, n), keep) == Filter(Candidates(0, loopLength, notes, m), keep)
    decreases n - m
  {
    if m < n {
      SilentIterations(notes, loopLength, m, n - 1, keep);
    }
  }

  /**
   * Half-open windows in loop mode: for a <= b <= c the events of [a, b) and
   * [b, c) make up the events of [a, c), and every tick of the first comes
   * before every tick of the second; looping is covered from tick 0 on.
   */
  lemma SinglePatternWindowsAdd(notes: seq<StepNote>, loopLength: int, looping: bool, a: int, b: int, c: int)
    requires loopLength != 0 && a <= b <= c
    requires looping ==> loopLength > 0 && 0 <= a && OffsetsWithin(notes, loopLength)
    ensures multiset(SinglePatternEvents(notes, loopLength, looping, a, c)) ==
      multiset(SinglePatternEvents(notes, loopLength, looping, a, b)) + multiset(SinglePatternEvents(notes, loopLength, looping, b, c))
    ensures forall x, y ::
      (x in SinglePatternEvents(notes, loopLength, looping, a, b) && y in SinglePatternEvents(notes, loopLength, looping, b, c))
      ==> x.tick < y.tick
  {
    if looping {
      var nb := LoopsUpTo(loopLength, b);
      var nc := LoopsUpTo(loopLength, c);
      var cands := Candidates(0, loopLength, notes, nc);
      assert nb <= nc by {
        if b + loopLength - 1 >= 0 {
          QuotMonotone(b + loopLength - 1, c + loopLength - 1, loopLength);
        }
      }
      LoopingExact(notes, loopLength, a, c);
      LoopingExact(notes, loopLength, a, b);
      LoopingExact(notes, loopLength, b, c);
      forall k: nat | nb <= k < nc
        ensures Filter(Candidates(0, loopLength, notes, k + 1), TickIn(a, b)) == Filter(Candidates(0, loopLength, notes, k), TickIn(a, b))
      {
        LastIterationSilent(notes, loopLength, k, a, b);
      }
      SilentIterations(notes, loopLength, nb, nc, TickIn(a, b));
      FilterPartition(cands, TickIn(a, c), TickIn(a, b), TickIn(b, c));
    } else {
      OneShotExact(notes, loopLength, a, c);
      OneShotExact(notes, loopLength, a, b);
      OneShotExact(notes, loopLength, b, c);
      FilterPartition(Shifted(0, notes), TickIn(a, c), TickIn(a, b), TickIn(b, c));
    }
  }
}

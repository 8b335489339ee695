# beater drum machine core, modelled in Dafny

This project models the sequential core of the beater drum machine. It covers:

- the musical-time domain: integer tick arithmetic at 960 pulses per quarter note, the tempo map and the meter map;
- the song data: patterns and the pattern library, regions, tracks, the instrument rack and the project that owns them;
- the engine parts that do not depend on the audio backend:
  - the scheduler, which turns a half-open tick window into compiled events sorted by tick;
  - the 64-voice sampler, which allocates voices and mixes them block by block;
  - the transport, which holds the play state and position;
  - the sample cache, which de-interleaves decoded audio.

Classes whose fields the C++ updates in place stay classes here, with `modifies` frames. Each mutating method is proved against a specification function; the properties the code promises are proved as lemmas about those functions:

- lookups return the latest change or the first match;
- sorting produces a sorted permutation;
- window additivity holds for the scheduler, in timeline mode and in loop mode;
- the lifecycle of a voice is exact;
- stereo de-interleaving loses nothing.

Some modelling choices:

- C++ `/` and `%` truncate toward zero. They are modelled as `IntDiv.Quot` and `IntDiv.Rem`.
- Every `std::sort` is modelled by `Sequences.SortByKey`. It promises only a sorted permutation, so nothing is assumed about the order of equal keys.
- `double` and `float` values become `real`. Outside the sampler's mixing they are only stored and copied.
- The tick/frame conversions of the transport round a `double`. They are function-valued parameters of the `Transport` constructor, and nothing is assumed about them.
- The file decoder is not modelled. What it reports for a file is an input of `LoadSample`.

Module layout:

| module | what it models |
|---|---|
| Options, Sequences, IntDiv | shared helpers |
| TimeTypes | `TimeUtils` |
| ChangeMaps | the change vector shared by the tempo and meter maps |
| TempoMaps, MeterMaps | the tempo map and the meter map |
| Patterns, Regions, Tracks, Instruments, Projects | the song data |
| Schedule | the scheduler's output as pure functions, with the lemmas about them |
| Schedulers | the scheduler object with its loops |
| Samplers | the sampler |
| Transports | the transport |
| SampleLibraries | the sample cache |

## Model

| member | source | states |
|---|---|---|
| TimeTypes.TicksPerBarBounds | src/domain/TimeTypes.cpp:14-19 | for a positive denominator, the bar length is numerator whole notes of 3840 ticks divided by the denominator, rounded down |
| TimeTypes.TicksPerBeatBounds | src/domain/TimeTypes.cpp:21-26 | the beat is 3840 / denominator rounded down, and positive when the denominator is at most 3840 |
| TimeTypes.RegularBar | src/domain/TimeTypes.cpp:14-26 | when the denominator divides 3840, a bar is exactly numerator beats |
| TimeTypes.TickToPosition | src/domain/TimeTypes.cpp:28-41 | for a non-negative tick, the beat lies inside the bar and the tick lies inside the beat |
| TimeTypes.TickPositionRoundTrip | src/domain/TimeTypes.cpp:28-48 | converting a tick to bar:beat:tick and back gives the tick |
| TimeTypes.PositionTickRoundTrip | src/domain/TimeTypes.cpp:28-48 | a position whose bar is at least 0, whose beat lies inside the bar and whose tick lies inside the beat converts to a tick and back unchanged |
| TimeTypes.SnapTo | src/domain/TimeTypes.cpp:50-85 | the shared rounding rule of the three snap functions; a negative tick moves to the multiple toward zero |
| TimeTypes.SnapToRounds | src/domain/TimeTypes.cpp:50-85 | for a non-negative tick the result is a multiple of the length adjacent to the tick, and it rounds down exactly when the remainder is below half the length |
| TimeTypes.SnapFixesMultiples | src/domain/TimeTypes.cpp:50-85 | for lengths of at least 2, a multiple of the length snaps to itself |
| TimeTypes.SnapIdempotent | src/domain/TimeTypes.cpp:50-85 | for lengths of at least 2, snapping twice is snapping once |
| TimeTypes.SnapNearest | src/domain/TimeTypes.cpp:50-85 | the intended rounding: a multiple of the length at most half a length away, with ties rounding up |
| TimeTypes.SnapNearestIsNearest | src/domain/TimeTypes.cpp:50-85 | no multiple of the length is nearer to the tick than SnapNearest |
| TimeTypes.SnapToIsNearestForEvenLengths | src/domain/TimeTypes.cpp:50-85 | for a non-negative tick and an even length, the source's rule is nearest rounding |
| TimeTypes.SnapToMissesNearestForOddLengths | src/domain/TimeTypes.cpp:50-85 | for every odd length, len / 2 snaps up to len although 0 is nearer |
| TimeTypes.SnapToGridOddGrid | src/domain/TimeTypes.cpp:74-85 | snapToGrid(68, 7) gives 137 where 0 is nearer |
| TimeTypes.SnapToGridUnitGrid | src/domain/TimeTypes.cpp:74-85 | on the one-tick grid of subdivision 960, every tick moves one tick later |
| TimeTypes.SnapToBarNegativeTick | src/domain/TimeTypes.cpp:50-60 | -3000 in 4/4 snaps to 0, not to the nearer -3840 |
| TimeTypes.TimeUtilsExamples | tests/test_TimeUtils.cpp:13-68 | the bar lengths, beat lengths and snap results the unit tests expect |
| IntDiv.QuotRem | src/domain/TimeTypes.cpp:28-41 | C++ truncating division: the dividend is quotient times divisor plus remainder, and for non-negative operands the quotient is the largest multiple of the divisor not above the dividend |
| IntDiv.RemBounds | src/domain/TimeTypes.cpp:28-41 | the C++ remainder is smaller than the divisor in magnitude and has the sign of the dividend |
| IntDiv.QuotUnique | src/domain/TimeTypes.cpp:28-41 | dividing q * b + r by b with 0 <= r < b recovers q and r |
| ChangeMaps.Without | src/domain/TempoMap.cpp:23-29 | erase-remove by tick: the kept changes are exactly those at other ticks |
| ChangeMaps.WithoutIncreasing | src/domain/TempoMap.cpp:23-29 | removing the changes at a tick keeps the ticks strictly increasing |
| ChangeMaps.ReplaceIncreasing | src/domain/TempoMap.cpp:15-21 | remove, push and sort keeps the ticks strictly increasing |
| ChangeMaps.ReplaceMembers | src/domain/TempoMap.cpp:15-21 | after addChange(t, v) the new change is the only one at t, and the changes at other ticks are exactly the old ones |
| ChangeMaps.Segment | src/domain/TempoMap.cpp:31-47 | the change governing a tick is at or before it, and every later change is after it |
| ChangeMaps.SegmentUnique | src/domain/MeterMap.cpp:58-98 | a change at or before t whose successor lies after t is the governing one |
| ChangeMaps.LatestValue | src/domain/TempoMap.cpp:31-47 | the lookup loop returns the value of the last change at or before the tick, the first change's value for a tick before all changes, and the fallback for an empty map |
| ChangeMaps.ReplaceThenValueAt | src/domain/TempoMap.cpp:15-47 | after addChange(t, v), the value at t is v |
| ChangeMaps.ValueAtConstantOnSegment | src/domain/TempoMap.cpp:31-47 | the value is constant between one change and the next |
| TempoMaps.TempoMap.constructor | src/domain/TempoMap.cpp:6-9 | a new map holds exactly one change, 120 BPM at tick 0 |
| TempoMaps.TempoMap.WithTempo | src/domain/TempoMap.cpp:11-13 | the map holds exactly the given tempo at tick 0 |
| TempoMaps.TempoMap.AddChange | src/domain/TempoMap.cpp:15-21 | the changes become Replace of the old ones, and the ticks stay strictly increasing |
| TempoMaps.TempoMap.RemoveChangeAt | src/domain/TempoMap.cpp:23-29 | the changes become Without of the old ones, and the ticks stay increasing |
| TempoMaps.TempoMap.GetBpmAt | src/domain/TempoMap.cpp:31-47 | the tempo of the latest change at or before the tick, with 120 for an empty map |
| TempoMaps.TempoMap.Clear | src/domain/TempoMap.cpp:49-51 | the map is left empty |
| TempoMaps.TempoMap.SetConstantTempo | src/domain/TempoMap.cpp:53-56 | the map holds exactly the given tempo at tick 0 |
| TempoMaps.TempoMap.SortChanges | src/domain/TempoMap.cpp:58-60 | the changes are a permutation of the old ones, sorted by tick |
| MeterMaps.MeterMap.constructor | src/domain/MeterMap.cpp:6-9 | a new map holds exactly 4/4 at tick 0 |
| MeterMaps.MeterMap.WithSignature | src/domain/MeterMap.cpp:11-13 | the map holds exactly the given signature at tick 0 |
| MeterMaps.MeterMap.AddChange | src/domain/MeterMap.cpp:15-21 | any change at the tick is replaced, and the ticks stay strictly increasing |
| MeterMaps.MeterMap.RemoveChangeAt | src/domain/MeterMap.cpp:23-29 | every change at the tick is erased and the others keep their order |
| MeterMaps.MeterMap.GetSignatureAt | src/domain/MeterMap.cpp:31-47 | the signature of the latest change at or before the tick, with 4/4 for an empty map |
| MeterMaps.MeterMap.Clear | src/domain/MeterMap.cpp:49-51 | the map is left empty |
| MeterMaps.MeterMap.SetConstantMeter | src/domain/MeterMap.cpp:53-56 | the map holds exactly the given signature at tick 0 |
| MeterMaps.MeterMap.GetBarStartAt | src/domain/MeterMap.cpp:58-98 | the section loop computes BarStartAt, the bar line of the section holding the tick |
| MeterMaps.MeterMap.GetBarIndexAt | src/domain/MeterMap.cpp:100-135 | the accumulating loop computes BarIndexAt, the whole bars of the earlier sections plus those into the current one |
| MeterMaps.MeterMap.SortChanges | src/domain/MeterMap.cpp:137-139 | the changes are a permutation of the old ones, sorted by tick |
| MeterMaps.BarStartInSection | src/domain/MeterMap.cpp:64-88 | the bar start lies between the section start and the tick, less than one bar before the tick, and a whole number of bars into the section |
| MeterMaps.BarsBeforeFull | src/domain/MeterMap.cpp:108-130 | sections that end before the tick count all their bars |
| MeterMaps.BarIndexInSection | src/domain/MeterMap.cpp:100-135 | the bar index is the bars of the full earlier sections plus the whole bars between the current section's start and the tick |
| MeterMaps.FullBarsMonotone | src/domain/MeterMap.cpp:108-130 | with positive bar lengths, the bars of more sections are never fewer |
| MeterMaps.BarIndexMonotone | src/domain/MeterMap.cpp:100-135 | a later tick never has a smaller bar index |
| MeterMaps.BarIndexOfBarStart | src/domain/MeterMap.cpp:58-135 | the start of the bar holding a tick has that tick's bar index |
| MeterMaps.ConstantMeter | src/domain/MeterMap.cpp:53-135 | under one signature from tick 0, the bar start is the tick rounded down to whole bars and the bar index is the tick divided by the bar length |
| MeterMaps.EmptyMapIsCommonTime | src/domain/MeterMap.cpp:31-135 | an empty map gives the same signature, bar start and bar index as a map holding only 4/4 at tick 0 |
| Patterns.Pattern.Default | src/domain/Pattern.hpp:27 | a default pattern has no id, no name, one 4/4 bar and no notes |
| Patterns.Pattern.constructor | src/domain/Pattern.cpp:6-8 | the pattern takes the id, name and length, with no notes |
| Patterns.Pattern.SetName | src/domain/Pattern.hpp:37 | only the name changes |
| Patterns.Pattern.SetLengthTicks | src/domain/Pattern.hpp:38 | only the length changes |
| Patterns.Pattern.AddNote | src/domain/Pattern.cpp:10-18 | the notes gain exactly the new note, as a multiset, and stay sorted by offset |
| Patterns.Pattern.RemoveNote | src/domain/Pattern.cpp:20-24 | an index inside the notes is erased and the others keep their order; an index past the end changes nothing |
| Patterns.Pattern.ClearNotes | src/domain/Pattern.cpp:26-28 | the pattern has no notes, and nothing else changes |
| Patterns.Pattern.GetNotesAt | src/domain/Pattern.cpp:30-38 | exactly the notes at the offset, in stored order |
| Patterns.Pattern.GetNotesForInstrument | src/domain/Pattern.cpp:40-48 | exactly the notes of the instrument, in stored order |
| Patterns.RemoveAtSorted | src/domain/Pattern.cpp:20-24 | erasing one note keeps the notes sorted |
| Patterns.AddedNoteIsFound | src/domain/Pattern.cpp:10-38 | after addNote, getNotesAt at its offset finds the new note and every note it found before |
| Patterns.Find | src/domain/Pattern.cpp:66-71 | the first pattern with the id, or null exactly when none has it |
| Patterns.PatternLibrary.constructor | src/domain/Pattern.hpp:61 | a new library is empty |
| Patterns.PatternLibrary.AddPattern | src/domain/Pattern.cpp:52-56 | patterns with the same id are removed, the others keep their order, a copy of the pattern goes last, and lookup of its id finds that copy |
| Patterns.PatternLibrary.RemovePattern | src/domain/Pattern.cpp:58-64 | every pattern with the id is erased, the others keep their order, and the id is no longer found |
| Patterns.PatternLibrary.GetPattern | src/domain/Pattern.cpp:66-71 | the result is Find, the first match or null |
| Patterns.PatternLibrary.HasPattern | src/domain/Pattern.cpp:80-82 | true exactly when some pattern has the id |
| Patterns.PatternLibrary.Clear | src/domain/Pattern.cpp:84-86 | the library is left empty |
| Regions.Region.WithStartTick | src/domain/Region.hpp:40 | only the start tick changes |
| Regions.Region.WithLengthTicks | src/domain/Region.hpp:41 | only the length changes |
| Regions.Region.WithPatternId | src/domain/Region.hpp:42 | only the pattern id changes |
| Regions.Region.WithStretchMode | src/domain/Region.hpp:43 | only the stretch mode changes |
| Regions.Region.WithSnapToBars | src/domain/Region.hpp:44 | only the snap flag changes |
| Regions.NewRegion | src/domain/Region.cpp:5-7 | the region takes the id, type, start and length, and every other field keeps its default (the Repeat stretch mode and snapping to bars) |
| Regions.EndIsExclusive | src/domain/Region.hpp:34-49 | a non-empty region contains its start and its last tick, but not the tick before or its end tick |
| Regions.OverlapsSymmetric | src/domain/Region.hpp:52-54 | overlap is symmetric |
| Regions.OverlapsIffSharedTick | src/domain/Region.hpp:47-54 | two non-empty regions overlap exactly when some tick lies in both |
| Regions.AdjacentRegionsDoNotOverlap | src/domain/Region.hpp:52-54 | a region ending where another starts overlaps it in neither direction |
| Regions.RegionExamples | tests/test_Track.cpp:20-39 | the containment and overlap cases the unit tests check |
| Tracks.FindRegion | src/domain/Track.cpp:27-32 | the first region with the id, or none exactly when no region has it |
| Tracks.Track.Default | src/domain/Track.hpp:13 | a default track is named "Track", audible and empty |
| Tracks.Track.constructor | src/domain/Track.cpp:5-7 | the track takes the id and name, unmuted, unsoloed and empty |
| Tracks.Track.SetName | src/domain/Track.hpp:24 | only the name changes |
| Tracks.Track.SetMuted | src/domain/Track.hpp:25 | only the mute flag changes |
| Tracks.Track.SetSoloed | src/domain/Track.hpp:26 | only the solo flag changes |
| Tracks.Track.AddRegion | src/domain/Track.cpp:9-17 | the regions gain exactly the new region, as a multiset, and stay sorted by start |
| Tracks.Track.RemoveRegion | src/domain/Track.cpp:19-25 | every region with the id is erased and the others keep their order |
| Tracks.Track.GetRegion | src/domain/Track.cpp:27-32 | the result is FindRegion, the first match |
| Tracks.Track.GetRegionsInRange | src/domain/Track.cpp:41-53 | exactly the regions meeting the window, in track order |
| Tracks.Track.WouldOverlap | src/domain/Track.cpp:55-62 | true exactly when some region on the track overlaps the new one |
| Tracks.Track.ClearRegions | src/domain/Track.cpp:64-66 | the track is left with no regions |
| Tracks.AddKeepsNonOverlapping | src/domain/Track.cpp:9-17 | on a track with no overlaps, adding a region for which wouldOverlap is false leaves a track with no overlaps |
| Tracks.RangeQueryExact | src/domain/Track.cpp:41-53 | a region is returned exactly when it starts before the window's end and ends after its start |
| Tracks.RangeQuerySorted | src/domain/Track.cpp:41-53 | the regions a sorted track returns are in start order |
| Instruments.Instrument.WithName | src/domain/Instrument.hpp:22 | only the name changes |
| Instruments.Instrument.WithGain | src/domain/Instrument.hpp:23 | only the gain changes |
| Instruments.Instrument.WithPan | src/domain/Instrument.hpp:24 | only the pan changes |
| Instruments.Instrument.WithSamplePath | src/domain/Instrument.hpp:25 | only the sample path changes |
| Instruments.NewInstrument | src/domain/Instrument.cpp:6-8 | the instrument takes the id and name, and every other field keeps its default |
| Instruments.FindInstrument | src/domain/Instrument.cpp:32-37 | the first instrument with the id, or none exactly when no instrument has it |
| Instruments.InstrumentRack.constructor | src/domain/Instrument.hpp:38 | a new rack is empty |
| Instruments.InstrumentRack.AddInstrument | src/domain/Instrument.cpp:12-22 | the rack becomes WithInstrument of the old one, and its ids stay strictly increasing |
| Instruments.InstrumentRack.RemoveInstrument | src/domain/Instrument.cpp:24-30 | every instrument with the id is erased and the others keep their order |
| Instruments.InstrumentRack.GetInstrument | src/domain/Instrument.cpp:32-37 | the result is FindInstrument, the first match |
| Instruments.InstrumentRack.HasInstrument | src/domain/Instrument.cpp:46-48 | true exactly when some instrument has the id |
| Instruments.InstrumentRack.Clear | src/domain/Instrument.cpp:50-52 | the rack is left empty |
| Instruments.InstrumentRack.GetNextId | src/domain/Instrument.cpp:54-68 | at least 1 and greater than every id; either 1 or one more than an id present |
| Instruments.WithInstrumentContents | src/domain/Instrument.cpp:12-22 | addInstrument keeps the ids strictly increasing; the rack holds x and exactly the old instruments with other ids |
| Instruments.AddAboveAll | src/domain/Instrument.cpp:12-22 | an instrument whose id exceeds every id in the rack is simply appended |
| Instruments.AddThenFind | src/domain/Instrument.cpp:12-37 | after addInstrument(x), looking up x's id gives x |
| Instruments.AddThenFindOther | src/domain/Instrument.cpp:12-37 | after addInstrument(x), looking up any other id gives what it gave before |
| Instruments.UniqueIdLookup | src/domain/Instrument.cpp:32-37 | in a rack with unique ids, looking up an instrument's id finds that instrument |
| Instruments.NextIdIsUnused | src/domain/Instrument.cpp:54-68 | no instrument has the next id, so adding one under it replaces nothing |
| Projects.DefaultKitIntoEmptyRack | src/domain/Project.cpp:68-77 | the default kit goes into an empty rack as kick 1, snare 2 and hi-hat 3, in id order |
| Projects.FindTrack | src/domain/Project.cpp:27-32 | the first track with the id, or null exactly when no track has it |
| Projects.Project.constructor | src/domain/Project.cpp:6-8 | a new project is "Untitled" at revision 0, with 120 BPM, 4/4, no patterns, the three default instruments and the single empty track "track_0" named "Drums" |
| Projects.Project.Named | src/domain/Project.cpp:10-13 | the same defaults under the given name |
| Projects.Project.SetName | src/domain/Project.hpp:21 | only the name changes |
| Projects.Project.IncrementRevision | src/domain/Project.hpp:24 | the revision grows by one and nothing else changes |
| Projects.Project.AddTrack | src/domain/Project.cpp:15-17 | a copy of the track is appended after the old tracks, with no id check |
| Projects.Project.RemoveTrack | src/domain/Project.cpp:19-25 | every track with the id is erased, the others keep their order, and the id is no longer found |
| Projects.Project.GetTrack | src/domain/Project.cpp:27-32 | the result is FindTrack, the first match or null |
| Projects.Project.GetTrackAt | src/domain/Project.cpp:41-43 | the track at the index, or null exactly when the index is past the end |
| Projects.Project.GetTrackCount | src/domain/Project.hpp:50 | the number of tracks |
| Projects.Project.Clear | src/domain/Project.cpp:49-57 | the project is "Untitled" at revision 0, with 120 BPM, 4/4, and no patterns, instruments or tracks |
| Projects.Project.CreateDefault | src/domain/Project.cpp:59-78 | the tempo and meter are reset, the kit is added to the rack, and one more "track_0" is appended after the existing tracks |
| Projects.Project.AddDefaultKit | src/domain/Project.cpp:68-77 | the three addInstrument calls of createDefault |
| Sequences.SortByKey | src/engine/Scheduler.cpp:66 | std::sort: a permutation of the input that is sorted by the key, with no order promised for equal keys |
| Sequences.ReplaceByKey | src/domain/Instrument.cpp:12-22 | remove, push and sort on a strictly increasing sequence gives the one sorted result, which is strictly increasing |
| Schedule.NoteEvents | src/engine/Scheduler.cpp:105-117 | the note loop emits only events that pass the window test, and no more events than notes |
| Schedule.NoteEventsSound | src/engine/Scheduler.cpp:105-117 | each event the note loop emits is the event of one of the notes, at base plus its offset |
| Schedule.CandidatesEnumerate | src/engine/Scheduler.cpp:95-117 | the reference list holds every (repetition, note) pair exactly once, with the note at repetition start plus offset |
| Schedule.CandidatesBounds | src/engine/Scheduler.cpp:95-117 | with offsets inside the pattern, k repetitions place events from the origin up to k pattern lengths later |
| Schedule.FilterPartition | src/engine/Scheduler.cpp:109-110 | two disjoint tests that split a third split its filtered multiset |
| Schedule.RegionRepeatsSound | src/engine/Scheduler.cpp:95-118 | every event of the repetition loop is in both windows, and is some note of some repetition |
| Schedule.RegionEventsInWindow | src/engine/Scheduler.cpp:71-121 | every event of getEventsFromRegion lies in the window and in the region |
| Schedule.RegionEventsSound | src/engine/Scheduler.cpp:77-118 | each event is start + r * patternLength + offset for a note and some 0 <= r < ceil(regionLength / patternLength); a zero-length pattern emits nothing |
| Schedule.RegionRepeatsExact | src/engine/Scheduler.cpp:95-118 | the repetition loop with its skip test is the windowed filter of the reference list |
| Schedule.DisjointWindowSilent | src/engine/Scheduler.cpp:109-110 | when the region lies wholly before or after the window, the window-and-region test lets no event through |
| Schedule.RegionEventsExact | src/engine/Scheduler.cpp:71-121 | with offsets inside the pattern, a region emits exactly the candidates in the window and the region, each once and in order |
| Schedule.RegionWindowsAdd | src/engine/Scheduler.cpp:109-110 | for a <= b <= c, the events of [a, b) and [b, c) make up the events of [a, c), and every tick of the first comes before every tick of the second |
| Schedule.TrackEvents | src/engine/Scheduler.cpp:50-62 | the regions of a track contribute only events inside the window; a region whose pattern is missing contributes nothing |
| Schedule.LaneEvents | src/engine/Scheduler.cpp:46-62 | one track's share lies inside the window |
| Schedule.TimelineEvents | src/engine/Scheduler.cpp:42-63 | the timeline's events before sorting lie inside the window |
| Schedule.RangeQueryLosesNothing | src/engine/Scheduler.cpp:48-58 | the range query in front of the region loop drops only regions that would emit nothing |
| Schedule.TrackWindowsAdd | src/engine/Scheduler.cpp:46-62 | window additivity for one track |
| Schedule.TimelineWindowsAdd | src/engine/Scheduler.cpp:42-69 | window additivity for the whole timeline, for a library whose notes lie inside their patterns |
| Schedule.LoopRun | src/engine/Scheduler.cpp:141-155 | the loop iterations emit only events that pass the window test |
| Schedule.SinglePatternEvents | src/engine/Scheduler.cpp:123-170 | the single-pattern events lie in the window; no notes or a zero loop length give nothing |
| Schedule.SinglePatternWindowsAdd | src/engine/Scheduler.cpp:123-175 | window additivity in loop mode: for a <= b <= c the events of [a, b) and [b, c) make up those of [a, c) as a multiset, the first all before the second; one-shot for any window, looping from tick 0 on with offsets inside the loop |
| Schedule.LastIterationSilent | src/engine/Scheduler.cpp:137-155 | an iteration from ceil(e / L) on adds nothing to a window ending at e |
| Schedule.LoopRunExact | src/engine/Scheduler.cpp:137-155 | when the iterations before the first contribute nothing, the loop is the filtered reference list |
| Schedule.EarlyIterationsSilent | src/engine/Scheduler.cpp:137 | iterations starting at or before the window start contribute nothing before it |
| Schedule.LaterIterationsSilent | src/engine/Scheduler.cpp:138 | no iteration from ceil(end / L) on reaches into the window |
| Schedule.LoopingExact | src/engine/Scheduler.cpp:135-155 | for a start tick of at least 0 and offsets inside the loop, looping emits exactly k * L + offset for k >= 0 inside the window |
| Schedule.NegativeWindowStartsLate | src/engine/Scheduler.cpp:137 | for a negative start the truncating division starts one iteration late: an in-window event of iteration -2 is lost |
| Schedule.OneShotExact | src/engine/Scheduler.cpp:156-169 | one-shot mode emits exactly the notes at their own offsets that fall in the window |
| Schedulers.PlaceNotes | src/engine/Scheduler.cpp:105-117 | the note loop computes NoteEvents |
| Schedulers.LoopIterations | src/engine/Scheduler.cpp:137-155 | the loopTick loop computes LoopRun over iterations loopStart / L up to loopEnd / L |
| Schedulers.Scheduler.constructor | src/engine/Scheduler.hpp:47-52 | no project, no pattern, loop length 0, looping on |
| Schedulers.Scheduler.SetProject | src/engine/Scheduler.cpp:10-13 | timeline mode: the pattern is dropped and the loop settings stay |
| Schedulers.Scheduler.SetPattern | src/engine/Scheduler.cpp:15-21 | loop mode: the project is dropped, and an unset loop length of 0 is taken from the pattern |
| Schedulers.Scheduler.SetLoopLength | src/engine/Scheduler.hpp:34 | only the loop length changes |
| Schedulers.Scheduler.SetLooping | src/engine/Scheduler.hpp:35 | only the looping flag changes |
| Schedulers.Scheduler.Clear | src/engine/Scheduler.cpp:23-26 | both modes are dropped and the loop settings stay |
| Schedulers.Scheduler.GetEventsFromRegion | src/engine/Scheduler.cpp:71-121 | the nested loops compute RegionEvents |
| Schedulers.Scheduler.GetEventsFromTrack | src/engine/Scheduler.cpp:46-62 | one track's body of the timeline loop computes LaneEvents |
| Schedulers.Scheduler.RepetitionEvents | src/engine/Scheduler.cpp:96-117 | a repetition outside the window is skipped, otherwise it emits NoteEvents at its start |
| Schedulers.Scheduler.CollectTimeline | src/engine/Scheduler.cpp:42-63 | the track loop of getEventsFromTimeline collects TimelineEvents over the project's tracks, before sorting |
| Schedulers.Scheduler.GetEventsFromTimeline | src/engine/Scheduler.cpp:42-69 | the result is sorted by tick and is a permutation of TimelineEvents over the project's tracks |
| Schedulers.Scheduler.GetEventsFromSinglePattern | src/engine/Scheduler.cpp:123-175 | nothing without a pattern; otherwise the result is sorted by tick and is a permutation of SinglePatternEvents |
| Schedulers.Scheduler.GetEventsInRange | src/engine/Scheduler.cpp:28-40 | the project takes precedence, then the pattern, else nothing; the result is always sorted by tick |
| Samplers.ActiveCount | src/engine/Sampler.cpp:54-62 | the number of playing voices never exceeds the bank size |
| Samplers.ActiveCountFull | src/engine/Sampler.cpp:20-24 | the count equals the bank size exactly when every voice is playing |
| Samplers.ActiveCountIdle | src/engine/Sampler.cpp:7-12 | a bank of idle voices has no voice playing |
| Samplers.AfterNoteOn | src/engine/Sampler.cpp:14-37 | the bank after noteOn has the bank's size |
| Samplers.NoteOnCount | src/engine/Sampler.cpp:14-37 | noteOn adds one playing voice exactly when the sample is there and not empty and a voice is free, and none otherwise |
| Samplers.NoteOnKeepsPlaying | src/engine/Sampler.cpp:20-24 | no voice stealing: a playing voice is left as it was |
| Samplers.NoteOnValid | src/engine/Sampler.cpp:26-32 | noteOn keeps every voice within its sample |
| Samplers.NoteOnsSaturate | src/engine/Sampler.cpp:20-24 | n notes of a playable sample raise the count to the smaller of the old count plus n and the bank size; from empty, 65 notes leave 64 playing |
| Samplers.PanGains | src/engine/Sampler.cpp:84-93 | the right factor exceeds the left by the pan, the side panned toward keeps full level, and both stay within [0, 1] for a pan in [-1, 1] |
| Samplers.Played | src/engine/Sampler.cpp:99-111 | a voice fills at most the block, and never reads past its sample's end |
| Samplers.VoiceAfter | src/engine/Sampler.cpp:99-111 | after a block a voice is still within its sample |
| Samplers.RenderSplit | src/engine/Sampler.cpp:99-111 | rendering two blocks leaves a voice where one block of the combined length does |
| Samplers.FreshVoiceLifetime | src/engine/Sampler.cpp:99-111 | a voice started on N frames still plays after n frames exactly when n <= N, at position n; reaching N exactly releases it on the next block |
| Samplers.MixOne | src/engine/Sampler.cpp:99-111 | mixing a voice changes no buffer sample outside the frames of the block |
| Samplers.MixVoicesBlock | src/engine/Sampler.cpp:45-52 | render writes no buffer index at or past nframes |
| Samplers.MixVoicesSilent | src/engine/Sampler.cpp:45-52 | with no voice playing, render leaves the buffers as they were |
| Samplers.MixedChannelStep | src/engine/Sampler.cpp:106-110 | one more frame adds sample frame p + n, scaled by the gain, into output index start + n |
| Samplers.Sampler.constructor | src/engine/Sampler.cpp:7-12 | all 64 voices start idle: no sample, position 0, inactive |
| Samplers.Sampler.AllocateVoice | src/engine/Sampler.cpp:64-72 | the index of the first idle voice, or none exactly when every voice is playing |
| Samplers.Sampler.NoteOn | src/engine/Sampler.cpp:14-37 | the bank becomes AfterNoteOn of the old bank, and the offset is ignored |
| Samplers.Sampler.AllNotesOff | src/engine/Sampler.cpp:39-43 | every voice is reset to idle |
| Samplers.Sampler.GetActiveVoiceCount | src/engine/Sampler.cpp:54-62 | the counting loop computes ActiveCount |
| Samplers.Sampler.RenderVoice | src/engine/Sampler.cpp:74-112 | only voice k changes, to VoiceAfter; each buffer becomes MixOne of its old contents |
| Samplers.Sampler.Render | src/engine/Sampler.cpp:45-52 | every voice advances by the block, and each buffer becomes the bank mixed in, in bank order |
| SampleLibraries.Deinterleave | src/engine/SampleLibrary.cpp:55-70 | mono frames are duplicated into both channels, stereo frames are split, and both buffers hold the frames read |
| SampleLibraries.Interleave | src/engine/SampleLibrary.cpp:64-70 | the decoder's frame layout, two values per frame |
| SampleLibraries.StereoRoundTrip | src/engine/SampleLibrary.cpp:64-70 | interleaving the split stereo channels gives back the frames read |
| SampleLibraries.MonoChannelsEqual | src/engine/SampleLibrary.cpp:58-63 | a mono decode gives two equal channels, each the frames read |
| SampleLibraries.SampleLibrary.constructor | src/engine/SampleLibrary.hpp:26 | a new cache is empty |
| SampleLibraries.SampleLibrary.LoadSample | src/engine/SampleLibrary.cpp:8-78 | a cached path is answered from the cache; a failed open or more than two channels gives null and leaves the cache alone; otherwise the de-interleaved sample of lengthFrames = frames read is cached under the path and returned |
| SampleLibraries.SampleLibrary.GetSample | src/engine/SampleLibrary.cpp:80-83 | null exactly when the path is absent, otherwise the cached sample |
| SampleLibraries.SampleLibrary.HasSample | src/engine/SampleLibrary.cpp:85-87 | true exactly when the path is cached |
| SampleLibraries.SampleLibrary.UnloadSample | src/engine/SampleLibrary.cpp:89-91 | only that key is removed |
| SampleLibraries.SampleLibrary.Clear | src/engine/SampleLibrary.cpp:93-95 | the cache is left empty |
| SampleLibraries.SampleLibrary.GetCacheSize | src/engine/SampleLibrary.hpp:46 | the number of cached paths |
| Transports.BbtRoundTrip | src/engine/Transport.cpp:12-31 | for a regular signature and a position inside its bar and beat, the tick taken from JACK converts back to the same bar, beat and tick |
| Transports.FromJack | src/engine/Transport.cpp:9-36 | rolling exactly when JACK is rolling; with BBT the tempo, signature and tick (counting bar and beat from 1) come from the position, otherwise the tick is converted from the frame at the held tempo |
| Transports.AdvancedStopped | src/engine/Transport.cpp:38-41 | a stopped transport ignores the callback |
| Transports.AdvancedAdditive | src/engine/Transport.cpp:38-48 | advancing by a then b is advancing by a + b |
| Transports.AdvancedTracksFrame | src/engine/Transport.cpp:43-47 | a rolling transport advances its frame by nframes and keeps its tick at the conversion of that frame |
| Transports.Transport.constructor | src/engine/Transport.cpp:6-7 | stopped at frame and tick 0, 120 BPM, 4/4, 48 kHz |
| Transports.Transport.UpdateFromJack | src/engine/Transport.cpp:9-36 | the state becomes FromJack of the old state |
| Transports.Transport.UpdateInternal | src/engine/Transport.cpp:38-48 | the state becomes Advanced of the old state |
| Transports.Transport.GetState | src/engine/Transport.hpp:34 | the current state |
| Transports.Transport.Play | src/engine/Transport.hpp:37 | only rolling changes, to true |
| Transports.Transport.Stop | src/engine/Transport.hpp:38 | only rolling changes, to false |
| Transports.Transport.SetPosition | src/engine/Transport.cpp:50-53 | the tick is set exactly and the frame follows by conversion at the held tempo and rate; nothing else changes |
| Transports.Transport.SetTempo | src/engine/Transport.cpp:55-57 | only the tempo changes |
| Transports.Transport.FrameToTick | src/engine/Transport.cpp:59-61 | the frame-to-tick conversion the transport was made with |
| Transports.Transport.TickToFrame | src/engine/Transport.cpp:63-65 | the tick-to-frame conversion the transport was made with |
| Transports.Transport.IsRolling | src/engine/Transport.hpp:47 | whether the transport is rolling |

## Left out

- `TimeUtils::ticksToFrames`, `framesToTicks` and `framesPerTick` (src/domain/TimeTypes.cpp:87-103) compute with `double` and `std::round`. The transport takes them as opaque function parameters, and no round trip is claimed.
- `MusicalPosition::toString` is string formatting.
- Mixing is done in exact reals. `float` rounding and the dependence of a float sum on the order of summation are not modelled; the summation order of the source is kept.
- The JACK audio backend, the engine that drives transport, scheduler and sampler from the audio callback, the JSON project serializer, the Qt user interface and the demo programs are not part of this model. All of them are I/O, callbacks or library code.
- Concurrency between the audio thread and the user interface thread is not modelled.
- The libsndfile calls of `loadSample` are not modelled. The decoded header, the frames read and the interleaved buffer are an input value, and `None` stands for a file that cannot be opened.
- Machine integers are unbounded:
  - `int64_t` ticks and `uint64_t` frames do not overflow;
  - `int numRepeats` and `int barCount` do not overflow;
  - `uint64_t revision` does not wrap;
  - the `int` product `numerator * 4 * PPQ` of `ticksPerBar` (src/domain/TimeTypes.cpp:18) does not overflow 32 bits, whatever the numerator;
  - the `static_cast<int>` narrowings of the bar and beat in `tickToPosition` (src/domain/TimeTypes.cpp:34,37), of the bar counts in `getBarIndexAt` (src/domain/MeterMap.cpp:104,125) and of the JACK tick in `updateFromJack` (src/engine/Transport.cpp:29) keep the full value.
- Division by zero is undefined behaviour in the source. The model excludes it with preconditions instead of modelling a result:
  - TimeTypes.TicksPerBar and TimeTypes.TicksPerBeat: require a non-zero denominator.
  - TimeTypes.SnapToBar and TimeTypes.SnapToBeat: require a non-zero bar or beat length.
  - TimeTypes.SnapToGrid: requires a non-zero subdivision and a non-zero grid size. A subdivision above 960 gives grid size 0, and then `tick % 0` at src/domain/TimeTypes.cpp:77.
  - TimeTypes.TickToPosition: requires `Divisible`, a non-zero denominator with non-zero bar and beat lengths.
  - MeterMaps.MeterMap.GetBarStartAt and MeterMaps.MeterMap.GetBarIndexAt: require `Measurable`, so no meter change has a zero denominator or a zero bar length.
  - Transports.FromJack and Transports.Transport.UpdateFromJack: require a non-zero `beatType` whenever the BBT bit is set.
- Schedule.SinglePatternWindowsAdd: stated in looping mode only for windows from tick 0 on, with offsets inside the loop. For a negative start the truncating division loses iterations (`Schedule.NegativeWindowStartsLate`), so additivity is not claimed there.
- Transports.Transport.UpdateFromJack: the `float` fields of the JACK position (tempo excepted) are taken as integers, and the position is a plain record, not the `jack_position_t` C struct.
- Schedule.SinglePatternEvents: a negative loop length with loopStart below loopEnd makes the source's loop run forever. The model's caller must rule that case out (the `LoopHalts` precondition), and the function returns nothing for a negative length otherwise.
- Schedule.LoopingExact: stated for a window starting at tick 0 or later. For a negative start the truncating division loses iterations, which `Schedule.NegativeWindowStartsLate` shows.
- Samplers.Sampler.NoteOn: requires a sample whose channel buffers hold lengthFrames values. The sample library guarantees that shape; given another sample, the source would read past the buffers.
- Samplers.Sampler.RenderVoice: requires two distinct output buffers of at least nframes samples. The source writes through raw float buffers without checking either.
- Samplers.Sampler.RenderVoice: the voice is read into locals and written back once after the loop. The source increments the voice's field in place, and nothing can observe the difference.
- The element handles returned by `getPattern`, `getTrack`, `getRegion` and `getInstrument` can be used to mutate the container's element in the source. Here regions and instruments are values, and nothing is mutated through the returned patterns and tracks.
- The order `std::sort` gives to equal keys is left unspecified (see `Sequences.SortByKey`).
- `Engine::loadInstrumentSamples` is not part of this model.

## Findings

| source | as written | input that shows it | evidently intended | confidence | as-written member | corrected member |
|---|---|---|---|---|---|---|
| src/domain/TimeTypes.cpp:50-85 | snapping rounds down iff `tick % len < len / 2`, with integer halving, and `%` truncates toward zero | `snapToGrid(68, 7)` gives 137 though 0 is nearer; with subdivision 960 every tick moves one tick later; `snapToBar(-3000, 4/4)` gives 0 though -3840 is nearer | snap to the nearest multiple of the grid length | not executed | TimeTypes.SnapTo | TimeTypes.SnapNearest |

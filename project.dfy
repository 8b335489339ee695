/**
 * The project document: tempo and meter maps, pattern library, instrument rack
 * and tracks (src/domain/Project.{hpp,cpp}).  The maps, library and rack are
 * members of the project in the source; here they are objects the project owns.
 */
module Projects {
  import opened Sequences
  import opened TimeTypes
  import opened ChangeMaps
  import opened TempoMaps
  import opened MeterMaps
  import opened Patterns
  import opened Tracks
  import opened Instruments

  const Kick: Instrument := NewInstrument(1, "Kick")
  const Snare: Instrument := NewInstrument(2, "Snare")
  const HiHat: Instrument := NewInstrument(3, "Hi-Hat")

  /** The rack after createDefault adds kick, snare and hi-hat in that order. */
  function WithDefaultKit(xs: seq<Instrument>): seq<Instrument>
  {
    WithInstrument(WithInstrument(WithInstrument(xs, Kick), Snare), HiHat)
  }

  /** Into an empty rack the default kit goes in id order. */
  lemma DefaultKitIntoEmptyRack()
    ensures WithDefaultKit([]) == [Kick, Snare, HiHat]
  {
    assert WithInstrument([], Kick) == [Kick];
    SnareAfterKick();
    HiHatAfterSnare();
  }

  lemma SnareAfterKick()
    ensures WithInstrument([Kick], Snare) == [Kick, Snare]
  {
    assert [Kick][0].id < Snare.id;
    AddAboveAll([Kick], Snare);
  }

  lemma HiHatAfterSnare()
    ensures WithInstrument([Kick, Snare], HiHat) == [Kick, Snare, HiHat]
  {
    assert [Kick, Snare][0].id < HiHat.id && [Kick, Snare][1].id < HiHat.id;
    AddAboveAll([Kick, Snare], HiHat);
  }

  function TrackIdIsNot(id: string): Track -> bool { (t: Track) => t.id != id }

  function TrackHasId(id: string): Track -> bool { (t: Track) => t.id == id }

  /** getTrack(id): the first track with the id, or null. */
  function FindTrack(ts: seq<Track>, id: string): (r: Track?)
    ensures r == null <==> forall i :: 0 <= i < |ts| ==> ts[i].id != id
    ensures r != null ==> r in ts && r.id == id
    ensures r != null ==> exists i :: 0 <= i < |ts| && ts[i] == r && forall j :: 0 <= j < i ==> ts[j].id != id
  {
    match FirstIndex(ts, TrackHasId(id))
    case None => null
    case Some(i) => ts[i]
  }

  /** The track createDefault adds: "Drums" with id "track_0", no regions, not muted or soloed. */
  ghost predicate IsDefaultTrack(t: Track)
    reads t
  {
    t.id == "track_0" && t.name == "Drums" && t.regions == [] && !t.muted && !t.soloed
  }

  /** Every track keeps its regions in start order. */
  ghost predicate TracksValid(ts: seq<Track>)
    reads ts
  {
    forall i :: 0 <= i < |ts| ==> ts[i].Valid()
  }

  lemma TracksValidAppend(ts: seq<Track>, t: Track)
    requires TracksValid(ts) && t.Valid()
    ensures TracksValid(ts + [t])
  {
  }

  class Project {
    var name: string
    /** uint64_t in the source; its wrap-around is not modelled. */
    var revision: nat
    const tempoMap: TempoMap
    const meterMap: MeterMap
    const patterns: PatternLibrary
    const instruments: InstrumentRack
    var tracks: seq<Track>

    ghost predicate Valid()
      reads this, tempoMap, meterMap, patterns, patterns.patterns, instruments, tracks
    {
      DocumentValid() && instruments.Valid()
    }

    /** Every part of the project but the rack is valid. */
    ghost predicate DocumentValid()
      reads this, tempoMap, meterMap, patterns, patterns.patterns, tracks
    {
      tempoMap.Valid() && meterMap.Valid() && patterns.Valid() && TracksValid(tracks)
    }

    /** Project(): an untitled project built by createDefault. */
    constructor ()
      ensures Valid()
      ensures name == "Untitled" && revision == 0
      ensures tempoMap.changes == [Change(0, DefaultBpm)] && meterMap.changes == [Change(0, CommonTime)]
      ensures patterns.patterns == [] && instruments.instruments == [Kick, Snare, HiHat]
      ensures |tracks| == 1 && IsDefaultTrack(tracks[0])
    {
      name := "Untitled";
      revision := 0;
      tempoMap := new TempoMap();
      meterMap := new MeterMap();
      patterns := new PatternLibrary();
      instruments := new InstrumentRack();
      tracks := [];
      new;
      CreateDefault();
      DefaultKitIntoEmptyRack();
    }

    /** Project(name): as Project() but with the given name. */
    constructor Named(name: string)
      ensures Valid()
      ensures this.name == name && revision == 0
      ensures tempoMap.changes == [Change(0, DefaultBpm)] && meterMap.changes == [Change(0, CommonTime)]
      ensures patterns.patterns == [] && instruments.instruments == [Kick, Snare, HiHat]
      ensures |tracks| == 1 && IsDefaultTrack(tracks[0])
    {
      this.name := name;
      revision := 0;
      tempoMap := new TempoMap();
      meterMap := new MeterMap();
      patterns := new PatternLibrary();
      instruments := new InstrumentRack();
      tracks := [];
      new;
      CreateDefault();
      DefaultKitIntoEmptyRack();
    }

    method SetName(newName: string)
      modifies this
      ensures name == newName && revision == old(revision) && tracks == old(tracks)
    {
      name := newName;
    }

    method IncrementRevision()
      modifies this
      ensures revision == old(revision) + 1 && name == old(name) && tracks == old(tracks)
    {
      revision := revision + 1;
    }

    /** Appends a copy of the track; a track with the same id is not replaced. */
    method AddTrack(track: Track)
      requires Valid() && track.Valid()
      modifies this
      ensures Valid()
      ensures |tracks| == |old(tracks)| + 1 && tracks[..|old(tracks)|] == old(tracks)
      ensures fresh(tracks[|tracks| - 1])
      ensures tracks[|tracks| - 1].id == track.id && tracks[|tracks| - 1].name == track.name
      ensures tracks[|tracks| - 1].muted == track.muted && tracks[|tracks| - 1].soloed == track.soloed
      ensures tracks[|tracks| - 1].regions == track.regions
      ensures name == old(name) && revision == old(revision)
    {
      var copy := new Track.Copy(track);
      tracks := tracks + [copy];
    }

    /** Erases every track with the id, keeping the others in order. */
    method RemoveTrack(trackId: string)
      requires Valid()
      modifies this
      ensures Valid()
      ensures tracks == Filter(old(tracks), TrackIdIsNot(trackId))
      ensures FindTrack(tracks, trackId) == null
      ensures name == old(name) && revision == old(revision)
    {
      tracks := Filter(tracks, TrackIdIsNot(trackId));
    }

    method GetTrack(trackId: string) returns (t: Track?)
      ensures t == FindTrack(tracks, trackId)
    {
      t := FindTrack(tracks, trackId);
    }

    /** getTrack(index): the track at the index, null past the end. */
    method GetTrackAt(index: nat) returns (t: Track?)
      ensures index < |tracks| ==> t == tracks[index]
      ensures index >= |tracks| ==> t == null
    {
      t := if index < |tracks| then tracks[index] else null;
    }

    method GetTrackCount() returns (n: nat)
      ensures n == |tracks|
    {
      n := |tracks|;
    }

    /** Resets name, revision, tempo and meter and empties library, rack and tracks. */
    method Clear()
      modifies this, tempoMap, meterMap, patterns, instruments
      ensures Valid()
      ensures name == "Untitled" && revision == 0
      ensures tempoMap.changes == [Change(0, DefaultBpm)] && meterMap.changes == [Change(0, CommonTime)]
      ensures patterns.patterns == [] && instruments.instruments == [] && tracks == []
    {
      name := "Untitled";
      revision := 0;
      tempoMap.SetConstantTempo(DefaultBpm);
      meterMap.SetConstantMeter(CommonTime);
      patterns.Clear();
      instruments.Clear();
      tracks := [];
    }

    /**
     * Sets 120 BPM and 4/4, appends a "Drums" track with id "track_0", adds the
     * default kit and resets the revision.  Existing tracks and instruments stay.
     */
    method CreateDefault()
      requires Valid()
      modifies this, tempoMap, meterMap, instruments
      ensures Valid()
      ensures tempoMap.changes == [Change(0, DefaultBpm)] && meterMap.changes == [Change(0, CommonTime)]
      ensures |tracks| == |old(tracks)| + 1 && tracks[..|old(tracks)|] == old(tracks)
      ensures fresh(tracks[|tracks| - 1])
      ensures IsDefaultTrack(tracks[|tracks| - 1])
      ensures instruments.instruments == WithDefaultKit(old(instruments.instruments))
      ensures patterns.patterns == old(patterns.patterns)
      ensures name == old(name) && revision == 0
    {
      revision := 0;
      ResetTiming();
      AddDefaultTrack();
      AddDefaultKit();
    }

    /** The push_back of a new "Drums" track with id "track_0". */
    method AddDefaultTrack()
      requires Valid()
      modifies this
      ensures Valid()
      ensures |tracks| == |old(tracks)| + 1 && tracks[..|old(tracks)|] == old(tracks)
      ensures fresh(tracks[|tracks| - 1])
      ensures IsDefaultTrack(tracks[|tracks| - 1])
      ensures name == old(name) && revision == old(revision)
    {
      var defaultTrack := new Track("track_0", "Drums");
      AddTrack(defaultTrack);
    }

    /** The constant 120 BPM and 4/4 that createDefault and clear install. */
    method ResetTiming()
      requires Valid()
      modifies tempoMap, meterMap
      ensures Valid()
      ensures tempoMap.changes == [Change(0, DefaultBpm)] && meterMap.changes == [Change(0, CommonTime)]
    {
      tempoMap.SetConstantTempo(DefaultBpm);
      meterMap.SetConstantMeter(CommonTime);
    }

    /** The three addInstrument calls of createDefault. */
    method AddDefaultKit()
      requires Valid()
      modifies instruments
      ensures Valid()
      ensures instruments.instruments == WithDefaultKit(old(instruments.instruments))
    {
      AddToRack(Kick);
      AddToRack(Snare);
      AddToRack(HiHat);
    }

    /** addInstrument on the project's rack, which leaves the rest of the project alone. */
    method AddToRack(x: Instrument)
      requires Valid()
      modifies instruments
      ensures Valid()
      ensures instruments.instruments == WithInstrument(old(instruments.instruments), x)
    {
      instruments.AddInstrument(x);
    }
  }
}

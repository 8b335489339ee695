/**
 * The transport (src/engine/Transport.{hpp,cpp}): the play state and the
 * current position in frames and ticks, advanced by the audio callback or
 * taken from the JACK transport.  The tick/frame conversions round a double
 * and are supplied as functions when the transport is made; nothing is
 * assumed about them.
 */
module Transports {
  import opened TimeTypes

  /** The transport state record; the default is stopped at 0, 120 BPM, 4/4, 48 kHz. */
  datatype TransportState = TransportState(
    rolling: bool,
    frame: nat,
    tick: int,
    bpm: real,
    signature: TimeSignature,
    sampleRate: nat)

  const DefaultState: TransportState := TransportState(false, 0, 0, 120.0, TimeSignature(4, 4), 48000)

  /** The JACK transport states. */
  datatype JackTransportState = JackStopped | JackRolling | JackLooping | JackStarting | JackNetStarting

  /**
   * The fields of a JACK position the transport reads.  bbtValid stands for
   * the JackPositionBBT bit; bar and beat count from 1.
   */
  datatype JackPosition = JackPosition(
    frame: nat,
    bbtValid: bool,
    beatsPerMinute: real,
    beatsPerBar: int,
    beatType: int,
    bar: int,
    beat: int,
    tick: int)

  /** The signature a JACK position reports. */
  function JackSignature(pos: JackPosition): TimeSignature
  {
    TimeSignature(pos.beatsPerBar, pos.beatType)
  }

  /** The tick of a bar/beat/tick position whose bar and beat count from 1. */
  function BbtTick(pos: JackPosition): int
    requires pos.beatType != 0
  {
    var sig := JackSignature(pos);
    (pos.bar - 1) * TicksPerBar(sig) + (pos.beat - 1) * TicksPerBeat(sig) + pos.tick
  }

  /** The BBT arithmetic is the position-to-tick conversion on the 0-based position. */
  lemma BbtTickIsPosition(pos: JackPosition)
    requires pos.beatType != 0
    ensures BbtTick(pos) == PositionToTick(MusicalPosition(pos.bar - 1, pos.beat - 1, pos.tick), JackSignature(pos))
  {
  }

  /**
   * For a regular signature and a position inside its bar and beat, the
   * tick taken from JACK converts back to the same bar, beat and tick.
   */
  lemma BbtRoundTrip(pos: JackPosition)
    requires Regular(JackSignature(pos))
    requires pos.bar >= 1 && 1 <= pos.beat <= pos.beatsPerBar
    requires 0 <= pos.tick < TicksPerBeat(JackSignature(pos))
    ensures Divisible(JackSignature(pos))
    ensures TickToPosition(BbtTick(pos), JackSignature(pos)) == MusicalPosition(pos.bar - 1, pos.beat - 1, pos.tick)
  {
    PositionTickRoundTrip(MusicalPosition(pos.bar - 1, pos.beat - 1, pos.tick), JackSignature(pos));
  }

  /**
   * updateFromJack: rolling follows the JACK state; with BBT the tempo,
   * signature and tick come from the position, otherwise the tick is
   * computed from the frame at the tempo already held.
   */
  function FromJack(s: TransportState, pos: JackPosition, jackState: JackTransportState, sampleRate: nat,
                    frameToTick: (nat, real, nat) -> int): (r: TransportState)
    requires pos.bbtValid ==> pos.beatType != 0
    ensures r.rolling <==> jackState == JackRolling
    ensures r.frame == pos.frame && r.sampleRate == sampleRate
    ensures pos.bbtValid ==> r.bpm == pos.beatsPerMinute && r.signature == JackSignature(pos) && r.tick == BbtTick(pos)
    ensures !pos.bbtValid ==> r.bpm == s.bpm && r.signature == s.signature && r.tick == frameToTick(pos.frame, s.bpm, sampleRate)
  {
    var base := s.(rolling := jackState == JackRolling, frame := pos.frame, sampleRate := sampleRate);
    if pos.bbtValid then
      base.(bpm := pos.beatsPerMinute, signature := JackSignature(pos), tick := BbtTick(pos))
    else
      base.(tick := frameToTick(base.frame, base.bpm, sampleRate))
  }

  /** updateInternal: a rolling transport advances nframes and recomputes its tick; a stopped one stays. */
  function Advanced(s: TransportState, nframes: nat, sampleRate: nat, frameToTick: (nat, real, nat) -> int): (r: TransportState)
  {
    if !s.rolling then s
    else
      var moved := s.(sampleRate := sampleRate, frame := s.frame + nframes);
      moved.(tick := frameToTick(moved.frame, moved.bpm, sampleRate))
  }

  /** A stopped transport ignores the callback entirely. */
  lemma AdvancedStopped(s: TransportState, nframes: nat, sampleRate: nat, frameToTick: (nat, real, nat) -> int)
    requires !s.rolling
    ensures Advanced(s, nframes, sampleRate, frameToTick) == s
  {
  }

  /**
   * Advancing by a and then by b is advancing by a + b: the tick is always
   * recomputed from the frame, so block sizes do not accumulate rounding.
   */
  lemma AdvancedAdditive(s: TransportState, a: nat, b: nat, sampleRate: nat, frameToTick: (nat, real, nat) -> int)
    ensures Advanced(Advanced(s, a, sampleRate, frameToTick), b, sampleRate, frameToTick) ==
      Advanced(s, a + b, sampleRate, frameToTick)
  {
  }

  /** A rolling transport's tick is the conversion of its frame, and the frame only grows. */
  lemma AdvancedTracksFrame(s: TransportState, nframes: nat, sampleRate: nat, frameToTick: (nat, real, nat) -> int)
    requires s.rolling
    ensures Advanced(s, nframes, sampleRate, frameToTick).frame == s.frame + nframes
    ensures Advanced(s, nframes, sampleRate, frameToTick).tick ==
      frameToTick(s.frame + nframes, s.bpm, sampleRate)
    ensures Advanced(s, nframes, sampleRate, frameToTick).rolling
  {
  }

  class Transport {
    var state: TransportState
    /** TimeUtils::framesToTicks and ticksToFrames, which round a double. */
    const frameToTick: (nat, real, nat) -> int
    const tickToFrame: (int, real, nat) -> nat

    constructor (frameToTick: (nat, real, nat) -> int, tickToFrame: (int, real, nat) -> nat)
      ensures state == DefaultState
      ensures this.frameToTick == frameToTick && this.tickToFrame == tickToFrame
    {
      state := DefaultState;
      this.frameToTick := frameToTick;
      this.tickToFrame := tickToFrame;
    }

    method UpdateFromJack(pos: JackPosition, jackState: JackTransportState, sampleRate: nat)
      requires pos.bbtValid ==> pos.beatType != 0
      modifies this
      ensures state == FromJack(old(state), pos, jackState, sampleRate, frameToTick)
    {
      state := state.(rolling := jackState == JackRolling);
      state := state.(frame := pos.frame);
      state := state.(sampleRate := sampleRate);
      if pos.bbtValid {
        state := state.(bpm := pos.beatsPerMinute);
        state := state.(signature := JackSignature(pos));
        var ticksPerBar := TicksPerBar(state.signature);
        var ticksPerBeat := TicksPerBeat(state.signature);
        var bar := pos.bar - 1;
        var beat := pos.beat - 1;
        var tick := pos.tick;
        state := state.(tick := bar * ticksPerBar + beat * ticksPerBeat + tick);
      } else {
        var t := FrameToTick(state.frame, state.bpm, sampleRate);
        state := state.(tick := t);
      }
    }

    method UpdateInternal(nframes: nat, sampleRate: nat)
      modifies this
      ensures state == Advanced(old(state), nframes, sampleRate, frameToTick)
    {
      if !state.rolling {
        return;
      }
      state := state.(sampleRate := sampleRate);
      state := state.(frame := state.frame + nframes);
      var t := FrameToTick(state.frame, state.bpm, sampleRate);
      state := state.(tick := t);
    }

    method GetState() returns (s: TransportState)
      ensures s == state
    {
      s := state;
    }

    method Play()
      modifies this
      ensures state == old(state).(rolling := true)
    {
      state := state.(rolling := true);
    }

    method Stop()
      modifies this
      ensures state == old(state).(rolling := false)
    {
      state := state.(rolling := false);
    }

    /** The tick is set exactly; the frame follows by conversion at the current tempo and rate. */
    method SetPosition(tick: int)
      modifies this
      ensures state == old(state).(tick := tick, frame := tickToFrame(tick, old(state).bpm, old(state).sampleRate))
    {
      state := state.(tick := tick);
      var f := TickToFrame(tick, state.bpm, state.sampleRate);
      state := state.(frame := f);
    }

    method SetTempo(bpm: real)
      modifies this
      ensures state == old(state).(bpm := bpm)
    {
      state := state.(bpm := bpm);
    }

    method FrameToTick(frame: nat, bpm: real, sampleRate: nat) returns (t: int)
      ensures t == frameToTick(frame, bpm, sampleRate)
    {
      t := frameToTick(frame, bpm, sampleRate);
    }

    method TickToFrame(tick: int, bpm: real, sampleRate: nat) returns (f: nat)
      ensures f == tickToFrame(tick, bpm, sampleRate)
    {
      f := tickToFrame(tick, bpm, sampleRate);
    }

    method IsRolling() returns (b: bool)
      ensures b == state.rolling
    {
      b := state.rolling;
    }
  }
}

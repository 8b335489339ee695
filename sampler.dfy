/**
 * The polyphonic sampler (src/engine/Sampler.{hpp,cpp}): a fixed bank of 64
 * voices, each playing one sample from its current frame.  noteOn takes the
 * first idle voice and never steals a playing one; render mixes every active
 * voice into the two output buffers and releases a voice once its sample has
 * run out.  Audio is modelled with exact reals.
 */
module Samplers {
  import opened Options
  import opened Sequences
  import opened SampleLibraries

  /** The size of the voice bank. */
  const MaxVoices: nat := 64

  datatype Voice = Voice(
    sample: Option<Sample>,
    playbackPosition: nat,
    velocity: real,
    gain: real,
    pan: real,
    active: bool)

  /** The state Voice::reset leaves a voice in. */
  const IdleVoice: Voice := Voice(None, 0, 1.0, 1.0, 0.0, false)

  /** A playing voice holds a well-formed sample and has not passed its end. */
  ghost predicate VoiceValid(v: Voice)
  {
    v.active ==> v.sample.Some? && WellFormed(v.sample.value) && v.playbackPosition <= v.sample.value.lengthFrames
  }

  function IsFree(v: Voice): bool { !v.active }

  /** What noteOn accepts: a sample that is there and not empty. */
  predicate Playable(sample: Option<Sample>)
  {
    sample.Some? && sample.value.lengthFrames != 0
  }

  /** The number of playing voices. */
  function ActiveCount(vs: seq<Voice>): (n: nat)
    ensures n <= |vs|
  {
    if vs == [] then 0
    else ActiveCount(vs[..|vs| - 1]) + (if vs[|vs| - 1].active then 1 else 0)
  }

  /** Replacing one voice changes the count by what the two voices contribute. */
  lemma {:induction false} ActiveCountUpdate(vs: seq<Voice>, i: nat, v: Voice)
    requires i < |vs|
    ensures ActiveCount(vs[i := v]) ==
      ActiveCount(vs) - (if vs[i].active then 1 else 0) + (if v.active then 1 else 0)
  {
    var n := |vs| - 1;
    if i < n {
      assert vs[i := v][..n] == vs[..n][i := v];
      ActiveCountUpdate(vs[..n], i, v);
    } else {
      assert vs[i := v][..n] == vs[..n];
    }
  }

  /** Every voice plays exactly when the count reaches the bank size. */
  lemma {:induction false} ActiveCountFull(vs: seq<Voice>)
    ensures ActiveCount(vs) == |vs| <==> forall i :: 0 <= i < |vs| ==> vs[i].active
  {
    if vs != [] {
      var n := |vs| - 1;
      ActiveCountFull(vs[..n]);
      assert forall i :: 0 <= i < n ==> vs[..n][i] == vs[i];
    }
  }

  /** No voice plays when every voice is idle. */
  lemma {:induction false} ActiveCountIdle(vs: seq<Voice>)
    requires forall i :: 0 <= i < |vs| ==> vs[i] == IdleVoice
    ensures ActiveCount(vs) == 0
  {
    if vs != [] {
      ActiveCountIdle(vs[..|vs| - 1]);
    }
  }

  /** The voice bank after noteOn: the first idle voice starts the sample from frame 0. */
  function AfterNoteOn(vs: seq<Voice>, sample: Option<Sample>, velocity: real, gain: real, pan: real): (r: seq<Voice>)
    ensures |r| == |vs|
  {
    if !Playable(sample) then vs
    else match FirstIndex(vs, IsFree)
      case None => vs
      case Some(i) => vs[i := Voice(sample, 0, velocity, gain, pan, true)]
  }

  /** noteOn adds one playing voice when the sample is playable and a voice is free, and none otherwise. */
  lemma NoteOnCount(vs: seq<Voice>, sample: Option<Sample>, velocity: real, gain: real, pan: real)
    ensures ActiveCount(AfterNoteOn(vs, sample, velocity, gain, pan)) ==
      ActiveCount(vs) + (if Playable(sample) && ActiveCount(vs) < |vs| then 1 else 0)
  {
    ActiveCountFull(vs);
    if Playable(sample) {
      match FirstIndex(vs, IsFree)
      case None =>
      case Some(i) =>
        ActiveCountUpdate(vs, i, Voice(sample, 0, velocity, gain, pan, true));
    }
  }

  /** No voice stealing: noteOn leaves every playing voice as it was. */
  lemma NoteOnKeepsPlaying(vs: seq<Voice>, sample: Option<Sample>, velocity: real, gain: real, pan: real, j: nat)
    requires j < |vs| && vs[j].active
    ensures AfterNoteOn(vs, sample, velocity, gain, pan)[j] == vs[j]
  {
  }

  /** A started voice satisfies the voice invariant, so noteOn keeps the bank valid. */
  lemma NoteOnValid(vs: seq<Voice>, sample: Option<Sample>, velocity: real, gain: real, pan: real)
    requires forall i :: 0 <= i < |vs| ==> VoiceValid(vs[i])
    requires sample.Some? ==> WellFormed(sample.value)
    ensures forall i :: 0 <= i < |vs| ==> VoiceValid(AfterNoteOn(vs, sample, velocity, gain, pan)[i])
  {
  }

  /** n notes of the same playable sample in a row. */
  function NoteOns(vs: seq<Voice>, sample: Option<Sample>, velocity: real, gain: real, pan: real, n: nat): (r: seq<Voice>)
    ensures |r| == |vs|
  {
    if n == 0 then vs else AfterNoteOn(NoteOns(vs, sample, velocity, gain, pan, n - 1), sample, velocity, gain, pan)
  }

  /** Notes beyond the free voices are dropped: the bank saturates at its size. */
  lemma {:induction false} NoteOnsSaturate(vs: seq<Voice>, sample: Option<Sample>, velocity: real, gain: real, pan: real, n: nat)
    requires Playable(sample)
    ensures ActiveCount(NoteOns(vs, sample, velocity, gain, pan, n)) ==
      if ActiveCount(vs) + n <= |vs| then ActiveCount(vs) + n else |vs|
  {
    if n > 0 {
      NoteOnsSaturate(vs, sample, velocity, gain, pan, n - 1);
      NoteOnCount(NoteOns(vs, sample, velocity, gain, pan, n - 1), sample, velocity, gain, pan);
    }
  }

  /**
   * The pan law: full level on the side panned towards, the other side
   * reduced by the pan amount, so the right gain exceeds the left by pan.
   */
  function PanGains(pan: real): (g: (real, real))
    ensures g.1 - g.0 == pan
    ensures g.0 <= 1.0 && g.1 <= 1.0 && (g.0 == 1.0 || g.1 == 1.0)
    ensures -1.0 <= pan <= 1.0 ==> 0.0 <= g.0 && 0.0 <= g.1
  {
    if pan < 0.0 then (1.0, 1.0 + pan)
    else if pan > 0.0 then (1.0 - pan, 1.0)
    else (1.0, 1.0)
  }

  /** The gain applied to one channel of a voice. */
  function ChannelGain(v: Voice, isLeft: bool): real
  {
    var g := PanGains(v.pan);
    v.velocity * v.gain * (if isLeft then g.0 else g.1)
  }

  /** The frames of a block of count frames a voice fills before its sample runs out. */
  function Played(v: Voice, count: nat): (n: nat)
    requires VoiceValid(v)
    ensures n <= count
    ensures v.active && v.sample.Some? ==> v.playbackPosition + n <= v.sample.value.lengthFrames
  {
    if !v.active || v.sample.None? then 0
    else if count < v.sample.value.lengthFrames - v.playbackPosition then count
    else v.sample.value.lengthFrames - v.playbackPosition
  }

  /** The frames renderVoice is asked for: from startFrame up to nframes. */
  function Span(startFrame: nat, nframes: nat): nat
  {
    if startFrame < nframes then nframes - startFrame else 0
  }

  /** A voice after a block of count frames: released once it would read past its sample. */
  function VoiceAfter(v: Voice, count: nat): (r: Voice)
    requires VoiceValid(v)
    ensures VoiceValid(r)
  {
    if !v.active || v.sample.None? then v
    else if v.playbackPosition + count > v.sample.value.lengthFrames then IdleVoice
    else v.(playbackPosition := v.playbackPosition + count)
  }

  /** Rendering in two blocks leaves a voice where one block of the combined length does. */
  lemma RenderSplit(v: Voice, a: nat, b: nat)
    requires VoiceValid(v)
    ensures VoiceAfter(VoiceAfter(v, a), b) == VoiceAfter(v, a + b)
  {
  }

  /** A voice just started on a sample of N frames is still playing after n frames exactly when n <= N. */
  lemma FreshVoiceLifetime(v: Voice, n: nat)
    requires v.active && v.sample.Some? && v.playbackPosition == 0 && WellFormed(v.sample.value)
    ensures VoiceAfter(v, n).active <==> n <= v.sample.value.lengthFrames
    ensures n <= v.sample.value.lengthFrames ==> VoiceAfter(v, n).playbackPosition == n
  {
  }

  /** out with played frames of data from frame p added, scaled by g, from index start on. */
  function MixedChannel(out: seq<real>, data: seq<real>, p: nat, start: nat, played: nat, g: real): (r: seq<real>)
    requires p + played <= |data|
    ensures |r| == |out|
  {
    seq(|out|, i requires 0 <= i < |out| =>
      if start <= i < start + played then out[i] + data[p + i - start] * g else out[i])
  }

  /** One voice mixed into one channel over count frames from start. */
  function MixOne(out: seq<real>, v: Voice, start: nat, count: nat, isLeft: bool): (r: seq<real>)
    requires VoiceValid(v)
    ensures |r| == |out|
    ensures forall i :: 0 <= i < |out| && !(start <= i < start + count) ==> r[i] == out[i]
  {
    if !v.active || v.sample.None? then out
    else
      var s := v.sample.value;
      MixedChannel(out, if isLeft then s.dataLeft else s.dataRight, v.playbackPosition, start,
        Played(v, count), ChannelGain(v, isLeft))
  }

  /** Every voice of vs mixed into one channel over a block of nframes, in bank order. */
  function MixVoices(out: seq<real>, vs: seq<Voice>, nframes: nat, isLeft: bool): (r: seq<real>)
    requires forall i :: 0 <= i < |vs| ==> VoiceValid(vs[i])
    ensures |r| == |out|
  {
    if vs == [] then out
    else MixOne(MixVoices(out, vs[..|vs| - 1], nframes, isLeft), vs[|vs| - 1], 0, nframes, isLeft)
  }

  /** A render call writes only the first nframes samples of a buffer. */
  lemma {:induction false} MixVoicesBlock(out: seq<real>, vs: seq<Voice>, nframes: nat, isLeft: bool, i: nat)
    requires forall k :: 0 <= k < |vs| ==> VoiceValid(vs[k])
    requires nframes <= i < |out|
    ensures MixVoices(out, vs, nframes, isLeft)[i] == out[i]
  {
    if vs != [] {
      MixVoicesBlock(out, vs[..|vs| - 1], nframes, isLeft, i);
    }
  }

  /** A bank with no voice playing leaves the buffers as they were. */
  lemma {:induction false} MixVoicesSilent(out: seq<real>, vs: seq<Voice>, nframes: nat, isLeft: bool)
    requires forall k :: 0 <= k < |vs| ==> !vs[k].active
    ensures MixVoices(out, vs, nframes, isLeft) == out
  {
    if vs != [] {
      MixVoicesSilent(out, vs[..|vs| - 1], nframes, isLeft);
    }
  }

  /** Mixing one more frame adds sample frame q = p + n into output index i = start + n. */
  lemma MixedChannelStep(out: seq<real>, data: seq<real>, p: nat, start: nat, n: nat, g: real, i: nat, q: nat)
    requires i == start + n && q == p + n
    requires q < |data| && i < |out|
    ensures MixedChannel(out, data, p, start, n + 1, g) ==
      MixedChannel(out, data, p, start, n, g)[i := MixedChannel(out, data, p, start, n, g)[i] + data[q] * g]
  {
    var before := MixedChannel(out, data, p, start, n, g);
    var after := MixedChannel(out, data, p, start, n + 1, g);
    var stepped := before[i := before[i] + data[q] * g];
    forall j | 0 <= j < |out|
      ensures after[j] == stepped[j]
    {
      if j == i {
        assert before[j] == out[j];
      }
    }
  }

  /** Adds x to frame i of a buffer: one sample of a voice mixed in. */
  method MixFrame(out: array<real>, i: nat, x: real)
    requires i < out.Length
    modifies out
    ensures out[..] == old(out[..])[i := old(out[i]) + x]
  {
    out[i] := out[i] + x;
  }

  class Sampler {
    const voices: array<Voice>

    ghost predicate Valid()
      reads this, voices
    {
      voices.Length == MaxVoices && forall k :: 0 <= k < voices.Length ==> VoiceValid(voices[k])
    }

    /** Every voice starts idle. */
    constructor ()
      ensures Valid() && fresh(voices)
      ensures forall k :: 0 <= k < voices.Length ==> voices[k] == IdleVoice
    {
      voices := new Voice[MaxVoices](_ => IdleVoice);
    }

    /** The first idle voice, if any. */
    method AllocateVoice() returns (r: Option<nat>)
      ensures r == FirstIndex(voices[..], IsFree)
      ensures r.None? <==> forall k :: 0 <= k < voices.Length ==> voices[k].active
      ensures r.Some? ==> r.value < voices.Length && !voices[r.value].active
      ensures r.Some? ==> forall k :: 0 <= k < r.value ==> voices[k].active
    {
      var k := 0;
      while k < voices.Length
        invariant 0 <= k <= voices.Length
        invariant forall j :: 0 <= j < k ==> voices[j].active
      {
        if !voices[k].active {
          return Some(k);
        }
        k := k + 1;
      }
      return None;
    }

    /**
     * Starts the sample on the first idle voice; a missing or empty sample,
     * or a bank with every voice playing, is ignored.  The frame offset is
     * accepted and not used.
     */
    method NoteOn(sample: Option<Sample>, velocity: real, gain: real, pan: real, offsetFrames: nat)
      requires Valid()
      requires sample.Some? ==> WellFormed(sample.value)
      modifies voices
      ensures Valid()
      ensures voices[..] == AfterNoteOn(old(voices[..]), sample, velocity, gain, pan)
    {
      if sample.None? || sample.value.lengthFrames == 0 {
        return;
      }
      var slot := AllocateVoice();
      if slot.None? {
        return;
      }
      voices[slot.value] := Voice(sample, 0, velocity, gain, pan, true);
    }

    /** Every voice reset. */
    method AllNotesOff()
      requires Valid()
      modifies voices
      ensures Valid()
      ensures forall k :: 0 <= k < voices.Length ==> voices[k] == IdleVoice
    {
      var k := 0;
      while k < voices.Length
        invariant 0 <= k <= voices.Length
        invariant forall j :: 0 <= j < k ==> voices[j] == IdleVoice
        invariant forall j :: k <= j < voices.Length ==> voices[j] == old(voices[j])
      {
        voices[k] := IdleVoice;
        k := k + 1;
      }
    }

    method GetActiveVoiceCount() returns (n: nat)
      ensures n == ActiveCount(voices[..])
    {
      n := 0;
      var k := 0;
      while k < voices.Length
        invariant 0 <= k <= voices.Length
        invariant n == ActiveCount(voices[..k])
      {
        assert voices[..k + 1][..k] == voices[..k];
        if voices[k].active {
          n := n + 1;
        }
        k := k + 1;
      }
      assert voices[..voices.Length] == voices[..];
    }

    /**
     * Mixes voice k into both buffers from startFrame up to nframes; the
     * voice is reset when it reaches the end of its sample inside the block.
     */
    method RenderVoice(k: nat, outL: array<real>, outR: array<real>, startFrame: nat, nframes: nat)
      requires Valid() && k < voices.Length
      requires outL != outR && nframes <= outL.Length && nframes <= outR.Length
      modifies voices, outL, outR
      ensures Valid()
      ensures voices[..] == old(voices[..])[k := VoiceAfter(old(voices[k]), Span(startFrame, nframes))]
      ensures outL[..] == MixOne(old(outL[..]), old(voices[k]), startFrame, Span(startFrame, nframes), true)
      ensures outR[..] == MixOne(old(outR[..]), old(voices[k]), startFrame, Span(startFrame, nframes), false)
    {
      var v := voices[k];
      if !v.active || v.sample.None? {
        assert voices[..] == old(voices[..])[k := v];
        return;
      }
      var sample := v.sample.value;
      var sampleL, sampleR := sample.dataLeft, sample.dataRight;
      var panL, panR := 1.0, 1.0;
      if v.pan < 0.0 {
        panR := 1.0 + v.pan;
      } else if v.pan > 0.0 {
        panL := 1.0 - v.pan;
      }
      var gainL := v.velocity * v.gain * panL;
      var gainR := v.velocity * v.gain * panR;
      assert gainL == ChannelGain(v, true) && gainR == ChannelGain(v, false);
      ghost var initL, initR := outL[..], outR[..];
      ghost var start: nat := v.playbackPosition;
      var p := v.playbackPosition;
      var i := startFrame;
      ghost var n: nat := 0;
      while i < nframes
        invariant startFrame <= i && (i <= nframes || i == startFrame)
        invariant n == i - startFrame && p == start + n <= sample.lengthFrames
        invariant outL[..] == MixedChannel(initL, sampleL, start, startFrame, n, gainL)
        invariant outR[..] == MixedChannel(initR, sampleR, start, startFrame, n, gainR)
        invariant voices[..] == old(voices[..])
      {
        if p >= sample.lengthFrames {
          voices[k] := IdleVoice;
          assert Played(v, Span(startFrame, nframes)) == n;
          return;
        }
        MixedChannelStep(initL, sampleL, start, startFrame, n, gainL, i, p);
        MixedChannelStep(initR, sampleR, start, startFrame, n, gainR, i, p);
        MixFrame(outL, i, sampleL[p] * gainL);
        MixFrame(outR, i, sampleR[p] * gainR);
        p := p + 1;
        i := i + 1;
        n := n + 1;
      }
      voices[k] := v.(playbackPosition := p);
      assert Played(v, Span(startFrame, nframes)) == n;
    }

    /** Every playing voice mixed into both buffers over nframes, in bank order. */
    method Render(outL: array<real>, outR: array<real>, nframes: nat)
      requires Valid()
      requires outL != outR && nframes <= outL.Length && nframes <= outR.Length
      modifies voices, outL, outR
      ensures Valid()
      ensures forall k :: 0 <= k < voices.Length ==> voices[k] == VoiceAfter(old(voices[k]), nframes)
      ensures outL[..] == MixVoices(old(outL[..]), old(voices[..]), nframes, true)
      ensures outR[..] == MixVoices(old(outR[..]), old(voices[..]), nframes, false)
    {
      ghost var bank := voices[..];
      var k := 0;
      while k < voices.Length
        invariant 0 <= k <= voices.Length
        invariant Valid()
        invariant forall j :: 0 <= j < k ==> voices[j] == VoiceAfter(bank[j], nframes)
        invariant forall j :: k <= j < voices.Length ==> voices[j] == bank[j]
        invariant outL[..] == MixVoices(old(outL[..]), bank[..k], nframes, true)
        invariant outR[..] == MixVoices(old(outR[..]), bank[..k], nframes, false)
      {
        assert bank[..k + 1][..k] == bank[..k];
        if voices[k].active {
          RenderVoice(k, outL, outR, 0, nframes);
        }
        k := k + 1;
      }
      assert bank[..voices.Length] == bank;
    }
  }
}

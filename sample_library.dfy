/**
 * The sample cache (src/engine/SampleLibrary.{hpp,cpp}): decoded audio keyed
 * by file path.  The decoder (libsndfile) is not modelled; what it reports for
 * a file is an input of loadSample, and None stands for a file it cannot open.
 */
module SampleLibraries {
  import opened Options

  /** Decoded audio: both channel buffers hold lengthFrames values. */
  datatype Sample = Sample(
    dataLeft: seq<real>,
    dataRight: seq<real>,
    sampleRate: int,
    channels: int,
    lengthFrames: nat,
    filePath: string)

  /** The shape every loaded sample has, on which the sampler's reads rely. */
  predicate WellFormed(s: Sample)
  {
    |s.dataLeft| == s.lengthFrames && |s.dataRight| == s.lengthFrames
  }

  /** What the decoder reports: the header, the frames actually read and the interleaved buffer. */
  datatype Decoded = Decoded(channels: int, sampleRate: int, frames: nat, framesRead: nat, interleaved: seq<real>)

  /**
   * What an opened file gives: at least one channel, a buffer of
   * frames * channels values, and no more frames read than the header has.
   */
  predicate ValidDecode(d: Decoded)
  {
    d.channels >= 1 && |d.interleaved| == d.frames * d.channels && d.framesRead <= d.frames
  }

  /** The channel buffers s holds for decode d: mono duplicated, stereo split. */
  ghost predicate Deinterleaved(d: Decoded, left: seq<real>, right: seq<real>)
    requires ValidDecode(d) && d.channels <= 2
  {
    |left| == d.framesRead && |right| == d.framesRead &&
    if d.channels == 1 then
      forall i :: 0 <= i < d.framesRead ==> left[i] == d.interleaved[i] && right[i] == d.interleaved[i]
    else
      forall i :: 0 <= i < d.framesRead ==>
        (2 * i + 1 < |d.interleaved| && left[i] == d.interleaved[2 * i] && right[i] == d.interleaved[2 * i + 1])
  }

  lemma StereoBounds(d: Decoded, i: nat)
    requires ValidDecode(d) && d.channels == 2 && i < d.framesRead
    ensures 2 * i + 1 < |d.interleaved|
  {
    assert |d.interleaved| == 2 * d.frames;
  }

  /** The de-interleave loops of loadSample, into buffers resized to the frames read. */
  method Deinterleave(d: Decoded) returns (left: seq<real>, right: seq<real>)
    requires ValidDecode(d) && d.channels <= 2
    ensures Deinterleaved(d, left, right)
  {
    var n := d.framesRead;
    var l := new real[n](_ => 0.0);
    var r := new real[n](_ => 0.0);
    if d.channels == 1 {
      assert |d.interleaved| == d.frames;
      var i := 0;
      while i < n
        invariant 0 <= i <= n
        invariant forall k :: 0 <= k < i ==> l[k] == d.interleaved[k] && r[k] == d.interleaved[k]
      {
        l[i] := d.interleaved[i];
        r[i] := d.interleaved[i];
        i := i + 1;
      }
    } else {
      var i := 0;
      while i < n
        invariant 0 <= i <= n
        invariant forall k :: 0 <= k < i ==>
          (2 * k + 1 < |d.interleaved| && l[k] == d.interleaved[2 * k] && r[k] == d.interleaved[2 * k + 1])
      {
        StereoBounds(d, i);
        l[i] := d.interleaved[i * 2];
        r[i] := d.interleaved[i * 2 + 1];
        i := i + 1;
      }
    }
    left, right := l[..], r[..];
  }

  /** Frame-by-frame interleaving, left before right: the decoder's layout. */
  function Interleave(left: seq<real>, right: seq<real>): (r: seq<real>)
    requires |left| == |right|
    ensures |r| == 2 * |left|
  {
    if left == [] then [] else [left[0], right[0]] + Interleave(left[1..], right[1..])
  }

  lemma {:induction false} InterleaveAt(left: seq<real>, right: seq<real>, i: nat)
    requires |left| == |right| && i < |left|
    ensures Interleave(left, right)[2 * i] == left[i] && Interleave(left, right)[2 * i + 1] == right[i]
  {
    if i > 0 {
      InterleaveAt(left[1..], right[1..], i - 1);
    }
  }

  /** Splitting a stereo decode loses nothing: interleaving the channels gives back the frames read. */
  lemma StereoRoundTrip(d: Decoded, left: seq<real>, right: seq<real>)
    requires ValidDecode(d) && d.channels == 2
    requires Deinterleaved(d, left, right)
    ensures 2 * d.framesRead <= |d.interleaved|
    ensures Interleave(left, right) == d.interleaved[..2 * d.framesRead]
  {
    var n := d.framesRead;
    var il := Interleave(left, right);
    var prefix := d.interleaved[..2 * n];
    assert |d.interleaved| == 2 * d.frames;
    forall k | 0 <= k < 2 * n
      ensures il[k] == prefix[k]
    {
      var i := k / 2;
      InterleaveAt(left, right, i);
      if k % 2 == 0 {
        assert k == 2 * i;
      } else {
        assert k == 2 * i + 1;
      }
    }
  }

  /** A mono decode gives two identical channels, each the frames read. */
  lemma MonoChannelsEqual(d: Decoded, left: seq<real>, right: seq<real>)
    requires ValidDecode(d) && d.channels == 1
    requires Deinterleaved(d, left, right)
    ensures d.framesRead <= |d.interleaved|
    ensures left == right == d.interleaved[..d.framesRead]
  {
    assert |d.interleaved| == d.frames;
  }

  class SampleLibrary {
    var cache: map<string, Sample>

    /** Every cached sample is well formed and remembers its own path. */
    ghost predicate Valid()
      reads this
    {
      forall p :: p in cache ==> WellFormed(cache[p]) && cache[p].filePath == p
    }

    constructor ()
      ensures Valid() && cache == map[]
    {
      cache := map[];
    }

    /**
     * A cached path answers from the cache without decoding; a file that
     * cannot be opened or has more than two channels gives None and leaves the
     * cache alone; otherwise the decode is split into channels, cached and
     * returned.
     */
    method LoadSample(path: string, decoded: Option<Decoded>) returns (r: Option<Sample>)
      requires Valid()
      requires decoded.Some? ==> ValidDecode(decoded.value)
      modifies this
      ensures Valid()
      ensures path in old(cache) ==> r == Some(old(cache)[path]) && cache == old(cache)
      ensures path !in old(cache) && (decoded.None? || decoded.value.channels > 2) ==>
        r == None && cache == old(cache)
      ensures path !in old(cache) && decoded.Some? && decoded.value.channels <= 2 ==>
        r.Some? && cache == old(cache)[path := r.value] &&
        r.value.lengthFrames == decoded.value.framesRead &&
        r.value.channels == decoded.value.channels && r.value.sampleRate == decoded.value.sampleRate &&
        r.value.filePath == path && Deinterleaved(decoded.value, r.value.dataLeft, r.value.dataRight)
    {
      var cached := HasSample(path);
      if cached {
        return Some(cache[path]);
      }
      if decoded.None? {
        return None;
      }
      var d := decoded.value;
      if d.channels > 2 {
        return None;
      }
      var lengthFrames := d.frames;
      if d.framesRead != d.frames {
        lengthFrames := d.framesRead;
      }
      var left, right := Deinterleave(d);
      var sample := Sample(left, right, d.sampleRate, d.channels, lengthFrames, path);
      cache := cache[path := sample];
      return Some(sample);
    }

    method GetSample(path: string) returns (r: Option<Sample>)
      ensures r.None? <==> path !in cache
      ensures r.Some? ==> path in cache && r.value == cache[path]
    {
      if path in cache {
        r := Some(cache[path]);
      } else {
        r := None;
      }
    }

    method HasSample(path: string) returns (b: bool)
      ensures b <==> path in cache
    {
      b := path in cache;
    }

    /** Erases the one key. */
    method UnloadSample(path: string)
      requires Valid()
      modifies this
      ensures Valid()
      ensures cache == old(cache) - {path}
    {
      cache := cache - {path};
    }

    method Clear()
      modifies this
      ensures Valid() && cache == map[]
    {
      cache := map[];
    }

    method GetCacheSize() returns (n: nat)
      ensures n == |cache|
    {
      n := |cache|;
    }
  }
}

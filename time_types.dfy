/**
 * Musical time: 960 ticks per quarter note, time signatures, bar:beat:tick
 * positions and grid snapping (src/domain/TimeTypes.{hpp,cpp}).
 * Ticks are unbounded integers here; the source stores them in int64_t.
 */
module TimeTypes {
  import opened IntDiv

  /** Pulses (ticks) per quarter note. */
  const PPQ: int := 960

  /** A meter; the default is common time. */
  datatype TimeSignature = TimeSignature(numerator: int, denominator: int)

  const CommonTime: TimeSignature := TimeSignature(4, 4)

  /** A 0-based bar, a 0-based beat within the bar and a tick within the beat. */
  datatype MusicalPosition = MusicalPosition(bar: int, beat: int, tick: int)

  /** The length of one bar: numerator/denominator whole notes, rounded toward zero. */
  function TicksPerBar(sig: TimeSignature): int
    requires sig.denominator != 0
  {
    Quot(sig.numerator * 4 * PPQ, sig.denominator)
  }

  /** The length of one beat: a 1/denominator note, rounded toward zero. */
  function TicksPerBeat(sig: TimeSignature): int
    requires sig.denominator != 0
  {
    Quot(4 * PPQ, sig.denominator)
  }

  /** For a positive denominator the bar length is the whole notes of the bar divided toward zero. */
  lemma TicksPerBarBounds(sig: TimeSignature)
    requires sig.numerator >= 0 && sig.denominator > 0
    ensures 0 <= TicksPerBar(sig) * sig.denominator <= sig.numerator * 4 * PPQ < (TicksPerBar(sig) + 1) * sig.denominator
  {
    QuotIsDiv(sig.numerator * 4 * PPQ, sig.denominator);
    DivMod(sig.numerator * 4 * PPQ, sig.denominator);
  }

  /** For a positive denominator the beat length is a whole note divided toward zero, and positive up to 1/3840 notes. */
  lemma TicksPerBeatBounds(sig: TimeSignature)
    requires sig.denominator > 0
    ensures 0 <= TicksPerBeat(sig) * sig.denominator <= 4 * PPQ < (TicksPerBeat(sig) + 1) * sig.denominator
    ensures sig.denominator <= 4 * PPQ ==> TicksPerBeat(sig) > 0
  {
    QuotIsDiv(4 * PPQ, sig.denominator);
    DivMod(4 * PPQ, sig.denominator);
  }

  /** Signatures whose bar and beat lengths are usable as divisors. */
  predicate Divisible(sig: TimeSignature)
  {
    sig.denominator != 0 && TicksPerBar(sig) != 0 && TicksPerBeat(sig) != 0
  }

  /** A signature whose beat divides a whole note and whose bar has at least one beat. */
  predicate Regular(sig: TimeSignature)
  {
    sig.numerator > 0 && 0 < sig.denominator && (4 * PPQ) % sig.denominator == 0
  }

  /** In a regular signature a bar is exactly numerator beats. */
  lemma RegularBar(sig: TimeSignature)
    requires Regular(sig)
    ensures TicksPerBeat(sig) == (4 * PPQ) / sig.denominator > 0
    ensures TicksPerBar(sig) == sig.numerator * TicksPerBeat(sig)
    ensures Divisible(sig)
  {
    var b := (4 * PPQ) / sig.denominator;
    QuotIsDiv(4 * PPQ, sig.denominator);
    assert 4 * PPQ == b * sig.denominator;
    assert sig.numerator * 4 * PPQ == (sig.numerator * b) * sig.denominator;
    assert sig.numerator * b > 0;
    QuotUnique(sig.numerator * b, 0, sig.denominator);
  }

  /** Absolute tick to bar:beat:tick, with C++ division (toward zero). */
  function TickToPosition(t: int, sig: TimeSignature): (p: MusicalPosition)
    requires Divisible(sig)
    ensures t >= 0 && TicksPerBar(sig) > 0 && TicksPerBeat(sig) > 0 ==>
      p.bar >= 0 && p.beat >= 0 && 0 <= p.tick < TicksPerBeat(sig)
      && p.beat * TicksPerBeat(sig) + p.tick < TicksPerBar(sig)
  {
    var barLength := TicksPerBar(sig);
    var beatLength := TicksPerBeat(sig);
    var remainder := Rem(t, barLength);
    RemBounds(t, barLength);
    RemBounds(remainder, beatLength);
    MusicalPosition(Quot(t, barLength), Quot(remainder, beatLength), Rem(remainder, beatLength))
  }

  /** bar:beat:tick to absolute tick. */
  function PositionToTick(p: MusicalPosition, sig: TimeSignature): int
    requires sig.denominator != 0
  {
    p.bar * TicksPerBar(sig) + p.beat * TicksPerBeat(sig) + p.tick
  }

  /** Converting a tick to a position and back gives the tick, for every tick. */
  lemma TickPositionRoundTrip(t: int, sig: TimeSignature)
    requires Divisible(sig)
    ensures PositionToTick(TickToPosition(t, sig), sig) == t
  {
    var barLength := TicksPerBar(sig);
    var remainder := Rem(t, barLength);
    QuotRem(t, barLength);
    QuotRem(remainder, TicksPerBeat(sig));
    assert t == barLength * Quot(t, barLength) + remainder;
    assert remainder == TicksPerBeat(sig) * Quot(remainder, TicksPerBeat(sig)) + Rem(remainder, TicksPerBeat(sig));
  }

  /** Converting a normalised position to a tick and back gives the position. */
  lemma PositionTickRoundTrip(p: MusicalPosition, sig: TimeSignature)
    requires Regular(sig)
    requires p.bar >= 0 && 0 <= p.beat < sig.numerator && 0 <= p.tick < TicksPerBeat(sig)
    ensures Divisible(sig)
    ensures TickToPosition(PositionToTick(p, sig), sig) == p
  {
    RegularBar(sig);
    var beatLength := TicksPerBeat(sig);
    var barLength := TicksPerBar(sig);
    var within := p.beat * beatLength + p.tick;
    assert 0 <= within < barLength by {
      MulMonotone(0, p.beat, beatLength);
      MulMonotone(p.beat + 1, sig.numerator, beatLength);
      assert (p.beat + 1) * beatLength == p.beat * beatLength + beatLength;
    }
    QuotUnique(p.bar, within, barLength);
    QuotUnique(p.beat, p.tick, beatLength);
    assert PositionToTick(p, sig) == p.bar * barLength + within;
  }

  /**
   * The rounding rule written out in each of snapToBar, snapToBeat and
   * snapToGrid: keep the C++ remainder if it is below half the length
   * (rounded toward zero), otherwise move up to the next multiple.
   */
  function SnapTo(t: int, len: int): (r: int)
    requires len != 0
    ensures len > 1 && t < 0 ==> r == t - Rem(t, len)
  {
    var remainder := Rem(t, len);
    RemBounds(t, len);
    if remainder < Quot(len, 2) then
      t - remainder
    else
      t + (len - remainder)
  }

  /**
   * For a non-negative tick the result is the multiple of len just below or
   * just above t, and it is the one below exactly when the remainder is under
   * half the length.
   */
  lemma SnapToRounds(t: int, len: int)
    requires len > 0 && t >= 0
    ensures SnapTo(t, len) % len == 0
    ensures SnapTo(t, len) == t - t % len || SnapTo(t, len) == t - t % len + len
    ensures SnapTo(t, len) <= t <==> t % len < len / 2
  {
    QuotIsDiv(t, len);
    QuotIsDiv(len, 2);
    assert t - t % len == (t / len) * len;
    MulMod(t / len, len);
    MulMod(t / len + 1, len);
  }

  function SnapToBar(t: int, sig: TimeSignature): int
    requires sig.denominator != 0 && TicksPerBar(sig) != 0
  {
    SnapTo(t, TicksPerBar(sig))
  }

  function SnapToBeat(t: int, sig: TimeSignature): int
    requires sig.denominator != 0 && TicksPerBeat(sig) != 0
  {
    SnapTo(t, TicksPerBeat(sig))
  }

  /** The grid is PPQ / subdivision ticks: 1 quarter notes, 2 eighths, 4 sixteenths. */
  function GridSize(subdivision: int): int
    requires subdivision != 0
  {
    Quot(PPQ, subdivision)
  }

  function SnapToGrid(t: int, subdivision: int): int
    requires subdivision != 0 && GridSize(subdivision) != 0
  {
    SnapTo(t, GridSize(subdivision))
  }

  /** Snapping leaves a multiple of the length where it is (lengths of at least 2). */
  lemma SnapFixesMultiples(k: int, len: int)
    requires len > 1
    ensures SnapTo(k * len, len) == k * len
  {
    RemOfMultiple(k, len);
  }

  /** Snapping twice is snapping once (lengths of at least 2, any tick). */
  lemma SnapIdempotent(t: int, len: int)
    requires len > 1
    ensures SnapTo(SnapTo(t, len), len) == SnapTo(t, len)
  {
    var r := SnapTo(t, len);
    var q := Quot(t, len);
    assert t == len * q + Rem(t, len);
    if Rem(t, len) < Quot(len, 2) {
      assert r == q * len;
      SnapFixesMultiples(q, len);
    } else {
      assert r == (q + 1) * len;
      SnapFixesMultiples(q + 1, len);
    }
  }

  // ---- Snapping to the nearest multiple -----------------------------------------

  function Multiple(k: int, len: int): int { k * len }

  function Distance(a: int, b: int): nat { if a <= b then b - a else a - b }

  /**
   * Rounding to the nearest multiple of len (a midpoint rounds up), which the
   * comments "Round to nearest bar/beat/grid line" describe.
   */
  function SnapNearest(t: int, len: int): (r: int)
    requires len > 0
    ensures r % len == 0
    ensures 2 * Distance(t, r) <= len
    ensures 2 * (t % len) == len ==> r > t
  {
    var q, remainder := t / len, t % len;
    assert t == q * len + remainder && 0 <= remainder < len;
    if 2 * remainder < len then
      MulMod(q, len);
      q * len
    else
      MulMod(q + 1, len);
      assert (q + 1) * len == q * len + len;
      (q + 1) * len
  }

  /** No multiple of len is nearer to t than SnapNearest(t, len). */
  lemma {:induction false} SnapNearestIsNearest(t: int, len: int, k: int)
    requires len > 0
    ensures Distance(t, SnapNearest(t, len)) <= Distance(t, Multiple(k, len))
  {
    var q, rem := t / len, t % len;
    assert t == q * len + rem;
    if k <= q {
      assert k * len <= q * len;
      assert Distance(t, Multiple(k, len)) >= rem;
    } else {
      assert k * len >= (q + 1) * len;
      assert Distance(t, Multiple(k, len)) >= len - rem;
    }
  }

  /** For a non-negative tick and an even length the source's rule is the nearest multiple. */
  lemma SnapToIsNearestForEvenLengths(t: int, len: int)
    requires t >= 0 && len > 0 && len % 2 == 0
    ensures SnapTo(t, len) == SnapNearest(t, len)
  {
    QuotIsDiv(t, len);
    QuotIsDiv(len, 2);
  }

  /** For every odd length the source's rule rounds len / 2 up although 0 is nearer. */
  lemma SnapToMissesNearestForOddLengths(len: int)
    requires len > 0 && len % 2 == 1
    ensures SnapTo(len / 2, len) == len
    ensures SnapNearest(len / 2, len) == 0
  {
    QuotIsDiv(len / 2, len);
    QuotIsDiv(len, 2);
  }

  /** snapToGrid(68, 7): the grid is 137 ticks and 68 is nearer to 0 than to 137. */
  lemma SnapToGridOddGrid()
    ensures GridSize(7) == 137
    ensures SnapToGrid(68, 7) == 137
    ensures SnapNearest(68, GridSize(7)) == 0
  {
    SnapToMissesNearestForOddLengths(137);
  }

  /** With a one-tick grid (subdivision 960) every tick moves one tick later. */
  lemma SnapToGridUnitGrid(t: int)
    ensures GridSize(PPQ) == 1
    ensures SnapToGrid(t, PPQ) == t + 1
    ensures SnapNearest(t, GridSize(PPQ)) == t
  {
  }

  /** A negative tick snaps toward zero: -3000 in 4/4 becomes 0, not the nearer -3840. */
  lemma SnapToBarNegativeTick()
    ensures TicksPerBar(CommonTime) == 3840
    ensures SnapToBar(-3000, CommonTime) == 0
    ensures SnapNearest(-3000, TicksPerBar(CommonTime)) == -3840
  {
  }

  /** Values the unit tests of the time utilities expect. */
  lemma TimeUtilsExamples()
    ensures TicksPerBar(CommonTime) == 3840
    ensures TicksPerBar(TimeSignature(3, 4)) == 2880
    ensures TicksPerBar(TimeSignature(6, 8)) == 2880
    ensures TicksPerBeat(CommonTime) == 960
    ensures TicksPerBeat(TimeSignature(6, 8)) == 480
    ensures SnapToBar(0, CommonTime) == 0 && SnapToBar(3840, CommonTime) == 3840
    ensures SnapToBar(1000, CommonTime) == 0 && SnapToBar(3000, CommonTime) == 3840
    ensures SnapToBeat(400, CommonTime) == 0 && SnapToBeat(600, CommonTime) == 960
    ensures SnapToGrid(240, 2) == 480 && SnapToGrid(100, 4) == 0
  {
  }
}

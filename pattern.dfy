/**
 * Patterns: reusable sequences of note hits kept in offset order, and the
 * library that holds them by id (src/domain/Pattern.{hpp,cpp}).
 */
module Patterns {
  import opened Sequences
  import opened TimeTypes

  /** One hit: which instrument, at which tick inside the pattern, how loud. */
  datatype StepNote = StepNote(instrumentId: int, offsetTick: int, velocity: real, probability: real)

  const DefaultNote: StepNote := StepNote(0, 0, 0.8, 1.0)

  function OffsetOf(n: StepNote): int { n.offsetTick }

  function AtOffset(t: int): StepNote -> bool { (n: StepNote) => n.offsetTick == t }

  function ForInstrument(id: int): StepNote -> bool { (n: StepNote) => n.instrumentId == id }

  class Pattern {
    /** The id has no setter: it is fixed when the pattern is made. */
    const id: string
    var name: string
    var lengthTicks: int
    var notes: seq<StepNote>

    /** addNote keeps the notes in offset order. */
    ghost predicate Valid()
      reads this
    {
      SortedBy(notes, OffsetOf)
    }

    /** Pattern(): no id, no name, one 4/4 bar, no notes. */
    constructor Default()
      ensures Valid()
      ensures id == "" && name == "" && lengthTicks == 4 * PPQ && notes == []
    {
      id := "";
      name := "";
      lengthTicks := 4 * PPQ;
      notes := [];
    }

    constructor (id: string, name: string, lengthTicks: int)
      ensures Valid()
      ensures this.id == id && this.name == name && this.lengthTicks == lengthTicks && notes == []
    {
      this.id := id;
      this.name := name;
      this.lengthTicks := lengthTicks;
      notes := [];
    }

    /** The copy a library stores when a pattern is added by value. */
    constructor Copy(other: Pattern)
      ensures id == other.id && name == other.name
      ensures lengthTicks == other.lengthTicks && notes == other.notes
    {
      id := other.id;
      name := other.name;
      lengthTicks := other.lengthTicks;
      notes := other.notes;
    }

    method SetName(newName: string)
      modifies this
      ensures name == newName
      ensures lengthTicks == old(lengthTicks) && notes == old(notes)
    {
      name := newName;
    }

    method SetLengthTicks(ticks: int)
      modifies this
      ensures lengthTicks == ticks
      ensures name == old(name) && notes == old(notes)
    {
      lengthTicks := ticks;
    }

    /** Appends the note and re-sorts by offset; notes at equal offsets may come in any order. */
    method AddNote(note: StepNote)
      requires Valid()
      modifies this
      ensures Valid()
      ensures multiset(notes) == multiset(old(notes)) + multiset{note}
      ensures name == old(name) && lengthTicks == old(lengthTicks)
    {
      notes := SortByKey(notes + [note], OffsetOf);
    }

    /** Erases the note at index; an index past the end leaves the notes alone. */
    method RemoveNote(index: nat)
      requires Valid()
      modifies this
      ensures Valid()
      ensures index < |old(notes)| ==> notes == old(notes)[..index] + old(notes)[index + 1..]
      ensures index >= |old(notes)| ==> notes == old(notes)
      ensures name == old(name) && lengthTicks == old(lengthTicks)
    {
      if index < |notes| {
        RemoveAtSorted(notes, index);
        notes := notes[..index] + notes[index + 1..];
      }
    }

    method ClearNotes()
      modifies this
      ensures Valid() && notes == []
      ensures name == old(name) && lengthTicks == old(lengthTicks)
    {
      notes := [];
    }

    /** The notes at offset tick, in stored order. */
    method GetNotesAt(tick: int) returns (result: seq<StepNote>)
      ensures result == Filter(notes, AtOffset(tick))
    {
      result := [];
      var i := 0;
      while i < |notes|
        invariant 0 <= i <= |notes|
        invariant result == Filter(notes[..i], AtOffset(tick))
      {
        assert notes[..i + 1][..i] == notes[..i];
        if notes[i].offsetTick == tick {
          result := result + [notes[i]];
        }
        i := i + 1;
      }
      assert notes[..|notes|] == notes;
    }

    /** The notes of one instrument, in stored order. */
    method GetNotesForInstrument(instrumentId: int) returns (result: seq<StepNote>)
      ensures result == Filter(notes, ForInstrument(instrumentId))
    {
      result := [];
      var i := 0;
      while i < |notes|
        invariant 0 <= i <= |notes|
        invariant result == Filter(notes[..i], ForInstrument(instrumentId))
      {
        assert notes[..i + 1][..i] == notes[..i];
        if notes[i].instrumentId == instrumentId {
          result := result + [notes[i]];
        }
        i := i + 1;
      }
      assert notes[..|notes|] == notes;
    }
  }

  /** Erasing one note keeps the others sorted. */
  lemma RemoveAtSorted(ns: seq<StepNote>, index: nat)
    requires SortedBy(ns, OffsetOf) && index < |ns|
    ensures SortedBy(ns[..index] + ns[index + 1..], OffsetOf)
  {
    var r := ns[..index] + ns[index + 1..];
    forall i, j | 0 <= i < j < |r|
      ensures r[i].offsetTick <= r[j].offsetTick
    {
      var i', j' := if i < index then i else i + 1, if j < index then j else j + 1;
      assert r[i] == ns[i'] && r[j] == ns[j'];
    }
  }

  /** A note added to a pattern is among the notes found at its offset, and so is every note found before. */
  lemma AddedNoteIsFound(before: seq<StepNote>, after: seq<StepNote>, note: StepNote)
    requires multiset(after) == multiset(before) + multiset{note}
    ensures note in Filter(after, AtOffset(note.offsetTick))
    ensures forall n :: n in Filter(before, AtOffset(note.offsetTick)) ==> n in Filter(after, AtOffset(note.offsetTick))
  {
    assert note in multiset(after);
    forall n | n in Filter(before, AtOffset(note.offsetTick))
      ensures n in Filter(after, AtOffset(note.offsetTick))
    {
      assert n in multiset(after);
    }
  }

  function HasId(id: string): Pattern -> bool { (p: Pattern) => p.id == id }

  function IdIsNot(id: string): Pattern -> bool { (p: Pattern) => p.id != id }

  function IdOf(p: Pattern): string { p.id }

  /** getPattern: the first pattern with the id, or null. */
  function Find(ps: seq<Pattern>, id: string): (r: Pattern?)
    ensures r == null <==> forall i :: 0 <= i < |ps| ==> ps[i].id != id
    ensures r != null ==> r in ps && r.id == id
    ensures r != null ==> exists i :: 0 <= i < |ps| && ps[i] == r && forall j :: 0 <= j < i ==> ps[j].id != id
  {
    match FirstIndex(ps, HasId(id))
    case None => null
    case Some(i) => ps[i]
  }

  class PatternLibrary {
    var patterns: seq<Pattern>

    /** At most one pattern per id, each with its notes in offset order. */
    ghost predicate Valid()
      reads this, patterns
    {
      DistinctBy(patterns, IdOf) && forall i :: 0 <= i < |patterns| ==> patterns[i].Valid()
    }

    constructor ()
      ensures Valid() && patterns == []
    {
      patterns := [];
    }

    /** Replaces any pattern with the same id by a copy of pattern, placed last. */
    method AddPattern(pattern: Pattern)
      requires Valid() && pattern.Valid()
      modifies this
      ensures Valid()
      ensures |patterns| == |Filter(old(patterns), IdIsNot(pattern.id))| + 1
      ensures patterns[..|patterns| - 1] == Filter(old(patterns), IdIsNot(pattern.id))
      ensures fresh(patterns[|patterns| - 1])
      ensures patterns[|patterns| - 1].id == pattern.id && patterns[|patterns| - 1].name == pattern.name
      ensures patterns[|patterns| - 1].lengthTicks == pattern.lengthTicks
      ensures patterns[|patterns| - 1].notes == pattern.notes
      ensures Find(patterns, pattern.id) == patterns[|patterns| - 1]
    {
      RemovePattern(pattern.id);
      ghost var kept := patterns;
      var copy := new Pattern.Copy(pattern);
      AppendPattern(copy);
      assert patterns[..|patterns| - 1] == kept;
    }

    /** Places p last; its id is not yet in the library, so ids stay distinct. */
    method AppendPattern(p: Pattern)
      requires Valid() && p.Valid() && Find(patterns, p.id) == null
      modifies this
      ensures Valid() && patterns == old(patterns) + [p]
    {
      patterns := patterns + [p];
    }

    /** Erases the pattern with the id, keeping the others in order. */
    method RemovePattern(id: string)
      requires Valid()
      modifies this
      ensures Valid()
      ensures patterns == Filter(old(patterns), IdIsNot(id))
      ensures Find(patterns, id) == null
    {
      FilterDistinct(patterns, IdIsNot(id), IdOf);
      patterns := Filter(patterns, IdIsNot(id));
    }

    method GetPattern(id: string) returns (p: Pattern?)
      ensures p == Find(patterns, id)
    {
      p := Find(patterns, id);
    }

    method HasPattern(id: string) returns (b: bool)
      ensures b <==> exists i :: 0 <= i < |patterns| && patterns[i].id == id
    {
      var p := GetPattern(id);
      b := p != null;
    }

    method Clear()
      modifies this
      ensures Valid() && patterns == []
    {
      patterns := [];
    }
  }
}

/**
 * Instruments and the rack that keeps them by id (src/domain/Instrument.{hpp,cpp}).
 */
module Instruments {
  import opened Options
  import opened Sequences

  /** A drum voice: gain 0..1+, pan -1 (left) .. +1 (right), and the sample it plays. */
  datatype Instrument = Instrument(id: int, name: string, gain: real, pan: real, samplePath: string)
  {
    function WithName(n: string): (r: Instrument)
      ensures r.name == n && r.(name := name) == this
    {
      this.(name := n)
    }

    function WithGain(g: real): (r: Instrument)
      ensures r.gain == g && r.(gain := gain) == this
    {
      this.(gain := g)
    }

    function WithPan(p: real): (r: Instrument)
      ensures r.pan == p && r.(pan := pan) == this
    {
      this.(pan := p)
    }

    function WithSamplePath(path: string): (r: Instrument)
      ensures r.samplePath == path && r.(samplePath := samplePath) == this
    {
      this.(samplePath := path)
    }
  }

  /** Instrument(): id 0, named "Instrument", unity gain, centred, no sample. */
  const DefaultInstrument: Instrument := Instrument(0, "Instrument", 1.0, 0.0, "")

  /** Instrument(id, name): the other fields keep their defaults. */
  function NewInstrument(id: int, name: string): (r: Instrument)
    ensures r.id == id && r.name == name && r.(id := 0, name := "Instrument") == DefaultInstrument
  {
    DefaultInstrument.(id := id, name := name)
  }

  function IdOf(x: Instrument): int { x.id }

  /** getInstrument: the first instrument with the id. */
  function FindInstrument(xs: seq<Instrument>, id: int): (r: Option<Instrument>)
    ensures r.None? <==> forall i :: 0 <= i < |xs| ==> xs[i].id != id
    ensures r.Some? ==> r.value in xs && r.value.id == id
    ensures r.Some? ==>
      exists i :: 0 <= i < |xs| && xs[i] == r.value && forall j :: 0 <= j < i ==> xs[j].id != id
  {
    match FirstIndex(xs, (x: Instrument) => x.id == id)
    case None => None
    case Some(i) => Some(xs[i])
  }

  /** The rack after addInstrument(x): x replaces any instrument with its id, in id order. */
  function WithInstrument(xs: seq<Instrument>, x: Instrument): seq<Instrument>
  {
    InsertByKey(Filter(xs, KeyIsNot(IdOf, x.id)), x, IdOf)
  }

  class InstrumentRack {
    /** Instruments in strictly increasing id order. */
    var instruments: seq<Instrument>

    ghost predicate Valid()
      reads this
    {
      StrictlySortedBy(instruments, IdOf)
    }

    constructor ()
      ensures Valid() && instruments == []
    {
      instruments := [];
    }

    /** Erases any instrument with the same id, appends, and re-sorts by id. */
    method AddInstrument(instrument: Instrument)
      requires Valid()
      modifies this
      ensures Valid()
      ensures instruments == WithInstrument(old(instruments), instrument)
    {
      RemoveInstrument(instrument.id);
      instruments := instruments + [instrument];
      instruments := SortByKey(instruments, IdOf);
      ReplaceByKey(old(instruments), instrument, IdOf, instruments);
    }

    /** Erases the instrument with the id, keeping the others in order. */
    method RemoveInstrument(id: int)
      requires Valid()
      modifies this
      ensures Valid()
      ensures instruments == Filter(old(instruments), KeyIsNot(IdOf, id))
    {
      FilterStrictlySorted(instruments, KeyIsNot(IdOf, id), IdOf);
      instruments := Filter(instruments, KeyIsNot(IdOf, id));
    }

    method GetInstrument(id: int) returns (r: Option<Instrument>)
      ensures r == FindInstrument(instruments, id)
    {
      r := FindInstrument(instruments, id);
    }

    method HasInstrument(id: int) returns (b: bool)
      ensures b <==> exists i :: 0 <= i < |instruments| && instruments[i].id == id
    {
      var r := GetInstrument(id);
      b := r.Some?;
    }

    method Clear()
      modifies this
      ensures Valid() && instruments == []
    {
      instruments := [];
    }

    /** One more than the largest id, counting from 0; 1 for an empty rack. */
    method GetNextId() returns (next: int)
      ensures next >= 1
      ensures forall i :: 0 <= i < |instruments| ==> instruments[i].id < next
      ensures next == 1 || exists i :: 0 <= i < |instruments| && instruments[i].id == next - 1
    {
      if |instruments| == 0 {
        return 1;
      }
      var maxId := 0;
      var i := 0;
      while i < |instruments|
        invariant 0 <= i <= |instruments|
        invariant maxId >= 0
        invariant forall j :: 0 <= j < i ==> instruments[j].id <= maxId
        invariant maxId == 0 || exists j :: 0 <= j < i && instruments[j].id == maxId
      {
        if instruments[i].id > maxId {
          maxId := instruments[i].id;
        }
        i := i + 1;
      }
      next := maxId + 1;
    }
  }

  /** addInstrument keeps ids strictly increasing; the rack holds x and the instruments with other ids. */
  lemma WithInstrumentContents(xs: seq<Instrument>, x: Instrument)
    requires StrictlySortedBy(xs, IdOf)
    ensures StrictlySortedBy(WithInstrument(xs, x), IdOf)
    ensures x in WithInstrument(xs, x)
    ensures forall y :: y in WithInstrument(xs, x) && y.id != x.id <==> y in xs && y.id != x.id
  {
    WithInstrumentSorted(xs, x);
    forall y
      ensures y in WithInstrument(xs, x) <==> y == x || (y in xs && y.id != x.id)
    {
      WithInstrumentMember(xs, x, y);
    }
  }

  lemma WithInstrumentSorted(xs: seq<Instrument>, x: Instrument)
    requires StrictlySortedBy(xs, IdOf)
    ensures StrictlySortedBy(WithInstrument(xs, x), IdOf)
  {
    var f := Filter(xs, KeyIsNot(IdOf, x.id));
    FilterStrictlySorted(xs, KeyIsNot(IdOf, x.id), IdOf);
    assert forall i :: 0 <= i < |f| ==> KeyIsNot(IdOf, x.id)(f[i]);
    InsertStrictlySorted(f, x, IdOf);
  }

  lemma WithInstrumentMember(xs: seq<Instrument>, x: Instrument, y: Instrument)
    ensures y in WithInstrument(xs, x) <==> y == x || (y in xs && y.id != x.id)
  {
    var f := Filter(xs, KeyIsNot(IdOf, x.id));
    InsertMember(f, x, IdOf, y);
    FilterMember(xs, KeyIsNot(IdOf, x.id), y);
    assert KeyIsNot(IdOf, x.id)(y) == (IdOf(y) != x.id);
  }

  /** After addInstrument(x), looking up x's id gives x. */
  lemma AddThenFind(xs: seq<Instrument>, x: Instrument)
    requires StrictlySortedBy(xs, IdOf)
    ensures FindInstrument(WithInstrument(xs, x), x.id) == Some(x)
  {
    WithInstrumentContents(xs, x);
    UniqueIdLookup(WithInstrument(xs, x), x);
  }

  /** After addInstrument(x), looking up any other id gives what it gave before. */
  lemma AddThenFindOther(xs: seq<Instrument>, x: Instrument, id: int)
    requires StrictlySortedBy(xs, IdOf) && id != x.id
    ensures FindInstrument(WithInstrument(xs, x), id) == FindInstrument(xs, id)
  {
    var r := WithInstrument(xs, x);
    WithInstrumentContents(xs, x);
    match FindInstrument(xs, id)
    case None =>
    case Some(y) =>
      assert y in r;
      UniqueIdLookup(r, y);
  }

  /** With ids unique, the lookup of an instrument's id finds that instrument. */
  lemma UniqueIdLookup(xs: seq<Instrument>, x: Instrument)
    requires StrictlySortedBy(xs, IdOf) && x in xs
    ensures FindInstrument(xs, x.id) == Some(x)
  {
    var k :| 0 <= k < |xs| && xs[k] == x;
    var y := FindInstrument(xs, x.id).value;
    var m :| 0 <= m < |xs| && xs[m] == y;
    assert IdOf(xs[k]) == IdOf(xs[m]);
  }

  /** The next id is unused, so adding an instrument under it never replaces one. */
  lemma NextIdIsUnused(xs: seq<Instrument>, next: int)
    requires forall i :: 0 <= i < |xs| ==> xs[i].id < next
    ensures FindInstrument(xs, next) == None
    ensures Filter(xs, KeyIsNot(IdOf, next)) == xs
  {
    forall i | 0 <= i < |xs|
      ensures KeyIsNot(IdOf, next)(xs[i])
    {
      assert IdOf(xs[i]) < next;
    }
    FilterKeepsAll(xs, KeyIsNot(IdOf, next));
  }

  /** An instrument whose id is above every id in the rack is appended. */
  lemma AddAboveAll(xs: seq<Instrument>, x: Instrument)
    requires forall i :: 0 <= i < |xs| ==> xs[i].id < x.id
    ensures WithInstrument(xs, x) == xs + [x]
  {
    NextIdIsUnused(xs, x.id);
    assert forall i :: 0 <= i < |xs| ==> IdOf(xs[i]) <= IdOf(x);
    InsertByKeyLast(xs, x, IdOf);
  }

  lemma {:induction false} FilterKeepsAll<T>(s: seq<T>, keep: T -> bool)
    requires forall i :: 0 <= i < |s| ==> keep(s[i])
    ensures Filter(s, keep) == s
  {
    if s != [] {
      FilterKeepsAll(s[..|s| - 1], keep);
    }
  }
}

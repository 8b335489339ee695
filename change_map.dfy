/**
 * The shared shape of the tempo map and the meter map: a list of changes, each
 * taking effect at a tick, kept in increasing tick order with at most one change
 * per tick (src/domain/TempoMap.cpp, src/domain/MeterMap.cpp).
 */
module ChangeMaps {
  import opened Sequences

  /** A value (a tempo or a time signature) taking effect at atTick. */
  datatype Change<V> = Change(atTick: int, value: V)

  function AtTick<V>(c: Change<V>): int { c.atTick }

  /** Strictly increasing ticks: sorted, and no two changes at one tick. */
  ghost predicate Increasing<V>(cs: seq<Change<V>>)
  {
    StrictlySortedBy(cs, AtTick)
  }

  /** The changes that removeChangeAt(t) keeps, in their order. */
  function Without<V(==)>(cs: seq<Change<V>>, t: int): (r: seq<Change<V>>)
    ensures forall i :: 0 <= i < |r| ==> r[i] in cs && r[i].atTick != t
    ensures forall i :: 0 <= i < |cs| && cs[i].atTick != t ==> cs[i] in r
  {
    Filter(cs, KeyIsNot(AtTick, t))
  }

  /** removeChangeAt keeps the map increasing. */
  lemma WithoutIncreasing<V>(cs: seq<Change<V>>, t: int)
    requires Increasing(cs)
    ensures Increasing(Without(cs, t))
  {
    FilterStrictlySorted(cs, KeyIsNot(AtTick, t), AtTick);
  }

  /** The changes after addChange(t, v): those at other ticks plus the new one, in tick order. */
  function Replace<V(==)>(cs: seq<Change<V>>, t: int, v: V): seq<Change<V>>
  {
    InsertByKey(Without(cs, t), Change(t, v), AtTick)
  }

  /** addChange keeps the map increasing. */
  lemma ReplaceIncreasing<V>(cs: seq<Change<V>>, t: int, v: V)
    requires Increasing(cs)
    ensures Increasing(Replace(cs, t, v))
  {
    WithoutIncreasing(cs, t);
    InsertStrictlySorted(Without(cs, t), Change(t, v), AtTick);
  }

  /** After addChange(t, v) the new change is the only one at t and the others are kept. */
  lemma ReplaceMembers<V>(cs: seq<Change<V>>, t: int, v: V)
    ensures Change(t, v) in Replace(cs, t, v)
    ensures forall c :: c in Replace(cs, t, v) && c.atTick == t ==> c == Change(t, v)
    ensures forall c :: c in Replace(cs, t, v) && c.atTick != t <==> c in cs && c.atTick != t
  {
    var w := Without(cs, t);
    var r := Replace(cs, t, v);
    forall c
      ensures c in r <==> c in w || c == Change(t, v)
    {
      assert c in r <==> c in multiset(r);
      assert c in w <==> c in multiset(w);
    }
    forall c | c in cs && c.atTick != t
      ensures c in w
    {
      var i :| 0 <= i < |cs| && cs[i] == c;
    }
    forall c | c in w
      ensures c in cs && c.atTick != t
    {
      var i :| 0 <= i < |w| && w[i] == c;
    }
    forall c | c in r && c.atTick == t
      ensures c == Change(t, v)
    {
      assert c in multiset(r);
    }
  }

  /**
   * The index of the last change at or before t.  It exists once the first
   * change is at or before t.
   */
  function Segment<V>(cs: seq<Change<V>>, t: int): (i: nat)
    requires Increasing(cs) && cs != [] && cs[0].atTick <= t
    ensures i < |cs| && cs[i].atTick <= t
    ensures forall j :: i < j < |cs| ==> t < cs[j].atTick
  {
    if cs[|cs| - 1].atTick <= t then |cs| - 1
    else Segment(cs[..|cs| - 1], t)
  }

  /** A change at or before t whose successor (if any) lies after t is the segment of t. */
  lemma SegmentUnique<V>(cs: seq<Change<V>>, t: int, i: nat)
    requires Increasing(cs) && i < |cs| && cs[i].atTick <= t
    requires i + 1 < |cs| ==> t < cs[i + 1].atTick
    ensures Segment(cs, t) == i
  {
    var j := Segment(cs, t);
  }

  /**
   * The value in force at t: the last change at or before t; before the first
   * change, the first change's value; with no changes, the fallback.
   */
  function ValueAt<V>(cs: seq<Change<V>>, t: int, fallback: V): V
    requires Increasing(cs)
  {
    if cs == [] then fallback
    else if t < cs[0].atTick then cs[0].value
    else cs[Segment(cs, t)].value
  }

  /**
   * The scan getBpmAt and getSignatureAt perform: start from the first change and
   * take each change up to the first one after t.
   */
  method LatestValue<V>(cs: seq<Change<V>>, t: int, fallback: V) returns (v: V)
    requires Increasing(cs)
    ensures v == ValueAt(cs, t, fallback)
  {
    if |cs| == 0 {
      return fallback;
    }
    v := cs[0].value;
    var i := 0;
    while i < |cs|
      invariant 0 <= i <= |cs|
      invariant forall j :: 0 <= j < i ==> cs[j].atTick <= t
      invariant v == cs[if i == 0 then 0 else i - 1].value
    {
      if cs[i].atTick <= t {
        v := cs[i].value;
      } else {
        break;
      }
      i := i + 1;
    }
    if i > 0 {
      SegmentUnique(cs, t, i - 1);
    }
  }

  /** After addChange(t, v) the value at t is v. */
  lemma ReplaceThenValueAt<V>(cs: seq<Change<V>>, t: int, v: V, fallback: V)
    requires Increasing(cs)
    ensures Increasing(Replace(cs, t, v))
    ensures ValueAt(Replace(cs, t, v), t, fallback) == v
  {
    ReplaceIncreasing(cs, t, v);
    ReplaceMembers(cs, t, v);
    var r := Replace(cs, t, v);
    var k :| 0 <= k < |r| && r[k] == Change(t, v);
    if t >= r[0].atTick {
      SegmentUnique(r, t, k);
    }
  }

  /** Within the span of one change the value does not vary: piecewise constant. */
  lemma ValueAtConstantOnSegment<V>(cs: seq<Change<V>>, i: nat, t: int, fallback: V)
    requires Increasing(cs) && i < |cs| && cs[i].atTick <= t
    requires i + 1 < |cs| ==> t < cs[i + 1].atTick
    ensures ValueAt(cs, t, fallback) == cs[i].value
  {
    assert cs[0].atTick <= cs[i].atTick;
    SegmentUnique(cs, t, i);
  }
}

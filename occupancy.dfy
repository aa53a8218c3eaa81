/**
 * The occupancy index: which marble sits in each slot once the marble list
 * has been placed in order. Later marbles overwrite earlier ones in the same
 * slot; positions outside the three tables are ignored.
 */
module Occupancy {
  import opened Wrappers
  import opened Slots

  /** A playing piece as delivered by the server. */
  datatype Marble = Marble(id: int, color: string, position: int)

  /** Placing m writes the table entry for slot s. */
  predicate Lands(m: Marble, s: Slot)
  {
    InBounds(s) && Decode(m.position) == s
  }

  /**
   * Reference definition of the occupancy index: the occupant of s after
   * placing ms from first to last is the last marble that lands on s.
   */
  function Occupant(ms: seq<Marble>, s: Slot): (r: Option<Marble>)
    ensures r.Some? ==> r.value in ms && Lands(r.value, s)
    decreases |ms|
  {
    if ms == [] then None
    else if Lands(ms[|ms| - 1], s) then Some(ms[|ms| - 1])
    else Occupant(ms[..|ms| - 1], s)
  }

  /** One step of the placement loop: m takes its own slot, nothing else changes. */
  lemma PlaceOne(ms: seq<Marble>, m: Marble, s: Slot)
    ensures Occupant(ms + [m], s) == if Lands(m, s) then Some(m) else Occupant(ms, s)
  {
  }

  /** A marble not followed by another marble on its slot is that slot's occupant. */
  lemma {:induction false} LastWriterWins(ms: seq<Marble>, j: nat)
    requires j < |ms| && ValidPosition(ms[j].position)
    requires forall k :: j < k < |ms| ==> ms[k].position != ms[j].position
    ensures Occupant(ms, Decode(ms[j].position)) == Some(ms[j])
    decreases |ms|
  {
    var s := Decode(ms[j].position);
    var n := |ms| - 1;
    if j < n {
      if Lands(ms[n], s) {
        DecodeInjective(ms[n].position, ms[j].position);
        assert false;
      }
      var prefix := ms[..n];
      assert prefix[j] == ms[j];
      LastWriterWins(prefix, j);
    }
  }

  /** Conversely, an occupant is a marble of the list that no later marble displaced. */
  lemma {:induction false} OccupantIsLastWriter(ms: seq<Marble>, s: Slot) returns (j: nat)
    requires Occupant(ms, s).Some?
    ensures j < |ms| && Occupant(ms, s) == Some(ms[j]) && Lands(ms[j], s)
    ensures forall k :: j < k < |ms| ==> !Lands(ms[k], s)
    decreases |ms|
  {
    var n := |ms| - 1;
    if Lands(ms[n], s) {
      j := n;
    } else {
      var prefix := ms[..n];
      j := OccupantIsLastWriter(prefix, s);
      assert prefix[j] == ms[j];
      forall k | j < k < |ms| ensures !Lands(ms[k], s) {
        if k < n {
          assert prefix[k] == ms[k];
        }
      }
    }
  }

  /** A slot is empty exactly when no marble of the list lands on it. */
  lemma {:induction false} EmptySlot(ms: seq<Marble>, s: Slot)
    ensures Occupant(ms, s).None? <==> forall k :: 0 <= k < |ms| ==> !Lands(ms[k], s)
    decreases |ms|
  {
    if ms != [] {
      var n := |ms| - 1;
      var prefix := ms[..n];
      EmptySlot(prefix, s);
      assert forall k :: 0 <= k < n ==> prefix[k] == ms[k];
    }
  }

  /** Every slot of the three tables. */
  ghost function AllSlots(): set<Slot>
  {
    (set i | 0 <= i < Capacity(Home) :: Slot(Home, i))
    + (set i | 0 <= i < Capacity(Step) :: Slot(Step, i))
    + (set i | 0 <= i < Capacity(House) :: Slot(House, i))
  }

  /** The occupied entries across the three tables. */
  ghost function Occupied(ms: seq<Marble>): set<Slot>
  {
    set s | s in AllSlots() && Occupant(ms, s).Some?
  }

  /**
   * With every position valid and no two marbles on one position, the three
   * tables hold exactly one entry per marble: none lost, none duplicated.
   */
  lemma {:induction false} OccupiedCount(ms: seq<Marble>)
    requires forall k :: 0 <= k < |ms| ==> ValidPosition(ms[k].position)
    requires forall j, k :: 0 <= j < k < |ms| ==> ms[j].position != ms[k].position
    ensures |Occupied(ms)| == |ms|
    decreases |ms|
  {
    if ms == [] {
      assert Occupied(ms) == {};
    } else {
      var n := |ms| - 1;
      var prefix, m := ms[..n], ms[n];
      assert ms == prefix + [m];
      var s := Decode(m.position);
      assert s in AllSlots() by {
        match s.space
        case Home => assert s == Slot(Home, s.index);
        case Step => assert s == Slot(Step, s.index);
        case House => assert s == Slot(House, s.index);
      }
      forall t ensures Occupant(ms, t) == if Lands(m, t) then Some(m) else Occupant(prefix, t) {
        PlaceOne(prefix, m, t);
      }
      if s in Occupied(prefix) {
        var j := OccupantIsLastWriter(prefix, s);
        assert ms[j] == prefix[j];
        DecodeInjective(prefix[j].position, m.position);
        assert false;
      }
      assert Occupied(ms) == Occupied(prefix) + {s};
      OccupiedCount(prefix);
    }
  }
}

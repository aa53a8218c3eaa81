/**
 * The board's unified position space. A single signed integer names a cell:
 * a negative number is a home slot, a number from 1000 up is a house slot,
 * and anything else is a step of the shared path.
 */
module Slots {

  datatype Space = Home | Step | House

  /** A cell as (space, index into that space's table). */
  datatype Slot = Slot(space: Space, index: int)

  /** House positions start here. */
  const HouseBase: int := 1000

  /** Sizes of the three preallocated occupancy tables. */
  function Capacity(sp: Space): nat
  {
    match sp
    case Home => 16
    case Step => 64
    case House => 16
  }

  predicate InBounds(s: Slot)
  {
    0 <= s.index < Capacity(s.space)
  }

  /** The positions that name a real cell: [-16,-1], [0,63] and [1000,1015]. */
  predicate ValidPosition(p: int)
  {
    -16 <= p <= -1 || 0 <= p <= 63 || 1000 <= p <= 1015
  }

  /** How the placement loop reads a marble's position. */
  function Decode(p: int): (s: Slot)
    ensures s.space == Home <==> p < 0
    ensures s.space == House <==> p >= HouseBase
    ensures s.index >= 0
    ensures InBounds(s) <==> ValidPosition(p)
  {
    if p < 0 then Slot(Home, -(p + 1))
    else if p >= HouseBase then Slot(House, p - HouseBase)
    else Slot(Step, p)
  }

  /** The position naming an in-bounds slot; the inverse of Decode. */
  function Encode(s: Slot): (p: int)
    requires InBounds(s)
    ensures ValidPosition(p)
    ensures Decode(p) == s
  {
    match s.space
    case Home => -s.index - 1
    case Step => s.index
    case House => s.index + HouseBase
  }

  lemma EncodeDecode(p: int)
    requires ValidPosition(p)
    ensures Encode(Decode(p)) == p
  {
  }

  /** Two positions that decode to the same slot are the same position. */
  lemma DecodeInjective(p: int, q: int)
    requires Decode(p) == Decode(q)
    ensures p == q
  {
  }

  /** How the click handler reads a clicked cell id: the same slot as placement. */
  function ClickSlot(id: int): (s: Slot)
    ensures s == Decode(id)
    ensures s.space == Home <==> id < 0
  {
    if id < 0 then Slot(Home, -id - 1)
    else if id >= HouseBase then Slot(House, id - HouseBase)
    else Slot(Step, id)
  }

  /**
   * How a rendered cell finds its table entry: each geometry collection
   * (steps, homes, houses) reads one fixed table with its own index formula.
   */
  function RenderSlot(kind: Space, id: int): (s: Slot)
    ensures s.space == kind
    ensures Decode(id).space == kind ==> s == Decode(id)
    ensures InBounds(s) ==> Encode(s) == id
  {
    match kind
    case Home => Slot(Home, -id - 1)
    case Step => Slot(Step, id)
    case House => Slot(House, id - HouseBase)
  }
}

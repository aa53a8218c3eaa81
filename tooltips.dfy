/**
 * Tooltip state and its quadrant-flip placement. Percentages are the numeric
 * value of a cell's coordinate strings; the fixed 10px margin the tooltip
 * keeps from the clicked point is implicit in every placement.
 */
module Tooltips {
  import opened Wrappers

  datatype HAnchor = Left | Right
  datatype VAnchor = Top | Bottom

  /**
   * Where the tooltip grows from: the edge it is anchored to on each axis and
   * its distance from that edge, in percent of the board.
   */
  datatype Placement = Placement(h: HAnchor, xOffset: real, v: VAnchor, yOffset: real)

  /** The component's tooltip state; a closed tooltip carries no placement. */
  datatype Tooltip = Tooltip(visible: bool, placement: Option<Placement>)

  /** The state on mount: hidden, at offset 0 from the top-left corner. */
  const Initial: Tooltip := Tooltip(false, Some(Placement(Left, 0.0, Top, 0.0)))

  /** The state after an explicit close: only `visible: false` remains. */
  const Closed: Tooltip := Tooltip(false, None)

  /** Integer part of a number, rounding toward zero, as parseInt reads "49.9%". */
  function Trunc(r: real): (t: int)
    ensures 0.0 <= r ==> 0 <= t && t as real <= r < t as real + 1.0
    ensures r < 0.0 ==> t <= 0 && t as real - 1.0 < r <= t as real
  {
    if r >= 0.0 then r.Floor else -((-r).Floor)
  }

  /** Distance from the nearer board edge on one axis (the parseFloat test). */
  function AxisOffset(pct: real): real
  {
    if pct < 50.0 then pct else 100.0 - pct
  }

  /** The anchor test on one axis (the parseInt test): true for left/top. */
  predicate NearHalf(pct: real)
  {
    Trunc(pct) < 50
  }

  /**
   * The placement for a click at (x, y) percent. The anchor test on the
   * truncated coordinate always agrees with the offset test on the exact one,
   * so the anchored corner sits on the clicked point and, for coordinates on
   * the board, never lies more than half the board away from its edge.
   */
  function PlaceAt(x: real, y: real): (p: Placement)
    ensures p.h == Left <==> x < 50.0
    ensures p.v == Top <==> y < 50.0
    ensures (if p.h == Left then p.xOffset else 100.0 - p.xOffset) == x
    ensures (if p.v == Top then p.yOffset else 100.0 - p.yOffset) == y
    ensures 0.0 <= x <= 100.0 ==> 0.0 <= p.xOffset <= 50.0
    ensures 0.0 <= y <= 100.0 ==> 0.0 <= p.yOffset <= 50.0
  {
    Placement(
      if NearHalf(x) then Left else Right, AxisOffset(x),
      if NearHalf(y) then Top else Bottom, AxisOffset(y))
  }

  /** Cells mirrored across the vertical midline get mirrored anchors and equal offsets. */
  lemma MirrorX(x: real, y: real)
    requires 0.0 <= x < 50.0
    ensures PlaceAt(x, y).h == Left && PlaceAt(100.0 - x, y).h == Right
    ensures PlaceAt(x, y).xOffset == PlaceAt(100.0 - x, y).xOffset == x
  {
  }

  /** Cells mirrored across the horizontal midline get mirrored anchors and equal offsets. */
  lemma MirrorY(x: real, y: real)
    requires 0.0 <= y < 50.0
    ensures PlaceAt(x, y).v == Top && PlaceAt(x, 100.0 - y).v == Bottom
    ensures PlaceAt(x, y).yOffset == PlaceAt(x, 100.0 - y).yOffset == y
  {
  }
}

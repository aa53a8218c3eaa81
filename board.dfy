/**
 * The board component: it rebuilds the three occupancy tables from the marble
 * list on every render, routes a click on a cell to the marble-selected
 * callback, and keeps the tooltip state across renders.
 */
module BoardComponent {
  import opened Wrappers
  import opened Slots
  import opened Occupancy
  import opened Tooltips
  import opened View

  /** A clickable cell of the board geometry; x and y in percent of the board. */
  datatype Cell = Cell(id: int, x: real, y: real)

  /** One invocation of the marble-selected callback. */
  datatype Selection = Selection(marble: Marble, homeClicked: bool)

  /** What a click does: its home flag, the callback it fires (if any), the new tooltip. */
  datatype Routed = Routed(homeClicked: bool, selected: Option<Selection>, tooltip: Tooltip)

  /**
   * The effect of clicking `cell` when the marbles `placed` are on the board,
   * `tooltipActions` is the tooltip-actions prop (any list, even an empty one,
   * counts as present) and `before` is the tooltip state.
   */
  function Route(placed: seq<Marble>, cell: Cell, tooltipActions: Option<seq<string>>, before: Tooltip): (r: Routed)
    ensures r.homeClicked <==> cell.id < 0
    ensures r.selected.Some? <==> Occupant(placed, Decode(cell.id)).Some?
    ensures r.selected.Some? ==> r.selected.value == Selection(Occupant(placed, Decode(cell.id)).value, cell.id < 0)
    ensures tooltipActions.None? || r.selected.None? || r.homeClicked ==> r.tooltip == before
    ensures tooltipActions.Some? && r.selected.Some? && !r.homeClicked ==>
              r.tooltip.visible && r.tooltip.placement == Some(PlaceAt(cell.x, cell.y))
  {
    var homeClicked := cell.id < 0;
    var occupant := Occupant(placed, ClickSlot(cell.id));
    var selected := if occupant.Some? then Some(Selection(occupant.value, homeClicked)) else None;
    var tooltip :=
      if tooltipActions.Some? && occupant.Some? && !homeClicked
      then Tooltip(true, Some(PlaceAt(cell.x, cell.y)))
      else before;
    Routed(homeClicked, selected, tooltip)
  }

  /** Clicking the cell that names position p selects the last marble placed at p. */
  lemma ClickSelectsLastPlaced(placed: seq<Marble>, j: nat, cell: Cell, tooltipActions: Option<seq<string>>, before: Tooltip)
    requires j < |placed| && ValidPosition(placed[j].position)
    requires forall k :: j < k < |placed| ==> placed[k].position != placed[j].position
    requires cell.id == placed[j].position
    ensures Route(placed, cell, tooltipActions, before).selected == Some(Selection(placed[j], cell.id < 0))
  {
    LastWriterWins(placed, j);
  }

  /** A click on a cell no marble lands on fires nothing and leaves the tooltip alone. */
  lemma EmptyClickIsNoOp(placed: seq<Marble>, cell: Cell, tooltipActions: Option<seq<string>>, before: Tooltip)
    requires forall k :: 0 <= k < |placed| ==> !Lands(placed[k], Decode(cell.id))
    ensures Route(placed, cell, tooltipActions, before).selected == None
    ensures Route(placed, cell, tooltipActions, before).tooltip == before
  {
    EmptySlot(placed, Decode(cell.id));
  }

  /** A red marble in home slot 0, clicked with the tooltip enabled: selected as a home click, no tooltip. */
  lemma HomeClickScenario(before: Tooltip)
    ensures var red := Marble(7, "red", -1);
            Route([red], Cell(-1, 10.0, 10.0), Some(["move"]), before) == Routed(true, Some(Selection(red, true)), before)
  {
  }

  /** A blue marble on step 15, clicked at (20%, 80%): selected, tooltip left/bottom at 20% each. */
  lemma PathClickScenario(before: Tooltip)
    ensures var blue := Marble(2, "blue", 15);
            Route([blue], Cell(15, 20.0, 80.0), Some(["move"]), before)
            == Routed(false, Some(Selection(blue, false)), Tooltip(true, Some(Placement(Left, 20.0, Bottom, 20.0))))
  {
  }

  class Board {
    var home: array<Option<Marble>>
    var steps: array<Option<Marble>>
    var house: array<Option<Marble>>
    var tooltip: Tooltip
    /** The marble list the tables were last built from. */
    ghost var Placed: seq<Marble>
    /** The marble-selected callback's invocations, oldest first. */
    ghost var Selections: seq<Selection>

    /** The three tables have their fixed sizes and are distinct arrays. */
    ghost predicate Shaped()
      reads this
    {
      && home.Length == Capacity(Home)
      && steps.Length == Capacity(Step)
      && house.Length == Capacity(House)
      && home != house
    }

    /** Each table entry is the occupant of its slot after placing ms. */
    ghost predicate Holds(ms: seq<Marble>)
      reads this, home, steps, house
    {
      && (forall i :: 0 <= i < home.Length ==> home[i] == Occupant(ms, Slot(Home, i)))
      && (forall i :: 0 <= i < steps.Length ==> steps[i] == Occupant(ms, Slot(Step, i)))
      && (forall i :: 0 <= i < house.Length ==> house[i] == Occupant(ms, Slot(House, i)))
    }

    /** The three tables hold the occupancy index of Placed. */
    ghost predicate Valid()
      reads this, home, steps, house
    {
      Shaped() && Holds(Placed)
    }

    /** Mounting: no marbles, the initial tooltip, no callback fired. */
    constructor ()
      ensures Valid()
      ensures Placed == [] && Selections == [] && tooltip == Initial
    {
      home := new Option<Marble>[Capacity(Home)](_ => None);
      steps := new Option<Marble>[Capacity(Step)](_ => None);
      house := new Option<Marble>[Capacity(House)](_ => None);
      tooltip := Initial;
      Placed := [];
      Selections := [];
    }

    /**
     * The render pass: fresh tables, then each marble written into the table
     * and index its position decodes to.
     */
    method Place(marbles: seq<Marble>)
      modifies this
      ensures Valid() && fresh(home) && fresh(steps) && fresh(house)
      ensures Placed == marbles
      ensures tooltip == old(tooltip) && Selections == old(Selections)
    {
      home := new Option<Marble>[Capacity(Home)](_ => None);
      steps := new Option<Marble>[Capacity(Step)](_ => None);
      house := new Option<Marble>[Capacity(House)](_ => None);
      var k := 0;
      while k < |marbles|
        invariant 0 <= k <= |marbles|
        invariant Shaped() && fresh(home) && fresh(steps) && fresh(house)
        invariant Holds(marbles[..k])
        invariant tooltip == old(tooltip) && Selections == old(Selections)
        modifies home, steps, house
      {
        var m := marbles[k];
        Put(m);
        assert marbles[..k + 1] == marbles[..k] + [m];
        forall s ensures Occupant(marbles[..k + 1], s) == if Lands(m, s) then Some(m) else Occupant(marbles[..k], s) {
          PlaceOne(marbles[..k], m, s);
        }
        k := k + 1;
      }
      assert marbles[..k] == marbles;
      Placed := marbles;
    }

    /**
     * One iteration of the render pass: m is written into the table and index
     * its position decodes to, overwriting any earlier occupant; a position
     * outside the tables writes nothing.
     */
    method Put(m: Marble)
      requires Shaped()
      modifies home, steps, house
      ensures forall i :: 0 <= i < home.Length ==> home[i] == if Lands(m, Slot(Home, i)) then Some(m) else old(home[i])
      ensures forall i :: 0 <= i < steps.Length ==> steps[i] == if Lands(m, Slot(Step, i)) then Some(m) else old(steps[i])
      ensures forall i :: 0 <= i < house.Length ==> house[i] == if Lands(m, Slot(House, i)) then Some(m) else old(house[i])
    {
      if m.position < 0 {
        var i := -(m.position + 1);
        if i < home.Length {
          home[i] := Some(m);
        }
      } else if m.position >= HouseBase {
        var i := m.position - HouseBase;
        if i < house.Length {
          house[i] := Some(m);
        }
      } else if m.position < steps.Length {
        steps[m.position] := Some(m);
      }
    }

    /** The click handler's table lookup and home classification. */
    method Lookup(id: int) returns (occupant: Option<Marble>, homeClicked: bool)
      requires Valid()
      ensures occupant == Occupant(Placed, Decode(id))
      ensures homeClicked <==> id < 0
    {
      homeClicked := false;
      occupant := None;
      if id < 0 {
        homeClicked := true;
        var i := -id - 1;
        if i < home.Length {
          occupant := home[i];
        }
      } else if id >= HouseBase {
        var i := id - HouseBase;
        if i < house.Length {
          occupant := house[i];
        }
      } else if id < steps.Length {
        occupant := steps[id];
      }
      if !InBounds(Decode(id)) {
        EmptySlot(Placed, Decode(id));
      }
    }

    /**
     * A click on a cell: the callback fires once with the occupant and the home
     * flag when the cell is occupied, and the tooltip is replaced only for an
     * occupied non-home cell with tooltip actions present.
     */
    method OnStepClick(cell: Cell, tooltipActions: Option<seq<string>>)
      requires Valid()
      modifies this`tooltip, this`Selections
      ensures Valid()
      ensures var r := Route(Placed, cell, tooltipActions, old(tooltip));
              && tooltip == r.tooltip
              && Selections == old(Selections) + (if r.selected.Some? then [r.selected.value] else [])
    {
      var marble, homeClicked := Lookup(cell.id);
      if marble.Some? {
        Selections := Selections + [Selection(marble.value, homeClicked)];
      }
      if tooltipActions.Some? && marble.Some? && !homeClicked {
        tooltip := Tooltip(true, Some(PlaceAt(cell.x, cell.y)));
      }
    }

    /** Closing the tooltip keeps nothing but `visible: false`. */
    method CloseTooltip()
      modifies this`tooltip
      ensures tooltip == Closed && !tooltip.visible
    {
      tooltip := Closed;
    }

    /**
     * The class of a rendered cell from the collection of `kind`: the occupied
     * class with the occupant's color exactly when the cell's table entry is
     * taken, "step" otherwise.
     */
    method ClassOf(kind: Space, id: int) returns (cls: string)
      requires Valid()
      ensures cls == CellClass(Occupant(Placed, RenderSlot(kind, id)))
      ensures Decode(id).space == kind ==> cls == CellClass(Occupant(Placed, Decode(id)))
    {
      var occupant: Option<Marble> := None;
      var i := RenderSlot(kind, id).index;
      var table := match kind case Home => home case Step => steps case House => house;
      if 0 <= i < table.Length {
        occupant := table[i];
      } else {
        EmptySlot(Placed, RenderSlot(kind, id));
      }
      cls := if occupant.Some? then OccupiedPrefix + occupant.value.color else StepClass;
    }
  }

  /** A render followed by the two clicks of the scenarios above, through the component. */
  method ClickThroughBoard()
  {
    var board := new Board();
    var red, blue := Marble(7, "red", -1), Marble(2, "blue", 15);
    board.Place([red, blue]);
    LastWriterWins([red, blue], 0);
    LastWriterWins([red, blue], 1);
    board.OnStepClick(Cell(-1, 10.0, 10.0), Some(["move"]));
    assert board.Selections == [Selection(red, true)];
    assert board.tooltip == Initial;
    board.OnStepClick(Cell(15, 20.0, 80.0), Some([]));
    assert board.Selections == [Selection(red, true), Selection(blue, false)];
    assert board.tooltip == Tooltip(true, Some(Placement(Left, 20.0, Bottom, 20.0)));
    board.OnStepClick(Cell(16, 60.0, 60.0), Some(["move"]));
    assert board.Selections == [Selection(red, true), Selection(blue, false)];
    board.CloseTooltip();
    assert !board.tooltip.visible;
  }
}

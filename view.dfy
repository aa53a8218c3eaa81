/** Small derivations the board's markup makes from the occupancy index and the props. */
module View {
  import opened Wrappers
  import opened Occupancy

  const StepClass: string := "step"
  const OccupiedPrefix: string := "step occupied occupied-"

  /** The CSS class of a rendered cell, given its occupant. */
  function CellClass(occupant: Option<Marble>): (cls: string)
    ensures cls == StepClass <==> occupant.None?
    ensures ClassColor(cls) == if occupant.Some? then Some(occupant.value.color) else None
  {
    if occupant.Some? then OccupiedPrefix + occupant.value.color else StepClass
  }

  /** The occupant color a class string names, if it is an occupied-cell class. */
  function ClassColor(cls: string): Option<string>
  {
    if |OccupiedPrefix| <= |cls| && cls[..|OccupiedPrefix|] == OccupiedPrefix
    then Some(cls[|OccupiedPrefix|..])
    else None
  }

  /** A player as the seat boxes show it. */
  datatype Player = Player(uid: string, username: string)

  /**
   * The player list padded with four empty seats, so that each of the four
   * seat boxes finds either a player or nothing.
   */
  function PadPlayers(players: seq<Player>): (seats: seq<Option<Player>>)
    ensures |seats| == |players| + 4
    ensures forall i :: 0 <= i < |players| ==> seats[i] == Some(players[i])
    ensures forall i :: |players| <= i < |seats| ==> seats[i] == None
    ensures forall i :: 0 <= i < 4 ==> (seats[i].Some? <==> i < |players|)
  {
    seq(|players|, i requires 0 <= i < |players| => Some(players[i])) + [None, None, None, None]
  }
}

# Board occupancy and click routing

A model of the board component of a four-team marble race game (a "Tock" /
Mensch-ärgere-dich-nicht variant). The component does four things, and the model covers each one:

- **Occupancy index.** Every render it walks the marble list once. It writes each marble into one of three fixed tables, chosen by the marble's signed position:
  - a negative position goes to a home slot, index `-(p+1)`;
  - a position from 1000 up goes to a house slot, index `p-1000`;
  - anything else goes to a path step, index `p`.
- **Click routing.** A clicked cell id is decoded with the same three ranges. The router flags a home click exactly when the id is negative. It fires the marble-selected callback with the occupant and that flag only when the cell is occupied.
- **Tooltip placement.** The tooltip state is replaced wholesale when three things hold: the tooltip actions are present, the cell is occupied, and it is not a home click. Placement flips at the board's midlines. The anchor is left/top with offset `x` below 50%, and right/bottom with offset `100 - x` otherwise. Closing the tooltip leaves only `visible: false`.
- **View derivations.** The model covers the per-cell CSS class (`"step occupied occupied-<color>"` or `"step"`) and the padding of the player list with four empty seats.

Modules:
- `Slots` (slots.dfy): the position space, with its decoding for placement, for clicks and for rendering, and its inverse `Encode`.
- `Occupancy` (occupancy.dfy): the `Marble` record and `Occupant`, the reference definition of the index. `Occupant` gives the last marble in the list that lands on a slot. The lemmas cover last-writer-wins, the frame of one placement step, and no marble lost or duplicated.
- `Tooltips` (tooltips.dfy): the tooltip state and the quadrant-flip placement.
- `View` (view.dfy): the cell class string and the player-list padding.
- `BoardComponent` (board.dfy): `Route` is the pure effect of a click. The class `Board` holds the three tables as arrays, the tooltip state, and a ghost log of callback invocations. `Place` is the render loop. `OnStepClick`, `CloseTooltip` and the read-only `Lookup` and `ClassOf` are the handlers and lookups.

Decisions:
- **Out-of-range positions are ignored writes.** This covers positions below -16, from 64 to 999, and above 1015. Such a marble changes no table entry, and a lookup outside a table yields no occupant.
- **Percent coordinates are exact `real` values.** A cell's `"35.3%"` strings are modelled as their numeric value. `parseInt` is truncation toward zero (`Tooltips.Trunc`) and `parseFloat` is the value itself.
- **The tooltip-actions prop is an `Option<seq<string>>`.** In JavaScript any array is truthy, including an empty one. So "present" means `Some`, whatever the list holds.
- **The marble-selected callback is recorded, not called.** It is external code, so `OnStepClick` appends each invocation to the ghost sequence `Selections`.

Two details of the code are worth stating:
- **Closing drops the placement.** Closing does not keep the last x/y/anchor. The code replaces the whole state with `{visible: false}` (frontend/src/components/board/Board.js:112), so `Closed` carries no placement.
- **Anchor and offset use different tests.** The anchor is chosen with `parseInt` and the offset with `parseFloat`. `Tooltips.PlaceAt` proves that the two tests always agree, for negative coordinates too, because the threshold 50 is an integer.

## Model

| member | source | states |
|---|---|---|
| Slots.Decode | frontend/src/components/board/Board.js:41-48 | a position decodes to home exactly when negative, to house exactly when at least 1000; the index is never negative; the slot is inside its table exactly when the position lies in [-16,-1], [0,63] or [1000,1015] |
| Slots.Encode | frontend/src/components/board/Board.js:41-48 | every in-bounds slot is named by a valid position that decodes back to it |
| Slots.EncodeDecode | frontend/src/components/board/Board.js:41-48 | encoding the decoded valid position gives the position back |
| Slots.DecodeInjective | frontend/src/components/board/Board.js:41-48 | distinct positions never decode to the same slot |
| Slots.ClickSlot | frontend/src/components/board/Board.js:57-68 | the click handler's decoding (`-id-1`, `id-1000`, `id`) is the placement decoding (`-(p+1)`, `p-1000`, `p`), and the home branch is taken exactly for negative ids |
| Slots.RenderSlot | frontend/src/components/board/Board.js:157-204 | each geometry collection reads its own table; for an id of that collection's space it reads the slot placement wrote; an in-bounds slot is the one the id names |
| Occupancy.Occupant | frontend/src/components/board/Board.js:38-49 | the occupant of a slot, if any, is one of the listed marbles and lands on that slot |
| Occupancy.PlaceOne | frontend/src/components/board/Board.js:41-48 | placing one more marble puts it in the slot its position decodes to (if in bounds) and leaves every other slot unchanged |
| Occupancy.LastWriterWins | frontend/src/components/board/Board.js:38-49 | a valid-position marble with no later marble on the same position is its slot's occupant, whatever came before it |
| Occupancy.OccupantIsLastWriter | frontend/src/components/board/Board.js:38-49 | an occupant is a marble of the list that lands on the slot and that no later marble overwrote: never merged, never invented |
| Occupancy.EmptySlot | frontend/src/components/board/Board.js:38-49 | a slot is empty exactly when no marble of the list lands on it |
| Occupancy.OccupiedCount | frontend/src/components/board/Board.js:33-49 | with valid, pairwise distinct positions the three tables hold exactly as many entries as there are marbles |
| Tooltips.Trunc | frontend/src/components/board/Board.js:90-91 | integer part rounding toward zero: between 0 and the value, less than one away from it |
| Tooltips.PlaceAt | frontend/src/components/board/Board.js:76-92 | anchor is left (top) exactly when the coordinate is below 50; the anchored corner sits at the clicked point (offset `x` from the left, or `100 - x` from the right); on-board coordinates give offsets in [0,50] |
| Tooltips.MirrorX | frontend/src/components/board/Board.js:83-90 | cells at x and 100-x (x below 50) get left and right anchors with the same offset x |
| Tooltips.MirrorY | frontend/src/components/board/Board.js:86-91 | cells at y and 100-y (y below 50) get top and bottom anchors with the same offset y |
| View.CellClass | frontend/src/components/board/Board.js:157-160 | the class is `"step"` exactly when the cell is empty, and otherwise names the occupant's color after the occupied prefix |
| View.PadPlayers | frontend/src/components/board/Board.js:31 | the padded list keeps every player in order and adds four empty seats, so seat i (i < 4) is taken exactly when there are more than i players |
| BoardComponent.Route | frontend/src/components/board/Board.js:54-95 | home click iff id < 0; the callback fires exactly when the decoded slot is occupied, with that occupant and the home flag; the tooltip is replaced by a visible one at `PlaceAt(x, y)` when actions are present, the cell is occupied and it is not a home click, and is otherwise left exactly as it was |
| BoardComponent.ClickSelectsLastPlaced | frontend/src/components/board/Board.js:38-71 | clicking the cell whose id is a valid position p selects the marble last placed at p |
| BoardComponent.EmptyClickIsNoOp | frontend/src/components/board/Board.js:69-75 | a click on a cell no marble lands on fires nothing and leaves the tooltip unchanged |
| BoardComponent.HomeClickScenario | frontend/src/components/board/Board.js:56-75 | a red marble at position -1 clicked on cell -1 with actions present: selected as a home click, tooltip untouched |
| BoardComponent.PathClickScenario | frontend/src/components/board/Board.js:54-93 | a blue marble on step 15 clicked at (20%, 80%): selected as a non-home click, tooltip visible at left 20% / bottom 20% |
| BoardComponent.Board.constructor | frontend/src/components/board/Board.js:22-35 | mounting starts with empty tables, the initial hidden tooltip at the top-left corner and no callback fired |
| BoardComponent.Board.Place | frontend/src/components/board/Board.js:33-49 | the render pass builds fresh tables that hold the occupancy index of the marble list, and leaves the tooltip and the callback log alone |
| BoardComponent.Board.Put | frontend/src/components/board/Board.js:41-48 | one marble is written into exactly the entry its position decodes to, overwriting it; every other entry keeps its value |
| BoardComponent.Board.Lookup | frontend/src/components/board/Board.js:55-68 | the table read for a clicked id is the occupant of the slot the id decodes to; the home flag is set iff id < 0 |
| BoardComponent.Board.OnStepClick | frontend/src/components/board/Board.js:54-95 | the new tooltip and the callback log are exactly `Route`'s: at most one callback appended, tooltip replaced wholesale or unchanged |
| BoardComponent.Board.CloseTooltip | frontend/src/components/board/Board.js:111-113 | the tooltip becomes `{visible: false}` with no placement |
| BoardComponent.Board.ClassOf | frontend/src/components/board/Board.js:157-204 | a rendered cell's class is `CellClass` of the occupant of the slot its collection reads, which for an id of that collection's space is the slot placement wrote |

## Left out

- Rendering markup is not modelled. This covers the SVG circles, the avatar boxes (`isMe`, `isActive`), the top card and the `Tooltip` component. It is presentational markup with no branching beyond the class strings above.
- `playerBoxClicked` (frontend/src/components/board/Board.js:97-109) is not modelled. It calls `findIndex` with a value rather than a predicate, and it builds a swapped list that it never uses, so it has no observable effect to model.
- frontend/src/api/socket.js is not modelled. It only constructs a network client.
- Board geometry is an input. The data file `boarddata4.json` is not part of this model; cells are given as `Cell(id, x, y)`.
- Out-of-range positions are not modelled as JavaScript runs them. Such a write would grow the JavaScript array, and a later click on that id would find the marble. The model drops such writes instead.
- Coordinate strings are not modelled. This covers the tooltip's CSS `calc(...)` strings with their number formatting and the fixed `+ 10px` margin. The placement is kept as a structured anchor and offset. Strings that `parseFloat` would read as NaN, or that `parseInt` and `parseFloat` read differently (such as exponent notation), are not modelled.
- The initial tooltip's `text: ''` field is never read or set by the handlers, so it is not modelled.
- React's `useState` scheduling is not modelled. A tooltip update is applied at once, as a field assignment.

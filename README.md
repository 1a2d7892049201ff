# Drag board: card placement, collision detection and the drag gesture

This project models the algorithmic kernel of the drag board widget in
`src/index.js`. The widget lays status cards out on a board, in rows of as
many cards as fit across. It lets the user drag one card at a time. While a
card is dragged, the widget tests it for collisions ("impacts") with the
other cards.

The model has four parts, each proved against its own specification:

- **Layout** (`layout.dfy`) models `computeRectXY`. `rowcount` is the floor of
  `(board width - CARD_OFFSET) / (card width + CARD_OFFSET)`. Card `index`
  goes to column `index % rowcount` and row `index / rowcount`.
  - On a board at least one card wide, the placement stays inside the board
    width and keeps the margins.
  - It can be inverted: a corner determines its card index.
  - Neighbours are exactly one pitch apart, and distinct cards never collide.
  - When no card fits, the source divides by zero and produces NaN. The model
    returns `None` for that.
  - When the board is narrower than the margin, `rowcount` is -1. That case
    follows JavaScript's `Math.floor` and `%` exactly.
- **Collision** (`collision.dfy`) models `impact` and `distance`.
  - The separation test of `impact` is proved equal to "the two closed
    rectangles share a point". Touching edges therefore count as a collision.
  - The test is symmetric.
  - `distance` is modelled squared.
- **Detection** (`detection.dfy`) gives functions describing one `detect`
  pass: the candidate cards, the colliding ones, and how `impactDistance` and
  the reported cards evolve.
  - `impactDistance` is first-hit sticky. It is written only while it is 0,
    and then only with the first non-zero distance found. It is never reset,
    neither between frames nor between gestures.
  - Every reported card collides and is strictly closer than the recorded
    distance.
- **Gesture** (`gesture.dfy`) is a `DragBoard` class. Its fields model the
  module-level state the handlers share: the `active` record,
  `impactDistance`, and each card's stored `rect` position and group
  transform. Its methods `Start`, `Move` (with `Detect`) and `End` are the
  `start`, `drag` and `end` handlers of `dragCard`.
  - `End` commits `active.x + pointer.x - mouseToX` (and the same for `y`) as
    the card's stored position.
  - If the pointer has not moved since the last frame, that commit equals the
    stored position plus the last displayed translate.

Conventions of the model:

- Coordinates and sizes are integers.
- The board size and pointer positions are parameters.
- The three layout constants are those of the source: card 200×150, margin 50.
- The source relies on the drag behaviour to deliver `start` before `drag`
  and `end`, and to deliver only one gesture at a time. The model makes
  out-of-order events explicit: `Move` and `End` outside a gesture, or
  `Start` during one, return `ok == false` and change nothing. The source has
  no such guard.

## Model

| member | source | states |
|---|---|---|
| `Layout.RowCount` | src/index.js:63 | `rowcount` is the floor of `(W - OFFSET) / (w + OFFSET)`. It is at least -1. It is positive exactly when `W >= w + 2*OFFSET`, and negative exactly when `W < OFFSET`. |
| `Layout.ComputeRectXY` | src/index.js:61-71 | Fails (NaN in the source) exactly when `rowcount` is 0, and yields a corner otherwise. |
| `Layout.PlacementCell` | src/index.js:63-70 | For `rowcount > 0`, `x == OFFSET + (index % rowcount) * (w + OFFSET)` and `y == OFFSET + (index / rowcount) * (h + OFFSET)`. |
| `Layout.PlacementInsideBoard` | src/index.js:62-68 | Every placed card keeps the margin on the left, right and top: `OFFSET <= x`, `x + w + OFFSET <= W` and `OFFSET <= y`. |
| `Layout.PlacementRoundTrip` | src/index.js:63-70 | Reading the grid cell back from a card's corner gives its index, so placement is invertible. |
| `Layout.PlacementInjective` | src/index.js:63-70 | Distinct indices get distinct corners. |
| `Layout.RowNeighbours` | src/index.js:65-68 | The next card in the same row is exactly `w + OFFSET` to the right, at the same `y`. |
| `Layout.ColumnNeighbours` | src/index.js:64-69 | Card `index + rowcount` is exactly `h + OFFSET` lower, at the same `x`. |
| `Layout.PlacementSeparated` | src/index.js:63-70 | Two distinct placed cards never collide under `impact`'s test, not even edge to edge. |
| `Layout.NarrowBoardStacksAbove` | src/index.js:63-69 | On a board narrower than `OFFSET`, card `index` lands at `(OFFSET, OFFSET - index * (h + OFFSET))`. |
| `Layout.LayoutCards` | src/index.js:86-112 | `renderCard`'s cards keep the data order and ids, have the fixed card size and no transform. On a board one card wide, each card's rect is the placed rectangle of its index. The layout fails only when there are cards and `rowcount` is 0. |
| `Layout.LayoutSeparated` | src/index.js:86-112 | On a board at least one card wide, every laid-out card keeps the left, right and top margins, and no two collide. |
| `Collision.OverlapsIffShareAPoint` | src/index.js:137-144 | For non-negative sizes, the four-way separation test fails exactly when the closed rectangles share a point. Touching edges therefore overlap. |
| `Collision.Impact` | src/index.js:126-149 | Reports a collision exactly when the active rectangle, shifted by the drag offset, overlaps the node. On a collision it returns exactly the node's `(x, y)`. |
| `Collision.ImpactSymmetric` | src/index.js:128-142 | Swapping the dragged and the candidate rectangle gives the same collision outcome. |
| `Collision.ImpactRelative` | src/index.js:128-142 | Shifting the active card by the offset is the same as shifting the node by the opposite offset. |
| `Collision.SquaredDistance` | src/index.js:152-156 | The distance is zero exactly when the shifted active corner is the node's corner. |
| `Collision.DragFrameExample` | src/index.js:126-156 | Worked example: moving (100,100) by (40,40) hits the 50×50 card at (150,150), at squared distance 200. |
| `Detection.Candidates` | src/index.js:163 | The scanned nodes are exactly the cards whose id differs from the active card's id. A one-card list is kept or dropped by that test. |
| `Detection.CandidatesAppend` | src/index.js:163 | Filtering distributes over concatenation. With the one-card case, this makes the candidates the in-order subsequence of the other-id cards, duplicates included. |
| `Detection.Step` | src/index.js:164-175 | One loop iteration changes the distance only from 0, and only on a collision. It appends at most the node's id, and only when the distance is set and the colliding node is strictly closer. |
| `Detection.Scan` | src/index.js:163-176 | A whole pass keeps a non-zero distance. It only appends reports, at most one per scanned node. |
| `Detection.FirstNonzero` | src/index.js:168-174 | Gives 0 exactly when all entries are 0. Otherwise it gives the entry whose predecessors are all 0. |
| `Detection.ScanDistance` | src/index.js:163-176 | A pass leaves a non-zero `impactDistance` unchanged. Otherwise it sets it to the first non-zero distance among the colliding candidates, in scan order. |
| `Detection.ScanLogged` | src/index.js:163-176 | A pass only appends reports. Each report names a scanned, colliding card strictly closer than the final `impactDistance`. |
| `Gesture.DragBoard.constructor` | src/index.js:25-26 | The board starts idle with `impactDistance` 0 and the laid-out cards. |
| `Gesture.DragBoard.Start` | src/index.js:183-193 | Captures the pointer, the card's stored geometry and its datum id into the `active` record, and enters the gesture. Cards and `impactDistance` are unchanged. |
| `Gesture.DragBoard.Detect` | src/index.js:159-178 | The loop computes exactly the pass described by `Scan`. The distance follows `ScanDistance`. No report names the active card's id. |
| `Gesture.DragBoard.Move` | src/index.js:194-207 | Sets the dragged card's transform to `pointer - start`, then runs `Detect` with it. A non-zero `impactDistance` never changes. The `active` record stays unchanged. |
| `Gesture.DragBoard.End` | src/index.js:208-220 | Clears the transform and stores `active.x + px - mouseToX`, `active.y + py - mouseToY`. That equals the stored position plus the last displayed translate when the pointer has not moved. The `active` record and `impactDistance` are kept. |

## Left out

- React component lifecycle, props, state and mounting (src/index.js:28-59,
  223-239): framework glue. The cards are given to the `DragBoard`
  constructor.
- D3 selections: SVG creation, `rx`/`ry`, CSS classes from `severityToColor`,
  the opacity transition, `exit().remove()` and the binding of the drag
  handlers (src/index.js:16-21, 78-122). These are rendering. Only the `x`,
  `y`, `width` and `height` attributes each card gets are modelled, by
  `Layout.LayoutCards`.
- `renderCard` appends a fresh SVG element on every update. The model keeps
  one set of cards.
- Reading the viewport size from `document` (src/index.js:9-10) is
  environment input. The board size is a parameter.
- `String.prototype.toNumber` and the attribute reads (src/index.js:23, 133-136,
  188-191) are DOM parsing. Rectangles are integer records, and pointer
  coordinates are whole pixels rather than floating point.
- `Collision.SquaredDistance`: the source's `Math.sqrt(Math.pow(a,2) +
  Math.pow(b,2))` is floating point. The square is modelled instead; it is
  ordered the same way and is zero at the same points.
- `console.log(node)` is modelled as the list of reported card ids that
  `Detect` returns, not as output. `stopPropagation` has no modelled effect.
- The source never checks the vertical fit: cards beyond the board height
  are placed below it, and the model does the same.
- A board narrower than the margin places cards above the board
  (`Layout.NarrowBoardStacksAbove`). This is what the code computes; the
  model does not change it.
- Events outside the order the drag behaviour guarantees are refused by
  the model instead of running on a stale or empty `active` record.

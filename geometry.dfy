/**
 * The values the drag board works with: the layout constants of src/index.js,
 * points, sizes, card rectangles and the cards themselves.
 * Coordinates are integers: the attribute strings the source parses with
 * `toNumber` and the pointer coordinates are taken to be whole pixels.
 */
module Geometry {
  import opened Wrappers

  /** Height of a card, in pixels. */
  const CARD_HEIGHT: nat := 150
  /** Width of a card, in pixels. */
  const CARD_WIDTH: nat := 200
  /** Margin kept between neighbouring cards and between a card and the board edge. */
  const CARD_OFFSET: nat := 50

  datatype Point = Point(x: int, y: int)

  /** A board or card size. */
  datatype Size = Size(width: nat, height: nat)

  /** The `x`, `y`, `width`, `height` attributes of a card's `rect` element. */
  datatype Rect = Rect(x: int, y: int, width: int, height: int)

  /**
   * One card on the board: the `id` of its datum, the stored geometry of its
   * `rect`, and the `translate(...)` transform of its group element, which is
   * present only while the card is being dragged.
   */
  datatype Card = Card(id: int, rect: Rect, transform: Option<Point>)

  /** A rectangle moved by an offset. */
  function Shift(r: Rect, dx: int, dy: int): Rect
  {
    r.(x := r.x + dx, y := r.y + dy)
  }
}

/**
 * Grid placement of the cards, `computeRectXY` (src/index.js:61-71), and the
 * `x`/`y` attributes `renderCard` gives every card from it (src/index.js:86-112).
 */
module Layout {
  import opened Wrappers
  import opened Geometry
  import opened Collision

  /** `Math.floor(a / b)` for a non-zero integer divisor. */
  function FloorDiv(a: int, b: int): int
    requires b != 0
  {
    if b > 0 then a / b else (-a) / (-b)
  }

  /** JavaScript's `a % b` for a non-negative `a`: the remainder takes the sign of `a`. */
  function TruncRem(a: nat, b: int): nat
    requires b != 0
  {
    if b > 0 then a % b else a % (-b)
  }

  /** Euclidean division is determined by its quotient/remainder equation. */
  lemma DivModUnique(a: int, k: int, q: int, r: int)
    requires k > 0 && a == q * k + r && 0 <= r < k
    ensures a / k == q && a % k == r
  {
    var q', r' := a / k, a % k;
    assert (q - q') * k == r' - r;
    if q - q' >= 1 {
      MulAtLeast(q - q', k);
    } else if q' - q >= 1 {
      MulAtLeast(q' - q, k);
    }
  }

  lemma MulAtLeast(m: int, k: int)
    requires k > 0 && m >= 1
    ensures m * k >= k
  {
    assert m * k == (m - 1) * k + k;
    MulNonNegative(m - 1, k);
  }

  lemma MulNonNegative(m: int, k: int)
    requires m >= 0 && k >= 0
    ensures m * k >= 0
  {
  }

  /**
   * `rowcount`: how many cards of width `cardWidth` fit across the board,
   * the floor of `(boardWidth - CARD_OFFSET) / (cardWidth + CARD_OFFSET)`.
   */
  function RowCount(boardWidth: nat, cardWidth: nat): (rc: int)
    ensures rc * (cardWidth + CARD_OFFSET) <= boardWidth - CARD_OFFSET < (rc + 1) * (cardWidth + CARD_OFFSET)
    ensures rc >= -1
    ensures rc > 0 <==> boardWidth >= cardWidth + 2 * CARD_OFFSET
    ensures rc < 0 <==> boardWidth < CARD_OFFSET
  {
    FloorFacts(boardWidth - CARD_OFFSET, cardWidth + CARD_OFFSET);
    (boardWidth - CARD_OFFSET) / (cardWidth + CARD_OFFSET)
  }

  lemma FloorFacts(a: int, k: int)
    requires k >= CARD_OFFSET && a + CARD_OFFSET >= 0
    ensures (a / k) * k <= a < (a / k + 1) * k
    ensures a / k >= -1
    ensures a / k > 0 <==> a >= k
    ensures a / k < 0 <==> a < 0
  {
    var q := a / k;
    assert a == q * k + a % k;
    if a < 0 {
      DivModUnique(a, k, -1, a + k);
    } else if a < k {
      DivModUnique(a, k, 0, a);
    }
  }

  /**
   * `computeRectXY(board, rect, index)`: the top-left corner of card `index`.
   * When no card fits across the board (`rowcount` is 0) the source divides
   * by zero: `x` is NaN, and `y` is NaN for the first card and Infinity for
   * the others. That outcome is `None` here.
   */
  function ComputeRectXY(board: Size, rect: Size, index: nat): (r: Option<Point>)
    ensures r.None? <==> RowCount(board.width, rect.width) == 0
  {
    var rowcount := RowCount(board.width, rect.width);
    if rowcount == 0 then None
    else
      var quotient := FloorDiv(index, rowcount);
      var remainder := TruncRem(index, rowcount);
      Some(Point((remainder + 1) * CARD_OFFSET + remainder * rect.width,
                 (quotient + 1) * CARD_OFFSET + quotient * rect.height))
  }

  /**
   * On a board at least one card wide, card `index` sits in column
   * `index % rowcount` and row `index / rowcount`: one leading margin, then
   * one pitch of card size plus margin per column and per row.
   */
  lemma PlacementCell(board: Size, rect: Size, index: nat)
    requires RowCount(board.width, rect.width) > 0
    ensures var rc := RowCount(board.width, rect.width);
            var p := ComputeRectXY(board, rect, index).value;
            p.x == CARD_OFFSET + (index % rc) * (rect.width + CARD_OFFSET)
            && p.y == CARD_OFFSET + (index / rc) * (rect.height + CARD_OFFSET)
  {
    var rc := RowCount(board.width, rect.width);
    var c, q := index % rc, index / rc;
    assert (c + 1) * CARD_OFFSET + c * rect.width == CARD_OFFSET + c * (rect.width + CARD_OFFSET);
    assert (q + 1) * CARD_OFFSET + q * rect.height == CARD_OFFSET + q * (rect.height + CARD_OFFSET);
  }

  /** Every placed card keeps the margin to the left, top and right board edges. */
  lemma PlacementInsideBoard(board: Size, rect: Size, index: nat)
    requires RowCount(board.width, rect.width) > 0
    ensures var p := ComputeRectXY(board, rect, index).value;
            CARD_OFFSET <= p.x && p.x + rect.width + CARD_OFFSET <= board.width && CARD_OFFSET <= p.y
  {
    var rc := RowCount(board.width, rect.width);
    var k := rect.width + CARD_OFFSET;
    var c, q := index % rc, index / rc;
    PlacementCell(board, rect, index);
    MulNonNegative(c, k);
    MulNonNegative(q, rect.height + CARD_OFFSET);
    MulNonNegative(rc - 1 - c, k);
    assert c * k + k <= rc * k by {
      assert rc * k == c * k + (rc - 1 - c) * k + k;
    }
  }

  /** The card index read back from a corner's grid cell. */
  function CellIndex(board: Size, rect: Size, p: Point): int
    requires RowCount(board.width, rect.width) > 0
  {
    var rowcount := RowCount(board.width, rect.width);
    ((p.y - CARD_OFFSET) / (rect.height + CARD_OFFSET)) * rowcount
      + (p.x - CARD_OFFSET) / (rect.width + CARD_OFFSET)
  }

  /** The corner of a card determines its index: placement can be inverted. */
  lemma PlacementRoundTrip(board: Size, rect: Size, index: nat)
    requires RowCount(board.width, rect.width) > 0
    ensures CellIndex(board, rect, ComputeRectXY(board, rect, index).value) == index
  {
    var rc := RowCount(board.width, rect.width);
    PlacementCell(board, rect, index);
    var p := ComputeRectXY(board, rect, index).value;
    DivModUnique(p.x - CARD_OFFSET, rect.width + CARD_OFFSET, index % rc, 0);
    DivModUnique(p.y - CARD_OFFSET, rect.height + CARD_OFFSET, index / rc, 0);
  }

  /** Distinct cards get distinct corners. */
  lemma PlacementInjective(board: Size, rect: Size, i: nat, j: nat)
    requires RowCount(board.width, rect.width) > 0
    requires i != j
    ensures ComputeRectXY(board, rect, i) != ComputeRectXY(board, rect, j)
  {
    PlacementRoundTrip(board, rect, i);
    PlacementRoundTrip(board, rect, j);
  }

  /** The next card in the same row sits one card width plus one margin to the right. */
  lemma RowNeighbours(board: Size, rect: Size, index: nat)
    requires RowCount(board.width, rect.width) > 0
    requires index % RowCount(board.width, rect.width) < RowCount(board.width, rect.width) - 1
    ensures var p := ComputeRectXY(board, rect, index).value;
            ComputeRectXY(board, rect, index + 1).value == Point(p.x + rect.width + CARD_OFFSET, p.y)
  {
    var rc := RowCount(board.width, rect.width);
    DivModUnique(index + 1, rc, index / rc, index % rc + 1);
    PlacementCell(board, rect, index);
    PlacementCell(board, rect, index + 1);
  }

  /** The card one row further down sits one card height plus one margin lower. */
  lemma ColumnNeighbours(board: Size, rect: Size, index: nat)
    requires RowCount(board.width, rect.width) > 0
    ensures var rc := RowCount(board.width, rect.width);
            var p := ComputeRectXY(board, rect, index).value;
            ComputeRectXY(board, rect, index + rc).value == Point(p.x, p.y + rect.height + CARD_OFFSET)
  {
    var rc := RowCount(board.width, rect.width);
    DivModUnique(index + rc, rc, index / rc + 1, index % rc);
    PlacementCell(board, rect, index);
    PlacementCell(board, rect, index + rc);
  }

  /** The rectangle `renderCard` draws for card `index`. */
  function PlacedRect(board: Size, rect: Size, index: nat): Rect
    requires RowCount(board.width, rect.width) > 0
  {
    var p := ComputeRectXY(board, rect, index).value;
    Rect(p.x, p.y, rect.width, rect.height)
  }

  /** Two distinct placed cards never collide, not even edge to edge. */
  lemma PlacementSeparated(board: Size, rect: Size, i: nat, j: nat)
    requires RowCount(board.width, rect.width) > 0
    requires i != j
    ensures !Overlaps(PlacedRect(board, rect, i), PlacedRect(board, rect, j))
  {
    var rc := RowCount(board.width, rect.width);
    var kx, ky := rect.width + CARD_OFFSET, rect.height + CARD_OFFSET;
    PlacementCell(board, rect, i);
    PlacementCell(board, rect, j);
    var ci, cj, qi, qj := i % rc, j % rc, i / rc, j / rc;
    if ci < cj {
      assert cj * kx - ci * kx == (cj - ci) * kx;
      MulAtLeast(cj - ci, kx);
    } else if cj < ci {
      assert ci * kx - cj * kx == (ci - cj) * kx;
      MulAtLeast(ci - cj, kx);
    } else if qi < qj {
      assert qj * ky - qi * ky == (qj - qi) * ky;
      MulAtLeast(qj - qi, ky);
    } else {
      assert qi != qj;
      assert qi * ky - qj * ky == (qi - qj) * ky;
      MulAtLeast(qi - qj, ky);
    }
  }

  /**
   * A board narrower than the margin gives `rowcount` -1; every card then
   * lands at the left margin, each one a card height plus a margin above the
   * previous one, so all cards after the first are above the board.
   */
  lemma NarrowBoardStacksAbove(board: Size, rect: Size, index: nat)
    requires board.width < CARD_OFFSET
    ensures ComputeRectXY(board, rect, index)
         == Some(Point(CARD_OFFSET, CARD_OFFSET - (index as int) * (rect.height + CARD_OFFSET)))
  {
    assert RowCount(board.width, rect.width) == -1;
    assert FloorDiv(index, -1) == -(index as int);
    assert TruncRem(index, -1) == 0;
  }

  /**
   * The cards `renderCard` creates for the data ids, in order: each `rect`
   * has the fixed card size and the corner `computeRectXY` gives its index,
   * and no group has a transform yet. `None` when some card would get NaN
   * coordinates.
   */
  function LayoutCards(board: Size, ids: seq<int>): (r: Option<seq<Card>>)
    ensures r.None? <==> |ids| > 0 && RowCount(board.width, CARD_WIDTH) == 0
    ensures r.Some? ==> |r.value| == |ids|
    ensures r.Some? ==> forall i :: 0 <= i < |ids| ==>
              r.value[i].id == ids[i] && r.value[i].transform.None?
              && r.value[i].rect.width == CARD_WIDTH && r.value[i].rect.height == CARD_HEIGHT
    ensures r.Some? && RowCount(board.width, CARD_WIDTH) > 0 ==> forall i :: 0 <= i < |ids| ==>
              r.value[i].rect == PlacedRect(board, Size(CARD_WIDTH, CARD_HEIGHT), i)
  {
    var cardSize := Size(CARD_WIDTH, CARD_HEIGHT);
    if |ids| > 0 && RowCount(board.width, CARD_WIDTH) == 0 then None
    else
      Some(seq(|ids|, i requires 0 <= i < |ids| =>
        var p := ComputeRectXY(board, cardSize, i).value;
        Card(ids[i], Rect(p.x, p.y, CARD_WIDTH, CARD_HEIGHT), None)))
  }

  /**
   * On a board at least one card wide, the laid-out cards keep the left,
   * right and top margins and no two of them collide.
   */
  lemma LayoutSeparated(board: Size, ids: seq<int>)
    requires RowCount(board.width, CARD_WIDTH) > 0
    ensures LayoutCards(board, ids).Some?
    ensures var cards := LayoutCards(board, ids).value;
            forall i :: 0 <= i < |cards| ==>
              CARD_OFFSET <= cards[i].rect.x && cards[i].rect.x + CARD_WIDTH + CARD_OFFSET <= board.width
              && CARD_OFFSET <= cards[i].rect.y
    ensures var cards := LayoutCards(board, ids).value;
            forall i, j :: 0 <= i < |cards| && 0 <= j < |cards| && i != j ==>
              !Overlaps(cards[i].rect, cards[j].rect)
  {
    var cardSize := Size(CARD_WIDTH, CARD_HEIGHT);
    var cards := LayoutCards(board, ids).value;
    forall i | 0 <= i < |cards|
      ensures CARD_OFFSET <= cards[i].rect.x && cards[i].rect.x + CARD_WIDTH + CARD_OFFSET <= board.width
              && CARD_OFFSET <= cards[i].rect.y
    {
      PlacementInsideBoard(board, cardSize, i);
    }
    forall i, j | 0 <= i < |cards| && 0 <= j < |cards| && i != j
      ensures !Overlaps(cards[i].rect, cards[j].rect)
    {
      assert cards[i].rect == PlacedRect(board, cardSize, i);
      assert cards[j].rect == PlacedRect(board, cardSize, j);
      PlacementSeparated(board, cardSize, i, j);
    }
  }
}

/**
 * The drag handlers of `dragCard` (src/index.js:180-221) together with the
 * module-level state they share (src/index.js:25-26): the `active` record,
 * `impactDistance`, and the cards' stored geometry and transforms.
 */
module Gesture {
  import opened Wrappers
  import opened Geometry
  import opened Collision
  import opened Detection

  datatype Phase = Idle | Dragging

  class DragBoard {
    /** The cards in document order: datum id, `rect` attributes, group transform. */
    var cards: seq<Card>
    var phase: Phase

    // The fields of the shared `active` record.
    var mouseToX: int
    var mouseToY: int
    var activeX: int
    var activeY: int
    var activeWidth: int
    var activeHeight: int
    /** `active.nodeData.id`. */
    var activeId: int
    /** The position in `cards` of the element the gesture started on. */
    var activeElement: nat

    /** The module-level `impactDistance`, squared. */
    var impactDistance: nat

    /**
     * During a gesture the `active` record describes the card being dragged
     * and holds its stored geometry, and only that card's group may carry a
     * transform; outside a gesture no group carries one.
     */
    ghost predicate Valid()
      reads this
    {
      && (phase == Dragging ==>
            activeElement < |cards|
            && cards[activeElement].id == activeId
            && cards[activeElement].rect == ActiveRect())
      && (forall i :: 0 <= i < |cards| && cards[i].transform.Some? ==>
            phase == Dragging && i == activeElement)
    }

    /** The active card's stored rectangle as captured on `start`. */
    function ActiveRect(): Rect
      reads this`activeX, this`activeY, this`activeWidth, this`activeHeight
    {
      Rect(activeX, activeY, activeWidth, activeHeight)
    }

    /** The pointer's displacement since `start`, the `translateX`/`translateY` of `drag`. */
    function Translate(px: int, py: int): Point
      reads this`mouseToX, this`mouseToY
    {
      Point(px - mouseToX, py - mouseToY)
    }

    /** A board showing `laidOut`, with the empty `active` record and `impactDistance` 0. */
    constructor (laidOut: seq<Card>)
      requires forall i :: 0 <= i < |laidOut| ==> laidOut[i].transform.None?
      ensures Valid()
      ensures cards == laidOut && phase == Idle && impactDistance == 0
    {
      cards := laidOut;
      phase := Idle;
      mouseToX, mouseToY := 0, 0;
      activeX, activeY, activeWidth, activeHeight := 0, 0, 0, 0;
      activeId, activeElement := 0, 0;
      impactDistance := 0;
    }

    /**
     * The `start` handler on the card at position `element`, pointer at
     * (`px`, `py`): records the pointer and the card's stored geometry and
     * datum in `active`. A second start during a gesture is refused.
     */
    method Start(element: nat, px: int, py: int) returns (ok: bool)
      requires Valid()
      requires element < |cards|
      modifies this
      ensures Valid()
      ensures ok == (old(phase) == Idle)
      ensures !ok ==> unchanged(this)
      ensures ok ==> phase == Dragging && activeElement == element
      ensures ok ==> mouseToX == px && mouseToY == py
      ensures ok ==> ActiveRect() == cards[element].rect && activeId == cards[element].id
      ensures cards == old(cards) && impactDistance == old(impactDistance)
    {
      if phase != Idle {
        return false;
      }
      mouseToX := px;
      mouseToY := py;
      var r := cards[element].rect;
      activeWidth := r.width;
      activeHeight := r.height;
      activeX := r.x;
      activeY := r.y;
      activeId := cards[element].id;
      activeElement := element;
      phase := Dragging;
      ok := true;
    }

    /**
     * `detect`: scans every card whose datum id differs from the active one,
     * records the first non-zero distance of a collision in `impactDistance`
     * when it is still 0, and returns the ids of the cards reported as
     * closer than the recorded distance.
     */
    method Detect(offsetX: int, offsetY: int) returns (logged: seq<int>)
      modifies this`impactDistance
      ensures var r := Scan(ScanState(old(impactDistance), []), ActiveRect(), offsetX, offsetY, Candidates(cards, activeId));
              impactDistance == r.distance && logged == r.logged
      ensures impactDistance
           == if old(impactDistance) != 0 then old(impactDistance)
              else FirstNonzero(HitDistances(ActiveRect(), offsetX, offsetY, Candidates(cards, activeId)))
      ensures forall k :: 0 <= k < |logged| ==> logged[k] != activeId
    {
      var active := ActiveRect();
      var nodes := Candidates(cards, activeId);
      ghost var start := ScanState(impactDistance, []);
      logged := [];
      for i := 0 to |nodes|
        invariant ScanState(impactDistance, logged) == Scan(start, active, offsetX, offsetY, nodes[..i])
      {
        var node := nodes[i];
        assert nodes[..i + 1][..i] == nodes[..i];
        var nodeXY := Impact(active, offsetX, offsetY, node.rect);
        if nodeXY.Some? {
          var distance := SquaredDistance(active, offsetX, offsetY, nodeXY.value.x, nodeXY.value.y);
          if impactDistance != 0 {
            if impactDistance > distance {
              logged := logged + [node.id];
            }
          } else {
            impactDistance := distance;
          }
        }
      }
      assert nodes[..|nodes|] == nodes;
      ScanDistance(start, active, offsetX, offsetY, nodes);
      ScanLogged(start, active, offsetX, offsetY, nodes);
      forall k | 0 <= k < |logged| ensures logged[k] != activeId {
        var c :| c in nodes && c.id == logged[k]
          && Impact(active, offsetX, offsetY, c.rect).Some?
          && SquaredDistance(active, offsetX, offsetY, c.rect.x, c.rect.y) < impactDistance;
      }
    }

    /**
     * The `drag` handler, pointer at (`px`, `py`): gives the dragged card's
     * group the transform `translate(px - mouseToX, py - mouseToY)`, then
     * runs `detect` with that translate. Refused outside a gesture.
     */
    method Move(px: int, py: int) returns (ok: bool, logged: seq<int>)
      requires Valid()
      modifies this
      ensures Valid()
      ensures ok == (old(phase) == Dragging)
      ensures !ok ==> unchanged(this) && logged == []
      ensures phase == old(phase) && activeElement == old(activeElement) && activeId == old(activeId)
      ensures ActiveRect() == old(ActiveRect()) && mouseToX == old(mouseToX) && mouseToY == old(mouseToY)
      ensures ok ==> cards == old(cards)[activeElement := old(cards)[activeElement].(transform := Some(Translate(px, py)))]
      ensures ok ==> var t := Translate(px, py);
                     var r := Scan(ScanState(old(impactDistance), []), ActiveRect(), t.x, t.y, Candidates(cards, activeId));
                     impactDistance == r.distance && logged == r.logged
      ensures old(impactDistance) != 0 ==> impactDistance == old(impactDistance)
      ensures forall k :: 0 <= k < |logged| ==> logged[k] != activeId
    {
      if phase != Dragging {
        return false, [];
      }
      var translate := Translate(px, py);
      cards := cards[activeElement := cards[activeElement].(transform := Some(translate))];
      logged := Detect(translate.x, translate.y);
      ok := true;
    }

    /**
     * The `end` handler, pointer at (`px`, `py`): removes the dragged card's
     * transform and stores `active.x + px - mouseToX`, `active.y + py - mouseToY`
     * as its `rect` position. The `active` record and `impactDistance` are
     * left as they are. Refused outside a gesture.
     */
    method End(px: int, py: int) returns (ok: bool)
      requires Valid()
      modifies this
      ensures Valid()
      ensures ok == (old(phase) == Dragging)
      ensures !ok ==> unchanged(this)
      ensures ok ==> phase == Idle
      ensures ok ==> var e := old(activeElement);
                     cards == old(cards)[e := Card(old(cards)[e].id,
                                                   old(cards)[e].rect.(x := old(activeX) + px - old(mouseToX),
                                                                       y := old(activeY) + py - old(mouseToY)),
                                                   None)]
      ensures ok ==> var c := old(cards)[old(activeElement)];
                     c.transform == Some(old(Translate(px, py))) ==>
                       cards[old(activeElement)].rect == Shift(c.rect, c.transform.value.x, c.transform.value.y)
      ensures activeElement == old(activeElement) && activeId == old(activeId) && ActiveRect() == old(ActiveRect())
      ensures mouseToX == old(mouseToX) && mouseToY == old(mouseToY) && impactDistance == old(impactDistance)
    {
      if phase != Dragging {
        return false;
      }
      var c := cards[activeElement];
      var r := c.rect.(x := activeX + px - mouseToX, y := activeY + py - mouseToY);
      cards := cards[activeElement := Card(c.id, r, None)];
      phase := Idle;
      ok := true;
    }
  }

  /**
   * One gesture on a worked example: a 50x50 card at (100,100) is dragged
   * by (40,40) onto a 50x50 card at (150,150), which collides with it at
   * squared distance 200, and is then dropped there.
   */
  method DragExample()
  {
    var board := new DragBoard([Card(1, Rect(100, 100, 50, 50), None), Card(2, Rect(150, 150, 50, 50), None)]);
    var started := board.Start(0, 10, 10);
    assert started;
    var moved, logged := board.Move(50, 50);
    assert moved;
    assert board.cards[1] == Card(2, Rect(150, 150, 50, 50), None);
    assert Candidates(board.cards, 1) == [board.cards[1]];
    DragFrameExample();
    assert board.impactDistance == 200;
    assert logged == [];
    var ended := board.End(50, 50);
    assert ended;
    assert board.cards[0] == Card(1, Rect(140, 140, 50, 50), None);
  }
}

/**
 * What one run of `detect` (src/index.js:158-178) computes, as functions over
 * the cards it scans: the candidates (every card whose datum id differs from
 * the dragged card's), the colliding ones, and how the module-level
 * `impactDistance` and the `console.log` reports evolve over the scan.
 */
module Detection {
  import opened Wrappers
  import opened Geometry
  import opened Collision

  /** The `filter(d => d.id !== active.nodeData.id)` of `detect`, order kept. */
  function Candidates(cards: seq<Card>, activeId: int): (r: seq<Card>)
    ensures |r| <= |cards|
    ensures forall c :: c in r <==> c in cards && c.id != activeId
    ensures |cards| == 1 ==> r == if cards[0].id != activeId then cards else []
  {
    if cards == [] then []
    else (if cards[0].id != activeId then [cards[0]] else []) + Candidates(cards[1..], activeId)
  }

  /**
   * Filtering distributes over concatenation; with the one-card case of
   * `Candidates` this fixes the result as the in-order subsequence of the
   * cards with another id, duplicates included.
   */
  lemma {:induction false} CandidatesAppend(s: seq<Card>, t: seq<Card>, activeId: int)
    ensures Candidates(s + t, activeId) == Candidates(s, activeId) + Candidates(t, activeId)
  {
    if s == [] {
      assert s + t == t;
    } else {
      assert (s + t)[1..] == s[1..] + t;
      CandidatesAppend(s[1..], t, activeId);
    }
  }

  /** The state a scan carries: `impactDistance` (squared) and the ids reported so far. */
  datatype ScanState = ScanState(distance: nat, logged: seq<int>)

  /**
   * One iteration of the loop of `detect`: on a collision the distance is
   * recorded only while `impactDistance` is still 0; once it is set, a
   * strictly closer card is only reported (the `console.log(node)`).
   */
  function Step(s: ScanState, active: Rect, offsetX: int, offsetY: int, node: Card): (r: ScanState)
    ensures s.distance != 0 ==> r.distance == s.distance
    ensures r.distance != s.distance ==> s.distance == 0 && Impact(active, offsetX, offsetY, node.rect).Some?
    ensures r.logged == s.logged || r.logged == s.logged + [node.id]
    ensures r.logged != s.logged ==>
              s.distance != 0 && Impact(active, offsetX, offsetY, node.rect).Some?
              && SquaredDistance(active, offsetX, offsetY, node.rect.x, node.rect.y) < s.distance
  {
    match Impact(active, offsetX, offsetY, node.rect)
    case None => s
    case Some(p) =>
      var d := SquaredDistance(active, offsetX, offsetY, p.x, p.y);
      if s.distance != 0 then
        if s.distance > d then s.(logged := s.logged + [node.id]) else s
      else s.(distance := d)
  }

  /** The loop of `detect` over `nodes`, from state `s`. */
  function Scan(s: ScanState, active: Rect, offsetX: int, offsetY: int, nodes: seq<Card>): (r: ScanState)
    ensures s.distance != 0 ==> r.distance == s.distance
    ensures |s.logged| <= |r.logged| <= |s.logged| + |nodes| && r.logged[..|s.logged|] == s.logged
    decreases |nodes|
  {
    if nodes == [] then s
    else Step(Scan(s, active, offsetX, offsetY, nodes[..|nodes| - 1]), active, offsetX, offsetY, nodes[|nodes| - 1])
  }

  /** The squared distances of the colliding nodes, in scan order. */
  function HitDistances(active: Rect, offsetX: int, offsetY: int, nodes: seq<Card>): (ds: seq<nat>)
    ensures |ds| <= |nodes|
    decreases |nodes|
  {
    if nodes == [] then []
    else
      var last := nodes[|nodes| - 1];
      HitDistances(active, offsetX, offsetY, nodes[..|nodes| - 1])
        + (if Impact(active, offsetX, offsetY, last.rect).Some?
           then [SquaredDistance(active, offsetX, offsetY, last.rect.x, last.rect.y)]
           else [])
  }

  /** The first non-zero entry of `ds`, or 0 when there is none. */
  function FirstNonzero(ds: seq<nat>): (d: nat)
    ensures d == 0 <==> forall k :: 0 <= k < |ds| ==> ds[k] == 0
    ensures d != 0 ==> exists k :: 0 <= k < |ds| && ds[k] == d && forall j :: 0 <= j < k ==> ds[j] == 0
  {
    if ds == [] then 0
    else if ds[0] != 0 then ds[0]
    else
      var d := FirstNonzero(ds[1..]);
      assert forall k :: 1 <= k < |ds| ==> ds[k] == ds[1..][k - 1];
      d
  }

  lemma {:induction false} FirstNonzeroAppend(s: seq<nat>, t: seq<nat>)
    ensures FirstNonzero(s + t) == if FirstNonzero(s) != 0 then FirstNonzero(s) else FirstNonzero(t)
  {
    if s != [] {
      assert (s + t)[1..] == s[1..] + t;
      FirstNonzeroAppend(s[1..], t);
    } else {
      assert s + t == t;
    }
  }

  /**
   * `impactDistance` is first-hit sticky: a scan leaves a non-zero distance
   * as it was, and turns 0 into the first non-zero distance of a colliding
   * node (or leaves it 0 when there is none).
   */
  lemma {:induction false} ScanDistance(s: ScanState, active: Rect, offsetX: int, offsetY: int, nodes: seq<Card>)
    ensures Scan(s, active, offsetX, offsetY, nodes).distance
         == if s.distance != 0 then s.distance else FirstNonzero(HitDistances(active, offsetX, offsetY, nodes))
    decreases |nodes|
  {
    if nodes != [] {
      var prefix, last := nodes[..|nodes| - 1], nodes[|nodes| - 1];
      ScanDistance(s, active, offsetX, offsetY, prefix);
      var hits := HitDistances(active, offsetX, offsetY, prefix);
      match Impact(active, offsetX, offsetY, last.rect)
      case None =>
        assert HitDistances(active, offsetX, offsetY, nodes) == hits + [];
        assert hits + [] == hits;
      case Some(p) =>
        var d := SquaredDistance(active, offsetX, offsetY, p.x, p.y);
        assert HitDistances(active, offsetX, offsetY, nodes) == hits + [d];
        FirstNonzeroAppend(hits, [d]);
        assert FirstNonzero([d]) == d by {
          assert [d][1..] == [];
        }
    }
  }

  /**
   * A scan only appends to the reports, and every id it appends belongs to a
   * scanned node that collides and is strictly closer than the final
   * `impactDistance`.
   */
  lemma {:induction false} ScanLogged(s: ScanState, active: Rect, offsetX: int, offsetY: int, nodes: seq<Card>)
    ensures var r := Scan(s, active, offsetX, offsetY, nodes);
            |s.logged| <= |r.logged| && r.logged[..|s.logged|] == s.logged
    ensures var r := Scan(s, active, offsetX, offsetY, nodes);
            forall k :: |s.logged| <= k < |r.logged| ==>
              exists c :: c in nodes && c.id == r.logged[k]
                && Impact(active, offsetX, offsetY, c.rect).Some?
                && SquaredDistance(active, offsetX, offsetY, c.rect.x, c.rect.y) < r.distance
    decreases |nodes|
  {
    if nodes != [] {
      var prefix, last := nodes[..|nodes| - 1], nodes[|nodes| - 1];
      ScanLogged(s, active, offsetX, offsetY, prefix);
      var before := Scan(s, active, offsetX, offsetY, prefix);
      var r := Scan(s, active, offsetX, offsetY, nodes);
      assert r == Step(before, active, offsetX, offsetY, last);
      assert forall c :: c in prefix ==> c in nodes;
      if |before.logged| > |s.logged| {
        var c :| c in prefix && c.id == before.logged[|s.logged|]
          && Impact(active, offsetX, offsetY, c.rect).Some?
          && SquaredDistance(active, offsetX, offsetY, c.rect.x, c.rect.y) < before.distance;
        assert r.distance == before.distance;
      }
      assert r.logged[..|before.logged|] == before.logged;
      assert r.logged[..|s.logged|] == before.logged[..|s.logged|];
      forall k | |s.logged| <= k < |r.logged|
        ensures exists c :: c in nodes && c.id == r.logged[k]
                             && Impact(active, offsetX, offsetY, c.rect).Some?
                             && SquaredDistance(active, offsetX, offsetY, c.rect.x, c.rect.y) < r.distance
      {
        if k < |before.logged| {
          assert r.logged[k] == before.logged[k];
        } else {
          assert last in nodes && r.logged[k] == last.id;
        }
      }
    }
  }
}

/**
  The navigation mesh (a list of boxes and, for every box, the list of its
  neighbours) and point localisation, `find_box`.
 */
module NavMesh {
  import opened Wrappers
  import opened Geometry

  /** `mesh["boxes"]` and `mesh["adj"]`. */
  datatype Mesh = Mesh(boxes: seq<Box>, adj: map<Box, seq<Box>>)

  /**
    What the search relies on: every box of the list has an adjacency entry,
    and so does every box that is named as a neighbour.
   */
  ghost predicate WellFormed(mesh: Mesh) {
    && (forall b :: b in mesh.boxes ==> b in mesh.adj)
    && (forall b, a :: b in mesh.adj && a in mesh.adj[b] ==> a in mesh.adj)
  }

  /** Index `i` holds the first box of the list that contains `p`. */
  ghost predicate IsFirstContaining(boxes: seq<Box>, p: Point, i: int) {
    && 0 <= i < |boxes|
    && Contains(boxes[i], p)
    && forall j :: 0 <= j < i ==> !Contains(boxes[j], p)
  }

  lemma FirstContainingTail(boxes: seq<Box>, p: Point)
    requires |boxes| > 0 && !Contains(boxes[0], p)
    ensures forall i :: IsFirstContaining(boxes, p, i) ==> IsFirstContaining(boxes[1..], p, i - 1)
  {
  }

  /**
    The first box of the list that contains `p`, or `None` when no box does:
    the reference definition that `FindBox` is proved against.
   */
  function Locate(boxes: seq<Box>, p: Point): (r: Option<Box>)
    ensures r.Some? ==> r.value in boxes && Contains(r.value, p)
    ensures r.None? <==> forall b :: b in boxes ==> !Contains(b, p)
    ensures forall i :: IsFirstContaining(boxes, p, i) ==> r == Some(boxes[i])
  {
    if |boxes| == 0 then None
    else if Contains(boxes[0], p) then Some(boxes[0])
    else FirstContainingTail(boxes, p); Locate(boxes[1..], p)
  }

  /** `find_box`: a linear scan of `mesh["boxes"]` that stops at the first box containing the point. */
  method FindBox(point: Point, mesh: Mesh) returns (r: Option<Box>)
    ensures r == Locate(mesh.boxes, point)
  {
    var i := 0;
    while i < |mesh.boxes|
      invariant 0 <= i <= |mesh.boxes|
      invariant forall j :: 0 <= j < i ==> !Contains(mesh.boxes[j], point)
    {
      var box := mesh.boxes[i];
      if box.x1 <= point.x <= box.x2 && box.y1 <= point.y <= box.y2 {
        assert IsFirstContaining(mesh.boxes, point, i);
        return Some(box);
      }
      i := i + 1;
    }
    return None;
  }

  /** A box with positive width and height. */
  predicate NonDegenerate(b: Box) {
    b.x1 < b.x2 && b.y1 < b.y2
  }

  /** `p` lies in the interior of `b`, off its boundary. */
  predicate StrictlyInside(b: Box, p: Point) {
    b.x1 < p.x < b.x2 && b.y1 < p.y < b.y2
  }

  /** Distinct boxes of the list overlap at most along a boundary, never in an area. */
  ghost predicate InteriorsDisjoint(boxes: seq<Box>) {
    forall b1, b2 :: b1 in boxes && b2 in boxes && b1 != b2 ==>
      !(XRange(b1, b2).lo < XRange(b1, b2).hi && YRange(b1, b2).lo < YRange(b1, b2).hi)
  }

  /**
    In a mesh of non-degenerate boxes whose interiors do not overlap, a point
    strictly inside a box is located in exactly that box: the enumeration
    order matters only for points on shared boundaries.
   */
  lemma LocateInterior(boxes: seq<Box>, p: Point, b: Box)
    requires forall c :: c in boxes ==> NonDegenerate(c)
    requires InteriorsDisjoint(boxes)
    requires b in boxes && StrictlyInside(b, p)
    ensures Locate(boxes, p) == Some(b)
  {
    forall c | c in boxes && Contains(c, p)
      ensures c == b
    {
      InteriorOverlap(c, b, p);
    }
    assert Contains(b, p);
  }

  /** A non-degenerate box holding `p` overlaps in an area any box that holds `p` in its interior. */
  lemma InteriorOverlap(c: Box, b: Box, p: Point)
    ensures NonDegenerate(c) && Contains(c, p) && StrictlyInside(b, p) ==>
      XRange(c, b).lo < XRange(c, b).hi && YRange(c, b).lo < YRange(c, b).hi
  {
  }
}

/**
  Walks through the box-adjacency graph `mesh["adj"]`, reachability, and the
  sequence of detail points that the search attaches to the boxes of a walk.
 */
module Walks {
  import opened Geometry

  /**
    A non-empty sequence of boxes, each with an adjacency entry, in which every
    box after the first is listed among the neighbours of the box before it.
   */
  ghost predicate IsWalk(adj: map<Box, seq<Box>>, w: seq<Box>) {
    && |w| > 0
    && (forall i :: 0 <= i < |w| ==> w[i] in adj)
    && (forall i, j :: 0 <= i && j == i + 1 && j < |w| ==> w[j] in adj[w[i]])
  }

  ghost predicate Reachable(adj: map<Box, seq<Box>>, s: Box, t: Box) {
    exists w {:trigger IsWalk(adj, w)} :: IsWalk(adj, w) && w[0] == s && w[|w| - 1] == t
  }

  /** The boxes with an adjacency entry that some walk from `s` reaches. */
  ghost function ReachableSet(adj: map<Box, seq<Box>>, s: Box): set<Box> {
    set b | b in adj && Reachable(adj, s, b)
  }

  /** `S` contains every neighbour of each of its boxes. */
  ghost predicate Closed(adj: map<Box, seq<Box>>, S: set<Box>) {
    forall b, a :: b in S && b in adj && a in adj[b] ==> a in S
  }

  /** A walk that starts inside a closed set never leaves it. */
  lemma {:induction false} WalkStaysInClosedSet(adj: map<Box, seq<Box>>, S: set<Box>, w: seq<Box>, i: int)
    requires IsWalk(adj, w) && w[0] in S && Closed(adj, S)
    requires 0 <= i < |w|
    ensures w[i] in S
    decreases i
  {
    if i > 0 {
      WalkStaysInClosedSet(adj, S, w, i - 1);
    }
  }

  /** Hence nothing outside a closed set is reachable from inside it. */
  lemma ClosedSetBoundsReachable(adj: map<Box, seq<Box>>, S: set<Box>, s: Box)
    requires s in S && Closed(adj, S)
    ensures forall t :: Reachable(adj, s, t) ==> t in S
  {
    forall t | Reachable(adj, s, t)
      ensures t in S
    {
      var w :| IsWalk(adj, w) && w[0] == s && w[|w| - 1] == t;
      WalkStaysInClosedSet(adj, S, w, |w| - 1);
    }
  }

  /** Extending a walk by a neighbour of its last box gives a walk. */
  lemma WalkExtend(adj: map<Box, seq<Box>>, w: seq<Box>, b: Box)
    requires IsWalk(adj, w) && b in adj && b in adj[w[|w| - 1]]
    ensures IsWalk(adj, w + [b])
  {
    var v := w + [b];
    forall i | 0 <= i < |v| - 1
      ensures v[i + 1] in adj[v[i]]
    {
      if i < |w| - 1 {
        assert v[i] == w[i] && v[i + 1] == w[i + 1];
      }
    }
  }

  /**
    The detail points along a walk, starting from `p` in its first box: each
    later box gets the projection of the previous point into its overlap with
    the box before it, as `find_path` computes them.
   */
  function TransitPoints(w: seq<Box>, p: Point): (r: seq<Point>)
    requires |w| > 0
    ensures |r| == |w| && r[0] == p
    ensures forall i :: 0 <= i < |w| - 1 ==> r[i + 1] == DetailPoint(w[i + 1], w[i], r[i])
    decreases |w|
  {
    if |w| == 1 then [p]
    else [p] + TransitPoints(w[1..], DetailPoint(w[1], w[0], p))
  }

  /** Extending the walk by one box appends that box's detail point. */
  lemma TransitPointsSnoc(w: seq<Box>, p: Point, b: Box)
    requires |w| > 0
    ensures TransitPoints(w + [b], p)
         == TransitPoints(w, p) + [DetailPoint(b, w[|w| - 1], TransitPoints(w, p)[|w| - 1])]
  {
    var l := TransitPoints(w + [b], p);
    var r := TransitPoints(w, p) + [DetailPoint(b, w[|w| - 1], TransitPoints(w, p)[|w| - 1])];
    forall i | 0 <= i < |l|
      ensures l[i] == r[i]
    {
      if i > 0 {
        TransitPointsPrefix(w, p, b, i - 1);
      }
    }
  }

  lemma {:induction false} TransitPointsPrefix(w: seq<Box>, p: Point, b: Box, i: int)
    requires |w| > 0 && 0 <= i < |w|
    ensures TransitPoints(w + [b], p)[i] == TransitPoints(w, p)[i]
    decreases i
  {
    if i > 0 {
      TransitPointsPrefix(w, p, b, i - 1);
      assert (w + [b])[i] == w[i] && (w + [b])[i - 1] == w[i - 1];
    }
  }

  /** Every neighbour listed for a box shares at least a boundary point with it. */
  ghost predicate TouchingAdjacency(adj: map<Box, seq<Box>>) {
    forall b, a :: b in adj && a in adj[b] ==> Overlaps(a, b)
  }

  /**
    When neighbours touch, the path made of the detail points along a walk
    followed by a final point `q` in its last box runs segment by segment
    inside the boxes: both ends of segment `i` lie in the walk's box `i`.
   */
  lemma PathSegmentsInBoxes(adj: map<Box, seq<Box>>, w: seq<Box>, p: Point, q: Point)
    requires IsWalk(adj, w) && TouchingAdjacency(adj)
    requires Contains(w[0], p) && Contains(w[|w| - 1], q)
    ensures var path := TransitPoints(w, p) + [q];
      forall i :: 0 <= i < |w| ==> Contains(w[i], path[i]) && Contains(w[i], path[i + 1])
  {
    var t := TransitPoints(w, p);
    var path := t + [q];
    forall i | 0 <= i < |w|
      ensures Contains(w[i], path[i]) && Contains(w[i], path[i + 1])
    {
      if i > 0 {
        assert Overlaps(w[i], w[i - 1]);
      }
      if i < |w| - 1 {
        assert Overlaps(w[i + 1], w[i]);
      }
    }
  }
}

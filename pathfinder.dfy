/**
  The top level of `find_path`: locating the two boxes, then the search loop,
  one turn at a time, over the bookkeeping and lemmas of `PathSearch`.
 */
module Pathfinder {
  import opened Wrappers
  import opened Geometry
  import opened NavMesh
  import opened Walks
  import opened PathSearch

  /**
    One turn of the search loop of `find_path`: dequeue the next box, record its
    detail point, and either backtrack from it when it holds the destination or
    enqueue its undiscovered neighbours.
   */
  method Visit(adj: map<Box, seq<Box>>, start: Box, ghost source: Point, destination: Point,
               dest: Option<Box>, queue: seq<Box>, boxes: map<Box, Option<Box>>, detail: map<Box, Point>,
               ghost g: Discovery)
    returns (queue': seq<Box>, boxes': map<Box, Option<Box>>, detail': map<Box, Point>, ghost g': Discovery,
             path: seq<Point>, ghost walk: seq<Box>, found: bool)
    requires forall b, a :: b in adj && a in adj[b] ==> a in adj
    requires queue != [] && SearchInv(adj, start, source, dest, queue, boxes, detail, g)
    ensures found <==> Some(queue[0]) == dest
    ensures queue[0] == start ==> detail' == detail
    ensures queue[0] != start ==>
      && queue[0] in boxes && boxes[queue[0]].Some? && boxes[queue[0]].value in detail
      && detail' == detail[queue[0] := DetailPoint(queue[0], boxes[queue[0]].value, detail[boxes[queue[0]].value])]
    ensures found ==> queue' == queue[1..] && boxes' == boxes
    ensures !found ==> queue[0] in adj && queue' == queue[1..] + Undiscovered(adj[queue[0]], boxes.Keys)
    ensures !found ==> forall a :: a in boxes' <==> a in boxes || a in adj[queue[0]]
    ensures !found ==> forall a :: a in boxes ==> boxes'[a] == boxes[a]
    ensures !found ==> forall a :: a in boxes' && a !in boxes ==> boxes'[a] == Some(queue[0])
    ensures found ==>
      && start in boxes' && boxes'.Keys <= ReachableSet(adj, start)
      && IsWalk(adj, walk) && walk[0] == start
      && Some(walk[|walk| - 1]) == dest && walk[|walk| - 1] in boxes'
      && path == TransitPoints(walk, source) + [destination]
      && forall w :: IsWalk(adj, w) && w[0] == start && w[|w| - 1] == walk[|walk| - 1] ==> |walk| <= |w|
    ensures !found ==>
      && path == [] && SearchInv(adj, start, source, dest, queue', boxes', detail', g')
      && adj.Keys - g'.visited < adj.Keys - g.visited
  {
    var current := queue[0];
    DequeueFacts(adj, start, source, dest, queue, boxes, detail, g);
    detail' := detail;
    if current != start {
      detail' := detail[current := DetailPoint(current, boxes[current].value, detail[boxes[current].value])];
    }

    if Some(current) == dest {
      path, walk := Arrive(adj, start, source, destination, dest, queue, boxes, detail, g, detail');
      queue', boxes', g', found := queue[1..], boxes, g, true;
      return;
    }

    path, walk, found := [], [], false;
    queue', boxes', g' := Expand(adj, start, source, dest, queue, boxes, detail, g, detail');
  }

  /**
    The search loop of `find_path` (lines after the two `find_box` calls), from
    the start box towards the box `dest` that holds the destination point, if
    any.  The path is empty exactly when `dest` is missing or cannot be reached
    from `start`, and then the explored boxes are all the boxes reachable from
    `start`.  Otherwise the path runs through the detail points along a walk
    with the fewest boxes from `start` to `dest`, and ends at `destination`.
   */
  method Search(adj: map<Box, seq<Box>>, start: Box, source: Point, destination: Point, dest: Option<Box>)
    returns (path: seq<Point>, explored: set<Box>, ghost walk: seq<Box>)
    requires forall b, a :: b in adj && a in adj[b] ==> a in adj
    requires start in adj
    ensures start in explored && explored <= ReachableSet(adj, start)
    ensures path != [] <==> dest.Some? && Reachable(adj, start, dest.value)
    ensures path == [] ==> explored == ReachableSet(adj, start)
    ensures path != [] ==>
      && IsWalk(adj, walk) && walk[0] == start
      && Some(walk[|walk| - 1]) == dest && walk[|walk| - 1] in explored
      && path == TransitPoints(walk, source) + [destination]
    ensures path != [] ==>
      forall w :: IsWalk(adj, w) && w[0] == start && w[|w| - 1] == walk[|walk| - 1] ==> |walk| <= |w|
  {
    path := [];
    walk := [start];
    var queue := [start];
    var boxes: map<Box, Option<Box>> := map[start := None];
    var detail: map<Box, Point> := map[start := source];
    ghost var g := Discovery([start], map[start := 0], [0], 0, 1, 0, {});
    SearchStart(adj, start, source, dest);

    while queue != []
      invariant SearchInv(adj, start, source, dest, queue, boxes, detail, g)
      invariant path == []
      decreases adj.Keys - g.visited
    {
      var found;
      queue, boxes, detail, g, path, walk, found := Visit(adj, start, source, destination, dest, queue, boxes, detail, g);
      if found {
        explored := boxes.Keys;
        break;
      }
    }

    if path == [] {
      explored := boxes.Keys;
      NotFoundOutcome(adj, start, source, dest, boxes, detail, g);
    }
  }

  /**
    `find_path`: locate the boxes that hold `source` and `destination`, then
    search from the first towards the second.
   */
  method FindPath(source: Point, destination: Point, mesh: Mesh)
    returns (path: seq<Point>, explored: set<Box>, ghost startBox: Box, ghost destBox: Option<Box>,
             ghost walk: seq<Box>)
    requires WellFormed(mesh)
    requires exists b :: b in mesh.boxes && Contains(b, source)
    ensures Locate(mesh.boxes, source) == Some(startBox) && Locate(mesh.boxes, destination) == destBox
    ensures startBox in explored && explored <= ReachableSet(mesh.adj, startBox)
    ensures path != [] <==> destBox.Some? && Reachable(mesh.adj, startBox, destBox.value)
    ensures path == [] ==> explored == ReachableSet(mesh.adj, startBox)
    ensures path != [] ==>
      && IsWalk(mesh.adj, walk) && walk[0] == startBox
      && Some(walk[|walk| - 1]) == destBox && walk[|walk| - 1] in explored
      && path == TransitPoints(walk, source) + [destination]
    ensures path != [] ==>
      forall w :: IsWalk(mesh.adj, w) && w[0] == startBox && w[|w| - 1] == walk[|walk| - 1] ==> |walk| <= |w|
    ensures path != [] ==> path[0] == source && path[|path| - 1] == destination
    ensures destBox == Some(startBox) ==> path == [source, destination]
  {
    var startingBox := FindBox(source, mesh);
    var destinationBox := FindBox(destination, mesh);
    startBox, destBox := startingBox.value, destinationBox;
    path, explored, walk := Search(mesh.adj, startingBox.value, source, destination, destinationBox);
    if path != [] {
      PathEnds(mesh.adj, startBox, walk, source, destination);
    }
  }

  /**
    A path found along a walk with the fewest boxes starts at the source point
    and ends at the destination point; when both points lie in the start box
    it is just these two points.
   */
  lemma PathEnds(adj: map<Box, seq<Box>>, start: Box, walk: seq<Box>, source: Point, destination: Point)
    requires start in adj && IsWalk(adj, walk) && walk[0] == start
    requires forall w :: IsWalk(adj, w) && w[0] == start && w[|w| - 1] == walk[|walk| - 1] ==> |walk| <= |w|
    ensures var path := TransitPoints(walk, source) + [destination];
      path[0] == source && path[|path| - 1] == destination
    ensures walk[|walk| - 1] == start ==> TransitPoints(walk, source) + [destination] == [source, destination]
  {
    if walk[|walk| - 1] == start {
      assert IsWalk(adj, [start]);
      assert |walk| == 1;
    }
  }
}

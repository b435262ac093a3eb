# Navigation-mesh path search, modelled in Dafny

The model covers `src/nm_pathfinder.py`, the path search of a navigation mesh
made of axis-aligned boxes. The mesh is a list of boxes `(x1, x2, y1, y2)`
plus, for every box, the list of its neighbours. The file has three parts:

- `find_box` locates a point: it returns the first box of the list whose closed
  ranges contain the point, or `None`.
- `calculate_detail_point` builds the overlap rectangle of two boxes, using
  `max`/`min` of their ranges. It then clamps a reference point into that
  rectangle, one coordinate at a time.
- `find_path` runs a breadth-first search over the adjacency lists, starting
  from the box that holds the source point.
  - It keeps a FIFO queue, a `boxes` dictionary from each discovered box to its
    parent, and a `detail_point` dictionary.
  - When it dequeues a box, it records that box's detail point. The detail
    point is its parent's detail point projected into the overlap of the two
    boxes.
  - When the dequeued box is the destination box, it follows the parents back
    to the start and collects the detail points. It then reverses them and
    appends the destination point.
  - Otherwise it queues every neighbour that is not yet a key of `boxes`.
  - It returns the path and the discovered boxes. The path is empty when the
    queue runs out.

The search is a plain breadth-first search with no costs, heuristic or
bidirectional frontier, and the model follows it.

Modules:

- `Wrappers`: `Option`.
- `Geometry`: points, boxes, overlap ranges, the clamp and the detail point.
- `NavMesh`:
  - the mesh;
  - `Locate`, a reference definition of first-match localisation;
  - `FindBox`, the scanning loop proved against `Locate`.
- `Walks`:
  - walks through the adjacency lists, reachability and closed sets;
  - `TransitPoints`, the detail points attached to the boxes of a walk.
- `PathSearch`: the state of the search and the lemmas about it.
  - A ghost discovery record `Discovery` holds the discovery order, each box's
    index and BFS level, the dequeued prefix, and the two levels present in the
    queue.
  - The invariants that tie this record to `boxes`, `detail_point` and the
    queue.
  - The backtracking loop and the neighbour loop, as methods.
- `Pathfinder`:
  - one turn of the search loop (`Visit`);
  - the loop itself (`Search`);
  - `FindPath`.

What is proved, in outline:

- `FindBox` computes `Locate`. That is:
  - the result is a box of the list that contains the point;
  - no earlier box contains it;
  - the result is `None` exactly when no box does.
- In a mesh of non-degenerate boxes with disjoint interiors, a point strictly
  inside a box is located in that box.
- The detail point lies in both boxes whenever they share a point. It keeps any
  coordinate that already lies in the overlap range. On boxes that share a point it
  is idempotent. It is symmetric in the two boxes. In each axis it is the nearest point of the
  overlap.
- The search loop keeps these invariants:
  - `boxes` is a tree rooted at the start box (parent `None`);
  - every other key's parent is an earlier-discovered key that lists it as a
    neighbour;
  - `detail_point` agrees with the tree;
  - the queue is the undequeued end of the discovery order, with at most two
    consecutive levels in it;
  - every dequeued box has all of its neighbours discovered;
  - the destination box has not been dequeued.
- The loop terminates, because each box is dequeued at most once.
- Each expansion appends to the queue exactly the neighbours that were not yet discovered, in list order and once each, and records the expanded box as their parent. No earlier entry of `boxes` changes.
- The path is non-empty exactly when the destination box exists and is
  reachable from the start box.
  - A non-empty path holds the detail points along a walk with the fewest boxes
    from the start box to the destination box, followed by the destination
    point. It starts at the source point and ends at the destination point.
  - When `find_box` locates both points in the same box, the path is exactly
    `[source, destination]`.
  - When the path is empty, the explored boxes are exactly the boxes reachable
    from the start box.
- When neighbouring boxes touch, every segment of such a path lies inside one
  box of the walk.

## Model

| member | source | states |
|---|---|---|
| Geometry.Clamp | src/nm_pathfinder.py:107-119 | On a non-empty range the clamped coordinate lies in the range; a coordinate already in the range is kept. |
| Geometry.DetailPoint | src/nm_pathfinder.py:86-121 | When the two boxes share a point, the detail point lies in both boxes. Each coordinate that lies in its overlap range is kept. |
| Geometry.DetailPointIdempotent | src/nm_pathfinder.py:107-119 | On overlapping boxes, applying the projection to its own output returns the same point. |
| Geometry.DetailPointSymmetric | src/nm_pathfinder.py:104-105 | Swapping the two boxes does not change the detail point. |
| Geometry.DetailPointNearest | src/nm_pathfinder.py:104-119 | Among all points in both boxes, the detail point is no farther from the reference point in either axis. |
| NavMesh.Locate | src/nm_pathfinder.py:79-84 | The result is a box of the list containing the point, or `None` exactly when no box contains it. When it is a box, it is the first such box. |
| NavMesh.FindBox | src/nm_pathfinder.py:67-84 | The linear scan with early return computes `Locate` of the box list. |
| NavMesh.LocateInterior | src/nm_pathfinder.py:79-82 | With non-degenerate boxes whose interiors are disjoint, a point strictly inside a box is located in exactly that box. |
| Walks.TransitPoints | src/nm_pathfinder.py:43-44 | One point per box of the walk, the first being the source point. Each later point is the previous point projected into the overlap of its box with the box before. |
| Walks.PathSegmentsInBoxes | src/nm_pathfinder.py:43-52 | If neighbours touch, each segment of the path along a walk lies inside one box of the walk, from the source point to a final point in the last box. |
| Walks.ClosedSetBoundsReachable | src/nm_pathfinder.py:55-58 | No box outside a set closed under adjacency is reachable from inside it. |
| PathSearch.Reversed | src/nm_pathfinder.py:51 | `path.reverse()`: same length, element `i` is element `n-1-i` of the input. |
| PathSearch.ChainIsWalk | src/nm_pathfinder.py:48-50 | Following parents from a key of `boxes` reaches the start box. Read from the start, the chain is a walk through the adjacency lists with one box per BFS level. |
| PathSearch.ChainTransitLast | src/nm_pathfinder.py:43-44 | The detail point recorded for a box is the last transit point along its parent chain. |
| PathSearch.BacktrackStep | src/nm_pathfinder.py:48-50 | Each turn of the backtracking loop keeps the collected points, reversed, a suffix of the transit points. The start box, and only the start box, has parent `None`. |
| PathSearch.Backtrack | src/nm_pathfinder.py:48-51 | Backtracking from a box and reversing gives exactly the transit points along its parent chain. |
| PathSearch.SearchStart | src/nm_pathfinder.py:36-38 | The initial queue, parent map and detail map satisfy the loop invariant. |
| PathSearch.DequeueFacts | src/nm_pathfinder.py:41-44 | The popped box has an adjacency entry and is a key of `boxes` not dequeued before. Unless it is the start box, its parent already has a detail point, so the lookups on line 44 succeed. |
| PathSearch.DequeueLevel | src/nm_pathfinder.py:40-41 | Every box of a lower BFS level than the popped box was dequeued before it. |
| PathSearch.DequeueStep | src/nm_pathfinder.py:40-46 | After the pop and the detail-point update, the tree and the detail map are still consistent. Unless the box is the destination, the neighbour loop's invariant holds. |
| PathSearch.DiscoverStep | src/nm_pathfinder.py:55-58 | Queueing an undiscovered neighbour with `current` as parent keeps the neighbour loop's invariant. |
| PathSearch.SkipStep | src/nm_pathfinder.py:56 | Skipping an already discovered neighbour keeps the neighbour loop's invariant. |
| PathSearch.ExpandDone | src/nm_pathfinder.py:55-58 | After the last neighbour the search loop's invariant holds again, now counting `current` as expanded. |
| PathSearch.UndiscoveredMembers | src/nm_pathfinder.py:55-58 | The boxes the neighbour loop appends to the queue are exactly the listed neighbours that were not yet keys of `boxes`. |
| PathSearch.UndiscoveredDistinct | src/nm_pathfinder.py:55-58 | The neighbour loop appends no box twice, even when the adjacency list names a box twice. |
| PathSearch.NeighbourhoodDiscover | src/nm_pathfinder.py:56-58 | Queueing an undiscovered neighbour extends the loop's record of what it has done: one more queued box, one more key, with parent `current`. |
| PathSearch.NeighbourhoodSkip | src/nm_pathfinder.py:56 | Skipping a neighbour that is already a key changes neither the queue nor `boxes`, and the loop's record still holds one neighbour further. |
| PathSearch.NeighbourhoodDone | src/nm_pathfinder.py:55-58 | After the last neighbour, the record speaks of the whole adjacency list. |
| PathSearch.ExpandOne | src/nm_pathfinder.py:56-58 | One turn of the neighbour loop: an undiscovered neighbour is appended to the queue and gets `current` as parent; a known one leaves both unchanged. Both loop invariants are kept. |
| PathSearch.ExpandNeighbours | src/nm_pathfinder.py:55-58 | The queue gains exactly the undiscovered neighbours, in list order and once each. The new keys of `boxes` are exactly those neighbours, each with parent `current`, and old entries are unchanged. The search loop's invariant is restored. |
| PathSearch.NoShorterWalk | src/nm_pathfinder.py:40-58 | Suppose every box below some level is dequeued and expanded. Then no walk from the start box reaches a box in fewer steps than its BFS level. |
| PathSearch.TreeReachable | src/nm_pathfinder.py:55-58 | Every key of `boxes` is reachable from the start box. |
| PathSearch.Exhausted | src/nm_pathfinder.py:40-58 | When the queue is empty, the keys of `boxes` are closed under adjacency and do not include the destination box. |
| PathSearch.FoundOutcome | src/nm_pathfinder.py:46-53 | When the destination box is dequeued, its parent chain is a walk from the start with the fewest boxes. |
| PathSearch.NotFoundOutcome | src/nm_pathfinder.py:60-63 | When the queue runs out, the keys of `boxes` are exactly the boxes reachable from the start box, and the destination box is not reachable. |
| PathSearch.Arrive | src/nm_pathfinder.py:46-53 | The path built on reaching the destination box follows a walk with the fewest boxes to it, plus the destination point. |
| PathSearch.Expand | src/nm_pathfinder.py:55-58 | Expanding a dequeued box that is not the destination pops it, appends exactly its undiscovered neighbours, and gives them that box as parent. It restores the loop invariant and strictly shrinks the set of boxes not yet dequeued. |
| Pathfinder.Visit | src/nm_pathfinder.py:41-58 | One turn of the loop finds a path exactly when the popped box is the destination box. It records the popped box's detail point from its parent's. On success the path follows a shortest walk and `boxes` is unchanged. Otherwise the queue and `boxes` gain exactly the undiscovered neighbours, the invariant holds and progress is made. |
| Pathfinder.Search | src/nm_pathfinder.py:36-65 | The path is non-empty iff the destination box exists and is reachable. Then it holds the detail points along a walk with the fewest boxes, plus the destination point. Otherwise the explored set is exactly the reachable boxes. |
| Pathfinder.FindPath | src/nm_pathfinder.py:10-65 | The two boxes are those `find_box` locates, and the outcome is that of `Search`. A path starts with the source point and ends with the destination point. It is `[source, destination]` when `find_box` locates both points in the same box. |
| Pathfinder.PathEnds | src/nm_pathfinder.py:48-52 | A path along a shortest walk starts at the source point and ends at the destination point. When the walk ends at the start box, the path is those two points. |

## Left out

- The two `print` calls (src/nm_pathfinder.py:30, 62) are output only and are not modelled.
- FindPath: requires the source point to lie in some box of the mesh. When it lies in none, the code searches from the box `None`. It then either fails with a `KeyError` on `mesh["adj"][None]` or, when the destination is also in no box, returns `[destination_point]`. The model does not reproduce this accidental behaviour. A destination in no box is modelled: the path is then empty.
- FindPath: requires every listed box, and every box named as a neighbour, to have an adjacency entry. Without this, the code may fail with a `KeyError` on `mesh["adj"][current_box]` (src/nm_pathfinder.py:55). It fails when a box with no entry is dequeued and is not the destination box. A destination box with no entry still gets its path. The model does not cover meshes without this property.
- The `dict.keys()` view that `find_path` returns is modelled as the set of discovered boxes, so the discovery order of that view is not part of the result.
- Coordinates are `real`. The code only compares them, with `max`/`min`, so rounding plays no part. The coordinate types of the code (Python `int` or `float`) are not distinguished. NaN and infinite coordinates are excluded: with a NaN coordinate `find_box` locates no box and the detail point keeps the NaN, which the model does not capture.
- Mesh loading, rendering and any driver code are not part of this file, and are not part of this model.
- Weighted or Euclidean costs, A*, a bidirectional frontier and priority queues are not in the code and are not modelled.

/**
  `find_path`: breadth-first search over the box-adjacency graph, from the box
  holding the source point to the box holding the destination point, followed
  by reconstruction of the path of detail points along the parent chain.
 */
module PathSearch {
  import opened Wrappers
  import opened Geometry
  import opened NavMesh
  import opened Walks

  /** `s` read back to front: the effect of `list.reverse()`. */
  function Reversed<T>(s: seq<T>): (r: seq<T>)
    ensures |r| == |s|
    ensures forall i :: 0 <= i < |s| ==> r[i] == s[|s| - 1 - i]
  {
    if s == [] then [] else Reversed(s[1..]) + [s[0]]
  }

  lemma ReversedSnoc<T>(s: seq<T>, x: T)
    ensures Reversed(s + [x]) == [x] + Reversed(s)
  {
    var l, r := Reversed(s + [x]), [x] + Reversed(s);
    assert forall i :: 0 <= i < |l| ==> l[i] == r[i];
  }

  /**
    Ghost bookkeeping of the search.  `order` lists the discovered boxes in the
    order they were first added to `boxes` (and so to the queue); `pos` gives
    each box's index there, and `depth[i]` the BFS level of `order[i]`.  The
    queue is `order[head..]`: the first `head` boxes have been dequeued, and
    `visited` is the set of them.  The queued boxes `order[head..mid]` are on
    level `level` and `order[mid..]` on `level + 1`.
   */
  datatype Discovery = Discovery(order: seq<Box>, pos: map<Box, nat>, depth: seq<nat>,
                                 head: nat, mid: nat, level: nat, visited: set<Box>)

  /** `pos` and `order` are inverse to each other on the keys of `parent`: each box is discovered once. */
  ghost predicate Indexed(parent: map<Box, Option<Box>>, g: Discovery) {
    && |g.depth| == |g.order|
    && (forall i :: 0 <= i < |g.order| ==> g.order[i] in parent && g.order[i] in g.pos && g.pos[g.order[i]] == i)
    && (forall b :: b in parent ==> b in g.pos && g.pos[b] < |g.order| && g.order[g.pos[b]] == b)
  }

  /**
    The `boxes` dictionary of `find_path` read as a tree: the start box, discovered
    first, has parent `None`; every other key has as parent a key discovered
    before it that lists it as a neighbour, one level higher.
   */
  ghost predicate ParentTree(adj: map<Box, seq<Box>>, start: Box,
                             parent: map<Box, Option<Box>>, g: Discovery)
  {
    && Indexed(parent, g)
    && |g.order| > 0 && g.order[0] == start && g.depth[0] == 0
    && parent[start] == None
    && (forall b :: b in parent ==> b in adj)
    && (forall b {:trigger parent[b]} :: b in parent && b != start ==>
          && parent[b].Some? && parent[b].value in parent
          && b in adj[parent[b].value]
          && g.pos[parent[b].value] < g.pos[b]
          && g.depth[g.pos[b]] == g.depth[g.pos[parent[b].value]] + 1)
  }

  /** The boxes met while following parents from `b` back to the start, listed start first. */
  ghost function Chain(adj: map<Box, seq<Box>>, start: Box,
                       parent: map<Box, Option<Box>>, g: Discovery, b: Box): seq<Box>
    requires ParentTree(adj, start, parent, g) && b in parent
    decreases g.pos[b]
  {
    if b == start then [start]
    else Chain(adj, start, parent, g, parent[b].value) + [b]
  }

  /** The parent chain of a key is a walk from the start box to that key, one box per level. */
  lemma {:induction false} ChainIsWalk(adj: map<Box, seq<Box>>, start: Box,
                                       parent: map<Box, Option<Box>>, g: Discovery, b: Box)
    requires ParentTree(adj, start, parent, g) && b in parent
    ensures var c := Chain(adj, start, parent, g, b);
      IsWalk(adj, c) && c[0] == start && c[|c| - 1] == b && |c| == g.depth[g.pos[b]] + 1
    decreases g.pos[b]
  {
    if b != start {
      var p := parent[b].value;
      ChainIsWalk(adj, start, parent, g, p);
      WalkExtend(adj, Chain(adj, start, parent, g, p), b);
    }
  }

  /**
    The `detail_point` dictionary agrees with the tree: the start box's entry
    is the source point, and any other entry is the projection of its parent's
    entry into the overlap of the box with its parent.
   */
  ghost predicate DetailConsistent(start: Box, source: Point,
                                   parent: map<Box, Option<Box>>, detail: map<Box, Point>)
  {
    && start in detail && detail[start] == source
    && detail.Keys <= parent.Keys
    && forall b {:trigger parent[b]} :: b in detail && b != start ==>
         && parent[b].Some? && parent[b].value in detail
         && detail[b] == DetailPoint(b, parent[b].value, detail[parent[b].value])
  }

  /** The detail point recorded for a box is the last transit point along its parent chain. */
  lemma {:induction false} ChainTransitLast(adj: map<Box, seq<Box>>, start: Box, source: Point,
                                            parent: map<Box, Option<Box>>, g: Discovery,
                                            detail: map<Box, Point>, b: Box)
    requires ParentTree(adj, start, parent, g) && DetailConsistent(start, source, parent, detail)
    requires b in detail
    ensures var t := TransitPoints(Chain(adj, start, parent, g, b), source);
      t[|t| - 1] == detail[b]
    decreases g.pos[b]
  {
    if b != start {
      var p := parent[b].value;
      ChainTransitLast(adj, start, source, parent, g, detail, p);
      ChainIsWalk(adj, start, parent, g, p);
      TransitPointsSnoc(Chain(adj, start, parent, g, p), source, b);
    }
  }

  /** One step of the backtracking loop: the chain of `b` is the chain of its parent plus `detail[b]`. */
  lemma ChainTransitStep(adj: map<Box, seq<Box>>, start: Box, source: Point,
                         parent: map<Box, Option<Box>>, g: Discovery,
                         detail: map<Box, Point>, b: Box)
    requires ParentTree(adj, start, parent, g) && DetailConsistent(start, source, parent, detail)
    requires b in detail && b != start
    ensures TransitPoints(Chain(adj, start, parent, g, b), source)
         == TransitPoints(Chain(adj, start, parent, g, parent[b].value), source) + [detail[b]]
  {
    var p := parent[b].value;
    ChainTransitLast(adj, start, source, parent, g, detail, p);
    ChainIsWalk(adj, start, parent, g, p);
    TransitPointsSnoc(Chain(adj, start, parent, g, p), source, b);
  }

  /** One turn of the backtracking loop keeps the reversed path a suffix of the transit points. */
  lemma BacktrackStep(adj: map<Box, seq<Box>>, start: Box, source: Point,
                      parent: map<Box, Option<Box>>, g: Discovery, detail: map<Box, Point>,
                      b: Box, path: seq<Point>, goal: seq<Point>)
    requires ParentTree(adj, start, parent, g) && DetailConsistent(start, source, parent, detail)
    requires b in detail && b in parent
    requires TransitPoints(Chain(adj, start, parent, g, b), source) + Reversed(path) == goal
    ensures parent[b].None? <==> b == start
    ensures b == start ==> Reversed(path + [detail[b]]) == goal
    ensures b != start ==>
      && parent[b].value in detail && parent[b].value in parent
      && TransitPoints(Chain(adj, start, parent, g, parent[b].value), source) + Reversed(path + [detail[b]]) == goal
  {
    ReversedSnoc(path, detail[b]);
    if b != start {
      ChainTransitStep(adj, start, source, parent, g, detail, b);
      ConcatAssoc(TransitPoints(Chain(adj, start, parent, g, parent[b].value), source), [detail[b]], Reversed(path));
    }
  }

  lemma ConcatAssoc<T>(a: seq<T>, b: seq<T>, c: seq<T>)
    ensures (a + b) + c == a + (b + c)
  {
  }

  /** The first `count` discovered boxes have all their neighbours discovered, at most one level deeper. */
  ghost predicate ExpandedUpTo(adj: map<Box, seq<Box>>, parent: map<Box, Option<Box>>, g: Discovery, count: int)
    requires Indexed(parent, g)
  {
    forall j, a :: 0 <= j < count && j < |g.order| && g.order[j] in adj && a in adj[g.order[j]] ==>
      a in parent && g.depth[g.pos[a]] <= g.depth[j] + 1
  }

  /**
    The BFS level argument.  Suppose the first `count` discovered boxes include
    every box of a level below `level`, and each of them has had all its
    neighbours discovered at most one level deeper.  Then a walk from the start
    reaches, within `i <= level` steps, only discovered boxes of level at most `i`.
   */
  lemma {:induction false} LevelBound(adj: map<Box, seq<Box>>, start: Box,
                                      parent: map<Box, Option<Box>>, g: Discovery,
                                      count: nat, level: nat, w: seq<Box>, i: int)
    requires Indexed(parent, g) && start in parent && g.pos[start] == 0 && count <= |g.order|
    requires forall b :: b in parent && g.depth[g.pos[b]] < level ==> g.pos[b] < count
    requires ExpandedUpTo(adj, parent, g, count)
    requires g.depth[0] == 0
    requires IsWalk(adj, w) && w[0] == start
    requires 0 <= i < |w| && i <= level
    ensures w[i] in parent && g.depth[g.pos[w[i]]] <= i
    decreases i
  {
    if i > 0 {
      LevelBound(adj, start, parent, g, count, level, w, i - 1);
      var j := g.pos[w[i - 1]];
      assert g.order[j] == w[i - 1] && w[i] in adj[w[i - 1]];
    }
  }

  /** So no walk from the start to a box of level `level` has fewer than `level + 1` boxes. */
  lemma NoShorterWalk(adj: map<Box, seq<Box>>, start: Box,
                      parent: map<Box, Option<Box>>, g: Discovery, count: nat, current: Box)
    requires Indexed(parent, g) && start in parent && g.pos[start] == 0 && count <= |g.order|
    requires current in parent
    requires forall b :: b in parent && g.depth[g.pos[b]] < g.depth[g.pos[current]] ==> g.pos[b] < count
    requires ExpandedUpTo(adj, parent, g, count)
    requires g.depth[0] == 0
    ensures forall w :: IsWalk(adj, w) && w[0] == start && w[|w| - 1] == current ==>
              g.depth[g.pos[current]] + 1 <= |w|
  {
    forall w | IsWalk(adj, w) && w[0] == start && w[|w| - 1] == current
      ensures g.depth[g.pos[current]] + 1 <= |w|
    {
      if |w| <= g.depth[g.pos[current]] {
        LevelBound(adj, start, parent, g, count, g.depth[g.pos[current]], w, |w| - 1);
      }
    }
  }

  /** The bookkeeping after `a` is discovered: it is appended to the order, one level below the frontier. */
  ghost function Enqueue(g: Discovery, a: Box): Discovery {
    g.(order := g.order + [a], pos := g.pos[a := |g.order|], depth := g.depth + [g.level + 1])
  }

  /**
    The bookkeeping after the head of the queue is dequeued: when the current
    level is used up, the next level becomes current.
   */
  ghost function Dequeue(g: Discovery): (r: Discovery)
    requires g.head < |g.order|
    ensures r.order == g.order && r.pos == g.pos && r.depth == g.depth
    ensures r.head == g.head + 1 && r.visited == g.visited + {g.order[g.head]}
  {
    var g1 := if g.head == g.mid then g.(mid := |g.order|, level := g.level + 1) else g;
    g1.(head := g.head + 1, visited := g.visited + {g.order[g.head]})
  }

  /**
    The queue holds one level followed by the next: `order[head..mid]` on level
    `level`, `order[mid..]` one level deeper, and every dequeued box at most on
    level `level`.
   */
  ghost predicate Frontier(g: Discovery) {
    && g.head <= g.mid <= |g.order| && |g.depth| == |g.order|
    && (forall i :: 0 <= i < g.head ==> g.depth[i] <= g.level)
    && (forall i :: g.head <= i < g.mid ==> g.depth[i] == g.level)
    && (forall i :: g.mid <= i < |g.order| ==> g.depth[i] == g.level + 1)
  }

  /**
    Detail points and parents belong to dequeued boxes: each dequeued box has a
    detail point, each parent was dequeued before, and `visited` holds only
    dequeued boxes.
   */
  ghost predicate Settled(adj: map<Box, seq<Box>>, start: Box, parent: map<Box, Option<Box>>,
                          detail: map<Box, Point>, g: Discovery)
    requires ParentTree(adj, start, parent, g)
  {
    && (forall i :: 0 <= i < g.head && i < |g.order| ==> g.order[i] in detail)
    && (forall b {:trigger parent[b]} :: b in parent && b != start ==> g.pos[parent[b].value] < g.head)
    && (forall b :: b in g.visited ==> b in parent && g.pos[b] < g.head)
  }

  /**
    What holds of the dictionaries and the queue throughout the search: they form
    a parent tree with consistent detail points, and the queue is the undequeued
    end of the discovery order.
   */
  ghost predicate SearchCore(adj: map<Box, seq<Box>>, start: Box, source: Point, queue: seq<Box>,
                             parent: map<Box, Option<Box>>, detail: map<Box, Point>, g: Discovery)
  {
    && ParentTree(adj, start, parent, g)
    && DetailConsistent(start, source, parent, detail)
    && Frontier(g)
    && queue == g.order[g.head..]
    && Settled(adj, start, parent, detail, g)
  }

  /** The destination box is not among the dequeued boxes. */
  ghost predicate Undestined(g: Discovery, dest: Option<Box>) {
    forall i :: 0 <= i < g.head && i < |g.order| ==> Some(g.order[i]) != dest
  }

  /** The invariant of the `while queue` loop of `find_path`. */
  ghost predicate SearchInv(adj: map<Box, seq<Box>>, start: Box, source: Point, dest: Option<Box>, queue: seq<Box>,
                            parent: map<Box, Option<Box>>, detail: map<Box, Point>, g: Discovery)
  {
    && SearchCore(adj, start, source, queue, parent, detail, g)
    && ExpandedUpTo(adj, parent, g, g.head)
    && Undestined(g, dest)
  }

  /** The invariant of the loop over the neighbours of `current`, after the first `k` of them. */
  ghost predicate ExpandInv(adj: map<Box, seq<Box>>, start: Box, source: Point, dest: Option<Box>, queue: seq<Box>,
                            parent: map<Box, Option<Box>>, detail: map<Box, Point>, g: Discovery,
                            current: Box, neighbours: seq<Box>, k: int)
  {
    && SearchCore(adj, start, source, queue, parent, detail, g)
    && Undestined(g, dest)
    && 0 < g.head && current == g.order[g.head - 1] && g.depth[g.head - 1] == g.level
    && current in adj && neighbours == adj[current]
    && 0 <= k <= |neighbours|
    && ExpandedUpTo(adj, parent, g, g.head - 1)
    && (forall i :: 0 <= i < k ==> neighbours[i] in parent)
  }

  /** Before the loop: only the start box is discovered, queued, with the source as its detail point. */
  lemma SearchStart(adj: map<Box, seq<Box>>, start: Box, source: Point, dest: Option<Box>)
    requires start in adj
    ensures SearchInv(adj, start, source, dest, [start], map[start := None], map[start := source],
                      Discovery([start], map[start := 0], [0], 0, 1, 0, {}))
  {
  }

  /** A dequeued box is on the current level, and every box of a lower level was dequeued before it. */
  lemma FrontierDequeue(g: Discovery)
    requires Frontier(g) && g.head < |g.order|
    ensures Frontier(Dequeue(g))
    ensures g.depth[g.head] == Dequeue(g).level
    ensures forall i :: 0 <= i < |g.order| && g.depth[i] < Dequeue(g).level ==> i < g.head
  {
  }

  /** The detail point computed for a dequeued box extends the consistent detail points. */
  lemma DetailDequeue(adj: map<Box, seq<Box>>, start: Box, source: Point,
                      parent: map<Box, Option<Box>>, detail: map<Box, Point>, g: Discovery)
    requires ParentTree(adj, start, parent, g) && DetailConsistent(start, source, parent, detail)
    requires Settled(adj, start, parent, detail, g) && g.head < |g.order| && g.order[g.head] != start
    ensures var current := g.order[g.head];
      var p := parent[current].value;
      p in detail &&
      DetailConsistent(start, source, parent, detail[current := DetailPoint(current, p, detail[p])])
  {
    var current := g.order[g.head];
    var p := parent[current].value;
    assert g.pos[current] == g.head && g.order[g.pos[p]] == p;
    var detail' := detail[current := DetailPoint(current, p, detail[p])];
    forall b | b in detail' && b != start
      ensures parent[b].Some? && parent[b].value in detail'
      ensures detail'[b] == DetailPoint(b, parent[b].value, detail'[parent[b].value])
    {
      assert parent[b].value != current;
    }
  }

  /** Dequeuing a box changes neither the discovery order nor the levels, so the tree is the same tree. */
  lemma ParentTreeDequeue(adj: map<Box, seq<Box>>, start: Box, parent: map<Box, Option<Box>>, g: Discovery)
    requires ParentTree(adj, start, parent, g) && g.head < |g.order|
    ensures Dequeue(g).order == g.order && Dequeue(g).pos == g.pos && Dequeue(g).depth == g.depth
    ensures ParentTree(adj, start, parent, Dequeue(g))
  {
    var g' := Dequeue(g);
    assert Indexed(parent, g');
  }

  /** The dequeued box joins the dequeued ones, and has a detail point. */
  lemma SettledDequeue(adj: map<Box, seq<Box>>, start: Box, parent: map<Box, Option<Box>>,
                       detail: map<Box, Point>, detail': map<Box, Point>, g: Discovery)
    requires ParentTree(adj, start, parent, g) && Settled(adj, start, parent, detail, g)
    requires g.head < |g.order| && g.order[g.head] in detail'
    requires forall b :: b in detail ==> b in detail'
    requires ParentTree(adj, start, parent, Dequeue(g))
    requires Dequeue(g).order == g.order && Dequeue(g).pos == g.pos
    ensures Settled(adj, start, parent, detail', Dequeue(g))
  {
    var g' := Dequeue(g);
    forall i | 0 <= i < g'.head && i < |g'.order|
      ensures g'.order[i] in detail'
    {
      if i < g.head {
        assert g.order[i] in detail;
      }
    }
    forall b | b in g'.visited
      ensures b in parent && g'.pos[b] < g'.head
    {
      if b != g.order[g.head] {
        assert b in g.visited;
      }
    }
  }

  /** Dropping the head of the queue moves past one more box of the discovery order. */
  lemma QueueDrop(queue: seq<Box>, order: seq<Box>, head: nat)
    requires head < |order| && queue == order[head..]
    ensures queue[1..] == order[head + 1..]
  {
  }

  /** Dequeuing keeps the tree, the detail points (extended by that of `current`) and the queue shape. */
  lemma SearchCoreDequeue(adj: map<Box, seq<Box>>, start: Box, source: Point,
                          queue: seq<Box>, parent: map<Box, Option<Box>>, detail: map<Box, Point>, g: Discovery,
                          detail': map<Box, Point>)
    requires SearchCore(adj, start, source, queue, parent, detail, g) && queue != []
    requires queue[0] == start ==> detail' == detail
    requires queue[0] != start ==>
      parent[queue[0]].Some? && parent[queue[0]].value in detail &&
      detail' == detail[queue[0] := DetailPoint(queue[0], parent[queue[0]].value, detail[parent[queue[0]].value])]
    ensures g.head < |g.order| && queue[0] in detail' && DetailConsistent(start, source, parent, detail')
    ensures SearchCore(adj, start, source, queue[1..], parent, detail', Dequeue(g))
  {
    var current := queue[0];
    assert current == g.order[g.head] && g.pos[current] == g.head;
    FrontierDequeue(g);
    ParentTreeDequeue(adj, start, parent, g);
    assert DetailConsistent(start, source, parent, detail') by {
      if current != start {
        DetailDequeue(adj, start, source, parent, detail, g);
      }
    }
    SettledDequeue(adj, start, parent, detail, detail', g);
    QueueDrop(queue, g.order, g.head);
  }

  /** Dequeuing changes neither the discovery order nor the levels, so the expanded boxes stay expanded. */
  lemma ExpandedDequeue(adj: map<Box, seq<Box>>, parent: map<Box, Option<Box>>, g: Discovery)
    requires Indexed(parent, g) && g.head < |g.order| && ExpandedUpTo(adj, parent, g, g.head)
    ensures Indexed(parent, Dequeue(g)) && ExpandedUpTo(adj, parent, Dequeue(g), g.head)
  {
  }

  /** A dequeued box other than the destination keeps the destination out of the dequeued boxes. */
  lemma UndestinedDequeue(g: Discovery, dest: Option<Box>)
    requires Undestined(g, dest) && g.head < |g.order| && Some(g.order[g.head]) != dest
    ensures Undestined(Dequeue(g), dest)
  {
  }

  /**
    Dequeuing `current`, when it is not the destination, and computing its
    detail point from its parent's (unless it is the start box) starts the
    expansion of `current`.
   */
  lemma DequeueStep(adj: map<Box, seq<Box>>, start: Box, source: Point, dest: Option<Box>,
                    queue: seq<Box>, parent: map<Box, Option<Box>>, detail: map<Box, Point>, g: Discovery,
                    detail': map<Box, Point>)
    requires SearchInv(adj, start, source, dest, queue, parent, detail, g) && queue != []
    requires queue[0] == start ==> detail' == detail
    requires queue[0] != start ==>
      parent[queue[0]].Some? && parent[queue[0]].value in detail &&
      detail' == detail[queue[0] := DetailPoint(queue[0], parent[queue[0]].value, detail[parent[queue[0]].value])]
    ensures g.head < |g.order| && g.order[g.head] == queue[0]
    ensures ParentTree(adj, start, parent, g) && DetailConsistent(start, source, parent, detail') && queue[0] in detail'
    ensures ExpandedUpTo(adj, parent, g, g.head)
    ensures Some(queue[0]) != dest ==>
      ExpandInv(adj, start, source, dest, queue[1..], parent, detail', Dequeue(g), queue[0], adj[queue[0]], 0)
  {
    assert queue[0] == g.order[g.head];
    FrontierDequeue(g);
    SearchCoreDequeue(adj, start, source, queue, parent, detail, g, detail');
    ExpandedDequeue(adj, parent, g);
    if Some(queue[0]) != dest {
      UndestinedDequeue(g, dest);
    }
  }

  /**
    What `find_path` relies on when it pops `current`: it is a key of `boxes`
    that has not been dequeued before, and unless it is the start box its parent
    has a detail point.
   */
  lemma DequeueFacts(adj: map<Box, seq<Box>>, start: Box, source: Point, dest: Option<Box>,
                     queue: seq<Box>, parent: map<Box, Option<Box>>, detail: map<Box, Point>, g: Discovery)
    requires SearchInv(adj, start, source, dest, queue, parent, detail, g) && queue != []
    ensures queue[0] in adj && queue[0] in parent && queue[0] !in g.visited
    ensures queue[0] != start ==> parent[queue[0]].Some? && parent[queue[0]].value in detail
  {
    var current := queue[0];
    assert current == g.order[g.head];
    if current != start {
      var p := parent[current].value;
      assert g.order[g.pos[p]] == p;
    }
  }

  /** Every box of a lower level than the next box in the queue was dequeued before it. */
  lemma DequeueLevel(adj: map<Box, seq<Box>>, start: Box, source: Point, dest: Option<Box>,
                     queue: seq<Box>, parent: map<Box, Option<Box>>, detail: map<Box, Point>, g: Discovery)
    requires SearchInv(adj, start, source, dest, queue, parent, detail, g) && queue != []
    ensures forall b :: b in parent && g.depth[g.pos[b]] < g.depth[g.head] ==> g.pos[b] < g.head
  {
    FrontierDequeue(g);
  }

  /** Discovering a new box `a` appends it to the discovery order. */
  lemma IndexedDiscover(parent: map<Box, Option<Box>>, g: Discovery, a: Box, x: Option<Box>)
    requires Indexed(parent, g) && a !in parent
    ensures Indexed(parent[a := x], Enqueue(g, a))
  {
    var g' := Enqueue(g, a);
    forall i | 0 <= i < |g'.order|
      ensures g'.order[i] in parent[a := x] && g'.order[i] in g'.pos && g'.pos[g'.order[i]] == i
    {
      if i < |g.order| {
        assert g'.order[i] == g.order[i];
      }
    }
  }

  /** Making `current`, on the current level, the parent of a newly discovered neighbour keeps the tree a tree. */
  lemma ParentTreeDiscover(adj: map<Box, seq<Box>>, start: Box, parent: map<Box, Option<Box>>, g: Discovery,
                           current: Box, a: Box)
    requires ParentTree(adj, start, parent, g) && current in parent && current in adj
    requires g.depth[g.pos[current]] == g.level
    requires a in adj[current] && a in adj && a !in parent
    ensures ParentTree(adj, start, parent[a := Some(current)], Enqueue(g, a))
  {
    var g' := Enqueue(g, a);
    IndexedDiscover(parent, g, a, Some(current));
    var parent' := parent[a := Some(current)];
    forall b | b in parent' && b != start
      ensures && parent'[b].Some? && parent'[b].value in parent'
              && b in adj[parent'[b].value]
              && g'.pos[parent'[b].value] < g'.pos[b]
              && g'.depth[g'.pos[b]] == g'.depth[g'.pos[parent'[b].value]] + 1
    {
      if b != a {
        var p := parent[b].value;
        assert g'.pos[p] == g.pos[p] && g'.pos[b] == g.pos[b];
        assert g'.depth[g.pos[b]] == g.depth[g.pos[b]] && g'.depth[g.pos[p]] == g.depth[g.pos[p]];
      } else {
        assert g'.pos[current] == g.pos[current] < |g.order|;
        assert g'.depth[|g.order|] == g.level + 1;
      }
    }
  }

  /** A new key of `boxes` has no detail point yet, so the detail points stay consistent. */
  lemma DetailDiscover(start: Box, source: Point, parent: map<Box, Option<Box>>, detail: map<Box, Point>,
                       a: Box, x: Option<Box>)
    requires DetailConsistent(start, source, parent, detail) && a !in parent
    ensures DetailConsistent(start, source, parent[a := x], detail)
  {
    forall b | b in detail && b != start
      ensures parent[a := x][b] == parent[b]
    {
    }
  }

  /** A box appended one level below the frontier keeps the queue's two-level shape. */
  lemma FrontierDiscover(g: Discovery, a: Box)
    requires Frontier(g)
    ensures Frontier(Enqueue(g, a))
  {
    var g' := Enqueue(g, a);
    forall i | 0 <= i < |g'.order|
      ensures g'.depth[i] == (if i < |g.order| then g.depth[i] else g.level + 1)
    {
    }
  }

  /** The new box's parent, `current`, has been dequeued; nothing else about dequeued boxes changes. */
  lemma SettledDiscover(adj: map<Box, seq<Box>>, start: Box, parent: map<Box, Option<Box>>,
                        detail: map<Box, Point>, g: Discovery, current: Box, a: Box)
    requires ParentTree(adj, start, parent, g) && Settled(adj, start, parent, detail, g)
    requires ParentTree(adj, start, parent[a := Some(current)], Enqueue(g, a))
    requires 0 < g.head <= |g.order| && current == g.order[g.head - 1] && a !in parent
    ensures Settled(adj, start, parent[a := Some(current)], detail, Enqueue(g, a))
  {
    var g' := Enqueue(g, a);
    var parent' := parent[a := Some(current)];
    forall i | 0 <= i < g'.head && i < |g'.order|
      ensures g'.order[i] in detail
    {
      assert g'.order[i] == g.order[i];
    }
    forall b | b in parent' && b != start
      ensures g'.pos[parent'[b].value] < g'.head
    {
      if b != a {
        assert g'.pos[parent[b].value] == g.pos[parent[b].value];
      } else {
        assert g.pos[current] == g.head - 1;
      }
    }
    forall b | b in g'.visited
      ensures b in parent' && g'.pos[b] < g'.head
    {
      assert b != a && g'.pos[b] == g.pos[b];
    }
  }

  /** Appending to the queue appends to the discovery order. */
  lemma QueueAppend(queue: seq<Box>, order: seq<Box>, head: nat, a: Box)
    requires head <= |order| && queue == order[head..]
    ensures queue + [a] == (order + [a])[head..]
  {
  }

  /** The shared search invariant survives the discovery of a new neighbour of `current`. */
  lemma SearchCoreDiscover(adj: map<Box, seq<Box>>, start: Box, source: Point,
                           queue: seq<Box>, parent: map<Box, Option<Box>>, detail: map<Box, Point>, g: Discovery,
                           current: Box, a: Box)
    requires SearchCore(adj, start, source, queue, parent, detail, g)
    requires 0 < g.head && current == g.order[g.head - 1] && g.depth[g.head - 1] == g.level && current in adj
    requires a in adj[current] && a in adj && a !in parent
    ensures SearchCore(adj, start, source, queue + [a], parent[a := Some(current)], detail, Enqueue(g, a))
  {
    assert g.pos[current] == g.head - 1;
    ParentTreeDiscover(adj, start, parent, g, current, a);
    DetailDiscover(start, source, parent, detail, a, Some(current));
    FrontierDiscover(g, a);
    SettledDiscover(adj, start, parent, detail, g, current, a);
    QueueAppend(queue, g.order, g.head, a);
  }

  /** The expanded boxes stay expanded when a new box is discovered. */
  lemma ExpandedDiscover(adj: map<Box, seq<Box>>, parent: map<Box, Option<Box>>, g: Discovery,
                         count: int, a: Box, x: Option<Box>)
    requires Indexed(parent, g) && Indexed(parent[a := x], Enqueue(g, a)) && a !in parent && count <= |g.order|
    requires ExpandedUpTo(adj, parent, g, count)
    ensures ExpandedUpTo(adj, parent[a := x], Enqueue(g, a), count)
  {
  }

  /**
    Looking at neighbour `k`: when it is not yet a key of `boxes` it is queued,
    with `current` as its parent, one level deeper.
   */
  lemma DiscoverStep(adj: map<Box, seq<Box>>, start: Box, source: Point, dest: Option<Box>,
                     queue: seq<Box>, parent: map<Box, Option<Box>>, detail: map<Box, Point>, g: Discovery,
                     current: Box, neighbours: seq<Box>, k: int)
    requires ExpandInv(adj, start, source, dest, queue, parent, detail, g, current, neighbours, k)
    requires k < |neighbours| && neighbours[k] in adj && neighbours[k] !in parent
    ensures var a := neighbours[k];
      ExpandInv(adj, start, source, dest, queue + [a], parent[a := Some(current)], detail, Enqueue(g, a),
                current, neighbours, k + 1)
  {
    var a := neighbours[k];
    SearchCoreDiscover(adj, start, source, queue, parent, detail, g, current, a);
    ExpandedDiscover(adj, parent, g, g.head - 1, a, Some(current));
  }

  /** Looking at neighbour `k` when it is already a key of `boxes` changes nothing. */
  lemma SkipStep(adj: map<Box, seq<Box>>, start: Box, source: Point, dest: Option<Box>,
                 queue: seq<Box>, parent: map<Box, Option<Box>>, detail: map<Box, Point>, g: Discovery,
                 current: Box, neighbours: seq<Box>, k: int)
    requires ExpandInv(adj, start, source, dest, queue, parent, detail, g, current, neighbours, k)
    requires k < |neighbours| && neighbours[k] in parent
    ensures ExpandInv(adj, start, source, dest, queue, parent, detail, g, current, neighbours, k + 1)
  {
  }

  /** Once every neighbour of `current` is a key of `boxes`, `current` counts as expanded. */
  lemma ExpandedCurrent(adj: map<Box, seq<Box>>, parent: map<Box, Option<Box>>, g: Discovery,
                         current: Box, neighbours: seq<Box>)
    requires Indexed(parent, g) && Frontier(g) && 0 < g.head && g.depth[g.head - 1] == g.level
    requires ExpandedUpTo(adj, parent, g, g.head - 1)
    requires current == g.order[g.head - 1] && current in adj && neighbours == adj[current]
    requires forall i :: 0 <= i < |neighbours| ==> neighbours[i] in parent
    ensures ExpandedUpTo(adj, parent, g, g.head)
  {
    forall j, a | 0 <= j < g.head && j < |g.order| && g.order[j] in adj && a in adj[g.order[j]]
      ensures a in parent && g.depth[g.pos[a]] <= g.depth[j] + 1
    {
      if j == g.head - 1 {
        var i :| 0 <= i < |neighbours| && neighbours[i] == a;
        assert a in parent;
        assert g.depth[g.pos[a]] <= g.level + 1;
      }
    }
  }

  /** After the last neighbour, the loop invariant of `while queue` holds again. */
  lemma ExpandDone(adj: map<Box, seq<Box>>, start: Box, source: Point, dest: Option<Box>,
                   queue: seq<Box>, parent: map<Box, Option<Box>>, detail: map<Box, Point>, g: Discovery,
                   current: Box, neighbours: seq<Box>)
    requires ExpandInv(adj, start, source, dest, queue, parent, detail, g, current, neighbours, |neighbours|)
    ensures SearchInv(adj, start, source, dest, queue, parent, detail, g)
  {
    ExpandedCurrent(adj, parent, g, current, neighbours);
  }

  /** An empty queue leaves the discovered boxes closed under adjacency, without the destination. */
  lemma Exhausted(adj: map<Box, seq<Box>>, start: Box, source: Point, dest: Option<Box>,
                  parent: map<Box, Option<Box>>, detail: map<Box, Point>, g: Discovery)
    requires SearchInv(adj, start, source, dest, [], parent, detail, g)
    ensures Closed(adj, parent.Keys) && (dest.Some? ==> dest.value !in parent)
  {
  }

  /** Every key of `boxes` is reachable from the start box, along its parent chain. */
  lemma TreeReachable(adj: map<Box, seq<Box>>, start: Box, parent: map<Box, Option<Box>>, g: Discovery)
    requires ParentTree(adj, start, parent, g)
    ensures parent.Keys <= ReachableSet(adj, start)
  {
    forall b | b in parent
      ensures b in ReachableSet(adj, start)
    {
      ChainIsWalk(adj, start, parent, g, b);
      var c := Chain(adj, start, parent, g, b);
      assert c[|c| - 1] in adj;
    }
  }

  /**
    When `current`, of level `depth[head]`, is dequeued after every box of a
    lower level, its parent chain is a walk from the start with the fewest boxes.
   */
  lemma FoundOutcome(adj: map<Box, seq<Box>>, start: Box, parent: map<Box, Option<Box>>, g: Discovery,
                      current: Box, walk: seq<Box>)
    requires ParentTree(adj, start, parent, g) && g.head < |g.order| && g.order[g.head] == current
    requires ExpandedUpTo(adj, parent, g, g.head)
    requires forall b :: b in parent && g.depth[g.pos[b]] < g.depth[g.head] ==> g.pos[b] < g.head
    requires walk == Chain(adj, start, parent, g, current)
    ensures IsWalk(adj, walk) && walk[0] == start && walk[|walk| - 1] == current
    ensures Reachable(adj, start, current)
    ensures forall w :: IsWalk(adj, w) && w[0] == start && w[|w| - 1] == current ==> |walk| <= |w|
    ensures parent.Keys <= ReachableSet(adj, start)
  {
    assert g.pos[current] == g.head;
    ChainIsWalk(adj, start, parent, g, current);
    NoShorterWalk(adj, start, parent, g, g.head, current);
    TreeReachable(adj, start, parent, g);
  }

  /**
    When the queue runs empty, the keys of `boxes` are exactly the boxes
    reachable from the start, and the destination box is not one of them.
   */
  lemma NotFoundOutcome(adj: map<Box, seq<Box>>, start: Box, source: Point, dest: Option<Box>,
                        parent: map<Box, Option<Box>>, detail: map<Box, Point>, g: Discovery)
    requires SearchInv(adj, start, source, dest, [], parent, detail, g)
    ensures start in parent && parent.Keys == ReachableSet(adj, start)
    ensures dest.Some? ==> !Reachable(adj, start, dest.value)
  {
    Exhausted(adj, start, source, dest, parent, detail, g);
    TreeReachable(adj, start, parent, g);
    ClosedSetBoundsReachable(adj, parent.Keys, start);
  }

  /**
    The backtracking loop of `find_path`: the detail points met while following
    parents from `current` back to the start, reversed, are the transit points
    along the parent chain of `current`.
   */
  method Backtrack(ghost adj: map<Box, seq<Box>>, ghost start: Box, ghost source: Point,
                   boxes: map<Box, Option<Box>>, detail: map<Box, Point>, ghost g: Discovery, current: Box)
    returns (path: seq<Point>)
    requires ParentTree(adj, start, boxes, g) && DetailConsistent(start, source, boxes, detail)
    requires current in detail
    ensures path == TransitPoints(Chain(adj, start, boxes, g, current), source)
  {
    ghost var goal := TransitPoints(Chain(adj, start, boxes, g, current), source);
    path := [];
    var cursor: Option<Box> := Some(current);
    while cursor.Some?
      invariant cursor.Some? ==> cursor.value in detail && cursor.value in boxes
      invariant cursor.Some? ==> TransitPoints(Chain(adj, start, boxes, g, cursor.value), source) + Reversed(path) == goal
      invariant cursor.None? ==> Reversed(path) == goal
      decreases if cursor.Some? then g.pos[cursor.value] + 1 else 0
    {
      var b := cursor.value;
      BacktrackStep(adj, start, source, boxes, g, detail, b, path, goal);
      path := path + [detail[b]];
      cursor := boxes[b];
    }
    path := Reversed(path);
  }

  /**
    The boxes of `ns` that are not in `known`, each at its first occurrence,
    in order: what the neighbour loop appends to the queue.
   */
  function Undiscovered(ns: seq<Box>, known: set<Box>): seq<Box>
    decreases |ns|
  {
    if ns == [] then []
    else
      var init := ns[..|ns| - 1];
      var a := ns[|ns| - 1];
      Undiscovered(init, known) + (if a in known || a in init then [] else [a])
  }

  /** The queued neighbours are exactly the neighbours that were not yet discovered. */
  lemma {:induction false} UndiscoveredMembers(ns: seq<Box>, known: set<Box>)
    ensures forall a :: a in Undiscovered(ns, known) <==> a in ns && a !in known
    decreases |ns|
  {
    if ns != [] {
      var init := ns[..|ns| - 1];
      assert ns == init + [ns[|ns| - 1]];
      UndiscoveredMembers(init, known);
    }
  }

  /** No box occurs twice in `s`. */
  ghost predicate NoDuplicates(s: seq<Box>)
  {
    forall i, j :: 0 <= i < j < |s| ==> s[i] != s[j]
  }

  /** No box is queued twice by the neighbour loop, even when `ns` lists it twice. */
  lemma {:induction false} UndiscoveredDistinct(ns: seq<Box>, known: set<Box>)
    ensures NoDuplicates(Undiscovered(ns, known))
    decreases |ns|
  {
    if ns != [] {
      var init := ns[..|ns| - 1];
      var a := ns[|ns| - 1];
      var p := Undiscovered(init, known);
      var r := Undiscovered(ns, known);
      UndiscoveredDistinct(init, known);
      UndiscoveredMembers(init, known);
      assert r == p + (if a in known || a in init then [] else [a]);
      forall i, j | 0 <= i < j < |r|
        ensures r[i] != r[j]
      {
        assert r[i] == p[i];
        if j >= |p| {
          assert p[i] in p;
        } else {
          assert r[j] == p[j];
        }
      }
    }
  }

  /**
    What the neighbour loop has done after looking at the first `k` neighbours:
    the undiscovered ones among them are queued, in order, with `current` as
    their parent, and the earlier entries of `boxes` are unchanged.
   */
  ghost predicate Neighbourhood(queue: seq<Box>, boxes: map<Box, Option<Box>>, current: Box,
                                neighbours: seq<Box>, k: int, queue': seq<Box>, boxes': map<Box, Option<Box>>)
    requires 0 <= k <= |neighbours|
  {
    && queue' == queue + Undiscovered(neighbours[..k], boxes.Keys)
    && (forall a :: a in boxes' <==> a in boxes || a in neighbours[..k])
    && (forall a :: a in boxes ==> boxes'[a] == boxes[a])
    && (forall a :: a in boxes' && a !in boxes ==> boxes'[a] == Some(current))
  }

  /** Looking at one more neighbour extends `Undiscovered` by it, unless it is known or was seen before. */
  lemma UndiscoveredStep(ns: seq<Box>, k: int, known: set<Box>)
    requires 0 <= k < |ns|
    ensures ns[..k + 1] == ns[..k] + [ns[k]]
    ensures Undiscovered(ns[..k + 1], known)
         == Undiscovered(ns[..k], known) + (if ns[k] in known || ns[k] in ns[..k] then [] else [ns[k]])
  {
    assert ns[..k + 1][..k] == ns[..k];
  }

  /** Giving a new box `a` the parent `current` keeps the parent entries as the neighbour loop leaves them. */
  lemma ParentsDiscover(boxes: map<Box, Option<Box>>, boxes': map<Box, Option<Box>>, seen: seq<Box>,
                        a: Box, current: Box)
    requires a !in boxes'
    requires forall x :: x in boxes' <==> x in boxes || x in seen
    requires forall x :: x in boxes ==> boxes'[x] == boxes[x]
    requires forall x :: x in boxes' && x !in boxes ==> boxes'[x] == Some(current)
    ensures forall x :: x in boxes'[a := Some(current)] <==> x in boxes || x in seen + [a]
    ensures forall x :: x in boxes ==> boxes'[a := Some(current)][x] == boxes[x]
    ensures forall x :: x in boxes'[a := Some(current)] && x !in boxes ==> boxes'[a := Some(current)][x] == Some(current)
  {
    forall x
      ensures x in seen + [a] <==> x in seen || x == a
    {
    }
  }

  /** Queueing neighbour `k`, not yet a key of `boxes'`, extends the loop's effect by it. */
  lemma NeighbourhoodDiscover(queue: seq<Box>, boxes: map<Box, Option<Box>>, current: Box,
                              neighbours: seq<Box>, k: int, queue': seq<Box>, boxes': map<Box, Option<Box>>)
    requires 0 <= k < |neighbours| && neighbours[k] !in boxes'
    requires Neighbourhood(queue, boxes, current, neighbours, k, queue', boxes')
    ensures Neighbourhood(queue, boxes, current, neighbours, k + 1,
                          queue' + [neighbours[k]], boxes'[neighbours[k] := Some(current)])
  {
    UndiscoveredStep(neighbours, k, boxes.Keys);
    ParentsDiscover(boxes, boxes', neighbours[..k], neighbours[k], current);
  }

  /** Skipping neighbour `k`, already a key of `boxes'`, leaves the loop's effect as it is. */
  lemma NeighbourhoodSkip(queue: seq<Box>, boxes: map<Box, Option<Box>>, current: Box,
                          neighbours: seq<Box>, k: int, queue': seq<Box>, boxes': map<Box, Option<Box>>)
    requires 0 <= k < |neighbours| && neighbours[k] in boxes'
    requires Neighbourhood(queue, boxes, current, neighbours, k, queue', boxes')
    ensures Neighbourhood(queue, boxes, current, neighbours, k + 1, queue', boxes')
  {
    UndiscoveredStep(neighbours, k, boxes.Keys);
    forall x
      ensures x in neighbours[..k + 1] <==> x in neighbours[..k] || x == neighbours[k]
    {
    }
  }

  /** After the last neighbour, the loop's effect is stated over the whole list. */
  lemma NeighbourhoodDone(queue: seq<Box>, boxes: map<Box, Option<Box>>, current: Box,
                          neighbours: seq<Box>, queue': seq<Box>, boxes': map<Box, Option<Box>>)
    requires Neighbourhood(queue, boxes, current, neighbours, |neighbours|, queue', boxes')
    ensures queue' == queue + Undiscovered(neighbours, boxes.Keys)
    ensures forall a :: a in boxes' <==> a in boxes || a in neighbours
    ensures forall a :: a in boxes ==> boxes'[a] == boxes[a]
    ensures forall a :: a in boxes' && a !in boxes ==> boxes'[a] == Some(current)
  {
    assert neighbours[..|neighbours|] == neighbours;
  }

  /**
    One turn of the neighbour loop: the `k`-th neighbour is queued with
    `current` as its parent unless it is already a key of `boxes`.
   */
  method ExpandOne(ghost adj: map<Box, seq<Box>>, ghost start: Box, ghost source: Point, ghost dest: Option<Box>,
                   ghost queue: seq<Box>, ghost boxes: map<Box, Option<Box>>, ghost detail: map<Box, Point>,
                   ghost g: Discovery, current: Box, neighbours: seq<Box>, k: nat,
                   queueK: seq<Box>, boxesK: map<Box, Option<Box>>, ghost gK: Discovery)
    returns (queue': seq<Box>, boxes': map<Box, Option<Box>>, ghost g': Discovery)
    requires forall b, a :: b in adj && a in adj[b] ==> a in adj
    requires k < |neighbours|
    requires ExpandInv(adj, start, source, dest, queueK, boxesK, detail, gK, current, neighbours, k)
    requires gK.visited == g.visited
    requires Neighbourhood(queue, boxes, current, neighbours, k, queueK, boxesK)
    ensures neighbours[k] in boxesK ==> queue' == queueK && boxes' == boxesK
    ensures neighbours[k] !in boxesK ==>
      queue' == queueK + [neighbours[k]] && boxes' == boxesK[neighbours[k] := Some(current)]
    ensures ExpandInv(adj, start, source, dest, queue', boxes', detail, g', current, neighbours, k + 1)
    ensures g'.visited == g.visited
    ensures Neighbourhood(queue, boxes, current, neighbours, k + 1, queue', boxes')
  {
    var adjacent := neighbours[k];
    if adjacent !in boxesK {
      DiscoverStep(adj, start, source, dest, queueK, boxesK, detail, gK, current, neighbours, k);
      NeighbourhoodDiscover(queue, boxes, current, neighbours, k, queueK, boxesK);
      queue' := queueK + [adjacent];
      boxes' := boxesK[adjacent := Some(current)];
      g' := Enqueue(gK, adjacent);
    } else {
      SkipStep(adj, start, source, dest, queueK, boxesK, detail, gK, current, neighbours, k);
      NeighbourhoodSkip(queue, boxes, current, neighbours, k, queueK, boxesK);
      queue', boxes', g' := queueK, boxesK, gK;
    }
  }

  /**
    The loop over the neighbours of `current` in `find_path`: each neighbour
    that is not yet a key of `boxes` is queued, once, and gets `current` as
    its parent; nothing else changes.
   */
  method ExpandNeighbours(ghost adj: map<Box, seq<Box>>, ghost start: Box, ghost source: Point,
                          ghost dest: Option<Box>, queue: seq<Box>, boxes: map<Box, Option<Box>>,
                          ghost detail: map<Box, Point>, ghost g: Discovery, current: Box, neighbours: seq<Box>)
    returns (queue': seq<Box>, boxes': map<Box, Option<Box>>, ghost g': Discovery)
    requires forall b, a :: b in adj && a in adj[b] ==> a in adj
    requires ExpandInv(adj, start, source, dest, queue, boxes, detail, g, current, neighbours, 0)
    ensures queue' == queue + Undiscovered(neighbours, boxes.Keys)
    ensures forall a :: a in boxes' <==> a in boxes || a in neighbours
    ensures forall a :: a in boxes ==> boxes'[a] == boxes[a]
    ensures forall a :: a in boxes' && a !in boxes ==> boxes'[a] == Some(current)
    ensures SearchInv(adj, start, source, dest, queue', boxes', detail, g')
    ensures g'.visited == g.visited
  {
    NeighboursListed(adj, current);
    queue', boxes', g' := queue, boxes, g;
    var k := 0;
    while k < |neighbours|
      invariant ExpandInv(adj, start, source, dest, queue', boxes', detail, g', current, neighbours, k)
      invariant g'.visited == g.visited
      invariant Neighbourhood(queue, boxes, current, neighbours, k, queue', boxes')
    {
      queue', boxes', g' := ExpandOne(adj, start, source, dest, queue, boxes, detail, g, current, neighbours, k,
                                      queue', boxes', g');
      k := k + 1;
    }
    NeighbourhoodDone(queue, boxes, current, neighbours, queue', boxes');
    ExpandDone(adj, start, source, dest, queue', boxes', detail, g', current, neighbours);
  }

  /** Dequeuing a box not dequeued before shrinks the set of boxes still to be dequeued. */
  lemma VisitedGrows(adj: map<Box, seq<Box>>, visited: set<Box>, visited': set<Box>, current: Box)
    requires current in adj && current !in visited && visited' == visited + {current}
    ensures adj.Keys - visited' < adj.Keys - visited
  {
    assert current in adj.Keys - visited;
  }

  /** Every neighbour listed in an adjacency map closed under its lists is a key of it. */
  lemma NeighboursListed(adj: map<Box, seq<Box>>, b: Box)
    requires forall c, a :: c in adj && a in adj[c] ==> a in adj
    requires b in adj
    ensures forall i :: 0 <= i < |adj[b]| ==> adj[b][i] in adj
  {
  }

  /**
    The backtracking half of a turn of the search loop: the dequeued box holds
    the destination, and the path follows a shortest walk to it.
   */
  method Arrive(ghost adj: map<Box, seq<Box>>, ghost start: Box, ghost source: Point, destination: Point,
                ghost dest: Option<Box>, queue: seq<Box>, boxes: map<Box, Option<Box>>,
                ghost detail: map<Box, Point>, ghost g: Discovery, detail': map<Box, Point>)
    returns (path: seq<Point>, ghost walk: seq<Box>)
    requires queue != [] && SearchInv(adj, start, source, dest, queue, boxes, detail, g)
    requires queue[0] == start ==> detail' == detail
    requires queue[0] != start ==>
      boxes[queue[0]].Some? && boxes[queue[0]].value in detail &&
      detail' == detail[queue[0] := DetailPoint(queue[0], boxes[queue[0]].value, detail[boxes[queue[0]].value])]
    requires Some(queue[0]) == dest
    ensures start in boxes && boxes.Keys <= ReachableSet(adj, start)
    ensures IsWalk(adj, walk) && walk[0] == start
    ensures Some(walk[|walk| - 1]) == dest && walk[|walk| - 1] in boxes
    ensures path == TransitPoints(walk, source) + [destination]
    ensures forall w :: IsWalk(adj, w) && w[0] == start && w[|w| - 1] == walk[|walk| - 1] ==> |walk| <= |w|
  {
    DequeueFacts(adj, start, source, dest, queue, boxes, detail, g);
    DequeueLevel(adj, start, source, dest, queue, boxes, detail, g);
    DequeueStep(adj, start, source, dest, queue, boxes, detail, g, detail');
    walk := Chain(adj, start, boxes, g, queue[0]);
    FoundOutcome(adj, start, boxes, g, queue[0], walk);
    path := Backtrack(adj, start, source, boxes, detail', g, queue[0]);
    path := path + [destination];
  }

  /**
    The expanding half of a turn of the search loop: the dequeued box does not
    hold the destination, and its undiscovered neighbours join the queue.
   */
  method Expand(adj: map<Box, seq<Box>>, ghost start: Box, ghost source: Point, ghost dest: Option<Box>,
                queue: seq<Box>, boxes: map<Box, Option<Box>>, ghost detail: map<Box, Point>,
                ghost g: Discovery, ghost detail': map<Box, Point>)
    returns (queue': seq<Box>, boxes': map<Box, Option<Box>>, ghost g': Discovery)
    requires forall b, a :: b in adj && a in adj[b] ==> a in adj
    requires queue != [] && SearchInv(adj, start, source, dest, queue, boxes, detail, g)
    requires queue[0] == start ==> detail' == detail
    requires queue[0] != start ==>
      boxes[queue[0]].Some? && boxes[queue[0]].value in detail &&
      detail' == detail[queue[0] := DetailPoint(queue[0], boxes[queue[0]].value, detail[boxes[queue[0]].value])]
    requires Some(queue[0]) != dest
    ensures queue[0] in adj && queue' == queue[1..] + Undiscovered(adj[queue[0]], boxes.Keys)
    ensures forall a :: a in boxes' <==> a in boxes || a in adj[queue[0]]
    ensures forall a :: a in boxes ==> boxes'[a] == boxes[a]
    ensures forall a :: a in boxes' && a !in boxes ==> boxes'[a] == Some(queue[0])
    ensures SearchInv(adj, start, source, dest, queue', boxes', detail', g')
    ensures adj.Keys - g'.visited < adj.Keys - g.visited
  {
    var current := queue[0];
    DequeueFacts(adj, start, source, dest, queue, boxes, detail, g);
    DequeueStep(adj, start, source, dest, queue, boxes, detail, g, detail');
    queue', boxes', g' := ExpandNeighbours(adj, start, source, dest, queue[1..], boxes, detail', Dequeue(g),
                                           current, adj[current]);
    VisitedGrows(adj, g.visited, g'.visited, current);
  }
}

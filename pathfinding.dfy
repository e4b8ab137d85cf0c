/**
 * `Pathfinding` of src/shared/systems/Pathfinding.ts: 8-way A* on the
 * navigation grid (1 = wall) over 32-pixel tiles, with corner cutting
 * prevented, returning the centres of the tiles on the found path.
 *
 * Step costs are scaled to integers: 1000 for a straight step and 1414
 * for a diagonal one (the source uses 1 and 1.414). Nodes are values in
 * `nodeMap`, keyed by `y·width + x`; a node's parent is the parent's key.
 */
module Pathfinding {
  import opened Wrappers
  import opened Heap
  import Pixels

  /** A world position, in pixels. */
  datatype Pos = Pos(x: real, y: real)

  /** A path point: the centre of a tile, in pixels. */
  datatype Point = Point(x: int, y: int)

  /** A grid cell. */
  datatype Cell = Cell(x: int, y: int)

  /** A search node; `f = g + h`. */
  datatype Node = Node(x: nat, y: nat, g: nat, h: nat, f: nat, parent: Option<nat>)

  /** A neighbour direction and its cost. */
  datatype Dir = Dir(dx: int, dy: int, cost: nat)

  /** Right, left, down, up, then the four diagonals. */
  const Dirs: seq<Dir> := [
    Dir(1, 0, 1000), Dir(-1, 0, 1000), Dir(0, 1, 1000), Dir(0, -1, 1000),
    Dir(1, 1, 1414), Dir(-1, 1, 1414), Dir(1, -1, 1414), Dir(-1, -1, 1414)]

  /** `grid[0]?.length || 0`. */
  function Width(grid: seq<seq<int>>): nat {
    if |grid| > 0 then |grid[0]| else 0
  }

  /** The cell lies in the `width` × `height` grid. */
  predicate InBounds(grid: seq<seq<int>>, x: int, y: int) {
    0 <= x < Width(grid) && 0 <= y < |grid|
  }

  /** `grid[y][x] === 1`; a row shorter than the first reads `undefined` there, which is not a wall. */
  predicate IsWall(grid: seq<seq<int>>, x: int, y: int)
    requires InBounds(grid, x, y)
  {
    x < |grid[y]| && grid[y][x] == 1
  }

  /** An in-bounds cell that is not a wall. */
  predicate Open(grid: seq<seq<int>>, c: Cell) {
    InBounds(grid, c.x, c.y) && !IsWall(grid, c.x, c.y)
  }

  /** A legal move: to one of the 8 neighbours, and diagonally only when both cells it passes are not walls. */
  predicate Step(grid: seq<seq<int>>, a: Cell, b: Cell) {
    && -1 <= b.x - a.x <= 1 && -1 <= b.y - a.y <= 1 && a != b
    && (a.x != b.x && a.y != b.y ==>
         InBounds(grid, b.x, a.y) && InBounds(grid, a.x, b.y) && !IsWall(grid, b.x, a.y) && !IsWall(grid, a.x, b.y))
  }

  /** The centre of a tile: `32·cell + 16`. */
  function Centre(c: Cell): Point {
    Point(32 * c.x + 16, 32 * c.y + 16)
  }

  /** The tile a point lies in (`Math.floor(p / 32)`). */
  function CellOf(p: Point): Cell {
    Cell(p.x / 32, p.y / 32)
  }

  /** Reading back a centre gives its tile. */
  lemma CellOfCentre(c: Cell)
    ensures CellOf(Centre(c)) == c
  {
  }

  /** The point is the centre of an open tile. */
  predicate PointOk(grid: seq<seq<int>>, p: Point) {
    p == Centre(CellOf(p)) && Open(grid, CellOf(p))
  }

  /** Every point is the centre of an open tile, and each step is a legal move. */
  predicate PathOk(grid: seq<seq<int>>, path: seq<Point>) {
    && (forall i :: 0 <= i < |path| ==> PointOk(grid, path[i]))
    && (forall i :: 0 <= i < |path| - 1 ==> Step(grid, CellOf(path[i]), CellOf(path[i + 1])))
  }

  /** The points in walking order from the last back to the first: `PathOk` of the reversed sequence. */
  predicate BackPathOk(grid: seq<seq<int>>, rev: seq<Point>) {
    && (forall i :: 0 <= i < |rev| ==> PointOk(grid, rev[i]))
    && (forall i :: 0 <= i < |rev| - 1 ==> Step(grid, CellOf(rev[i + 1]), CellOf(rev[i])))
  }

  /** `|a|`. */
  function Abs(a: int): nat {
    if a < 0 then -a else a
  }

  /** `dist`: the octile distance `1000·(dx + dy) + (1414 − 2000)·min(dx, dy)`. */
  function Dist(x1: int, y1: int, x2: int, y2: int): int {
    var dx, dy := Abs(x1 - x2), Abs(y1 - y2);
    1000 * (dx + dy) + (1414 - 2 * 1000) * (if dx < dy then dx else dy)
  }

  /** The distance is 1000 per straight and 414 more per diagonal step of the best route, symmetric, and 0 only in place. */
  lemma DistSpec(x1: int, y1: int, x2: int, y2: int)
    ensures var dx, dy := Abs(x1 - x2), Abs(y1 - y2);
      Dist(x1, y1, x2, y2) == 1000 * (if dx < dy then dy else dx) + 414 * (if dx < dy then dx else dy)
    ensures Dist(x1, y1, x2, y2) == Dist(x2, y2, x1, y1)
    ensures Dist(x1, y1, x2, y2) >= 0 && (Dist(x1, y1, x2, y2) == 0 <==> x1 == x2 && y1 == y2)
  {
  }

  /** The heuristic is consistent: one step changes the distance to the target by at most the step's cost. */
  lemma DistConsistent(x: int, y: int, d: Dir, tx: int, ty: int)
    requires d in Dirs
    ensures Dist(x, y, tx, ty) <= d.cost + Dist(x + d.dx, y + d.dy, tx, ty)
  {
  }

  /** The tile a node stands on. */
  function CellAt(n: Node): Cell {
    Cell(n.x, n.y)
  }

  /**
   * What holds of the node under key `k`: it sits on an open tile whose
   * row-major index is `k`, and either it has no parent and is the start
   * tile, or its parent is in the map one legal move away with a strictly
   * smaller `g`.
   */
  ghost predicate NodeOk(grid: seq<seq<int>>, nodeMap: map<nat, Node>, start: Cell, k: nat)
    requires k in nodeMap
  {
    var n := nodeMap[k];
    && Open(grid, CellAt(n)) && k == Pixels.Idx(Width(grid), n.x, n.y) && k < Width(grid) * |grid|
    && (n.parent.None? ==> CellAt(n) == start)
    && (n.parent.Some? ==>
         && n.parent.value in nodeMap
         && Step(grid, CellAt(nodeMap[n.parent.value]), CellAt(n))
         && nodeMap[n.parent.value].g < n.g)
  }

  /** What holds of `nodeMap` throughout the search: `NodeOk` for every key. */
  ghost predicate NodesOk(grid: seq<seq<int>>, nodeMap: map<nat, Node>, start: Cell) {
    forall k {:trigger NodeOk(grid, nodeMap, start, k)} :: k in nodeMap ==> NodeOk(grid, nodeMap, start, k)
  }

  /** Every open-set entry names a node of the map. */
  ghost predicate Tracked(content: seq<Item>, nodeMap: map<nat, Node>) {
    forall x :: x in content ==> x.key in nodeMap
  }

  /** A new node whose parent is in the map, one legal move away and cheaper, keeps `NodesOk`. */
  lemma AddNode(grid: seq<seq<int>>, nodeMap: map<nat, Node>, start: Cell, k: nat, n: Node, p: nat)
    requires NodesOk(grid, nodeMap, start) && k !in nodeMap
    requires k == Pixels.Idx(Width(grid), n.x, n.y) && k < Width(grid) * |grid|
    requires Open(grid, CellAt(n)) && n.parent == Some(p) && p in nodeMap
    requires Step(grid, CellAt(nodeMap[p]), CellAt(n)) && nodeMap[p].g < n.g
    ensures NodesOk(grid, nodeMap[k := n], start)
  {
    var m := nodeMap[k := n];
    forall j | j in m ensures NodeOk(grid, m, start, j) {
      if j != k {
        assert NodeOk(grid, nodeMap, start, j);
        var q := nodeMap[j].parent;
        if q.Some? {
          assert q.value != k && m[q.value] == nodeMap[q.value];
        }
      } else {
        assert m[p] == nodeMap[p];
      }
    }
  }

  /**
   * A node that is reached more cheaply, through a different node one legal
   * move away, keeps `NodesOk`: its children's `g` stays above its own.
   */
  lemma ImproveNode(grid: seq<seq<int>>, nodeMap: map<nat, Node>, start: Cell, k: nat, n: Node, p: nat)
    requires NodesOk(grid, nodeMap, start) && k in nodeMap && CellAt(n) == CellAt(nodeMap[k]) && n.g < nodeMap[k].g
    requires n.parent == Some(p) && p in nodeMap && p != k
    requires Step(grid, CellAt(nodeMap[p]), CellAt(n)) && nodeMap[p].g < n.g
    ensures NodesOk(grid, nodeMap[k := n], start)
  {
    var m := nodeMap[k := n];
    forall j | j in m ensures NodeOk(grid, m, start, j) {
      assert NodeOk(grid, nodeMap, start, j);
      if j == k {
        assert NodeOk(grid, nodeMap, start, k);
      }
    }
  }

  /** The open set stays tracked when it gains at most one entry whose key is in the map and the map only grows. */
  lemma TrackedAfter(prior: seq<Item>, now: seq<Item>, e: Item, m0: map<nat, Node>, m: map<nat, Node>)
    requires Tracked(prior, m0) && m0.Keys <= m.Keys && e.key in m
    requires forall x :: x in multiset(now) ==> x in multiset(prior) || x == e
    ensures Tracked(now, m)
  {
    forall x | x in now ensures x.key in m {
      assert x in multiset(now);
    }
  }

  /** Distinct tiles have distinct row-major indices. */
  lemma KeyCell(w: nat, x1: nat, y1: nat, x2: nat, y2: nat)
    requires x1 < w && x2 < w && Pixels.Idx(w, x1, y1) == Pixels.Idx(w, x2, y2)
    ensures x1 == x2 && y1 == y2
  {
    Pixels.DivUnique(Pixels.Idx(w, x1, y1), w, y1, x1);
    Pixels.DivUnique(Pixels.Idx(w, x2, y2), w, y2, x2);
  }

  /** Each direction moves to one of the 8 neighbours; it costs more than 1000 exactly when it is diagonal. */
  lemma DirShape(d: nat)
    requires d < |Dirs|
    ensures -1 <= Dirs[d].dx <= 1 && -1 <= Dirs[d].dy <= 1 && (Dirs[d].dx, Dirs[d].dy) != (0, 0)
    ensures Dirs[d].cost > 1000 <==> Dirs[d].dx != 0 && Dirs[d].dy != 0
  {
  }

  /** A subset is no larger. */
  lemma SubsetCard(a: set<nat>, b: set<nat>)
    requires a <= b
    ensures |a| <= |b|
  {
    assert b == a + (b - a);
  }

  /** `s.reverse()`. */
  function Reversed<T>(s: seq<T>): (r: seq<T>)
    ensures |r| == |s| && forall i :: 0 <= i < |s| ==> r[i] == s[|s| - 1 - i]
  {
    if |s| == 0 then [] else Reversed(s[1..]) + [s[0]]
  }

  /** A set of numbers below `n` has at most `n` elements. */
  lemma {:induction false} BoundedCard(a: set<nat>, n: nat)
    requires forall k :: k in a ==> k < n
    ensures |a| <= n
  {
    if n > 0 {
      var b := a - {n - 1};
      BoundedCard(b, n - 1);
      assert a <= b + {n - 1};
    } else {
      assert a == {};
    }
  }

  /** Reversing a path listed from its end back to its start gives a path in walking order. */
  lemma ReverseBackPath(grid: seq<seq<int>>, rev: seq<Point>)
    requires BackPathOk(grid, rev)
    ensures PathOk(grid, Reversed(rev))
  {
    var path := Reversed(rev);
    forall i | 0 <= i < |path| - 1 ensures Step(grid, CellOf(path[i]), CellOf(path[i + 1])) {
      assert path[i] == rev[|rev| - 1 - i] && path[i + 1] == rev[|rev| - 2 - i];
    }
  }

  /**
   * `reconstructPath`: the tile centres from the node back along its
   * parents, reversed. The walk ends at the start tile, so the path runs
   * from the start tile to the node's tile by legal moves over open tiles.
   */
  method ReconstructPath(grid: seq<seq<int>>, nodeMap: map<nat, Node>, ghost start: Cell, key: nat) returns (path: seq<Point>)
    requires NodesOk(grid, nodeMap, start) && key in nodeMap
    ensures |path| >= 1 && PathOk(grid, path)
    ensures path[0] == Centre(start)
    ensures path[|path| - 1] == Centre(CellAt(nodeMap[key]))
  {
    var rev: seq<Point> := [];
    var curr: Option<nat> := Some(key);
    while curr.Some?
      invariant curr.Some? ==> curr.value in nodeMap
      invariant |rev| == 0 ==> curr == Some(key)
      invariant |rev| > 0 ==> rev[0] == Centre(CellAt(nodeMap[key]))
      invariant BackPathOk(grid, rev)
      invariant |rev| > 0 && curr.Some? ==> Step(grid, CellAt(nodeMap[curr.value]), CellOf(rev[|rev| - 1]))
      invariant |rev| > 0 && curr.None? ==> CellOf(rev[|rev| - 1]) == start
      decreases if curr.Some? then nodeMap[curr.value].g + 1 else 0
    {
      var node := nodeMap[curr.value];
      assert NodeOk(grid, nodeMap, start, curr.value);
      CellOfCentre(CellAt(node));
      rev := rev + [Centre(CellAt(node))];
      curr := node.parent;
    }
    path := Reversed(rev);
    ReverseBackPath(grid, rev);
    CellOfCentre(start);
  }

  class Finder {
    const grid: seq<seq<int>>
    const width: nat
    const height: nat

    /** The grid is kept; `height` is its row count and `width` the first row's length. */
    constructor(grid: seq<seq<int>>)
      ensures this.grid == grid && height == |grid| && width == Width(grid)
    {
      this.grid := grid;
      this.height := |grid|;
      this.width := Width(grid);
    }

    /** A neighbour seen for the first time: a node with `current` as parent, pushed with its score. */
    method AddNeighbor(openSet: BinaryHeap, nodeMap: map<nat, Node>, ghost start: Cell, currentKey: nat,
                       neighborKey: nat, nx: nat, ny: nat, gScore: nat, endX: nat, endY: nat) returns (next: map<nat, Node>)
      requires NodesOk(grid, nodeMap, start) && Tracked(openSet.content, nodeMap)
      requires currentKey in nodeMap && nodeMap[currentKey].g < gScore
      requires Open(grid, Cell(nx, ny)) && Step(grid, CellAt(nodeMap[currentKey]), Cell(nx, ny))
      requires width == Width(grid) && neighborKey == Pixels.Idx(width, nx, ny) && neighborKey < width * |grid|
      requires neighborKey !in nodeMap
      modifies openSet
      ensures next == nodeMap[neighborKey := Node(nx, ny, gScore, Dist(nx, ny, endX, endY), gScore + Dist(nx, ny, endX, endY), Some(currentKey))]
      ensures NodesOk(grid, next, start) && Tracked(openSet.content, next)
      ensures nodeMap.Keys <= next.Keys && |next.Keys| == |nodeMap.Keys| + 1 && next[currentKey] == nodeMap[currentKey]
      ensures |openSet.content| == |old(openSet.content)| + 1
    {
      var h := Dist(nx, ny, endX, endY);
      DistSpec(nx, ny, endX, endY);
      var neighborNode := Node(nx, ny, gScore, h, gScore + h, Some(currentKey));
      AddNode(grid, nodeMap, start, neighborKey, neighborNode, currentKey);
      next := nodeMap[neighborKey := neighborNode];
      ghost var prior := openSet.content;
      openSet.Push(Item(neighborKey, neighborNode.f));
      TrackedAfter(prior, openSet.content, Item(neighborKey, neighborNode.f), nodeMap, next);
    }

    /** A neighbour reached more cheaply: it takes the lower `g` and `f` and `current` as parent, and is rescored. */
    method ImproveNeighbor(openSet: BinaryHeap, nodeMap: map<nat, Node>, ghost start: Cell, currentKey: nat,
                           neighborKey: nat, gScore: nat) returns (next: map<nat, Node>)
      requires NodesOk(grid, nodeMap, start) && Tracked(openSet.content, nodeMap)
      requires currentKey in nodeMap && nodeMap[currentKey].g < gScore && neighborKey != currentKey
      requires neighborKey in nodeMap && gScore < nodeMap[neighborKey].g
      requires Step(grid, CellAt(nodeMap[currentKey]), CellAt(nodeMap[neighborKey]))
      modifies openSet
      ensures var n := nodeMap[neighborKey];
        next == nodeMap[neighborKey := n.(g := gScore, f := gScore + n.h, parent := Some(currentKey))]
      ensures NodesOk(grid, next, start) && Tracked(openSet.content, next)
      ensures next.Keys == nodeMap.Keys && next[currentKey] == nodeMap[currentKey]
      ensures |openSet.content| == |old(openSet.content)|
    {
      var n := nodeMap[neighborKey];
      var neighborNode := n.(g := gScore, f := gScore + n.h, parent := Some(currentKey));
      ImproveNode(grid, nodeMap, start, neighborKey, neighborNode, currentKey);
      next := nodeMap[neighborKey := neighborNode];
      ghost var prior := openSet.content;
      openSet.RescoreElement(neighborKey, neighborNode.f);
      TrackedAfter(prior, openSet.content, Item(neighborKey, neighborNode.f), nodeMap, next);
    }

    /**
     * The neighbour tests of direction `d`: the tile one step along `d` is
     * kept exactly when it is open and the move to it is legal, that is,
     * unless it is outside the grid, a wall, or a diagonal past a wall.
     */
    method Neighbor(current: Node, d: nat) returns (r: Option<Cell>)
      requires width == Width(grid) && height == |grid| && d < |Dirs| && Open(grid, CellAt(current))
      ensures var c := Cell(current.x + Dirs[d].dx, current.y + Dirs[d].dy);
        && (r.Some? <==> Open(grid, c) && Step(grid, CellAt(current), c))
        && (r.Some? ==> r.value == c)
    {
      var dir := Dirs[d];
      DirShape(d);
      var nx, ny := current.x + dir.dx, current.y + dir.dy;
      if nx < 0 || nx >= width || ny < 0 || ny >= height {
        return None;
      }
      if IsWall(grid, nx, ny) {
        return None;
      }
      if dir.cost > 1000 {
        if IsWall(grid, nx, current.y) || IsWall(grid, current.x, ny) {
          return None;
        }
      }
      return Some(Cell(nx, ny));
    }

    /**
     * Direction `d` of the neighbour loop around `current`, which is closed:
     * a neighbour that fails the tests or is closed is skipped, a new one is
     * added, and a known one reached more cheaply is improved.
     */
    method Relax(openSet: BinaryHeap, nodeMap: map<nat, Node>, closedSet: set<nat>, ghost start: Cell,
                 currentKey: nat, current: Node, d: nat, endX: nat, endY: nat) returns (next: map<nat, Node>)
      requires width == Width(grid) && height == |grid|
      requires NodesOk(grid, nodeMap, start) && Tracked(openSet.content, nodeMap)
      requires currentKey in closedSet && currentKey in nodeMap && nodeMap[currentKey] == current
      requires d < |Dirs|
      modifies openSet
      ensures NodesOk(grid, next, start) && Tracked(openSet.content, next)
      ensures nodeMap.Keys <= next.Keys && currentKey in next && next[currentKey] == current
      ensures |openSet.content| - |old(openSet.content)| == |next.Keys| - |nodeMap.Keys|
    {
      next := nodeMap;
      assert NodeOk(grid, nodeMap, start, currentKey);
      var cell := Neighbor(current, d);
      if cell.None? {
        return;
      }
      var nx: nat, ny: nat := cell.value.x, cell.value.y;
      var neighborKey := Key(nx, ny);
      if neighborKey in closedSet {
        return;
      }
      Pixels.IdxInRange(width, height, nx, ny);
      next := Reach(openSet, nodeMap, start, currentKey, current, d, nx, ny, neighborKey, endX, endY);
    }

    /** The key of tile `(nx, ny)`: its row-major index. */
    method Key(nx: nat, ny: nat) returns (key: nat)
      ensures key == Pixels.Idx(width, nx, ny)
    {
      key := ny * width + nx;
    }

    /** An open, unclosed neighbour: added when new, improved when reached more cheaply, else kept. */
    method Reach(openSet: BinaryHeap, nodeMap: map<nat, Node>, ghost start: Cell, currentKey: nat, current: Node,
                 d: nat, nx: nat, ny: nat, neighborKey: nat, endX: nat, endY: nat) returns (next: map<nat, Node>)
      requires width == Width(grid) && height == |grid|
      requires NodesOk(grid, nodeMap, start) && Tracked(openSet.content, nodeMap)
      requires currentKey in nodeMap && nodeMap[currentKey] == current && d < |Dirs|
      requires Open(grid, Cell(nx, ny)) && Step(grid, CellAt(current), Cell(nx, ny))
      requires Cell(nx, ny) == Cell(current.x + Dirs[d].dx, current.y + Dirs[d].dy)
      requires neighborKey == Pixels.Idx(width, nx, ny) && neighborKey < width * |grid|
      modifies openSet
      ensures NodesOk(grid, next, start) && Tracked(openSet.content, next)
      ensures nodeMap.Keys <= next.Keys && currentKey in next && next[currentKey] == current
      ensures |openSet.content| - |old(openSet.content)| == |next.Keys| - |nodeMap.Keys|
    {
      next := nodeMap;
      assert NodeOk(grid, nodeMap, start, currentKey);
      var gScore := current.g + Dirs[d].cost;
      if neighborKey !in nodeMap {
        next := AddNeighbor(openSet, nodeMap, start, currentKey, neighborKey, nx, ny, gScore, endX, endY);
      } else if gScore < nodeMap[neighborKey].g {
        assert NodeOk(grid, nodeMap, start, neighborKey);
        var n := nodeMap[neighborKey];
        KeyCell(width, nx, ny, n.x, n.y);
        next := ImproveNeighbor(openSet, nodeMap, start, currentKey, neighborKey, gScore);
      }
    }

    /** The neighbour loop: every direction relaxed in turn. */
    method Expand(openSet: BinaryHeap, nodeMap: map<nat, Node>, closedSet: set<nat>, ghost start: Cell,
                  currentKey: nat, current: Node, endX: nat, endY: nat) returns (next: map<nat, Node>)
      requires width == Width(grid) && height == |grid|
      requires NodesOk(grid, nodeMap, start) && Tracked(openSet.content, nodeMap)
      requires currentKey in closedSet && currentKey in nodeMap && nodeMap[currentKey] == current
      modifies openSet
      ensures NodesOk(grid, next, start) && Tracked(openSet.content, next)
      ensures nodeMap.Keys <= next.Keys
      ensures |openSet.content| - |old(openSet.content)| == |next.Keys| - |nodeMap.Keys|
    {
      next := nodeMap;
      for d := 0 to |Dirs|
        invariant NodesOk(grid, next, start) && Tracked(openSet.content, next)
        invariant nodeMap.Keys <= next.Keys && currentKey in next && next[currentKey] == current
        invariant |openSet.content| - |old(openSet.content)| == |next.Keys| - |nodeMap.Keys|
      {
        next := Relax(openSet, next, closedSet, start, currentKey, current, d, endX, endY);
      }
    }

    /**
     * `findPath`: `None` (null) for an empty grid, a start or end tile
     * outside it, or a start or end tile that is a wall; a found path runs
     * from the start tile's centre to the end tile's centre by legal moves
     * over open tiles. So an end tile no legal path reaches gives `None`.
     */
    method FindPath(start: Pos, end: Pos) returns (path: Option<seq<Point>>)
      requires width == Width(grid) && height == |grid|
      ensures width == 0 || height == 0 ==> path.None?
      ensures var s, e := Cell((start.x / 32.0).Floor, (start.y / 32.0).Floor), Cell((end.x / 32.0).Floor, (end.y / 32.0).Floor);
        && (!InBounds(grid, s.x, s.y) || !InBounds(grid, e.x, e.y) ==> path.None?)
        && (InBounds(grid, s.x, s.y) && InBounds(grid, e.x, e.y) && (IsWall(grid, s.x, s.y) || IsWall(grid, e.x, e.y)) ==> path.None?)
        && (path.Some? ==>
             (|path.value| >= 1 && PathOk(grid, path.value)
              && path.value[0] == Centre(s) && path.value[|path.value| - 1] == Centre(e)))
    {
      if width == 0 || height == 0 {
        return None;
      }
      var startX, startY := (start.x / 32.0).Floor, (start.y / 32.0).Floor;
      var endX, endY := (end.x / 32.0).Floor, (end.y / 32.0).Floor;
      if startX < 0 || startX >= width || startY < 0 || startY >= height {
        return None;
      }
      if endX < 0 || endX >= width || endY < 0 || endY >= height {
        return None;
      }
      if IsWall(grid, startX, startY) || IsWall(grid, endX, endY) {
        return None;
      }
      var s := Cell(startX, startY);
      var openSet := new BinaryHeap();
      var h := Dist(startX, startY, endX, endY);
      DistSpec(startX, startY, endX, endY);
      var startNode := Node(startX, startY, 0, h, h, None);
      var startKey: nat := startY * width + startX;
      assert startKey == Pixels.Idx(width, startX, startY);
      Pixels.IdxInRange(width, height, startX, startY);
      openSet.Push(Item(startKey, startNode.f));
      var nodeMap := map[startKey := startNode];
      assert NodeOk(grid, nodeMap, s, startKey);
      TrackedAfter([], openSet.content, Item(startKey, startNode.f), nodeMap, nodeMap);
      path := Search(openSet, nodeMap, s, endX, endY);
    }

    /**
     * The main loop of `findPath`: pop the open node of lowest score; at the
     * end tile rebuild the path, otherwise close it and expand it. An empty
     * open set gives `None`. The loop ends because each round either adds a
     * node, of which there are at most `width·height`, or shrinks the open set.
     */
    method Search(openSet: BinaryHeap, nodeMap0: map<nat, Node>, ghost s: Cell, endX: nat, endY: nat)
      returns (path: Option<seq<Point>>)
      requires width == Width(grid) && height == |grid|
      requires NodesOk(grid, nodeMap0, s) && Tracked(openSet.content, nodeMap0)
      modifies openSet
      ensures path.Some? ==>
        (|path.value| >= 1 && PathOk(grid, path.value)
         && path.value[0] == Centre(s) && path.value[|path.value| - 1] == Centre(Cell(endX, endY)))
    {
      var closedSet: set<nat> := {};
      var nodeMap := nodeMap0;
      while openSet.Size() > 0
        invariant NodesOk(grid, nodeMap, s) && Tracked(openSet.content, nodeMap)
        decreases width * height - |nodeMap.Keys|, |openSet.content|
      {
        NodeKeysBounded(nodeMap, s);
        ghost var prior := openSet.content;
        var popped := openSet.Pop();
        if popped.None? {
          break;
        }
        assert popped.value in prior;
        TrackedAfter(prior, openSet.content, popped.value, nodeMap, nodeMap);
        var currentKey := popped.value.key;
        var current := nodeMap[currentKey];
        if current.x == endX && current.y == endY {
          var found := ReconstructPath(grid, nodeMap, s, currentKey);
          return Some(found);
        }
        closedSet := closedSet + {currentKey};
        ghost var before := nodeMap.Keys;
        nodeMap := Expand(openSet, nodeMap, closedSet, s, currentKey, current, endX, endY);
        NodeKeysBounded(nodeMap, s);
        SubsetCard(before, nodeMap.Keys);
      }
      return None;
    }

    /** There are at most `width·height` nodes. */
    lemma NodeKeysBounded(nodeMap: map<nat, Node>, s: Cell)
      requires width == Width(grid) && height == |grid| && NodesOk(grid, nodeMap, s)
      ensures |nodeMap.Keys| <= width * height
    {
      forall k | k in nodeMap.Keys ensures k < width * height {
        assert NodeOk(grid, nodeMap, s, k);
      }
      BoundedCard(nodeMap.Keys, width * height);
    }
  }

  /** Corner cutting is prevented: with a wall at (0, 1), no legal path goes from (0, 0) straight to (1, 1). */
  lemma NoCornerCut(path: seq<Point>)
    requires PathOk([[0, 0, 0], [1, 0, 0], [0, 0, 0]], path)
    requires |path| >= 2 && path[0] == Centre(Cell(0, 0))
    ensures CellOf(path[1]) != Cell(1, 1)
  {
    assert Step([[0, 0, 0], [1, 0, 0], [0, 0, 0]], CellOf(path[0]), CellOf(path[1]));
  }

  /** A legal path never enters a wall: every centre on it lies in a tile other than 1. */
  lemma PathAvoidsWalls(grid: seq<seq<int>>, path: seq<Point>, i: nat)
    requires PathOk(grid, path) && i < |path|
    ensures var c := CellOf(path[i]); 0 <= c.y < |grid| && (c.x < |grid[c.y]| ==> grid[c.y][c.x] != 1)
  {
  }
}

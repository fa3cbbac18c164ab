/**
 * The platform pathfinder: a grid of nodes marked walkable, reachable by a
 * jump or reachable by a fall, the moves a platformer character can make
 * between them, and an A* search that returns the path as pixel points.
 */
module Pathfinding {
  import opened JsValues

  /** A node's position in grid cells. */
  datatype Cell = Cell(x: int, y: int)

  /** The traversal flags of one grid node. */
  datatype PathNode = PathNode(walkable: bool, jumpNode: bool, fallNode: bool)

  /** One step of a returned path, in pixels. */
  datatype PathPoint = PathPoint(x: int, y: int, jumpNode: bool, fallNode: bool)

  /**
   * `findPath`'s outcome: no path (`null`), a path, or a reconstruction
   * that follows parent links forever and never returns.
   */
  datatype SearchResult = NoPath | Path(points: seq<PathPoint>) | Diverges

  type Grid = seq<seq<PathNode>>

  const DefaultGridSize: int := 32
  /** Every node's jump height and safe fall height, in cells. */
  const JumpHeight: int := 4
  const MaxFallHeight: int := 8

  // ---------------------------------------------------------------------------
  // Grid geometry
  // ---------------------------------------------------------------------------

  /** `grid[0].length`, the grid's width (0 for an empty grid). */
  function Width(grid: Grid): nat
  {
    if |grid| == 0 then 0 else |grid[0]|
  }

  /** Every row is as wide as the first. */
  predicate Rectangular(grid: Grid)
  {
    forall r :: 0 <= r < |grid| ==> |grid[r]| == Width(grid)
  }

  /** `isValidPosition`. */
  function IsValidPosition(grid: Grid, x: int, y: int): (b: bool)
    ensures b <==> 0 <= y < |grid| && 0 <= x < Width(grid)
  {
    y >= 0 && y < |grid| && x >= 0 && x < |grid[0]|
  }

  predicate InGrid(grid: Grid, c: Cell)
  {
    IsValidPosition(grid, c.x, c.y)
  }

  function NodeAt(grid: Grid, c: Cell): PathNode
    requires Rectangular(grid) && InGrid(grid, c)
  {
    grid[c.y][c.x]
  }

  predicate Walkable(grid: Grid, c: Cell)
    requires Rectangular(grid)
  {
    InGrid(grid, c) && NodeAt(grid, c).walkable
  }

  /** `isGrounded`: the cell below exists and is solid. */
  function IsGrounded(grid: Grid, x: int, y: int): (b: bool)
    requires Rectangular(grid) && 0 <= x < Width(grid) && -1 <= y
    ensures b <==> IsValidPosition(grid, x, y + 1) && !grid[y + 1][x].walkable
  {
    y + 1 < |grid| && !grid[y + 1][x].walkable
  }

  /** `heuristic`: horizontal distance plus one and a half times the vertical distance. */
  function Heuristic(a: Cell, b: Cell): (h: real)
    ensures h >= 0.0
    ensures h == 0.0 <==> a == b
    ensures h >= Abs(a.x - b.x) as real && h >= Abs(a.y - b.y) as real
  {
    Abs(a.x - b.x) as real + 1.5 * Abs(a.y - b.y) as real
  }

  function Abs(n: int): nat { if n < 0 then -n else n }

  /** `Math.min(2, Math.ceil(d / 2))`: the horizontal reach of a jump or fall of d rows. */
  function Reach(d: int): (r: int)
    requires d >= 1
    ensures 1 <= r <= 2 && (r == 1 <==> d <= 2)
  {
    if (d + 1) / 2 < 2 then (d + 1) / 2 else 2
  }

  // ---------------------------------------------------------------------------
  // Straight-line clearance between two nodes
  // ---------------------------------------------------------------------------

  function Steps(s: Cell, e: Cell): nat
  {
    if Abs(e.x - s.x) < Abs(e.y - s.y) then Abs(e.y - s.y) else Abs(e.x - s.x)
  }

  /**
   * The i-th of `Steps` samples on the line from s to e:
   * `Math.floor(s + d * i / steps)`; `/` on `int` floors for a positive divisor.
   */
  function Sample(s: Cell, e: Cell, i: int): Cell
    requires Steps(s, e) > 0
  {
    Cell(s.x + ((e.x - s.x) * i) / Steps(s, e), s.y + ((e.y - s.y) * i) / Steps(s, e))
  }

  predicate ClearAt(grid: Grid, s: Cell, e: Cell, i: int)
    requires Rectangular(grid) && Steps(s, e) > 0
  {
    Walkable(grid, Sample(s, e, i))
  }

  /** Every sample strictly between the two ends is inside the grid and walkable. */
  predicate JumpPathClear(grid: Grid, s: Cell, e: Cell)
    requires Rectangular(grid)
  {
    forall i :: 1 <= i < Steps(s, e) ==> ClearAt(grid, s, e, i)
  }

  // ---------------------------------------------------------------------------
  // Moves between nodes
  // ---------------------------------------------------------------------------

  /** A step left or right onto a walkable, grounded node. */
  predicate HorizontalMove(grid: Grid, a: Cell, b: Cell)
    requires Rectangular(grid)
  {
    b.y == a.y && (b.x == a.x - 1 || b.x == a.x + 1) && Walkable(grid, b) && IsGrounded(grid, b.x, b.y)
  }

  /** A jump from grounded a up to a walkable jump node within reach, with a clear line. */
  predicate JumpMove(grid: Grid, a: Cell, b: Cell)
    requires Rectangular(grid) && InGrid(grid, a)
  {
    IsGrounded(grid, a.x, a.y) && 1 <= a.y - b.y <= JumpHeight && Abs(b.x - a.x) <= Reach(a.y - b.y)
    && Walkable(grid, b) && NodeAt(grid, b).jumpNode && JumpPathClear(grid, a, b)
  }

  /** A fall from a down to a walkable fall node within reach, with a clear line. */
  predicate FallMove(grid: Grid, a: Cell, b: Cell)
    requires Rectangular(grid)
  {
    1 <= b.y - a.y <= MaxFallHeight && Abs(b.x - a.x) <= Reach(b.y - a.y)
    && Walkable(grid, b) && NodeAt(grid, b).fallNode && JumpPathClear(grid, a, b)
  }

  /** The moves `getNeighbors` offers from a node. */
  predicate Move(grid: Grid, a: Cell, b: Cell)
    requires Rectangular(grid)
  {
    InGrid(grid, a) && (HorizontalMove(grid, a, b) || JumpMove(grid, a, b) || FallMove(grid, a, b))
  }

  /** Every move lands on a walkable node other than the one it leaves. */
  lemma MoveLandsElsewhere(grid: Grid, a: Cell, b: Cell)
    requires Rectangular(grid) && Move(grid, a, b)
    ensures Walkable(grid, b) && a != b
  {
  }

  /** A sequence of cells each reachable from the previous one by a move. */
  predicate IsWalk(grid: Grid, w: seq<Cell>)
    requires Rectangular(grid)
  {
    |w| > 0 && forall i :: 0 <= i < |w| - 1 ==> Move(grid, w[i], w[i + 1])
  }

  /** The cost of stepping onto b: Euclidean distance, times 1.5 onto a jump node and 1.2 onto a fall node. */
  function MovementCost(sqrt: real -> real, a: Cell, b: Cell, bNode: PathNode): (cost: real)
    ensures var d := sqrt((Abs(a.x - b.x) * Abs(a.x - b.x) + Abs(a.y - b.y) * Abs(a.y - b.y)) as real);
      && (d >= 0.0 ==> d <= cost <= 1.8 * d)
      && (!bNode.jumpNode && !bNode.fallNode ==> cost == d)
      && (bNode.jumpNode && bNode.fallNode ==> cost == 1.8 * d)
      && (bNode.jumpNode && !bNode.fallNode ==> cost == 1.5 * d)
      && (!bNode.jumpNode && bNode.fallNode ==> cost == 1.2 * d)
  {
    var dx := Abs(a.x - b.x);
    var dy := Abs(a.y - b.y);
    var cost := sqrt((dx * dx + dy * dy) as real);
    var cost := if bNode.jumpNode then cost * 1.5 else cost;
    if bNode.fallNode then cost * 1.2 else cost
  }

  function PointAt(grid: Grid, gridSize: int, c: Cell): PathPoint
    requires Rectangular(grid) && InGrid(grid, c)
  {
    PathPoint(c.x * gridSize, c.y * gridSize, NodeAt(grid, c).jumpNode, NodeAt(grid, c).fallNode)
  }

  /** Every cell of `w`, as a path point. */
  function PointsOf(grid: Grid, gridSize: int, w: seq<Cell>): (ps: seq<PathPoint>)
    requires Rectangular(grid) && forall i :: 0 <= i < |w| ==> InGrid(grid, w[i])
    ensures |ps| == |w| && forall i :: 0 <= i < |w| ==> ps[i] == PointAt(grid, gridSize, w[i])
  {
    seq(|w|, i requires 0 <= i < |w| => PointAt(grid, gridSize, w[i]))
  }

  // ---------------------------------------------------------------------------
  // Jump and fall marks
  // ---------------------------------------------------------------------------

  /** The cells `markJumpNodes(x, y)` inspects: up to JumpHeight rows above, two columns either side. */
  predicate InJumpWindow(x: int, y: int, c: Cell)
  {
    0 <= c.y && y - JumpHeight <= c.y <= y - 1 && x - 2 <= c.x <= x + 2
  }

  /** The cells `markFallNodes(x, y)` inspects: up to MaxFallHeight rows below, two columns either side. */
  predicate InFallWindow(x: int, y: int, c: Cell)
  {
    y + 1 <= c.y <= y + MaxFallHeight && x - 2 <= c.x <= x + 2
  }

  /** A node a jump or fall may land on: walkable and grounded. */
  predicate Landing(grid: Grid, c: Cell)
    requires Rectangular(grid)
  {
    Walkable(grid, c) && IsGrounded(grid, c.x, c.y)
  }

  /** Two grids with the same shape and the same walkable nodes. */
  predicate SameTerrain(a: Grid, b: Grid)
  {
    |a| == |b| && forall r :: 0 <= r < |a| ==> |a[r]| == |b[r]| && forall c :: 0 <= c < |a[r]| ==> a[r][c].walkable == b[r][c].walkable
  }

  lemma SameTerrainLandings(a: Grid, b: Grid)
    requires Rectangular(a) && SameTerrain(a, b)
    ensures Rectangular(b) && Width(a) == Width(b)
    ensures forall c :: Landing(a, c) <==> Landing(b, c)
    ensures forall c :: Walkable(a, c) <==> Walkable(b, c)
  {
  }

  /** Writing one node of a rectangular grid changes that node only. */
  lemma WriteNode(grid: Grid, row: int, col: int, n: PathNode)
    requires Rectangular(grid) && 0 <= row < |grid| && 0 <= col < Width(grid)
    ensures var grid' := grid[row := grid[row][col := n]];
      && Rectangular(grid') && |grid'| == |grid| && Width(grid') == Width(grid)
      && forall r, c :: 0 <= r < |grid| && 0 <= c < Width(grid) ==>
           grid'[r][c] == if r == row && c == col then n else grid[r][c]
  {
  }

  /** The open and closed lists hold distinct walkable cells, none in both. */
  ghost predicate ListsOk(grid: Grid, open: seq<Cell>, closed: seq<Cell>)
    requires Rectangular(grid)
  {
    NoDuplicates(open) && NoDuplicates(closed)
    && (forall c :: c in open ==> c !in closed)
    && (forall c :: c in open ==> Walkable(grid, c))
    && (forall c :: c in closed ==> Walkable(grid, c))
  }

  /**
   * Every closed cell after the first was reached by a move from a cell
   * closed before it, and every open cell other than the start by a move
   * from a closed cell.
   */
  ghost predicate LinkedOk(grid: Grid, parent: map<Cell, Cell>, open: seq<Cell>, closed: seq<Cell>, start: Cell)
    requires Rectangular(grid)
  {
    && (forall k :: 0 < k < |closed| ==>
          closed[k] in parent && parent[closed[k]] in closed[..k] && Move(grid, parent[closed[k]], closed[k]))
    && (forall c :: c in open && c != start ==> c in parent && parent[c] in closed && Move(grid, parent[c], c))
  }

  /** Every move out of a closed cell (other than `except`) leads to an open or closed cell. */
  ghost predicate Covered(grid: Grid, open: seq<Cell>, closed: seq<Cell>, except: Option<Cell>)
    requires Rectangular(grid)
  {
    forall c, n :: c in closed && Some(c) != except && Move(grid, c, n) ==> n in closed || n in open
  }

  /**
   * Moving an open cell to the closed list keeps the lists well formed and
   * linked, keeps the start first, and leaves only the moves out of the
   * newly closed cell to be explored.
   */
  lemma CloseKeepsInvariants(grid: Grid, parent: map<Cell, Cell>, open: seq<Cell>, closed: seq<Cell>, start: Cell, current: Cell)
    requires Rectangular(grid) && ListsOk(grid, open, closed) && LinkedOk(grid, parent, open, closed, start)
    requires current in open
    requires |closed| == 0 ==> open == [start]
    requires |closed| > 0 ==> closed[0] == start
    requires Covered(grid, open, closed, None)
    ensures var open', closed' := Remove(open, current), closed + [current];
      && ListsOk(grid, open', closed') && LinkedOk(grid, parent, open', closed', start)
      && closed'[0] == start && Covered(grid, open', closed', Some(current))
  {
    var open', closed' := Remove(open, current), closed + [current];
    assert ListsOk(grid, open', closed');
    forall k | 0 < k < |closed'|
      ensures closed'[k] in parent && parent[closed'[k]] in closed'[..k]
      ensures Move(grid, parent[closed'[k]], closed'[k])
    {
      if k < |closed| {
        assert closed'[..k] == closed[..k];
      } else {
        assert closed[0] == start && current != start;
        assert closed'[..k] == closed;
      }
    }
    forall c, n | c in closed' && Some(c) != Some(current) && Move(grid, c, n)
      ensures n in closed' || n in open'
    {
      assert c in closed;
    }
  }

  /** The cells of `closed` have the same parent links (or none) in `after` as in `before`. */
  ghost predicate ParentsKept(closed: seq<Cell>, before: map<Cell, Cell>, after: map<Cell, Cell>)
  {
    forall c :: c in closed ==> (c in after <==> c in before) && (c in after ==> after[c] == before[c])
  }

  /** Keeping the closed cells' links is transitive. */
  lemma ParentsKeptTransitive(closed: seq<Cell>, p0: map<Cell, Cell>, p1: map<Cell, Cell>, p2: map<Cell, Cell>)
    requires ParentsKept(closed, p0, p1) && ParentsKept(closed, p1, p2)
    ensures ParentsKept(closed, p0, p2)
  {
  }

  /**
   * Making a closed cell the parent of a cell it moves to, and opening that
   * cell, keeps the lists well formed and linked and leaves the parent
   * links of closed cells as they were.
   */
  lemma AdoptKeepsInvariants(grid: Grid, parent: map<Cell, Cell>, open: seq<Cell>, closed: seq<Cell>, start: Cell, current: Cell, neighbor: Cell)
    requires Rectangular(grid) && ListsOk(grid, open, closed) && LinkedOk(grid, parent, open, closed, start)
    requires |closed| > 0 && closed[0] == start && current in closed
    requires neighbor !in closed && Move(grid, current, neighbor)
    ensures var parent', open' := parent[neighbor := current], SetAdd(open, neighbor);
      && ListsOk(grid, open', closed) && LinkedOk(grid, parent', open', closed, start)
      && forall c :: c in closed ==> c != neighbor
  {
    MoveLandsElsewhere(grid, current, neighbor);
    var parent', open' := parent[neighbor := current], SetAdd(open, neighbor);
    forall k | 0 < k < |closed|
      ensures closed[k] in parent' && parent'[closed[k]] == parent[closed[k]]
    {
      assert closed[k] != neighbor;
    }
    forall c | c in open' && c != start
      ensures c in parent' && parent'[c] in closed && Move(grid, parent'[c], c)
    {
      if c != neighbor {
        assert c in open;
      }
    }
  }

  class PlatformPathFinder {
    const gridSize: int
    var grid: Grid
    /** The search fields of every node: cost so far, estimate, total and parent link. */
    var g: map<Cell, real>
    var h: map<Cell, real>
    var f: map<Cell, real>
    var parent: map<Cell, Cell>
    var openList: seq<Cell>
    var closedList: seq<Cell>

    ghost predicate Valid()
      reads this
    {
      gridSize > 0 && Rectangular(grid)
      && forall c :: c in parent ==> InGrid(grid, c) && InGrid(grid, parent[c])
    }

    /** A pathfinder with an empty grid. */
    constructor (gridSize: int)
      requires gridSize > 0
      ensures Valid() && this.gridSize == gridSize
      ensures grid == [] && parent == map[] && openList == [] && closedList == []
    {
      this.gridSize := gridSize;
      grid := [];
      g := map[];
      h := map[];
      f := map[];
      parent := map[];
      openList := [];
      closedList := [];
    }

    /**
     * `initializeGrid`: a fresh walkable node per cell of a grid covering the
     * scene (its size in cells rounded up), collision tiles inside the grid
     * made unwalkable, and then the platforms analysed.
     */
    method InitializeGrid(sceneWidth: nat, sceneHeight: nat, collisionTiles: set<Cell>)
      requires Valid()
      modifies this`grid, this`g, this`h, this`f, this`parent
      ensures Valid() && parent == map[]
      ensures SameTerrain(FreshGrid(CellsFor(sceneWidth, gridSize), CellsFor(sceneHeight, gridSize), collisionTiles), grid)
      ensures forall r, c :: 0 <= r < |grid| && 0 <= c < Width(grid) ==>
        && grid[r][c].walkable == (Cell(c, r) !in collisionTiles)
        && grid[r][c].jumpNode == (Landing(grid, Cell(c, r)) && JumpSource(grid, Cell(c, r), |grid|, 0))
        && grid[r][c].fallNode == (Landing(grid, Cell(c, r)) && FallSource(grid, Cell(c, r), |grid|, 0))
    {
      var width := CellsFor(sceneWidth, gridSize);
      var height := CellsFor(sceneHeight, gridSize);
      grid := FreshGrid(width, height, collisionTiles);
      g := map[];
      h := map[];
      f := map[];
      parent := map[];
      ghost var g0 := grid;
      AnalyzePlatforms();
      forall c | true
        ensures JumpSource(g0, c, |grid|, 0) == JumpSource(grid, c, |grid|, 0)
        ensures FallSource(g0, c, |grid|, 0) == FallSource(grid, c, |grid|, 0)
      {
        SameTerrainSources(g0, grid, c, |grid|, 0);
      }
      SameTerrainLandings(g0, grid);
    }

    /** `hasValidJumpPath`: stops at the first blocked sample between the two nodes. */
    method HasValidJumpPath(start: Cell, end: Cell) returns (clear: bool)
      requires Valid()
      ensures clear <==> JumpPathClear(grid, start, end)
    {
      var dx := end.x - start.x;
      var dy := end.y - start.y;
      var steps := if Abs(dx) < Abs(dy) then Abs(dy) else Abs(dx);
      var i := 1;
      while i < steps
        invariant 1 <= i
        invariant forall k :: 1 <= k < i && k < steps ==> ClearAt(grid, start, end, k)
        decreases steps - i
      {
        var x := start.x + (dx * i) / steps;
        var y := start.y + (dy * i) / steps;
        if !IsValidPosition(grid, x, y) || !grid[y][x].walkable {
          assert !ClearAt(grid, start, end, i);
          return false;
        }
        i := i + 1;
      }
      return true;
    }

    /**
     * `getNeighbors`: the horizontal steps, the jumps when the node is
     * grounded, and the falls — exactly the moves from the node.
     */
    method GetNeighbors(node: Cell) returns (neighbors: seq<Cell>)
      requires Valid() && InGrid(grid, node)
      ensures forall c :: c in neighbors <==> Move(grid, node, c)
    {
      neighbors := [];
      var left := Cell(node.x - 1, node.y);
      if IsValidPosition(grid, left.x, left.y) && grid[left.y][left.x].walkable && IsGrounded(grid, left.x, left.y) {
        neighbors := neighbors + [left];
      }
      var right := Cell(node.x + 1, node.y);
      if IsValidPosition(grid, right.x, right.y) && grid[right.y][right.x].walkable && IsGrounded(grid, right.x, right.y) {
        neighbors := neighbors + [right];
      }
      assert forall c :: c in neighbors <==> HorizontalMove(grid, node, c);
      if IsGrounded(grid, node.x, node.y) {
        neighbors := AddJumpNeighbors(node, neighbors);
      }
      neighbors := AddFallNeighbors(node, neighbors);
    }

    /** `addJumpNeighbors`: appends every jump target of a grounded node. */
    method AddJumpNeighbors(node: Cell, neighbors: seq<Cell>) returns (r: seq<Cell>)
      requires Valid() && InGrid(grid, node) && IsGrounded(grid, node.x, node.y)
      ensures |r| >= |neighbors| && r[..|neighbors|] == neighbors
      ensures forall c :: c in r <==> c in neighbors || JumpMove(grid, node, c)
    {
      r := neighbors;
      var y := 1;
      while y <= JumpHeight
        invariant 1 <= y <= JumpHeight + 1
        invariant |r| >= |neighbors| && r[..|neighbors|] == neighbors
        invariant forall c :: c in r <==> c in neighbors || (JumpMove(grid, node, c) && node.y - c.y < y)
      {
        var jumpY := node.y - y;
        if jumpY < 0 {
          break;
        }
        var range := Reach(y);
        var x := -range;
        while x <= range
          invariant -range <= x <= range + 1
          invariant |r| >= |neighbors| && r[..|neighbors|] == neighbors
          invariant forall c :: c in r <==>
            c in neighbors || (JumpMove(grid, node, c) && (node.y - c.y < y || (node.y - c.y == y && c.x - node.x < x)))
        {
          var jumpX := node.x + x;
          if IsValidPosition(grid, jumpX, jumpY) {
            var target := grid[jumpY][jumpX];
            if target.walkable && target.jumpNode {
              var ok := HasValidJumpPath(node, Cell(jumpX, jumpY));
              if ok {
                r := r + [Cell(jumpX, jumpY)];
              }
            }
          }
          x := x + 1;
        }
        y := y + 1;
      }
    }

    /** `addFallNeighbors`: appends every fall target of a node. */
    method AddFallNeighbors(node: Cell, neighbors: seq<Cell>) returns (r: seq<Cell>)
      requires Valid() && InGrid(grid, node)
      ensures |r| >= |neighbors| && r[..|neighbors|] == neighbors
      ensures forall c :: c in r <==> c in neighbors || FallMove(grid, node, c)
    {
      r := neighbors;
      var y := 1;
      while y <= MaxFallHeight
        invariant 1 <= y <= MaxFallHeight + 1
        invariant |r| >= |neighbors| && r[..|neighbors|] == neighbors
        invariant forall c :: c in r <==> c in neighbors || (FallMove(grid, node, c) && c.y - node.y < y)
      {
        var fallY := node.y + y;
        if fallY >= |grid| {
          break;
        }
        var range := Reach(y);
        var x := -range;
        while x <= range
          invariant -range <= x <= range + 1
          invariant |r| >= |neighbors| && r[..|neighbors|] == neighbors
          invariant forall c :: c in r <==>
            c in neighbors || (FallMove(grid, node, c) && (c.y - node.y < y || (c.y - node.y == y && c.x - node.x < x)))
        {
          var fallX := node.x + x;
          if IsValidPosition(grid, fallX, fallY) {
            var target := grid[fallY][fallX];
            if target.walkable && target.fallNode {
              var ok := HasValidJumpPath(node, Cell(fallX, fallY));
              if ok {
                r := r + [Cell(fallX, fallY)];
              }
            }
          }
          x := x + 1;
        }
        y := y + 1;
      }
    }

    // -------------------------------------------------------------------------
    // A* search
    // -------------------------------------------------------------------------

    /** The open and closed lists hold distinct walkable cells, none in both. */
    ghost predicate ListsWellFormed()
      reads this
    {
      Valid() && ListsOk(grid, openList, closedList)
    }

    /**
     * Every closed node after the first was reached by a move from a node
     * closed before it, and every open node other than the start by a move
     * from a closed node.
     */
    ghost predicate Linked(start: Cell)
      reads this
      requires ListsWellFormed()
    {
      LinkedOk(grid, parent, openList, closedList, start)
    }

    /** Every move out of a closed node (other than `except`) leads to an open or closed node. */
    ghost predicate ClosedUnderMoves(except: Option<Cell>)
      reads this
      requires Valid()
    {
      Covered(grid, openList, closedList, except)
    }

    /** The parent links of closed nodes are those of the earlier state `before`. */
    ghost predicate ClosedParentsKept(before: map<Cell, Cell>)
      reads this
    {
      ParentsKept(closedList, before, parent)
    }

    /** `openList.reduce(...)`: the index of the first open node of least total cost. */
    method LowestCostNode() returns (m: nat)
      requires |openList| > 0
      ensures m < |openList|
      ensures forall k :: 0 <= k < |openList| ==> F(openList[m]) <= F(openList[k])
      ensures forall k :: 0 <= k < m ==> F(openList[k]) > F(openList[m])
    {
      m := 0;
      var k := 1;
      while k < |openList|
        invariant m < k <= |openList|
        invariant forall j :: 0 <= j < k ==> F(openList[m]) <= F(openList[j])
        invariant forall j :: 0 <= j < m ==> F(openList[j]) > F(openList[m])
      {
        if F(openList[k]) < F(openList[m]) {
          m := k;
        }
        k := k + 1;
      }
    }

    /**
     * The neighbour loop of `findPath`: each neighbour not yet closed gets a
     * cost, an estimate to `end` and `current` as parent when it is new to
     * the open list or reached more cheaply, and joins the open list.
     */
    method ExpandNeighbors(start: Cell, current: Cell, end: Cell, neighbors: seq<Cell>, sqrt: real -> real)
      requires ListsWellFormed() && Linked(start)
      requires |closedList| > 0 && closedList[0] == start && closedList[|closedList| - 1] == current
      requires forall c :: c in neighbors ==> Move(grid, current, c)
      modifies this`g, this`h, this`f, this`parent, this`openList
      ensures ListsWellFormed() && Linked(start) && ClosedParentsKept(old(parent))
      ensures forall c :: c in old(openList) ==> c in openList
      ensures forall c :: c in neighbors ==> c in closedList || c in openList
    {
      var j := 0;
      while j < |neighbors|
        invariant 0 <= j <= |neighbors|
        invariant ListsWellFormed() && Linked(start) && ParentsKept(closedList, old(parent), parent)
        invariant forall c :: c in old(openList) ==> c in openList
        invariant forall c :: c in neighbors[..j] ==> c in closedList || c in openList
      {
        VisitNeighborAt(start, current, end, neighbors, j, sqrt, old(parent), old(openList));
        j := j + 1;
      }
      assert neighbors[..j] == neighbors;
    }

    /** One turn of the neighbour loop: the first `j + 1` neighbours are now open or closed. */
    method VisitNeighborAt(start: Cell, current: Cell, end: Cell, neighbors: seq<Cell>, j: int, sqrt: real -> real,
                           ghost parent0: map<Cell, Cell>, ghost open0: seq<Cell>)
      requires 0 <= j < |neighbors|
      requires ListsWellFormed() && Linked(start) && ParentsKept(closedList, parent0, parent)
      requires |closedList| > 0 && closedList[0] == start && closedList[|closedList| - 1] == current
      requires Move(grid, current, neighbors[j])
      requires forall c :: c in open0 ==> c in openList
      requires forall c :: c in neighbors[..j] ==> c in closedList || c in openList
      modifies this`g, this`h, this`f, this`parent, this`openList
      ensures ListsWellFormed() && Linked(start) && ParentsKept(closedList, parent0, parent)
      ensures forall c :: c in open0 ==> c in openList
      ensures forall c :: c in neighbors[..j + 1] ==> c in closedList || c in openList
    {
      var neighbor := neighbors[j];
      ghost var parent1 := parent;
      VisitNeighbor(start, current, end, neighbor, sqrt);
      ParentsKeptTransitive(closedList, parent0, parent1, parent);
      assert neighbors[..j + 1] == neighbors[..j] + [neighbor];
    }

    /** One pass of the neighbour loop: a closed neighbour is skipped, an open one rescored only when cheaper. */
    method VisitNeighbor(start: Cell, current: Cell, end: Cell, neighbor: Cell, sqrt: real -> real)
      requires ListsWellFormed() && Linked(start)
      requires |closedList| > 0 && closedList[0] == start && current in closedList
      requires Move(grid, current, neighbor)
      modifies this`g, this`h, this`f, this`parent, this`openList
      ensures ListsWellFormed() && Linked(start) && ClosedParentsKept(old(parent))
      ensures forall c :: c in old(openList) ==> c in openList
      ensures neighbor in closedList || neighbor in openList
    {
      MoveLandsElsewhere(grid, current, neighbor);
      if neighbor !in closedList {
        var gCost := G(current) + MovementCost(sqrt, current, neighbor, NodeAt(grid, neighbor));
        if neighbor !in openList || gCost < G(neighbor) {
          Adopt(start, current, neighbor, end, gCost);
        }
      }
    }

    /** The start node's parent link is the one it had in the earlier state `before`. */
    ghost predicate StartParentKept(before: map<Cell, Cell>, start: Cell)
      reads this
    {
      (start in parent <==> start in before) && (start in parent ==> parent[start] == before[start])
    }

    /**
     * The search loop of `findPath`: repeatedly close the first open node of
     * least total cost, stop when it is `end`, and otherwise expand its
     * neighbours. Either `end` is closed last, or the open list runs dry and
     * the closed nodes, which include the start but not `end`, have no move
     * leading out of them.
     */
    method Search(start: Cell, end: Cell, sqrt: real -> real) returns (found: bool)
      requires Valid() && Walkable(grid, start) && Walkable(grid, end)
      requires openList == [start] && closedList == []
      modifies this`g, this`h, this`f, this`parent, this`openList, this`closedList
      ensures ListsWellFormed() && Linked(start) && StartParentKept(old(parent), start)
      ensures |closedList| > 0 && closedList[0] == start
      ensures found ==> closedList[|closedList| - 1] == end
      ensures !found ==> end !in closedList && openList == [] && ClosedUnderMoves(None)
    {
      while |openList| > 0
        invariant ListsWellFormed() && Linked(start) && StartParentKept(old(parent), start)
        invariant |closedList| == 0 ==> openList == [start]
        invariant |closedList| > 0 ==> closedList[0] == start
        invariant end !in closedList
        invariant ClosedUnderMoves(None)
        decreases AllCells(grid) - (set c | c in closedList)
      {
        ghost var closed0 := closedList;
        var current, reached := SearchStep(start, end, sqrt);
        assert current in AllCells(grid) - (set c | c in closed0);
        if reached {
          return true;
        }
      }
      return false;
    }

    /**
     * One round of the search loop: close the first open node of least total
     * cost and, unless it is `end`, expand its neighbours.
     */
    method SearchStep(start: Cell, end: Cell, sqrt: real -> real) returns (current: Cell, reached: bool)
      requires ListsWellFormed() && Linked(start) && |openList| > 0
      requires |closedList| == 0 ==> openList == [start]
      requires |closedList| > 0 ==> closedList[0] == start
      requires ClosedUnderMoves(None)
      modifies this`g, this`h, this`f, this`parent, this`openList, this`closedList
      ensures ListsWellFormed() && Linked(start) && StartParentKept(old(parent), start)
      ensures closedList == old(closedList) + [current] && closedList[0] == start
      ensures current !in old(closedList) && InGrid(grid, current)
      ensures reached <==> current == end
      ensures !reached ==> ClosedUnderMoves(None)
    {
      current := CloseLowestCostNode(start);
      reached := current == end;
      if reached {
        return;
      }
      var neighbors := GetNeighbors(current);
      ExpandNeighbors(start, current, end, neighbors, sqrt);
      assert ClosedUnderMoves(None) by {
        forall c, n | c in closedList && Move(grid, c, n)
          ensures n in closedList || n in openList
        {
          if c == current {
            assert n in neighbors;
          }
        }
      }
    }

    /**
     * Moves the first open node of least total cost from the open list to the
     * end of the closed list; every move out of the other closed nodes still
     * leads to an open or closed node.
     */
    method CloseLowestCostNode(start: Cell) returns (current: Cell)
      requires ListsWellFormed() && Linked(start) && |openList| > 0
      requires |closedList| == 0 ==> openList == [start]
      requires |closedList| > 0 ==> closedList[0] == start
      requires ClosedUnderMoves(None)
      modifies this`openList, this`closedList
      ensures ListsWellFormed() && Linked(start)
      ensures current in old(openList) && current !in old(closedList)
      ensures closedList == old(closedList) + [current] && closedList[0] == start
      ensures ClosedUnderMoves(Some(current))
      ensures forall c :: c in old(openList) && c != current ==> c in openList
    {
      var m := LowestCostNode();
      current := openList[m];
      CloseNode(start, current);
    }

    /** Moves an open node from the open list to the end of the closed list. */
    method CloseNode(start: Cell, current: Cell)
      requires ListsWellFormed() && Linked(start) && current in openList
      requires |closedList| == 0 ==> openList == [start]
      requires |closedList| > 0 ==> closedList[0] == start
      requires ClosedUnderMoves(None)
      modifies this`openList, this`closedList
      ensures ListsWellFormed() && Linked(start)
      ensures closedList == old(closedList) + [current] && closedList[0] == start
      ensures openList == Remove(old(openList), current)
      ensures ClosedUnderMoves(Some(current))
    {
      CloseKeepsInvariants(grid, parent, openList, closedList, start, current);
      openList := Remove(openList, current);
      closedList := SetAdd(closedList, current);
    }

    // -------------------------------------------------------------------------
    // Path reconstruction and the two versions of findPath
    // -------------------------------------------------------------------------

    /**
     * `reconstructPath`, on parent links laid down by a single search: the
     * walk from the first closed node (the start) to `end`, as points.
     */
    method ReconstructPath(end: Cell) returns (path: seq<PathPoint>, ghost walk: seq<Cell>)
      requires Valid() && ChainInGrid(grid, closedList) && end in closedList && ChainLinked(parent, closedList)
      ensures walk == Chain(parent, closedList, IndexOf(closedList, end))
      ensures ChainInGrid(grid, walk) && path == PointsOf(grid, gridSize, walk)
    {
      ghost var kEnd := IndexOf(closedList, end);
      ghost var k: nat := kEnd;
      ghost var suffix: seq<Cell> := [];
      path := [];
      var node: Option<Cell> := Some(end);
      while node.Some?
        invariant node.Some? ==> k < |closedList| && closedList[k] == node.value
        invariant node.Some? ==> Chain(parent, closedList, k) + suffix == Chain(parent, closedList, kEnd)
        invariant node.None? ==> suffix == Chain(parent, closedList, kEnd)
        invariant ChainInGrid(grid, suffix) && path == PointsOf(grid, gridSize, suffix)
        decreases if node.Some? then k + 1 else 0
      {
        var cell := node.value;
        PointsOfCons(grid, gridSize, cell, suffix);
        ChainBack(parent, closedList, kEnd, k, suffix);
        path := [PointAt(grid, gridSize, cell)] + path;
        suffix := [cell] + suffix;
        if cell in parent {
          k := IndexOf(closedList, parent[cell]);
          node := Some(parent[cell]);
        } else {
          node := None;
        }
      }
      walk := suffix;
    }

    /**
     * `reconstructPath` as written, on whatever parent links the nodes hold:
     * it follows them until a node has none. Cut off after `fuel` nodes,
     * which reports `Diverges`.
     */
    method ReconstructPathAsWritten(end: Cell, fuel: nat) returns (r: SearchResult)
      requires Valid() && InGrid(grid, end)
      ensures r == TrailResult(grid, gridSize, parent, end, fuel)
    {
      var path: seq<PathPoint> := [];
      ghost var suffix: seq<Cell> := [];
      var node: Option<Cell> := Some(end);
      var steps := 0;
      AppendNothing(ParentTrail(parent, end, fuel));
      while node.Some? && steps < fuel
        invariant 0 <= steps <= fuel
        invariant node.Some? ==> InGrid(grid, node.value)
        invariant node.Some? ==> ParentTrail(parent, end, fuel) == Append(ParentTrail(parent, node.value, fuel - steps), suffix)
        invariant node.None? ==> ParentTrail(parent, end, fuel) == Some(suffix)
        invariant ChainInGrid(grid, suffix) && path == PointsOf(grid, gridSize, suffix)
        decreases fuel - steps
      {
        var cell := node.value;
        ghost var rest := ParentTrail(parent, cell, fuel - steps);
        if cell in parent {
          assert rest == Append(ParentTrail(parent, parent[cell], fuel - steps - 1), [cell]);
          AppendTwice(ParentTrail(parent, parent[cell], fuel - steps - 1), [cell], suffix);
        }
        PointsOfCons(grid, gridSize, cell, suffix);
        path := [PointAt(grid, gridSize, cell)] + path;
        suffix := [cell] + suffix;
        node := if cell in parent then Some(parent[cell]) else None;
        steps := steps + 1;
      }
      if node.Some? {
        return Diverges;
      }
      return Path(path);
    }

    /**
     * `findPath` with every node's search fields cleared before the search
     * (as a fresh grid has them): a path found is a walk of moves from the
     * start cell to the end cell, no path means no such walk exists, and the
     * reconstruction always ends.
     */
    method FindPath(startX: real, startY: real, endX: real, endY: real, sqrt: real -> real)
        returns (r: SearchResult, ghost walk: seq<Cell>)
      requires Valid()
      modifies this`g, this`h, this`f, this`parent, this`openList, this`closedList
      ensures Valid() && !r.Diverges?
      ensures var start, end := ToCell(startX, startY, gridSize), ToCell(endX, endY, gridSize);
        && (!InGrid(grid, start) || !InGrid(grid, end) ==>
              r == NoPath && openList == old(openList) && closedList == old(closedList) && parent == old(parent))
        && (InGrid(grid, start) && InGrid(grid, end) && !(Walkable(grid, start) && Walkable(grid, end)) ==>
              r == NoPath && openList == [] && closedList == [])
        && (r.Path? ==> IsWalk(grid, walk) && walk[0] == start && walk[|walk| - 1] == end
                        && ChainInGrid(grid, walk) && r.points == PointsOf(grid, gridSize, walk))
        && (r.NoPath? && Walkable(grid, start) && Walkable(grid, end) ==>
              forall w :: IsWalk(grid, w) && w[0] == start ==> w[|w| - 1] != end)
    {
      var start := ToCell(startX, startY, gridSize);
      var end := ToCell(endX, endY, gridSize);
      walk := [];
      if !IsValidPosition(grid, start.x, start.y) || !IsValidPosition(grid, end.x, end.y) {
        return NoPath, walk;
      }
      openList := [];
      closedList := [];
      g := map[];
      h := map[];
      f := map[];
      parent := map[];
      if !grid[start.y][start.x].walkable || !grid[end.y][end.x].walkable {
        return NoPath, walk;
      }
      openList := openList + [start];
      r, walk := SearchAndReconstruct(start, end, sqrt);
    }

    /**
     * The search from a walkable start to a walkable end with fresh lists and
     * links: a path found is a walk from start to end; no path means no walk
     * from the start reaches the end.
     */
    method SearchAndReconstruct(start: Cell, end: Cell, sqrt: real -> real) returns (r: SearchResult, ghost walk: seq<Cell>)
      requires Valid() && Walkable(grid, start) && Walkable(grid, end)
      requires openList == [start] && closedList == [] && parent == map[]
      modifies this`g, this`h, this`f, this`parent, this`openList, this`closedList
      ensures Valid() && !r.Diverges?
      ensures r.Path? ==> IsWalk(grid, walk) && walk[0] == start && walk[|walk| - 1] == end
                          && ChainInGrid(grid, walk) && r.points == PointsOf(grid, gridSize, walk)
      ensures r.NoPath? ==> forall w :: IsWalk(grid, w) && w[0] == start ==> w[|w| - 1] != end
    {
      walk := [];
      var found := Search(start, end, sqrt);
      if found {
        var path;
        path, walk := ReconstructPath(end);
        ChainIsWalk(grid, parent, closedList, IndexOf(closedList, end));
        r := Path(path);
      } else {
        forall w | IsWalk(grid, w) && w[0] == start
          ensures w[|w| - 1] != end
        {
          ClosedSetBlocksWalks(grid, closedList, w, |w| - 1);
        }
        r := NoPath;
      }
    }

    /**
     * `findPath` as written: the nodes keep the parent links of earlier
     * searches, so the start node's old link survives and reconstruction
     * follows it. The walk guarantee of `FindPath` holds only for the links
     * laid down by this search.
     */
    method FindPathAsWritten(startX: real, startY: real, endX: real, endY: real, sqrt: real -> real)
        returns (r: SearchResult)
      requires Valid()
      modifies this`g, this`h, this`f, this`parent, this`openList, this`closedList
      ensures Valid()
      ensures var start, end := ToCell(startX, startY, gridSize), ToCell(endX, endY, gridSize);
        && (!InGrid(grid, start) || !InGrid(grid, end) ==>
              r == NoPath && openList == old(openList) && closedList == old(closedList) && parent == old(parent))
        && (InGrid(grid, start) && InGrid(grid, end) && !(Walkable(grid, start) && Walkable(grid, end)) ==>
              r == NoPath && openList == [] && closedList == [] && parent == old(parent))
        && (r.NoPath? && Walkable(grid, start) && Walkable(grid, end) ==>
              forall w :: IsWalk(grid, w) && w[0] == start ==> w[|w| - 1] != end)
        && (!r.NoPath? ==>
              && ListsWellFormed() && Linked(start) && StartParentKept(old(parent), start)
              && |closedList| > 0 && closedList[0] == start && closedList[|closedList| - 1] == end
              && r == TrailResult(grid, gridSize, parent, end, TrailFuel(grid)))
    {
      var start := ToCell(startX, startY, gridSize);
      var end := ToCell(endX, endY, gridSize);
      if !IsValidPosition(grid, start.x, start.y) || !IsValidPosition(grid, end.x, end.y) {
        return NoPath;
      }
      openList := [];
      closedList := [];
      if !grid[start.y][start.x].walkable || !grid[end.y][end.x].walkable {
        return NoPath;
      }
      openList := openList + [start];
      var found := Search(start, end, sqrt);
      if found {
        r := ReconstructPathAsWritten(end, TrailFuel(grid));
      } else {
        forall w | IsWalk(grid, w) && w[0] == start
          ensures w[|w| - 1] != end
        {
          ClosedSetBlocksWalks(grid, closedList, w, |w| - 1);
        }
        r := NoPath;
      }
    }

    /** Scores `neighbor` through `current`, links it to `current` and makes sure it is open. */
    method Adopt(start: Cell, current: Cell, neighbor: Cell, end: Cell, gCost: real)
      requires ListsWellFormed() && Linked(start)
      requires |closedList| > 0 && closedList[0] == start && current in closedList
      requires neighbor !in closedList && Move(grid, current, neighbor)
      modifies this`g, this`h, this`f, this`parent, this`openList
      ensures ListsWellFormed() && Linked(start) && ClosedParentsKept(old(parent))
      ensures openList == if neighbor in old(openList) then old(openList) else old(openList) + [neighbor]
      ensures parent == old(parent)[neighbor := current]
      ensures g == old(g)[neighbor := gCost] && f == old(f)[neighbor := gCost + Heuristic(neighbor, end)]
    {
      AdoptKeepsInvariants(grid, parent, openList, closedList, start, current, neighbor);
      g := g[neighbor := gCost];
      h := h[neighbor := Heuristic(neighbor, end)];
      f := f[neighbor := gCost + Heuristic(neighbor, end)];
      parent := parent[neighbor := current];
      openList := SetAdd(openList, neighbor);
    }

    /** The node's total cost (`f`), 0 for a node never scored. */
    function F(c: Cell): real
      reads this
    {
      if c in f then f[c] else 0.0
    }

    function G(c: Cell): real
      reads this
    {
      if c in g then g[c] else 0.0
    }

    /**
     * `markJumpNodes(x, y)`: every walkable, grounded node in the jump window
     * becomes a jump node; nothing else changes.
     */
    method MarkJumpNodes(x: int, y: int)
      requires Valid() && IsValidPosition(grid, x, y)
      modifies this`grid
      ensures Valid() && SameTerrain(old(grid), grid)
      ensures forall r, c :: 0 <= r < |grid| && 0 <= c < Width(grid) ==>
        grid[r][c] == old(grid)[r][c].(jumpNode := old(grid)[r][c].jumpNode || (InJumpWindow(x, y, Cell(c, r)) && Landing(old(grid), Cell(c, r))))
    {
      ghost var g0 := grid;
      var jumpY := y - 1;
      var lowest := if 0 < y - JumpHeight then y - JumpHeight else 0;
      while jumpY >= lowest
        invariant lowest - 1 <= jumpY <= y - 1
        invariant Rectangular(grid) && SameTerrain(g0, grid)
        invariant forall r, c :: 0 <= r < |grid| && 0 <= c < Width(grid) ==>
          grid[r][c] == g0[r][c].(jumpNode := g0[r][c].jumpNode || (jumpY < r && InJumpWindow(x, y, Cell(c, r)) && Landing(g0, Cell(c, r))))
      {
        MarkJumpRow(g0, x, y, jumpY);
        jumpY := jumpY - 1;
      }
      SameTerrainLandings(g0, grid);
    }
  
    /**
     * `markFallNodes(x, y)`: every walkable, grounded node in the fall window
     * becomes a fall node; nothing else changes.
     */
    method MarkFallNodes(x: int, y: int)
      requires Valid() && IsValidPosition(grid, x, y)
      modifies this`grid
      ensures Valid() && SameTerrain(old(grid), grid)
      ensures forall r, c :: 0 <= r < |grid| && 0 <= c < Width(grid) ==>
        grid[r][c] == old(grid)[r][c].(fallNode := old(grid)[r][c].fallNode || (InFallWindow(x, y, Cell(c, r)) && Landing(old(grid), Cell(c, r))))
    {
      ghost var g0 := grid;
      var fallY := y + 1;
      var highest := if |grid| - 1 < y + MaxFallHeight then |grid| - 1 else y + MaxFallHeight;
      while fallY <= highest
        invariant y + 1 <= fallY <= highest + 1 || (fallY == y + 1 && highest < y + 1)
        invariant Rectangular(grid) && SameTerrain(g0, grid)
        invariant forall r, c :: 0 <= r < |grid| && 0 <= c < Width(grid) ==>
          grid[r][c] == g0[r][c].(fallNode := g0[r][c].fallNode || (r < fallY && InFallWindow(x, y, Cell(c, r)) && Landing(g0, Cell(c, r))))
      {
        MarkFallRow(g0, x, y, fallY);
        fallY := fallY + 1;
      }
      SameTerrainLandings(g0, grid);
    }

    /** One row of the jump window: its walkable, grounded nodes become jump nodes. */
    method MarkJumpRow(ghost g0: Grid, x: int, y: int, jumpY: int)
      requires Rectangular(grid) && SameTerrain(g0, grid) && 0 <= jumpY < |grid| && y - JumpHeight <= jumpY <= y - 1
      requires forall r, c :: 0 <= r < |grid| && 0 <= c < Width(grid) ==>
        grid[r][c] == g0[r][c].(jumpNode := g0[r][c].jumpNode || (jumpY < r && InJumpWindow(x, y, Cell(c, r)) && Landing(g0, Cell(c, r))))
      modifies this`grid
      ensures Rectangular(grid) && SameTerrain(g0, grid)
      ensures forall r, c :: 0 <= r < |grid| && 0 <= c < Width(grid) ==>
        grid[r][c] == g0[r][c].(jumpNode := g0[r][c].jumpNode || (jumpY <= r && InJumpWindow(x, y, Cell(c, r)) && Landing(g0, Cell(c, r))))
    {
      var jumpX := x - 2;
      while jumpX <= x + 2
        invariant x - 2 <= jumpX <= x + 3
        invariant Rectangular(grid) && SameTerrain(g0, grid)
        invariant forall r, c :: 0 <= r < |grid| && 0 <= c < Width(grid) ==>
          grid[r][c] == g0[r][c].(jumpNode := g0[r][c].jumpNode || ((jumpY < r || (r == jumpY && c < jumpX)) && InJumpWindow(x, y, Cell(c, r)) && Landing(g0, Cell(c, r))))
      {
        SameTerrainLandings(g0, grid);
        if 0 <= jumpX < Width(grid) {
          if grid[jumpY][jumpX].walkable && IsGrounded(grid, jumpX, jumpY) {
            WriteNode(grid, jumpY, jumpX, grid[jumpY][jumpX].(jumpNode := true));
            grid := grid[jumpY := grid[jumpY][jumpX := grid[jumpY][jumpX].(jumpNode := true)]];
          }
        }
        jumpX := jumpX + 1;
      }
    }

    /** One row of the fall window: its walkable, grounded nodes become fall nodes. */
    method MarkFallRow(ghost g0: Grid, x: int, y: int, fallY: int)
      requires Rectangular(grid) && SameTerrain(g0, grid) && 0 <= fallY < |grid| && y + 1 <= fallY <= y + MaxFallHeight
      requires forall r, c :: 0 <= r < |grid| && 0 <= c < Width(grid) ==>
        grid[r][c] == g0[r][c].(fallNode := g0[r][c].fallNode || (r < fallY && InFallWindow(x, y, Cell(c, r)) && Landing(g0, Cell(c, r))))
      modifies this`grid
      ensures Rectangular(grid) && SameTerrain(g0, grid)
      ensures forall r, c :: 0 <= r < |grid| && 0 <= c < Width(grid) ==>
        grid[r][c] == g0[r][c].(fallNode := g0[r][c].fallNode || (r <= fallY && InFallWindow(x, y, Cell(c, r)) && Landing(g0, Cell(c, r))))
    {
      var fallX := x - 2;
      while fallX <= x + 2
        invariant x - 2 <= fallX <= x + 3
        invariant Rectangular(grid) && SameTerrain(g0, grid)
        invariant forall r, c :: 0 <= r < |grid| && 0 <= c < Width(grid) ==>
          grid[r][c] == g0[r][c].(fallNode := g0[r][c].fallNode || ((r < fallY || (r == fallY && c < fallX)) && InFallWindow(x, y, Cell(c, r)) && Landing(g0, Cell(c, r))))
      {
        SameTerrainLandings(g0, grid);
        if 0 <= fallX < Width(grid) {
          if grid[fallY][fallX].walkable && IsGrounded(grid, fallX, fallY) {
            WriteNode(grid, fallY, fallX, grid[fallY][fallX].(fallNode := true));
            grid := grid[fallY := grid[fallY][fallX := grid[fallY][fallX].(fallNode := true)]];
          }
        }
        fallX := fallX + 1;
      }
    }

    /**
     * `analyzePlatforms`: from every walkable, grounded node, mark the
     * landings a jump or a fall from it can reach. A node ends up a jump
     * (fall) node exactly when it was one or it is a landing in the jump
     * (fall) window of some landing.
     */
    method AnalyzePlatforms()
      requires Valid()
      modifies this`grid
      ensures Valid() && SameTerrain(old(grid), grid)
      ensures forall r, c :: 0 <= r < |grid| && 0 <= c < Width(grid) ==>
        && grid[r][c].jumpNode == (old(grid)[r][c].jumpNode || (Landing(old(grid), Cell(c, r)) && JumpSource(old(grid), Cell(c, r), |grid|, 0)))
        && grid[r][c].fallNode == (old(grid)[r][c].fallNode || (Landing(old(grid), Cell(c, r)) && FallSource(old(grid), Cell(c, r), |grid|, 0)))
    {
      ghost var g0 := grid;
      var y := 0;
      while y < |grid|
        invariant 0 <= y <= |grid|
        invariant ScannedUpTo(g0, y, 0)
      {
        ScanRow(g0, y);
        y := y + 1;
      }
    }

    /** The inner loop of `analyzePlatforms`: every node of row y in turn. */
    method ScanRow(ghost g0: Grid, y: int)
      requires ScannedUpTo(g0, y, 0) && 0 <= y < |grid|
      modifies this`grid
      ensures ScannedUpTo(g0, y + 1, 0)
    {
      var x := 0;
      while x < Width(grid)
        invariant 0 <= x <= Width(grid)
        invariant ScannedUpTo(g0, y, x)
      {
        ScanNode(g0, x, y);
        x := x + 1;
      }
      ScannedRowWraps(g0, grid, y);
    }

    /** The marks after scanning every node before row y, column x. */
    ghost predicate ScannedUpTo(g0: Grid, y: int, x: int)
      reads this
    {
      Valid() && Rectangular(g0) && SameTerrain(g0, grid) && Width(grid) == Width(g0)
      && ScannedGrid(g0, grid, y, x)
    }

    /** One step of the scan in `analyzePlatforms`. */
    method ScanNode(ghost g0: Grid, x: int, y: int)
      requires ScannedUpTo(g0, y, x) && 0 <= y < |grid| && 0 <= x < Width(grid)
      modifies this`grid
      ensures ScannedUpTo(g0, y, x + 1)
    {
      SameTerrainLandings(g0, grid);
      ghost var before := grid;
      ghost var mid := grid;
      var marked := grid[y][x].walkable && IsGrounded(grid, x, y);
      if marked {
        MarkJumpNodes(x, y);
        mid := grid;
        MarkFallNodes(x, y);
      }
      ScanStep(g0, before, mid, grid, x, y, marked);
    }
  }

  /**
   * Grid `g` is `g0` with the jump and fall flags the scan has set so far:
   * those of every landing that a landing scanned before row y, column x has
   * in its window.
   */
  ghost predicate ScannedGrid(g0: Grid, g: Grid, y: int, x: int)
    requires Rectangular(g0) && Rectangular(g) && |g| == |g0| && Width(g) == Width(g0)
  {
    forall r, c :: 0 <= r < |g| && 0 <= c < Width(g) ==>
      && g[r][c].jumpNode == (g0[r][c].jumpNode || (Landing(g0, Cell(c, r)) && JumpSource(g0, Cell(c, r), y, x)))
      && g[r][c].fallNode == (g0[r][c].fallNode || (Landing(g0, Cell(c, r)) && FallSource(g0, Cell(c, r), y, x)))
  }

  /**
   * One step of the scan: marking the windows of the node at (x, y) when it
   * is a landing (and nothing otherwise) extends the scanned part by that node.
   */
  lemma ScanStep(g0: Grid, before: Grid, mid: Grid, after: Grid, x: int, y: int, marked: bool)
    requires Rectangular(g0) && SameTerrain(g0, before) && SameTerrain(g0, mid) && SameTerrain(g0, after)
    requires Rectangular(before) && Rectangular(mid) && Rectangular(after)
    requires Width(before) == Width(g0) && Width(mid) == Width(g0) && Width(after) == Width(g0)
    requires 0 <= y < |g0| && 0 <= x < Width(g0)
    requires marked == (before[y][x].walkable && IsGrounded(before, x, y))
    requires ScannedGrid(g0, before, y, x)
    requires !marked ==> after == before
    requires marked ==> forall r, c :: 0 <= r < |mid| && 0 <= c < Width(mid) ==>
      mid[r][c] == before[r][c].(jumpNode := before[r][c].jumpNode || (InJumpWindow(x, y, Cell(c, r)) && Landing(before, Cell(c, r))))
    requires marked ==> forall r, c :: 0 <= r < |after| && 0 <= c < Width(after) ==>
      after[r][c] == mid[r][c].(fallNode := mid[r][c].fallNode || (InFallWindow(x, y, Cell(c, r)) && Landing(mid, Cell(c, r))))
    ensures ScannedGrid(g0, after, y, x + 1)
  {
    SameTerrainLandings(g0, before);
    SameTerrainLandings(g0, mid);
    assert marked == Landing(g0, Cell(x, y));
    forall r, c | 0 <= r < |after| && 0 <= c < Width(after)
      ensures after[r][c].jumpNode == (g0[r][c].jumpNode || (Landing(g0, Cell(c, r)) && JumpSource(g0, Cell(c, r), y, x + 1)))
      ensures after[r][c].fallNode == (g0[r][c].fallNode || (Landing(g0, Cell(c, r)) && FallSource(g0, Cell(c, r), y, x + 1)))
    {
      var cell := Cell(c, r);
      SourceStep(g0, cell, y, x);
      if marked {
        assert mid[r][c].jumpNode == (before[r][c].jumpNode || (InJumpWindow(x, y, cell) && Landing(before, cell)));
        assert mid[r][c].fallNode == before[r][c].fallNode;
        assert after[r][c].jumpNode == mid[r][c].jumpNode;
        assert after[r][c].fallNode == (mid[r][c].fallNode || (InFallWindow(x, y, cell) && Landing(mid, cell)));
      }
    }
  }

  /** Scanning a whole row is scanning up to the start of the next. */
  lemma ScannedRowWraps(g0: Grid, g: Grid, y: int)
    requires Rectangular(g0) && Rectangular(g) && |g| == |g0| && Width(g) == Width(g0)
    requires ScannedGrid(g0, g, y, Width(g0))
    ensures ScannedGrid(g0, g, y + 1, 0)
  {
    forall c | true
      ensures JumpSource(g0, c, y, Width(g0)) == JumpSource(g0, c, y + 1, 0)
      ensures FallSource(g0, c, y, Width(g0)) == FallSource(g0, c, y + 1, 0)
    {
      SourceRowWrap(g0, c, y);
    }
  }

  lemma SourceStep(grid: Grid, c: Cell, y: int, x: int)
    requires Rectangular(grid) && 0 <= y < |grid| && 0 <= x < Width(grid)
    ensures JumpSource(grid, c, y, x + 1) == (JumpSource(grid, c, y, x) || (Landing(grid, Cell(x, y)) && InJumpWindow(x, y, c)))
    ensures FallSource(grid, c, y, x + 1) == (FallSource(grid, c, y, x) || (Landing(grid, Cell(x, y)) && InFallWindow(x, y, c)))
  {
    var s := Cell(x, y);
    if Landing(grid, s) && InJumpWindow(x, y, c) {
      assert InGrid(grid, s);
    }
    if Landing(grid, s) && InFallWindow(x, y, c) {
      assert InGrid(grid, s);
    }
  }

  lemma SourceRowWrap(grid: Grid, c: Cell, y: int)
    requires Rectangular(grid)
    ensures JumpSource(grid, c, y, Width(grid)) == JumpSource(grid, c, y + 1, 0)
    ensures FallSource(grid, c, y, Width(grid)) == FallSource(grid, c, y + 1, 0)
  {
  }

  /** The grid cell holding pixel (px, py): `Math.floor(p / gridSize)` per axis. */
  function ToCell(px: real, py: real, gridSize: int): (c: Cell)
    requires gridSize > 0
    ensures c.x as real * gridSize as real <= px < (c.x + 1) as real * gridSize as real
    ensures c.y as real * gridSize as real <= py < (c.y + 1) as real * gridSize as real
  {
    FloorCell(px, gridSize);
    FloorCell(py, gridSize);
    Cell((px / gridSize as real).Floor, (py / gridSize as real).Floor)
  }

  /** `Math.floor(p / gridSize)` names the grid cell whose span holds p. */
  lemma FloorCell(p: real, gridSize: int)
    requires gridSize > 0
    ensures (p / gridSize as real).Floor as real * gridSize as real <= p
    ensures p < ((p / gridSize as real).Floor + 1) as real * gridSize as real
  {
    var g, q := gridSize as real, p / gridSize as real;
    var lo, hi := q.Floor as real, (q.Floor + 1) as real;
    assert q * g == p;
    assert lo <= q < hi;
    assert lo * g <= q * g < hi * g;
    assert hi == ((p / gridSize as real).Floor + 1) as real;
    assert p < hi * g;
  }

  predicate ChainInGrid(grid: Grid, w: seq<Cell>)
  {
    forall i :: 0 <= i < |w| ==> InGrid(grid, w[i])
  }

  /** The position of the first occurrence of x in s. */
  function IndexOf<T(==)>(s: seq<T>, x: T): (i: nat)
    requires x in s
    ensures i < |s| && s[i] == x
    ensures forall j :: 0 <= j < |s| && s[j] == x ==> i <= j
  {
    if s[0] == x then 0 else 1 + IndexOf(s[1..], x)
  }

  /**
   * The first closed node has no parent and every later one has a parent
   * closed before it: the links laid down by one search from a fresh grid.
   */
  ghost predicate ChainLinked(parent: map<Cell, Cell>, closed: seq<Cell>)
  {
    |closed| > 0 && closed[0] !in parent
    && forall k :: 0 < k < |closed| ==> closed[k] in parent && parent[closed[k]] in closed[..k]
  }

  /** The nodes met following parent links back from closed[k], in path order. */
  ghost function Chain(parent: map<Cell, Cell>, closed: seq<Cell>, k: nat): (w: seq<Cell>)
    requires ChainLinked(parent, closed) && k < |closed|
    ensures |w| > 0 && w[0] == closed[0] && w[|w| - 1] == closed[k]
    decreases k
  {
    if k == 0 then [closed[0]]
    else
      var j := IndexOf(closed, parent[closed[k]]);
      assert j < k by {
        var j' :| 0 <= j' < k && closed[j'] == parent[closed[k]];
      }
      Chain(parent, closed, j) + [closed[k]]
  }

  /** One link back: the chain to closed[k] extends the chain to its parent, or is closed[0] alone. */
  lemma {:induction false} ChainStep(parent: map<Cell, Cell>, closed: seq<Cell>, k: nat)
    requires ChainLinked(parent, closed) && k < |closed|
    ensures closed[k] in parent <==> k > 0
    ensures k == 0 ==> Chain(parent, closed, k) == [closed[0]]
    ensures k > 0 ==> IndexOf(closed, parent[closed[k]]) < k
    ensures k > 0 ==> Chain(parent, closed, k) == Chain(parent, closed, IndexOf(closed, parent[closed[k]])) + [closed[k]]
  {
    if k > 0 {
      var j := IndexOf(closed, parent[closed[k]]);
      assert j < k by {
        var j' :| 0 <= j' < k && closed[j'] == parent[closed[k]];
      }
    }
  }

  /**
   * One step of the reconstruction: prepending closed[k] to the part of the
   * chain already collected leaves the chain up to its parent still to
   * collect, or nothing when closed[k] has no parent.
   */
  lemma {:induction false} ChainBack(parent: map<Cell, Cell>, closed: seq<Cell>, kEnd: nat, k: nat, suffix: seq<Cell>)
    requires ChainLinked(parent, closed) && k < |closed| && kEnd < |closed|
    requires Chain(parent, closed, k) + suffix == Chain(parent, closed, kEnd)
    ensures closed[k] in parent ==>
      IndexOf(closed, parent[closed[k]]) < k
      && Chain(parent, closed, IndexOf(closed, parent[closed[k]])) + ([closed[k]] + suffix) == Chain(parent, closed, kEnd)
    ensures closed[k] !in parent ==> [closed[k]] + suffix == Chain(parent, closed, kEnd)
  {
    ChainStep(parent, closed, k);
    if closed[k] in parent {
      var j := IndexOf(closed, parent[closed[k]]);
      ConcatAssociative(Chain(parent, closed, j), [closed[k]], suffix);
    }
  }

  lemma ConcatAssociative<T>(a: seq<T>, b: seq<T>, c: seq<T>)
    ensures a + (b + c) == (a + b) + c
  {
  }

  /** Following the links of one search from any closed node is a walk back to the start. */
  lemma {:induction false} ChainIsWalk(grid: Grid, parent: map<Cell, Cell>, closed: seq<Cell>, k: nat)
    requires Rectangular(grid) && ChainLinked(parent, closed) && k < |closed|
    requires forall i :: 0 < i < |closed| ==> Move(grid, parent[closed[i]], closed[i])
    ensures IsWalk(grid, Chain(parent, closed, k))
  {
    if k > 0 {
      var j := IndexOf(closed, parent[closed[k]]);
      assert j < k by {
        var j' :| 0 <= j' < k && closed[j'] == parent[closed[k]];
      }
      ChainIsWalk(grid, parent, closed, j);
      var w := Chain(parent, closed, j);
      assert Chain(parent, closed, k) == w + [closed[k]];
      assert Move(grid, w[|w| - 1], closed[k]);
    }
  }

  /** A set of cells closed under moves keeps every walk that starts in it. */
  lemma {:induction false} ClosedSetBlocksWalks(grid: Grid, closed: seq<Cell>, w: seq<Cell>, i: nat)
    requires Rectangular(grid) && IsWalk(grid, w) && w[0] in closed && i < |w|
    requires forall c, n :: c in closed && Move(grid, c, n) ==> n in closed
    ensures w[i] in closed
  {
    if i > 0 {
      ClosedSetBlocksWalks(grid, closed, w, i - 1);
      assert Move(grid, w[i - 1], w[i]);
    }
  }

  /**
   * The nodes met following parent links back from c, in path order;
   * `None` when `fuel` nodes are met before one without a parent.
   */
  function ParentTrail(parent: map<Cell, Cell>, c: Cell, fuel: nat): (t: Option<seq<Cell>>)
    ensures t.Some? ==> |t.value| > 0 && t.value[|t.value| - 1] == c
    ensures t.Some? ==> forall i :: 0 <= i < |t.value| ==> t.value[i] == c || t.value[i] in parent.Values
    decreases fuel
  {
    if fuel == 0 then None
    else if c !in parent then Some([c])
    else Append(ParentTrail(parent, parent[c], fuel - 1), [c])
  }

  function Append(t: Option<seq<Cell>>, suffix: seq<Cell>): Option<seq<Cell>>
  {
    match t
    case None => None
    case Some(cells) => Some(cells + suffix)
  }

  lemma AppendNothing(t: Option<seq<Cell>>)
    ensures Append(t, []) == t
  {
    if t.Some? {
      assert t.value + [] == t.value;
    }
  }

  lemma AppendTwice(t: Option<seq<Cell>>, a: seq<Cell>, b: seq<Cell>)
    ensures Append(Append(t, a), b) == Append(t, a + b)
  {
    if t.Some? {
      assert t.value + a + b == t.value + (a + b);
    }
  }

  lemma PointsOfCons(grid: Grid, gridSize: int, c: Cell, w: seq<Cell>)
    requires Rectangular(grid) && InGrid(grid, c) && ChainInGrid(grid, w)
    ensures ChainInGrid(grid, [c] + w)
    ensures PointsOf(grid, gridSize, [c] + w) == [PointAt(grid, gridSize, c)] + PointsOf(grid, gridSize, w)
  {
  }

  /** The as-written reconstruction's outcome. */
  function TrailResult(grid: Grid, gridSize: int, parent: map<Cell, Cell>, end: Cell, fuel: nat): (r: SearchResult)
    requires Rectangular(grid) && InGrid(grid, end)
    requires forall c :: c in parent ==> InGrid(grid, parent[c])
    ensures !r.NoPath? && (r.Diverges? <==> ParentTrail(parent, end, fuel).None?)
  {
    match ParentTrail(parent, end, fuel)
    case None => Diverges
    case Some(t) => Path(PointsOf(grid, gridSize, t))
  }

  /** Two nodes linked to each other: the trail from either never ends. */
  lemma {:induction false} ParentCycleDiverges(parent: map<Cell, Cell>, a: Cell, b: Cell, fuel: nat)
    requires a in parent && b in parent && parent[a] == b && parent[b] == a
    ensures ParentTrail(parent, a, fuel) == None && ParentTrail(parent, b, fuel) == None
  {
    if fuel > 0 {
      ParentCycleDiverges(parent, a, b, fuel - 1);
    }
  }

  /**
   * One more node than the grid has cells: a parent trail that long
   * revisits a node, and from there the as-written loop never ends.
   */
  function TrailFuel(grid: Grid): nat
  {
    |grid| * Width(grid) + 1
  }

  /** Every cell of the grid. */
  ghost function AllCells(grid: Grid): set<Cell>
  {
    set x, y | 0 <= y < |grid| && 0 <= x < Width(grid) :: Cell(x, y)
  }

  /** `Math.ceil(pixels / gridSize)`. */
  function CellsFor(pixels: nat, gridSize: int): (n: nat)
    requires gridSize > 0
    ensures (n - 1) * gridSize < pixels <= n * gridSize || (pixels == 0 && n == 0)
  {
    (pixels + gridSize - 1) / gridSize
  }

  /** `height` rows of `width` new nodes: walkable unless a collision tile covers them, unmarked. */
  function FreshGrid(width: nat, height: nat, collisionTiles: set<Cell>): (grid: Grid)
    ensures Rectangular(grid) && |grid| == height && (height > 0 ==> Width(grid) == width)
    ensures forall r, c :: 0 <= r < height && 0 <= c < width ==>
      grid[r][c] == PathNode(Cell(c, r) !in collisionTiles, false, false)
  {
    seq(height, r requires 0 <= r < height => seq(width, c requires 0 <= c < width => PathNode(Cell(c, r) !in collisionTiles, false, false)))
  }

  lemma SameTerrainSources(a: Grid, b: Grid, c: Cell, y: int, x: int)
    requires Rectangular(a) && SameTerrain(a, b)
    ensures Rectangular(b)
    ensures JumpSource(a, c, y, x) == JumpSource(b, c, y, x)
    ensures FallSource(a, c, y, x) == FallSource(b, c, y, x)
  {
    SameTerrainLandings(a, b);
  }

  /** Some landing scanned before row y, column x has c in its jump window. */
  ghost predicate JumpSource(grid: Grid, c: Cell, y: int, x: int)
    requires Rectangular(grid)
  {
    exists s :: InGrid(grid, s) && (s.y < y || (s.y == y && s.x < x)) && Landing(grid, s) && InJumpWindow(s.x, s.y, c)
  }

  /** Some landing scanned before row y, column x has c in its fall window. */
  ghost predicate FallSource(grid: Grid, c: Cell, y: int, x: int)
    requires Rectangular(grid)
  {
    exists s :: InGrid(grid, s) && (s.y < y || (s.y == y && s.x < x)) && Landing(grid, s) && InFallWindow(s.x, s.y, c)
  }

  /**
   * Two walkable cells side by side on a solid floor (a 64 by 64 pixel scene
   * of 32-pixel cells). The as-written search from left to right links the
   * right cell to the left one; the search back from right to left keeps
   * that link on its start and links the left cell to the right one, so its
   * reconstruction circles between the two forever. The search that clears
   * the links first returns a path.
   */
  method ReverseSearchCirclesAsWritten(sqrt: real -> real) returns (there: SearchResult, back: SearchResult, backCleared: SearchResult)
    ensures there.Path? && back == Diverges && backCleared.Path?
  {
    var finder := TwoCellFloor();
    there := SearchLeftToRight(finder, sqrt);
    back := SearchBackAsWritten(finder, sqrt);

    ghost var grid := finder.grid;
    ghost var walk;
    backCleared, walk := finder.FindPath(32.0, 0.0, 0.0, 0.0, sqrt);
    assert !backCleared.NoPath? by {
      assert IsWalk(grid, [Cell(1, 0), Cell(0, 0)]);
    }
  }

  /** The grid of `TwoCellFloor`: two walkable cells side by side, each a move from the other. */
  ghost predicate TwoCells(grid: Grid)
  {
    Rectangular(grid) && |grid| == 2 && Width(grid) == 2
    && (forall c :: Walkable(grid, c) <==> c == Cell(0, 0) || c == Cell(1, 0))
    && Move(grid, Cell(0, 0), Cell(1, 0)) && Move(grid, Cell(1, 0), Cell(0, 0))
  }

  /** The as-written search from the left cell to the right one finds a path and links the right cell to the left. */
  method SearchLeftToRight(finder: PlatformPathFinder, sqrt: real -> real) returns (there: SearchResult)
    requires finder.Valid() && finder.gridSize == 32 && finder.parent == map[] && TwoCells(finder.grid)
    modifies finder`g, finder`h, finder`f, finder`parent, finder`openList, finder`closedList
    ensures there.Path? && finder.Valid()
    ensures Cell(1, 0) in finder.parent && finder.parent[Cell(1, 0)] == Cell(0, 0)
  {
    var left, right := Cell(0, 0), Cell(1, 0);
    ghost var grid := finder.grid;
    assert ToCell(0.0, 0.0, 32) == left && ToCell(32.0, 0.0, 32) == right;
    there := finder.FindPathAsWritten(0.0, 0.0, 32.0, 0.0, sqrt);
    assert !there.NoPath? by {
      assert IsWalk(grid, [left, right]);
    }
    LastLinkIsTheOtherCell(grid, finder.parent, finder.closedList, left, right);
    assert left !in finder.parent && TrailFuel(grid) == 5;
    assert ParentTrail(finder.parent, left, 4) == Some([left]);
    assert ParentTrail(finder.parent, right, 5) == Append(Some([left]), [right]);
  }

  /**
   * With the right cell still linked to the left one, the as-written search
   * back from right to left links the left cell to the right one and its
   * reconstruction never ends.
   */
  method SearchBackAsWritten(finder: PlatformPathFinder, sqrt: real -> real) returns (back: SearchResult)
    requires finder.Valid() && finder.gridSize == 32 && TwoCells(finder.grid)
    requires Cell(1, 0) in finder.parent && finder.parent[Cell(1, 0)] == Cell(0, 0)
    modifies finder`g, finder`h, finder`f, finder`parent, finder`openList, finder`closedList
    ensures back == Diverges && finder.Valid()
  {
    var left, right := Cell(0, 0), Cell(1, 0);
    ghost var grid := finder.grid;
    assert ToCell(0.0, 0.0, 32) == left && ToCell(32.0, 0.0, 32) == right;
    back := finder.FindPathAsWritten(32.0, 0.0, 0.0, 0.0, sqrt);
    assert !back.NoPath? by {
      assert IsWalk(grid, [right, left]);
    }
    LastLinkIsTheOtherCell(grid, finder.parent, finder.closedList, right, left);
    ParentCycleDiverges(finder.parent, left, right, TrailFuel(grid));
  }

  /** A fresh pathfinder over a 64 by 64 pixel scene whose bottom row of 32-pixel cells is solid. */
  method TwoCellFloor() returns (finder: PlatformPathFinder)
    ensures fresh(finder) && finder.Valid() && finder.gridSize == 32 && finder.parent == map[]
    ensures |finder.grid| == 2 && Width(finder.grid) == 2
    ensures forall c :: Walkable(finder.grid, c) <==> c == Cell(0, 0) || c == Cell(1, 0)
    ensures Move(finder.grid, Cell(0, 0), Cell(1, 0)) && Move(finder.grid, Cell(1, 0), Cell(0, 0))
    ensures ToCell(0.0, 0.0, 32) == Cell(0, 0) && ToCell(32.0, 0.0, 32) == Cell(1, 0)
  {
    finder := new PlatformPathFinder(32);
    finder.InitializeGrid(64, 64, {Cell(0, 1), Cell(1, 1)});
    assert |finder.grid| == 2 && Width(finder.grid) == 2;
    forall c
      ensures Walkable(finder.grid, c) <==> c == Cell(0, 0) || c == Cell(1, 0)
    {
      if InGrid(finder.grid, c) {
        assert finder.grid[c.y][c.x].walkable == (Cell(c.x, c.y) !in {Cell(0, 1), Cell(1, 1)});
      }
    }
    assert IsGrounded(finder.grid, 0, 0) && IsGrounded(finder.grid, 1, 0);
  }

  /**
   * In a grid whose only walkable cells are `from` and `to`, a search from
   * `from` that closed `to` last linked `to` to `from`.
   */
  lemma LastLinkIsTheOtherCell(grid: Grid, parent: map<Cell, Cell>, closed: seq<Cell>, from: Cell, to: Cell)
    requires Rectangular(grid) && from != to
    requires forall c :: Walkable(grid, c) ==> c == from || c == to
    requires NoDuplicates(closed) && forall c :: c in closed ==> Walkable(grid, c)
    requires |closed| > 0 && closed[0] == from && closed[|closed| - 1] == to
    requires forall k :: 0 < k < |closed| ==> closed[k] in parent && parent[closed[k]] in closed[..k]
    ensures to in parent && parent[to] == from
  {
    var k := |closed| - 1;
    assert k > 0;
    var p := parent[closed[k]];
    var j :| 0 <= j < k && closed[j] == p;
    assert closed[j] in closed;
  }
}

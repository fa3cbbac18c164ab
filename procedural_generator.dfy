/**
 * The procedural level generator: a grid of tile indices (0 = empty), a
 * row of platforms laid out left to right with random widths, heights and
 * gaps, the spawn and end points, and the enemy placements. Math.random is
 * modelled as a nondeterministic choice of a real in [0, 1).
 */
module ProceduralGeneration {
  import opened JsValues

  /** The generator's settings; `platformDensity` is never read and is left out. */
  datatype Config = Config(
    gridWidth: nat,
    gridHeight: nat,
    minPlatformWidth: int,
    maxPlatformWidth: int,
    minGapWidth: int,
    maxGapWidth: int,
    minPlatformHeight: int,
    solidTileIndices: seq<int>)

  const DefaultConfig := Config(20, 12, 3, 8, 96, 160, 32, [26, 27, 28, 29, 30, 31])

  /** Tiles are 32 pixels wide: gap widths are given in pixels. */
  const TileSize := 32

  /**
   * Settings under which platform generation ends and every written tile
   * comes from the list: each round moves at least one column right.
   */
  predicate Usable(cfg: Config)
  {
    1 <= cfg.minPlatformWidth <= cfg.maxPlatformWidth
    && 0 <= cfg.minGapWidth <= cfg.maxGapWidth
    && |cfg.solidTileIndices| > 0
  }

  datatype Platform = Platform(x: int, y: int, width: int, height: int)
  datatype Point = Point(x: int, y: int)
  datatype EnemyType = Slime | Drone | Warrior
  datatype EnemyPosition = EnemyPosition(at: Point, kind: EnemyType)
  datatype Level = Level(
    platforms: seq<Platform>,
    spawnPoint: Point,
    endPoint: Point,
    enemyPositions: seq<EnemyPosition>,
    grid: array2<int>)

  /** The platform every level starts on, near the bottom at the left edge. */
  function StartPlatform(cfg: Config): Platform
  {
    Platform(0, cfg.gridHeight - 2, cfg.minPlatformWidth, cfg.minPlatformHeight)
  }

  /** Cell (row, col) lies inside the platform's rectangle. */
  predicate Covered(p: Platform, row: int, col: int)
  {
    p.x <= col < p.x + p.width && p.y <= row < p.y + p.height
  }

  /** Cell (row, col) lies inside one of the platforms. */
  predicate Painted(ps: seq<Platform>, row: int, col: int)
  {
    |ps| > 0 && (Covered(ps[|ps| - 1], row, col) || Painted(ps[..|ps| - 1], row, col))
  }

  lemma PaintedSnoc(ps: seq<Platform>, p: Platform, row: int, col: int)
    ensures Painted(ps + [p], row, col) <==> Covered(p, row, col) || Painted(ps, row, col)
  {
    assert (ps + [p])[..|ps|] == ps;
  }

  /** A cell the first platform covers is painted. */
  lemma FirstPlatformPainted(ps: seq<Platform>, row: int, col: int)
    requires |ps| > 0 && Covered(ps[0], row, col)
    ensures Painted(ps, row, col)
  {
    PaintedCons(ps[0], ps[1..], row, col);
    assert [ps[0]] + ps[1..] == ps;
  }

  lemma {:induction false} PaintedCons(p: Platform, ps: seq<Platform>, row: int, col: int)
    ensures Painted([p] + ps, row, col) <==> Covered(p, row, col) || Painted(ps, row, col)
  {
    if |ps| > 0 {
      var init := ps[..|ps| - 1];
      assert ([p] + ps)[..|ps|] == [p] + init;
      PaintedCons(p, init, row, col);
    } else {
      assert ([p] + ps)[..0] == [];
    }
  }

  // ---------------------------------------------------------------------------
  // The three random rolls of one round
  // ---------------------------------------------------------------------------

  /** floor(r * (max - min) + min) */
  function WidthRoll(cfg: Config, r: real): (w: int)
    requires Usable(cfg) && 0.0 <= r < 1.0
    ensures cfg.minPlatformWidth <= w <= cfg.maxPlatformWidth
  {
    var span := (cfg.maxPlatformWidth - cfg.minPlatformWidth) as real;
    assert 0.0 <= r * span <= span;
    (r * span + cfg.minPlatformWidth as real).Floor
  }

  /** floor(r * (gridHeight / 3) + gridHeight / 2): a row in the lower half of the grid. */
  function HeightRoll(cfg: Config, r: real): (y: int)
    requires 0.0 <= r < 1.0
    ensures 0 <= y && (cfg.gridHeight > 0 ==> y < cfg.gridHeight)
    ensures cfg.gridHeight <= 2 * y + 1 && (cfg.gridHeight > 0 ==> 6 * y < 5 * cfg.gridHeight)
  {
    var h := cfg.gridHeight as real;
    RollBelow(r, h / 3.0);
    var x := r * (h / 3.0) + h / 2.0;
    assert x.Floor as real <= x < x.Floor as real + 1.0;
    assert cfg.gridHeight > 0 ==> 6.0 * x < 5.0 * h;
    assert cfg.gridHeight > 0 ==> (6 * x.Floor) as real < (5 * cfg.gridHeight) as real;
    x.Floor
  }

  /** A roll r in [0, 1) scales a non-negative span to at most the span, and below it when positive. */
  lemma RollBelow(r: real, span: real)
    requires 0.0 <= r < 1.0 && 0.0 <= span
    ensures 0.0 <= r * span <= span && (span > 0.0 ==> r * span < span)
  {
    assert span - r * span == (1.0 - r) * span;
  }

  /** A roll r in [0, 1) between lo and hi lands in [lo, hi], below hi when lo < hi. */
  lemma RollBetween(r: real, lo: real, hi: real)
    requires 0.0 <= r < 1.0 && lo <= hi
    ensures lo <= r * (hi - lo) + lo <= hi && (lo < hi ==> r * (hi - lo) + lo < hi)
  {
    MulNonneg(r, hi - lo);
    MulNonneg(1.0 - r, hi - lo);
    if lo < hi {
      MulPos(1.0 - r, hi - lo);
    }
  }

  lemma MulNonneg(a: real, b: real)
    requires 0.0 <= a && 0.0 <= b
    ensures 0.0 <= a * b
  {
  }

  lemma MulPos(a: real, b: real)
    requires 0.0 < a && 0.0 < b
    ensures 0.0 < a * b
  {
  }

  /** The narrowest gap, in tiles: floor(minGapWidth / 32). */
  function MinGap(cfg: Config): (g: int)
    requires Usable(cfg)
    ensures g >= 0 && (cfg.minGapWidth >= TileSize ==> g >= 1)
  {
    (cfg.minGapWidth as real / TileSize as real).Floor
  }

  /** floor(r * (maxGap / 32 - minGap / 32) + minGap / 32), in tiles. */
  function GapRoll(cfg: Config, r: real): (g: int)
    requires Usable(cfg) && 0.0 <= r < 1.0
    ensures MinGap(cfg) <= g && g * TileSize <= cfg.maxGapWidth
    ensures cfg.minGapWidth < cfg.maxGapWidth ==> g * TileSize < cfg.maxGapWidth
  {
    var lo, hi := cfg.minGapWidth as real / TileSize as real, cfg.maxGapWidth as real / TileSize as real;
    RollBetween(r, lo, hi);
    var x := r * (hi - lo) + lo;
    assert x.Floor as real <= x;
    assert hi * TileSize as real == cfg.maxGapWidth as real;
    assert (x.Floor * TileSize) as real == x.Floor as real * TileSize as real;
    x.Floor
  }

  /**
   * What every platform after the first satisfies: it lies inside the
   * grid's columns and in a row of the grid, its width was drawn from the
   * configured range, and it starts at least one minimal gap after the end
   * of the platform before it (or after column 0 for the second platform).
   */
  predicate PlatformsFit(cfg: Config, ps: seq<Platform>)
    requires Usable(cfg)
  {
    forall i :: 1 <= i < |ps| ==>
      && 0 <= ps[i].x && ps[i].x + ps[i].width <= cfg.gridWidth
      && cfg.minPlatformWidth <= ps[i].width <= cfg.maxPlatformWidth
      && 0 <= ps[i].y && (cfg.gridHeight > 0 ==> ps[i].y < cfg.gridHeight)
      && ps[i].height == cfg.minPlatformHeight
      && ps[i].x >= (if i == 1 then 0 else ps[i - 1].x + ps[i - 1].width) + MinGap(cfg)
  }

  /** A platform that fits the grid and keeps the gap after the last one extends a fitting layout. */
  lemma FitsAfter(cfg: Config, first: Platform, added: seq<Platform>, p: Platform)
    requires Usable(cfg) && PlatformsFit(cfg, [first] + added)
    requires 0 <= p.x && p.x + p.width <= cfg.gridWidth
    requires cfg.minPlatformWidth <= p.width <= cfg.maxPlatformWidth
    requires 0 <= p.y && (cfg.gridHeight > 0 ==> p.y < cfg.gridHeight) && p.height == cfg.minPlatformHeight
    requires p.x >= (if added == [] then 0 else added[|added| - 1].x + added[|added| - 1].width) + MinGap(cfg)
    ensures PlatformsFit(cfg, [first] + (added + [p]))
  {
    var ps, qs := [first] + added, [first] + (added + [p]);
    assert qs == ps + [p];
    forall i | 1 <= i < |qs|
      ensures 0 <= qs[i].x && qs[i].x + qs[i].width <= cfg.gridWidth
      ensures cfg.minPlatformWidth <= qs[i].width <= cfg.maxPlatformWidth
      ensures 0 <= qs[i].y && (cfg.gridHeight > 0 ==> qs[i].y < cfg.gridHeight)
      ensures qs[i].height == cfg.minPlatformHeight
      ensures qs[i].x >= (if i == 1 then 0 else qs[i - 1].x + qs[i - 1].width) + MinGap(cfg)
    {
      if i < |ps| {
        assert qs[i] == ps[i] && qs[i - 1] == ps[i - 1];
      } else {
        assert qs[i] == p;
        assert i > 1 ==> qs[i - 1] == added[|added| - 1];
      }
    }
  }

  // ---------------------------------------------------------------------------
  // Spawn, end and enemy placement (all in tiles)
  // ---------------------------------------------------------------------------

  /** Two columns into the first platform, two rows above it. */
  function SpawnPoint(ps: seq<Platform>): (p: Point)
    requires |ps| > 0
    ensures p.y == ps[0].y - 2 && p.x - ps[0].x == 2
    ensures ps[0].width > 2 ==> ps[0].x <= p.x < ps[0].x + ps[0].width
  {
    Point(ps[0].x + 2, ps[0].y - 2)
  }

  /** Above the middle of the last platform, two rows up. */
  function EndPoint(ps: seq<Platform>): (p: Point)
    requires |ps| > 0
    ensures p.y == ps[|ps| - 1].y - 2
    ensures var last := ps[|ps| - 1];
      last.width >= 0 ==> last.x <= p.x <= last.x + last.width && (last.width > 0 ==> p.x < last.x + last.width)
    ensures var last := ps[|ps| - 1]; 2 * (p.x - last.x) <= last.width < 2 * (p.x - last.x) + 2
  {
    var last := ps[|ps| - 1];
    Point(last.x + last.width / 2, last.y - 2)
  }

  const MinDistanceFromSpawn := 5

  /** Platforms near the spawn point, and the first and last platforms, get no enemies. */
  predicate Eligible(ps: seq<Platform>, i: int, spawn: Point)
    requires 0 <= i < |ps|
  {
    i != 0 && i != |ps| - 1 && Abs(ps[i].x - spawn.x) > MinDistanceFromSpawn
  }

  function Abs(n: int): (a: nat)
    ensures a == n || a == -n
  {
    if n < 0 then -n else n
  }

  /** max(1, min(floor(width / 3), 2)) enemies: two on platforms six or more tiles wide. */
  function EnemyCount(width: int): (n: int)
    ensures 1 <= n <= 2 && (n == 2 <==> width >= 6)
  {
    var third := width / 3;
    var capped := if third < 2 then third else 2;
    if capped < 1 then 1 else capped
  }

  /** The enemies' places on one platform: spread evenly, one row above it. */
  function EnemySlots(p: Platform): (pts: seq<Point>)
    ensures |pts| == EnemyCount(p.width)
    ensures forall k :: 0 <= k < |pts| ==>
      pts[k].y == p.y - 1 && (p.width >= 0 ==> p.x <= pts[k].x < p.x + p.width || p.width == 0 == pts[k].x - p.x)
  {
    var n := EnemyCount(p.width);
    seq(n, k requires 0 <= k < n => SlotAt(p, n, k))
  }

  /** The k-th of n evenly spaced places: x + floor(width * (k + 1) / (n + 1)). */
  function SlotAt(p: Platform, n: int, k: int): (pt: Point)
    requires 1 <= n <= 2 && 0 <= k < n
    ensures pt.y == p.y - 1
    ensures p.width >= 0 ==> p.x <= pt.x < p.x + p.width || p.width == 0 == pt.x - p.x
  {
    var offset := (p.width * (k + 1)) / (n + 1);
    assert p.width >= 0 ==> 0 <= offset && (p.width > 0 ==> offset < p.width) by {
      if p.width >= 0 {
        if n == 1 {
          assert offset == p.width / 2;
        } else if k == 0 {
          assert offset == p.width / 3;
        } else {
          assert offset == (2 * p.width) / 3;
        }
      }
    }
    Point(p.x + offset, p.y - 1)
  }

  /** The enemy places of the first i platforms, in platform order. */
  function SlotsUpTo(ps: seq<Platform>, spawn: Point, i: nat): seq<Point>
    requires i <= |ps|
  {
    if i == 0 then []
    else SlotsUpTo(ps, spawn, i - 1) + (if Eligible(ps, i - 1, spawn) then EnemySlots(ps[i - 1]) else [])
  }

  /** Whatever the first and last platforms are, they get no enemies. */
  lemma EndsGetNoEnemies(ps: seq<Platform>, qs: seq<Platform>, spawn: Point)
    requires |ps| == |qs|
    requires forall i :: 0 < i < |ps| - 1 ==> ps[i] == qs[i]
    ensures SlotsUpTo(ps, spawn, |ps|) == SlotsUpTo(qs, spawn, |qs|)
  {
    SameSlotsUpTo(ps, qs, spawn, |ps|);
  }

  lemma {:induction false} SameSlotsUpTo(ps: seq<Platform>, qs: seq<Platform>, spawn: Point, n: nat)
    requires |ps| == |qs| && n <= |ps|
    requires forall i :: 0 < i < |ps| - 1 ==> ps[i] == qs[i]
    ensures SlotsUpTo(ps, spawn, n) == SlotsUpTo(qs, spawn, n)
  {
    if n > 0 {
      SameSlotsUpTo(ps, qs, spawn, n - 1);
    }
  }

  /** An eligible platform contributes exactly its EnemyCount places, right after the earlier ones. */
  lemma EligiblePlatformSlots(ps: seq<Platform>, spawn: Point, i: nat)
    requires i < |ps| && Eligible(ps, i, spawn)
    ensures SlotsUpTo(ps, spawn, i + 1)[|SlotsUpTo(ps, spawn, i)|..] == EnemySlots(ps[i])
    ensures |SlotsUpTo(ps, spawn, i + 1)| == |SlotsUpTo(ps, spawn, i)| + EnemyCount(ps[i].width)
  {
  }

  /** validateLevel: at least three platforms and both points present. */
  function ValidateLevel(ps: seq<Platform>, spawn: Option<Point>, end: Option<Point>): (ok: bool)
    ensures ok ==> |ps| >= 3
    ensures ok <==> |ps| >= 3 && spawn.Some? && end.Some?
  {
    if |ps| < 2 then false
    else if spawn.None? || end.None? then false
    else if |ps| < 3 then false
    else true
  }

  // ---------------------------------------------------------------------------
  // The generator
  // ---------------------------------------------------------------------------

  class ProceduralGenerator {
    const config: Config
    var grid: array2<int>

    /** The grid has one row per grid row and one column per grid column. */
    predicate Valid()
      reads this
    {
      grid.Length0 == config.gridHeight && grid.Length1 == config.gridWidth
    }

    /** Tile (x, y) is solid, or outside the grid. */
    function CheckCollision(x: int, y: int): (solid: bool)
      requires Valid()
      reads this, grid
      ensures !(0 <= x < config.gridWidth && 0 <= y < config.gridHeight) ==> solid
      ensures 0 <= x < config.gridWidth && 0 <= y < config.gridHeight ==> (solid <==> grid[y, x] != 0)
    {
      if x < 0 || x >= config.gridWidth || y < 0 || y >= config.gridHeight then true
      else grid[y, x] != 0
    }

    /** A fresh generator has an all-empty grid of the configured size. */
    constructor (config: Config)
      ensures this.config == config && Valid() && fresh(grid)
      ensures forall r, c :: 0 <= r < config.gridHeight && 0 <= c < config.gridWidth ==> grid[r, c] == 0
    {
      this.config := config;
      grid := new int[config.gridHeight, config.gridWidth]((r, c) => 0);
    }

    /**
     * Writes a random solid tile into every cell of the rectangle that lies
     * in the grid, and nothing else.
     */
    method AddPlatform(startX: int, startY: int, width: int, height: int)
      requires Valid() && Usable(config) && 0 <= startX && 0 <= startY
      modifies grid
      ensures forall r, c :: 0 <= r < grid.Length0 && 0 <= c < grid.Length1 ==>
        if Covered(Platform(startX, startY, width, height), r, c) then grid[r, c] in config.solidTileIndices
        else grid[r, c] == old(grid[r, c])
    {
      var p := Platform(startX, startY, width, height);
      var endX := if startX + width < config.gridWidth then startX + width else config.gridWidth;
      var endY := if startY + height < config.gridHeight then startY + height else config.gridHeight;
      var gridY := startY;
      while gridY < endY && gridY < config.gridHeight
        invariant startY <= gridY
        invariant forall r, c :: 0 <= r < grid.Length0 && 0 <= c < grid.Length1 ==>
          if Covered(p, r, c) && r < gridY then grid[r, c] in config.solidTileIndices
          else grid[r, c] == old(grid[r, c])
        decreases config.gridHeight - gridY
      {
        var gridX := startX;
        while gridX < endX && gridX < config.gridWidth
          invariant startX <= gridX
          invariant forall r, c :: 0 <= r < grid.Length0 && 0 <= c < grid.Length1 ==>
            if Covered(p, r, c) && (r < gridY || (r == gridY && c < gridX)) then grid[r, c] in config.solidTileIndices
            else grid[r, c] == old(grid[r, c])
          decreases config.gridWidth - gridX
        {
          var k :| 0 <= k < |config.solidTileIndices|;
          grid[gridY, gridX] := config.solidTileIndices[k];
          gridX := gridX + 1;
        }
        gridY := gridY + 1;
      }
    }

    /**
     * The loop of generatePlatforms: each round rolls a width, a row and a
     * gap, moves past the gap, keeps and paints the platform if it fits,
     * and moves past its width, until the right edge is reached.
     */
    method PlaceRandomPlatforms() returns (added: seq<Platform>)
      requires Valid() && Usable(config)
      modifies grid
      ensures PlatformsFit(config, [StartPlatform(config)] + added)
      ensures forall r, c :: 0 <= r < grid.Length0 && 0 <= c < grid.Length1 ==>
        if Painted(added, r, c) then grid[r, c] in config.solidTileIndices
        else grid[r, c] == old(grid[r, c])
    {
      var first := StartPlatform(config);
      added := [];
      var currentX := 0;
      while currentX < config.gridWidth
        invariant 0 <= currentX
        invariant PlatformsFit(config, [first] + added)
        invariant |added| > 0 ==> added[|added| - 1].x + added[|added| - 1].width <= currentX
        invariant forall r, c :: 0 <= r < grid.Length0 && 0 <= c < grid.Length1 ==>
          if Painted(added, r, c) then grid[r, c] in config.solidTileIndices
          else grid[r, c] == old(grid[r, c])
        decreases config.gridWidth - currentX
      {
        var r1: real :| 0.0 <= r1 < 1.0;
        var platformWidth := WidthRoll(config, r1);
        var r2: real :| 0.0 <= r2 < 1.0;
        var platformHeight := HeightRoll(config, r2);
        var r3: real :| 0.0 <= r3 < 1.0;
        var gapWidth := GapRoll(config, r3);
        currentX := currentX + gapWidth;
        if currentX + platformWidth <= config.gridWidth {
          var p := Platform(currentX, platformHeight, platformWidth, config.minPlatformHeight);
          AddPlatform(currentX, platformHeight, platformWidth, config.minPlatformHeight);
          forall r, c | 0 <= r < grid.Length0 && 0 <= c < grid.Length1
            ensures Painted(added + [p], r, c) <==> Covered(p, r, c) || Painted(added, r, c)
          {
            PaintedSnoc(added, p, r, c);
          }
          FitsAfter(config, first, added, p);
          added := added + [p];
        }
        currentX := currentX + platformWidth;
      }
    }

    /**
     * generatePlatforms as written: the starting platform is listed first
     * but never painted into the grid.
     */
    method GeneratePlatformsAsWritten() returns (ps: seq<Platform>)
      requires Valid() && Usable(config)
      modifies grid
      ensures |ps| >= 1 && ps[0] == StartPlatform(config) && PlatformsFit(config, ps)
      ensures forall r, c :: 0 <= r < grid.Length0 && 0 <= c < grid.Length1 ==>
        if Painted(ps[1..], r, c) then grid[r, c] in config.solidTileIndices
        else grid[r, c] == old(grid[r, c])
    {
      var added := PlaceRandomPlatforms();
      ps := [StartPlatform(config)] + added;
      assert ps[1..] == added;
    }

    /**
     * generatePlatforms with the starting platform painted like every other
     * one; a grid of fewer than two rows has no row for it.
     */
    method GeneratePlatforms() returns (ps: seq<Platform>)
      requires Valid() && Usable(config) && config.gridHeight >= 2
      modifies grid
      ensures |ps| >= 1 && ps[0] == StartPlatform(config) && PlatformsFit(config, ps)
      ensures forall r, c :: 0 <= r < grid.Length0 && 0 <= c < grid.Length1 ==>
        if Painted(ps, r, c) then grid[r, c] in config.solidTileIndices
        else grid[r, c] == old(grid[r, c])
    {
      var first := StartPlatform(config);
      AddPlatform(first.x, first.y, first.width, first.height);
      var added := PlaceRandomPlatforms();
      ps := [first] + added;
      forall r, c | 0 <= r < grid.Length0 && 0 <= c < grid.Length1
        ensures Painted(ps, r, c) <==> Covered(first, r, c) || Painted(added, r, c)
      {
        PaintedCons(first, added, r, c);
      }
    }

    /** The enemies of a level: EnemySlots of every eligible platform, each of a random type. */
    method GenerateEnemyPositions(ps: seq<Platform>, spawn: Point, end: Point) returns (enemies: seq<EnemyPosition>)
      ensures |enemies| == |SlotsUpTo(ps, spawn, |ps|)|
      ensures forall j :: 0 <= j < |enemies| ==> enemies[j].at == SlotsUpTo(ps, spawn, |ps|)[j]
    {
      enemies := [];
      var index := 0;
      while index < |ps|
        invariant index <= |ps|
        invariant |enemies| == |SlotsUpTo(ps, spawn, index)|
        invariant forall j :: 0 <= j < |enemies| ==> enemies[j].at == SlotsUpTo(ps, spawn, index)[j]
      {
        if Eligible(ps, index, spawn) {
          var slots := EnemySlots(ps[index]);
          var count := EnemyCount(ps[index].width);
          ghost var before := enemies;
          var i := 0;
          while i < count
            invariant i <= count
            invariant |enemies| == |before| + i
            invariant enemies[..|before|] == before
            invariant forall j :: 0 <= j < i ==> enemies[|before| + j].at == slots[j]
          {
            var kind :| kind in [Slime, Drone, Warrior];
            enemies := enemies + [EnemyPosition(SlotAt(ps[index], count, i), kind)];
            i := i + 1;
          }
          assert SlotsUpTo(ps, spawn, index + 1) == SlotsUpTo(ps, spawn, index) + slots;
        }
        index := index + 1;
      }
    }

    /**
     * generateLevel with the corrected platform painting: the grid is
     * empty except for the platforms' cells, the player spawns two rows
     * above the start platform, and the start platform's top row is solid,
     * under the spawn point too when the platform is wider than two tiles.
     */
    method GenerateLevel() returns (level: Level)
      requires Usable(config) && config.gridHeight >= 2
      modifies this
      ensures Valid() && fresh(grid) && level.grid == grid
      ensures |level.platforms| >= 1 && level.platforms[0] == StartPlatform(config)
      ensures PlatformsFit(config, level.platforms)
      ensures forall r, c :: 0 <= r < config.gridHeight && 0 <= c < config.gridWidth ==>
        if Painted(level.platforms, r, c) then grid[r, c] in config.solidTileIndices else grid[r, c] == 0
      ensures level.spawnPoint == Point(2, config.gridHeight - 4)
      ensures level.endPoint == EndPoint(level.platforms)
      ensures var slots := SlotsUpTo(level.platforms, level.spawnPoint, |level.platforms|);
        |level.enemyPositions| == |slots| && forall j :: 0 <= j < |slots| ==> level.enemyPositions[j].at == slots[j]
      ensures forall r, c :: 0 <= r < config.gridHeight && 0 <= c < config.gridWidth && Covered(StartPlatform(config), r, c) ==>
        grid[r, c] in config.solidTileIndices
      ensures 0 !in config.solidTileIndices && config.minPlatformHeight > 0 && 2 < config.minPlatformWidth && 2 < config.gridWidth ==>
        CheckCollision(level.spawnPoint.x, config.gridHeight - 2)
    {
      grid := new int[config.gridHeight, config.gridWidth]((r, c) => 0);
      var platforms := GeneratePlatforms();
      var spawnPoint := SpawnPoint(platforms);
      var endPoint := EndPoint(platforms);
      var enemyPositions := GenerateEnemyPositions(platforms, spawnPoint, endPoint);
      level := Level(platforms, spawnPoint, endPoint, enemyPositions, grid);
      forall r, c | 0 <= r < config.gridHeight && 0 <= c < config.gridWidth && Covered(StartPlatform(config), r, c)
        ensures grid[r, c] in config.solidTileIndices
      {
        FirstPlatformPainted(platforms, r, c);
      }
    }

    /**
     * generateLevel as written: the same level, except that the start
     * platform is not painted. When gaps are at least one tile wide, column 0
     * stays empty in every row, so the cell the start platform covers there
     * is not solid.
     */
    method GenerateLevelAsWritten() returns (level: Level)
      requires Usable(config)
      modifies this
      ensures Valid() && fresh(grid) && level.grid == grid
      ensures |level.platforms| >= 1 && level.platforms[0] == StartPlatform(config)
      ensures PlatformsFit(config, level.platforms)
      ensures forall r, c :: 0 <= r < config.gridHeight && 0 <= c < config.gridWidth ==>
        if Painted(level.platforms[1..], r, c) then grid[r, c] in config.solidTileIndices else grid[r, c] == 0
      ensures level.spawnPoint == SpawnPoint(level.platforms) && level.endPoint == EndPoint(level.platforms)
      ensures var slots := SlotsUpTo(level.platforms, level.spawnPoint, |level.platforms|);
        |level.enemyPositions| == |slots| && forall j :: 0 <= j < |slots| ==> level.enemyPositions[j].at == slots[j]
      ensures config.minGapWidth >= TileSize ==> forall r :: 0 <= r < config.gridHeight ==> !CheckCollision(0, r) || config.gridWidth == 0
      ensures
        (config.gridHeight >= 2 && config.gridWidth > 0 && config.minPlatformHeight > 0 && config.minGapWidth >= TileSize)
        ==> Covered(level.platforms[0], config.gridHeight - 2, 0) && !CheckCollision(0, config.gridHeight - 2)
    {
      grid := new int[config.gridHeight, config.gridWidth]((r, c) => 0);
      var platforms := GeneratePlatformsAsWritten();
      var spawnPoint := SpawnPoint(platforms);
      var endPoint := EndPoint(platforms);
      var enemyPositions := GenerateEnemyPositions(platforms, spawnPoint, endPoint);
      level := Level(platforms, spawnPoint, endPoint, enemyPositions, grid);
      if config.gridHeight >= 2 && config.gridWidth > 0 && config.minPlatformHeight > 0 && config.minGapWidth >= TileSize {
        forall i | 0 <= i < |platforms[1..]|
          ensures platforms[1..][i].x >= MinGap(config)
        {
          assert platforms[1..][i] == platforms[i + 1];
          if i > 0 {
            assert 0 <= platforms[i].x && 1 <= platforms[i].width;
          }
        }
        ColumnZeroUnpainted(config, platforms[1..], config.gridHeight - 2);
      }
      if config.minGapWidth >= TileSize && config.gridWidth > 0 {
        forall r | 0 <= r < config.gridHeight
          ensures !CheckCollision(0, r)
        {
          forall i | 0 <= i < |platforms[1..]|
            ensures platforms[1..][i].x >= MinGap(config)
          {
            assert platforms[1..][i] == platforms[i + 1];
            if i > 0 {
              assert 0 <= platforms[i].x && 1 <= platforms[i].width;
            }
          }
          ColumnZeroUnpainted(config, platforms[1..], r);
        }
      }
    }
  }

  /** Platforms that all start at column MinGap >= 1 or later never cover column 0. */
  lemma {:induction false} ColumnZeroUnpainted(cfg: Config, ps: seq<Platform>, row: int)
    requires Usable(cfg) && cfg.minGapWidth >= TileSize
    requires forall i :: 0 <= i < |ps| ==> ps[i].x >= MinGap(cfg)
    ensures !Painted(ps, row, 0)
  {
    if |ps| > 0 {
      ColumnZeroUnpainted(cfg, ps[..|ps| - 1], row);
    }
  }
}

/**
 * Trap placement: spawn points on a 32-pixel lattice inside a two-tile
 * margin of the room, away from every platform; alarms take the first
 * points of a shuffle and traps the points after them. The shuffle is any
 * permutation; Phaser's groups are modelled as the sequences of positions
 * created in them.
 */
module TrapPlacement {
  import opened JsValues

  const TileSize := 32
  const Margin := 2 * TileSize

  /** A lattice position in pixels. */
  datatype Point = Point(x: int, y: int)

  /** A platform's position in pixels. */
  datatype PlatformAt = PlatformAt(x: real, y: real)

  /** On the lattice and inside the margin of a room of the given size. */
  predicate Candidate(roomWidth: int, roomHeight: int, p: Point)
  {
    Margin <= p.x < roomWidth - Margin && (p.x - Margin) % TileSize == 0
    && Margin <= p.y < roomHeight - Margin && (p.y - Margin) % TileSize == 0
  }

  /** Closer than one tile to the platform on both axes. */
  predicate Near(q: PlatformAt, p: Point)
  {
    RealAbs(q.x - p.x as real) < TileSize as real && RealAbs(q.y - p.y as real) < TileSize as real
  }

  function RealAbs(r: real): (a: real)
    ensures a >= 0.0 && (a == r || a == -r)
  {
    if r < 0.0 then -r else r
  }

  predicate Blocked(platforms: seq<PlatformAt>, p: Point)
  {
    exists q :: q in platforms && Near(q, p)
  }

  /** JavaScript's `s.slice(k)`: a negative start counts back from the end. */
  function Slice<T>(s: seq<T>, k: int): (r: seq<T>)
    ensures k >= 0 ==> r == if k < |s| then s[k..] else []
    ensures k < 0 ==> r == s[if |s| + k < 0 then 0 else |s| + k..]
  {
    if k >= |s| then []
    else if k >= 0 then s[k..]
    else if |s| + k < 0 then s
    else s[|s| + k..]
  }

  /** The first min(count, |s|) elements, none for a negative count. */
  function Take<T>(s: seq<T>, count: int): (r: seq<T>)
    ensures |r| == if count <= 0 then 0 else if count < |s| then count else |s|
    ensures r <= s
  {
    if count <= 0 then [] else if count < |s| then s[..count] else s
  }

  /** Where the alarms go: the first `numAlarms` points. */
  function AlarmPoints(points: seq<Point>, numAlarms: int): (r: seq<Point>)
    ensures |r| == if numAlarms <= 0 then 0 else if numAlarms < |points| then numAlarms else |points|
  {
    Take(points, numAlarms)
  }

  /** Where the traps go: the first `numTraps` points of those after the alarms' share. */
  function TrapPoints(points: seq<Point>, numAlarms: int, numTraps: int): (r: seq<Point>)
    ensures |r| <= |Slice(points, numAlarms)|
  {
    Take(Slice(points, numAlarms), numTraps)
  }

  /**
   * With distinct points and a non-negative alarm count, no point gets both
   * an alarm and a trap. (A negative count places no alarms at all.)
   */
  lemma AlarmsAndTrapsApart(points: seq<Point>, numAlarms: int, numTraps: int)
    requires NoDuplicates(points)
    ensures forall p :: p in AlarmPoints(points, numAlarms) ==> p !in TrapPoints(points, numAlarms, numTraps)
  {
    if numAlarms > 0 && numAlarms < |points| {
      forall p | p in AlarmPoints(points, numAlarms)
        ensures p !in TrapPoints(points, numAlarms, numTraps)
      {
        var i :| 0 <= i < numAlarms && points[..numAlarms][i] == p;
        assert p == points[i];
        var rest := points[numAlarms..];
        forall j | 0 <= j < |rest|
          ensures rest[j] != p
        {
          assert rest[j] == points[numAlarms + j];
        }
        assert TrapPoints(points, numAlarms, numTraps) <= rest;
      }
    }
  }

  /** A duplicate-free sequence holds each value at most once. */
  lemma {:induction false} DistinctCountsAtMostOne<T>(s: seq<T>, x: T)
    requires NoDuplicates(s)
    ensures multiset(s)[x] <= 1
  {
    if |s| > 0 {
      var init := s[..|s| - 1];
      assert s == init + [s[|s| - 1]];
      assert NoDuplicates(init);
      DistinctCountsAtMostOne(init, x);
      if x == s[|s| - 1] {
        assert x !in init;
      }
    }
  }

  /** A value found at two places occurs twice. */
  lemma RepeatCountsTwice<T>(s: seq<T>, i: int, j: int)
    requires 0 <= i < j < |s| && s[i] == s[j]
    ensures multiset(s)[s[i]] >= 2
  {
    assert s == s[..j] + [s[j]] + s[j + 1..];
    assert s[i] == s[..j][i];
    assert s[i] in multiset(s[..j]);
  }

  /** Shuffling a duplicate-free sequence keeps it duplicate-free. */
  lemma PermutationKeepsDistinct<T>(s: seq<T>, t: seq<T>)
    requires NoDuplicates(s) && multiset(t) == multiset(s)
    ensures NoDuplicates(t)
  {
    forall i, j | 0 <= i < j < |t|
      ensures t[i] != t[j]
    {
      if t[i] == t[j] {
        RepeatCountsTwice(t, i, j);
        DistinctCountsAtMostOne(s, t[i]);
      }
    }
  }

  class TrapManager {
    const roomWidth: int
    const roomHeight: int
    const platforms: seq<PlatformAt>
    var alarmTriggers: seq<Point>
    var traps: seq<Point>

    /** Both groups start empty. */
    constructor (roomWidth: int, roomHeight: int, platforms: seq<PlatformAt>)
      ensures this.roomWidth == roomWidth && this.roomHeight == roomHeight && this.platforms == platforms
      ensures alarmTriggers == [] && traps == []
    {
      this.roomWidth := roomWidth;
      this.roomHeight := roomHeight;
      this.platforms := platforms;
      alarmTriggers := [];
      traps := [];
    }

    /** A free spawn point: on the lattice, inside the margin and away from every platform. */
    predicate SpawnPoint(p: Point)
      reads this
    {
      Candidate(roomWidth, roomHeight, p) && !Blocked(platforms, p)
    }

    /** Every free lattice point, each once, column by column. */
    method FindSpawnPoints() returns (points: seq<Point>)
      ensures forall p :: p in points <==> SpawnPoint(p)
      ensures NoDuplicates(points)
    {
      points := [];
      var x := Margin;
      while x < roomWidth - Margin
        invariant Margin <= x && (x - Margin) % TileSize == 0
        invariant NoDuplicates(points)
        invariant forall p :: p in points <==> SpawnPoint(p) && p.x < x
        decreases roomWidth - x
      {
        var y := Margin;
        while y < roomHeight - Margin
          invariant Margin <= y && (y - Margin) % TileSize == 0
          invariant NoDuplicates(points)
          invariant forall p :: p in points <==> SpawnPoint(p) && (p.x < x || (p.x == x && p.y < y))
          decreases roomHeight - y
        {
          var hasCollision := Blocked(platforms, Point(x, y));
          if !hasCollision {
            points := points + [Point(x, y)];
          }
          y := y + TileSize;
        }
        forall p | SpawnPoint(p) && p.x < x + TileSize
          ensures p.x <= x
        {
          LatticeStep(p.x, x);
        }
        x := x + TileSize;
      }
    }

    /**
     * createTraps: nothing without spawn points; otherwise the points are
     * shuffled, alarms go to the first min(alarms, points) of them and traps
     * to the first min(traps, rest) of the points after the alarms' share.
     * A missing or falsy setting counts as 0.
     */
    method CreateTraps(alarmSetting: Option<int>, trapSetting: Option<int>) returns (ghost shuffled: seq<Point>)
      modifies this
      ensures forall p :: p in shuffled <==> SpawnPoint(p)
      ensures NoDuplicates(shuffled)
      ensures var numAlarms := if alarmSetting.Some? then alarmSetting.value else 0;
        var numTraps := if trapSetting.Some? then trapSetting.value else 0;
        && alarmTriggers == old(alarmTriggers) + AlarmPoints(shuffled, numAlarms)
        && traps == old(traps) + TrapPoints(shuffled, numAlarms, numTraps)
    {
      var spawnPoints := FindSpawnPoints();
      if |spawnPoints| == 0 {
        shuffled := [];
        ghost var numAlarms := if alarmSetting.Some? then alarmSetting.value else 0;
        ghost var numTraps := if trapSetting.Some? then trapSetting.value else 0;
        assert AlarmPoints(shuffled, numAlarms) == [] && TrapPoints(shuffled, numAlarms, numTraps) == [];
        assert alarmTriggers + [] == alarmTriggers && traps + [] == traps;
        return;
      }
      var order :| multiset(order) == multiset(spawnPoints);
      PermutationKeepsDistinct(spawnPoints, order);
      PermutationKeepsElements(spawnPoints, order);
      shuffled := order;
      var numAlarms := if alarmSetting.Some? then alarmSetting.value else 0;
      PlaceAlarms(order, numAlarms);
      var numTraps := if trapSetting.Some? then trapSetting.value else 0;
      PlaceTraps(order, numAlarms, numTraps);
    }

    /** The alarm loop: one alarm at each of the first min(numAlarms, |points|) points. */
    method PlaceAlarms(points: seq<Point>, numAlarms: int)
      modifies this
      ensures alarmTriggers == old(alarmTriggers) + AlarmPoints(points, numAlarms)
      ensures traps == old(traps)
    {
      var alarmCount := if numAlarms < |points| then numAlarms else |points|;
      var i := 0;
      while i < alarmCount
        invariant 0 <= i <= |points| && i <= (if alarmCount < 0 then 0 else alarmCount)
        invariant alarmTriggers == old(alarmTriggers) + points[..i]
        invariant traps == old(traps)
      {
        alarmTriggers := alarmTriggers + [points[i]];
        i := i + 1;
      }
      assert points[..|points|] == points;
    }

    /** The trap loop: traps on the first min(numTraps, |rest|) points of `points.slice(numAlarms)`. */
    method PlaceTraps(points: seq<Point>, numAlarms: int, numTraps: int)
      modifies this
      ensures traps == old(traps) + TrapPoints(points, numAlarms, numTraps)
      ensures alarmTriggers == old(alarmTriggers)
    {
      var remainingPoints := Slice(points, numAlarms);
      var trapCount := if numTraps < |remainingPoints| then numTraps else |remainingPoints|;
      var k := 0;
      while k < trapCount
        invariant 0 <= k <= |remainingPoints| && k <= (if trapCount < 0 then 0 else trapCount)
        invariant traps == old(traps) + remainingPoints[..k]
        invariant alarmTriggers == old(alarmTriggers)
      {
        traps := traps + [remainingPoints[k]];
        k := k + 1;
      }
      assert remainingPoints[..|remainingPoints|] == remainingPoints;
    }
  }

  /** A shuffle holds the same elements. */
  lemma PermutationKeepsElements<T>(s: seq<T>, t: seq<T>)
    requires multiset(t) == multiset(s)
    ensures forall p :: p in t <==> p in s
  {
    forall p
      ensures p in t <==> p in s
    {
      assert p in t <==> p in multiset(t);
      assert p in s <==> p in multiset(s);
    }
  }

  /** Two lattice columns less than a tile apart, the second on or after the first, are one column. */
  lemma LatticeStep(a: int, x: int)
    requires (a - Margin) % TileSize == 0 && (x - Margin) % TileSize == 0 && a < x + TileSize
    ensures a <= x
  {
    var i := (a - Margin) / TileSize;
    var j := (x - Margin) / TileSize;
    assert a == Margin + TileSize * i && x == Margin + TileSize * j;
  }
}

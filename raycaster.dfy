/** Grid ray casting by digital differential analysis: the ray moves from
    cell boundary to cell boundary, always crossing the nearer of the next
    vertical and the next horizontal grid line, until it enters a wall cell
    or its length reaches the limit. */
module RayCaster {
  import opened Scalar
  import opened Grid

  /** What a cast reports: whether a wall was hit, and the ray length. */
  datatype RaycastResult = RaycastResult(bHit: bool, distance: real)

  /** Constants fixed before the loop: the cell step per axis (+1 or -1),
      the ray length that crosses one whole cell per axis, and the limit. */
  datatype Stepping = Stepping(stepX: int, stepY: int, unitX: real, unitY: real, maxDistance: real)

  /** Loop state: the cell being checked, the ray length at which the ray
      meets the next x grid line and the next y grid line, the last recorded
      distance and the hit flag. */
  datatype Probe = Probe(cellX: int, cellY: int, lenX: real, lenY: real, distance: real, hit: bool)

  /** The loop keeps going while nothing is hit and the limit is not reached. */
  predicate Running(k: Stepping, s: Probe)
  {
    !s.hit && s.distance < k.maxDistance
  }

  /** Set-up before the loop. hypotX and hypotY are the values the source
      computes as sqrt(1 + (dy/dx)^2) and sqrt(1 + (dx/dy)^2); a zero x
      component replaces the x crossing length by the limit, otherwise a zero
      y component replaces the y one. The walk starts in the cell of the
      truncated start point, with distance 0 and no hit. */
  function Setup(start: Vec, dir: Vec, maxDistance: real, hypotX: real, hypotY: real): (sp: (Stepping, Probe))
    requires hypotX > 0.0 && hypotY > 0.0
    ensures sp.1.cellX == Trunc(start.x) && sp.1.cellY == Trunc(start.y)
    ensures sp.1.distance == 0.0 && !sp.1.hit
    ensures sp.0.maxDistance == maxDistance
    ensures sp.0.stepX == (if dir.x > 0.0 then 1 else -1)
    ensures sp.0.stepY == (if dir.y > 0.0 then 1 else -1)
    ensures sp.0.unitX == (if dir.x == 0.0 then maxDistance else hypotX)
    ensures sp.0.unitY == (if dir.x != 0.0 && dir.y == 0.0 then maxDistance else hypotY)
    ensures Running(sp.0, sp.1) ==> sp.0.unitX > 0.0 && sp.0.unitY > 0.0
    ensures start.x >= 0.0 && start.y >= 0.0 && maxDistance >= 0.0 ==> sp.1.lenX >= 0.0 && sp.1.lenY >= 0.0
  {
    var unitX := if dir.x == 0.0 then maxDistance else hypotX;
    var unitY := if dir.x != 0.0 && dir.y == 0.0 then maxDistance else hypotY;
    var baseX := if dir.x == 0.0 then maxDistance else 0.0;
    var baseY := if dir.x != 0.0 && dir.y == 0.0 then maxDistance else 0.0;
    (Stepping(if dir.x > 0.0 then 1 else -1, if dir.y > 0.0 then 1 else -1, unitX, unitY, maxDistance),
     Probe(Trunc(start.x), Trunc(start.y),
           FirstCrossing(baseX, start.x, dir.x > 0.0, unitX),
           FirstCrossing(baseY, start.y, dir.y > 0.0, unitY),
           0.0, false))
  }

  /** Ray length to the first grid line along one axis: the distance from
      the start coordinate to the far edge of its truncated cell when the
      ray moves forward, to the near edge otherwise, scaled by the crossing
      length of one cell and added to base. */
  function FirstCrossing(base: real, pos: real, forward: bool, unit: real): (len: real)
    ensures pos >= 0.0 && base >= 0.0 && unit >= 0.0 ==> len >= 0.0
  {
    var cell := Trunc(pos);
    var gap := if forward then (cell + 1) as real - pos else pos - cell as real;
    assert pos >= 0.0 ==> gap >= 0.0;
    base + gap * unit
  }

  /** One iteration of the loop: exactly one axis moves by its unit step,
      the one whose next grid line is strictly nearer, with ties going to
      the y axis; the recorded distance is the nearer crossing length; only
      a wall cell inside the map counts as a hit. */
  function Step(m: GameMap, k: Stepping, s: Probe): (t: Probe)
    requires m.Shaped()
    ensures (t.cellX == s.cellX + k.stepX && t.cellY == s.cellY && t.lenX == s.lenX + k.unitX && t.lenY == s.lenY)
         || (t.cellX == s.cellX && t.cellY == s.cellY + k.stepY && t.lenY == s.lenY + k.unitY && t.lenX == s.lenX)
    ensures t.distance == Min(s.lenX, s.lenY)
    ensures s.lenX == s.lenY ==> t.cellY == s.cellY + k.stepY && t.cellX == s.cellX
    ensures s.lenX < s.lenY ==> t.cellX == s.cellX + k.stepX
    ensures t.hit <==> m.Solid(t.cellX, t.cellY)
  {
    if s.lenX < s.lenY then
      var x := s.cellX + k.stepX;
      Probe(x, s.cellY, s.lenX + k.unitX, s.lenY, s.lenX, m.Solid(x, s.cellY))
    else
      var y := s.cellY + k.stepY;
      Probe(s.cellX, y, s.lenX, s.lenY + k.unitY, s.lenY, m.Solid(s.cellX, y))
  }

  /** How many more crossings of one axis can be taken below the limit. */
  function Remaining(limit: real, len: real, unit: real): nat
  {
    if unit <= 0.0 || len >= limit then 0
    else
      assert (limit - len) / unit > 0.0;
      ((limit - len) / unit).Floor + 1
  }

  function Measure(k: Stepping, s: Probe): nat
  {
    if Running(k, s) then 1 + Remaining(k.maxDistance, s.lenX, k.unitX) + Remaining(k.maxDistance, s.lenY, k.unitY)
    else 0
  }

  lemma RemainingShrinks(limit: real, len: real, unit: real)
    requires unit > 0.0 && len < limit
    ensures Remaining(limit, len + unit, unit) < Remaining(limit, len, unit)
  {
    if len + unit < limit {
      var q := (limit - len) / unit;
      calc {
        (limit - (len + unit)) / unit;
        ((limit - len) - unit) / unit;
        { DivMinusDivisor(limit - len, unit); }
        q - 1.0;
      }
      FloorShift(q, -1);
    }
  }

  lemma DivMinusDivisor(a: real, u: real)
    requires u > 0.0
    ensures (a - u) / u == a / u - 1.0
  {
    assert (a - u) / u == a / u - u / u;
  }

  lemma StepShrinks(m: GameMap, k: Stepping, s: Probe)
    requires m.Shaped() && Running(k, s) && k.unitX > 0.0 && k.unitY > 0.0
    ensures Measure(k, Step(m, k, s)) < Measure(k, s)
  {
    var t := Step(m, k, s);
    if Running(k, t) {
      if s.lenX < s.lenY {
        RemainingShrinks(k.maxDistance, s.lenX, k.unitX);
      } else {
        RemainingShrinks(k.maxDistance, s.lenY, k.unitY);
      }
    }
  }

  /** The loop run to its end: the final state has either hit a wall or
      recorded a distance at or beyond the limit. */
  function Walk(m: GameMap, k: Stepping, s: Probe): (r: Probe)
    requires m.Shaped()
    requires Running(k, s) ==> k.unitX > 0.0 && k.unitY > 0.0
    ensures !Running(k, r)
    decreases Measure(k, s)
  {
    if !Running(k, s) then s
    else
      StepShrinks(m, k, s);
      Walk(m, k, Step(m, k, s))
  }

  /** The whole cast, from the start point and direction. */
  function Cast(m: GameMap, start: Vec, dir: Vec, maxDistance: real, hypotX: real, hypotY: real): (r: Probe)
    requires m.Shaped() && hypotX > 0.0 && hypotY > 0.0
  {
    var sp := Setup(start, dir, maxDistance, hypotX, hypotY);
    Walk(m, sp.0, sp.1)
  }

  /** The set-up half of cast_ray: unit crossing lengths, cell steps, the
      starting cell and the first crossing lengths, proved to compute Setup. */
  method PrepareCast(start: Vec, dir: Vec, maxDistance: real, hypotX: real, hypotY: real)
    returns (k: Stepping, s: Probe)
    requires hypotX > 0.0 && hypotY > 0.0
    ensures (k, s) == Setup(start, dir, maxDistance, hypotX, hypotY)
  {
    var unitX, unitY := hypotX, hypotY;
    var stepX, stepY := 0, 0;
    var lenX, lenY := 0.0, 0.0;
    var cellX, cellY := Trunc(start.x), Trunc(start.y);

    if dir.x == 0.0 {
      unitX := maxDistance;
      lenX := maxDistance;
    } else if dir.y == 0.0 {
      unitY := maxDistance;
      lenY := maxDistance;
    }

    ghost var baseX, baseY := lenX, lenY;
    if dir.x > 0.0 {
      stepX := 1;
      lenX := lenX + ((cellX + 1) as real - start.x) * unitX;
    } else {
      stepX := -1;
      lenX := lenX + (start.x - cellX as real) * unitX;
    }
    assert lenX == FirstCrossing(baseX, start.x, dir.x > 0.0, unitX);

    if dir.y > 0.0 {
      stepY := 1;
      lenY := lenY + ((cellY + 1) as real - start.y) * unitY;
    } else {
      stepY := -1;
      lenY := lenY + (start.y - cellY as real) * unitY;
    }
    assert lenY == FirstCrossing(baseY, start.y, dir.y > 0.0, unitY);

    k := Stepping(stepX, stepY, unitX, unitY, maxDistance);
    s := Probe(cellX, cellY, lenX, lenY, 0.0, false);
  }

  /** cast_ray: the source's loop, proved to compute Cast. */
  method CastRay(m: GameMap, start: Vec, dir: Vec, maxDistance: real, hypotX: real, hypotY: real)
    returns (result: RaycastResult)
    requires m.Shaped() && hypotX > 0.0 && hypotY > 0.0
    ensures result.bHit == Cast(m, start, dir, maxDistance, hypotX, hypotY).hit
    ensures result.distance == Cast(m, start, dir, maxDistance, hypotX, hypotY).distance
    ensures result.bHit ==> m.Solid(Cast(m, start, dir, maxDistance, hypotX, hypotY).cellX,
                                    Cast(m, start, dir, maxDistance, hypotX, hypotY).cellY)
    ensures !result.bHit ==> result.distance >= maxDistance
  {
    var k, s0 := PrepareCast(start, dir, maxDistance, hypotX, hypotY);
    var stepX, stepY, unitX, unitY := k.stepX, k.stepY, k.unitX, k.unitY;
    var cellX, cellY, lenX, lenY := s0.cellX, s0.cellY, s0.lenX, s0.lenY;
    var distance := 0.0;
    var bHit := false;
    ghost var goal := Cast(m, start, dir, maxDistance, hypotX, hypotY);

    while !bHit && distance < maxDistance
      invariant Running(k, Probe(cellX, cellY, lenX, lenY, distance, bHit)) ==> unitX > 0.0 && unitY > 0.0
      invariant Walk(m, k, Probe(cellX, cellY, lenX, lenY, distance, bHit)) == goal
      decreases Measure(k, Probe(cellX, cellY, lenX, lenY, distance, bHit))
    {
      ghost var before := Probe(cellX, cellY, lenX, lenY, distance, bHit);
      if lenX < lenY {
        cellX := cellX + stepX;
        distance := lenX;
        lenX := lenX + unitX;
      } else {
        cellY := cellY + stepY;
        distance := lenY;
        lenY := lenY + unitY;
      }

      if cellX >= 0 && cellX < m.width && cellY >= 0 && cellY < m.height {
        if m.cells[cellY][cellX] == 1 {
          bHit := true;
        }
      }
      assert Probe(cellX, cellY, lenX, lenY, distance, bHit) == Step(m, k, before);
      StepShrinks(m, k, before);
    }
    result := RaycastResult(bHit, distance);
    CastHitIsSolid(m, start, dir, maxDistance, hypotX, hypotY);
  }

  lemma {:induction false} WalkHitIsSolid(m: GameMap, k: Stepping, s: Probe)
    requires m.Shaped()
    requires Running(k, s) ==> k.unitX > 0.0 && k.unitY > 0.0
    requires s.hit ==> m.Solid(s.cellX, s.cellY)
    ensures Walk(m, k, s).hit ==> m.Solid(Walk(m, k, s).cellX, Walk(m, k, s).cellY)
    decreases Measure(k, s)
  {
    if Running(k, s) {
      StepShrinks(m, k, s);
      WalkHitIsSolid(m, k, Step(m, k, s));
    }
  }

  /** A reported hit is a wall cell inside the map: cells outside the map
      never stop the ray. */
  lemma CastHitIsSolid(m: GameMap, start: Vec, dir: Vec, maxDistance: real, hypotX: real, hypotY: real)
    requires m.Shaped() && hypotX > 0.0 && hypotY > 0.0
    ensures var r := Cast(m, start, dir, maxDistance, hypotX, hypotY);
            r.hit ==> m.Solid(r.cellX, r.cellY)
  {
    var sp := Setup(start, dir, maxDistance, hypotX, hypotY);
    WalkHitIsSolid(m, sp.0, sp.1);
  }

  /** While the recorded distance is the nearer of the two crossing lengths,
      each step records a distance at least as large as the last one. */
  lemma {:induction false} WalkDistanceGrows(m: GameMap, k: Stepping, s: Probe)
    requires m.Shaped()
    requires Running(k, s) ==> k.unitX > 0.0 && k.unitY > 0.0 && s.distance <= Min(s.lenX, s.lenY)
    ensures Walk(m, k, s).distance >= s.distance
    decreases Measure(k, s)
  {
    if Running(k, s) {
      StepShrinks(m, k, s);
      WalkDistanceGrows(m, k, Step(m, k, s));
    }
  }

  /** From a start point with non-negative coordinates the reported distance
      is never negative, as the depth test expects. */
  lemma CastDistanceNonNegative(m: GameMap, start: Vec, dir: Vec, maxDistance: real, hypotX: real, hypotY: real)
    requires m.Shaped() && hypotX > 0.0 && hypotY > 0.0
    requires start.x >= 0.0 && start.y >= 0.0
    ensures Cast(m, start, dir, maxDistance, hypotX, hypotY).distance >= 0.0
  {
    var sp := Setup(start, dir, maxDistance, hypotX, hypotY);
    WalkDistanceGrows(m, sp.0, sp.1);
  }

  /** From (2, 2) looking along +x in the shipped level, the ray crosses the
      empty cells 3, 4 and 5 and hits the wall at column 6 at distance 4. */
  lemma SampleCastEast()
    ensures Cast(SampleMap(), Vec(2.0, 2.0), Vec(1.0, 0.0), MaxDistance, 1.0, 1.0)
         == Probe(6, 2, 5.0, 16.0, 4.0, true)
  {
    var m := SampleMap();
    var k := Stepping(1, -1, 1.0, MaxDistance, MaxDistance);
    var s0 := Probe(2, 2, 1.0, 16.0, 0.0, false);
    assert Setup(Vec(2.0, 2.0), Vec(1.0, 0.0), MaxDistance, 1.0, 1.0) == (k, s0);
    var s1 := Step(m, k, s0);
    assert s1 == Probe(3, 2, 2.0, 16.0, 1.0, false);
    var s2 := Step(m, k, s1);
    assert s2 == Probe(4, 2, 3.0, 16.0, 2.0, false);
    var s3 := Step(m, k, s2);
    assert s3 == Probe(5, 2, 4.0, 16.0, 3.0, false);
    var s4 := Step(m, k, s3);
    assert s4 == Probe(6, 2, 5.0, 16.0, 4.0, true);
    assert Walk(m, k, s4) == s4;
    assert Walk(m, k, s0) == Walk(m, k, s1) == Walk(m, k, s2) == Walk(m, k, s3) == Walk(m, k, s4);
  }

  /** A miss is not clamped to the limit, and an exact tie steps along y:
      from (2.5, 2.5) along +x with limit 1 the ray crosses x = 3 at 0.5,
      then ties at 1.5 and steps to cell (3, 1), reporting no hit at 1.5. */
  lemma MissOvershootsLimit()
    ensures Cast(SampleMap(), Vec(2.5, 2.5), Vec(1.0, 0.0), 1.0, 1.0, 1.0)
         == Probe(3, 1, 1.5, 2.5, 1.5, false)
  {
    var m := SampleMap();
    var k := Stepping(1, -1, 1.0, 1.0, 1.0);
    var s0 := Probe(2, 2, 0.5, 1.5, 0.0, false);
    assert Setup(Vec(2.5, 2.5), Vec(1.0, 0.0), 1.0, 1.0, 1.0) == (k, s0);
    var s1 := Step(m, k, s0);
    assert s1 == Probe(3, 2, 1.5, 1.5, 0.5, false);
    var s2 := Step(m, k, s1);
    assert s2 == Probe(3, 1, 1.5, 2.5, 1.5, false);
    assert Walk(m, k, s2) == s2;
    assert Walk(m, k, s0) == Walk(m, k, s1) == Walk(m, k, s2);
  }

  /** A ray moving along +x through open cells of row `row`: from a state
      that has crossed into cell s.cellX, whose next x crossing lies one cell
      further on and whose y crossing is out of reach, the walk ends in the
      first wall cell c of the row, at the ray length c - sx at which the
      ray enters that cell. */
  lemma {:induction false} WalkEastToWall(m: GameMap, k: Stepping, s: Probe, sx: real, row: int, c: int)
    requires m.Shaped()
    requires k.stepX == 1 && k.unitX == 1.0 && k.unitY > 0.0
    requires Running(k, s) && s.cellY == row && s.cellX < c
    requires s.lenX == (s.cellX + 1) as real - sx && s.lenY >= k.maxDistance
    requires c as real - sx < k.maxDistance
    requires forall x :: s.cellX < x < c ==> !m.Solid(x, row)
    requires m.Solid(c, row)
    ensures var r := Walk(m, k, s);
            r.hit && r.cellX == c && r.cellY == row && r.distance == c as real - sx
    decreases c - s.cellX
  {
    var t := Step(m, k, s);
    assert t == Probe(s.cellX + 1, row, s.lenX + 1.0, s.lenY, s.lenX, m.Solid(s.cellX + 1, row));
    assert Walk(m, k, s) == Walk(m, k, t);
    if s.cellX + 1 < c {
      WalkEastToWall(m, k, t, sx, row, c);
    }
  }

  /** The mirror image along -x: the ray enters cell x at length sx - (x + 1). */
  lemma {:induction false} WalkWestToWall(m: GameMap, k: Stepping, s: Probe, sx: real, row: int, c: int)
    requires m.Shaped()
    requires k.stepX == -1 && k.unitX == 1.0 && k.unitY > 0.0
    requires Running(k, s) && s.cellY == row && c < s.cellX
    requires s.lenX == sx - s.cellX as real && s.lenY >= k.maxDistance
    requires sx - (c + 1) as real < k.maxDistance
    requires forall x :: c < x < s.cellX ==> !m.Solid(x, row)
    requires m.Solid(c, row)
    ensures var r := Walk(m, k, s);
            r.hit && r.cellX == c && r.cellY == row && r.distance == sx - (c + 1) as real
    decreases s.cellX - c
  {
    var t := Step(m, k, s);
    assert t == Probe(s.cellX - 1, row, s.lenX + 1.0, s.lenY, s.lenX, m.Solid(s.cellX - 1, row));
    assert Walk(m, k, s) == Walk(m, k, t);
    if c < s.cellX - 1 {
      WalkWestToWall(m, k, t, sx, row, c);
    }
  }

  /** A ray cast along +x from a point of the positive quadrant reports a
      hit on the first wall cell c of its row, at the length c - start.x at
      which it enters that cell, when that length is below the limit. */
  lemma CastEastHitsFirstWall(m: GameMap, start: Vec, maxDistance: real, c: int)
    requires m.Shaped() && start.x >= 0.0 && start.y >= 0.0
    requires Trunc(start.x) < c && c as real - start.x < maxDistance
    requires forall x :: Trunc(start.x) < x < c ==> !m.Solid(x, Trunc(start.y))
    requires m.Solid(c, Trunc(start.y))
    ensures var r := Cast(m, start, Vec(1.0, 0.0), maxDistance, 1.0, 1.0);
            r.hit && r.cellX == c && r.cellY == Trunc(start.y) && r.distance == c as real - start.x
  {
    var sp := Setup(start, Vec(1.0, 0.0), maxDistance, 1.0, 1.0);
    var gapY := start.y - Trunc(start.y) as real;
    MulNonNegative(gapY, maxDistance);
    assert sp.1.lenY == maxDistance + gapY * maxDistance;
    WalkEastToWall(m, sp.0, sp.1, start.x, Trunc(start.y), c);
  }

  /** The same along -x: the hit is on the first wall cell c to the left,
      at the length start.x - (c + 1) at which the ray enters it. */
  lemma CastWestHitsFirstWall(m: GameMap, start: Vec, maxDistance: real, c: int)
    requires m.Shaped() && start.x >= 0.0 && start.y >= 0.0
    requires c < Trunc(start.x) && start.x - (c + 1) as real < maxDistance
    requires forall x :: c < x < Trunc(start.x) ==> !m.Solid(x, Trunc(start.y))
    requires m.Solid(c, Trunc(start.y))
    ensures var r := Cast(m, start, Vec(-1.0, 0.0), maxDistance, 1.0, 1.0);
            r.hit && r.cellX == c && r.cellY == Trunc(start.y) && r.distance == start.x - (c + 1) as real
  {
    var sp := Setup(start, Vec(-1.0, 0.0), maxDistance, 1.0, 1.0);
    var gapY := start.y - Trunc(start.y) as real;
    MulNonNegative(gapY, maxDistance);
    assert sp.1.lenY == maxDistance + gapY * maxDistance;
    WalkWestToWall(m, sp.0, sp.1, start.x, Trunc(start.y), c);
  }
}

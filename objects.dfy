/** Dynamic objects: a static billboard, a moving object that integrates its
    velocity, and a fireball that also removes itself when it leaves the map
    or enters a wall. The class hierarchy becomes one tagged datatype. */
module Objects {
  import opened Scalar
  import opened Grid

  /** A loaded texture, known by its size in pixels. */
  datatype SpriteRef = SpriteRef(id: nat, width: nat, height: nat)

  /** Which class an object belongs to; the moving kinds carry a velocity. */
  datatype Kind = Static | Moving(v: Vec) | Fireball(v: Vec)

  datatype GameObject = GameObject(kind: Kind, sprite: SpriteRef, pos: Vec, scale: real, removed: bool)

  /** A freshly constructed object of any kind: scale 1, not removed. */
  function Spawn(kind: Kind, sprite: SpriteRef, x: real, y: real): (o: GameObject)
    ensures o.kind == kind && o.sprite == sprite && o.pos == Vec(x, y)
    ensures o.scale == 1.0 && !o.removed
  {
    GameObject(kind, sprite, Vec(x, y), 1.0, false)
  }

  /** Position after moving with velocity v for dt seconds. */
  function Moved(p: Vec, v: Vec, dt: real): Vec
  {
    Vec(p.x + v.x * dt, p.y + v.y * dt)
  }

  /** The fireball's removal test: outside [0, W) x [0, H), or the cell at
      the truncated position holds 1. */
  predicate Collides(m: GameMap, p: Vec)
    requires m.Shaped()
  {
    p.x < 0.0 || p.x >= m.width as real || p.y < 0.0 || p.y >= m.height as real
    || m.cells[Trunc(p.y)][Trunc(p.x)] == 1
  }

  /** The removal test is exactly "the cell containing p is not an open
      cell of the map": outside the map, or a wall. */
  lemma CollidesIffBlockedCell(m: GameMap, p: Vec)
    requires m.Shaped()
    ensures Collides(m, p) <==> !m.InBounds(p.x.Floor, p.y.Floor) || m.Solid(p.x.Floor, p.y.Floor)
  {
    if p.x >= 0.0 && p.y >= 0.0 {
      assert Trunc(p.x) == p.x.Floor && Trunc(p.y) == p.y.Floor;
      if p.x < m.width as real {
        assert p.x.Floor < m.width;
      } else {
        assert p.x.Floor >= m.width;
      }
      if p.y < m.height as real {
        assert p.y.Floor < m.height;
      } else {
        assert p.y.Floor >= m.height;
      }
    } else {
      assert p.x < 0.0 ==> p.x.Floor < 0;
      assert p.y < 0.0 ==> p.y.Floor < 0;
    }
  }

  /** One frame of an object's update: a static object is untouched; a
      moving object advances by v * dt; a fireball advances and is removed
      when its new position collides. Removal is never undone. */
  function Update(o: GameObject, dt: real, m: GameMap): (r: GameObject)
    requires m.Shaped()
    ensures r.kind == o.kind && r.sprite == o.sprite && r.scale == o.scale
    ensures o.kind.Static? ==> r == o
    ensures !o.kind.Static? ==> r.pos == Moved(o.pos, o.kind.v, dt)
    ensures o.kind.Moving? ==> r.removed == o.removed
    ensures o.kind.Fireball? ==> (r.removed <==> o.removed || Collides(m, r.pos))
    ensures o.removed ==> r.removed
  {
    match o.kind
    case Static => o
    case Moving(v) => o.(pos := Moved(o.pos, v, dt))
    case Fireball(v) =>
      var p := Moved(o.pos, v, dt);
      o.(pos := p, removed := o.removed || Collides(m, p))
  }

  /** The objects left after one update pass: every object updated once,
      the ones then flagged removed dropped, the rest in their order. */
  function Survivors(objs: seq<GameObject>, dt: real, m: GameMap): seq<GameObject>
    requires m.Shaped()
  {
    if objs == [] then []
    else
      var u := Update(objs[0], dt, m);
      (if u.removed then [] else [u]) + Survivors(objs[1..], dt, m)
  }

  /** The survivors of objs[i..]: the update of objs[i] when it is kept,
      then the survivors of the objects after it. */
  lemma SurvivorsFrom(objs: seq<GameObject>, i: int, dt: real, m: GameMap)
    requires m.Shaped() && 0 <= i < |objs|
    ensures var u := Update(objs[i], dt, m);
            Survivors(objs[i..], dt, m) == (if u.removed then [] else [u]) + Survivors(objs[i + 1..], dt, m)
  {
    assert objs[i..][1..] == objs[i + 1..];
  }

  /** Overwriting the element between a prefix and a suffix. */
  lemma ReplaceBetween(prefix: seq<GameObject>, o: GameObject, u: GameObject, suffix: seq<GameObject>)
    ensures (prefix + [o] + suffix)[|prefix| := u] == prefix + [u] + suffix
  {
    var s := (prefix + [o] + suffix)[|prefix| := u];
    assert forall k :: 0 <= k < |s| ==> s[k] == (prefix + [u] + suffix)[k];
  }

  /** Erasing the element between a prefix and a suffix. */
  lemma EraseBetween(prefix: seq<GameObject>, u: GameObject, suffix: seq<GameObject>)
    ensures var s := prefix + [u] + suffix;
            s[..|prefix|] + s[|prefix| + 1..] == prefix + suffix
  {
    var s := prefix + [u] + suffix;
    assert s[..|prefix|] == prefix;
    assert s[|prefix| + 1..] == suffix;
  }

  /** An object survives exactly when it is the update of some object of
      the collection and that update is not flagged removed. */
  lemma {:induction false} SurvivorsMembers(objs: seq<GameObject>, dt: real, m: GameMap, o: GameObject)
    requires m.Shaped()
    ensures o in Survivors(objs, dt, m) <==>
            !o.removed && exists k :: 0 <= k < |objs| && o == Update(objs[k], dt, m)
  {
    if objs != [] {
      SurvivorsMembers(objs[1..], dt, m, o);
      if exists k :: 0 <= k < |objs| && o == Update(objs[k], dt, m) {
        var k :| 0 <= k < |objs| && o == Update(objs[k], dt, m);
        if k > 0 {
          assert objs[1..][k - 1] == objs[k];
        }
      }
      if exists k :: 0 <= k < |objs[1..]| && o == Update(objs[1..][k], dt, m) {
        var k :| 0 <= k < |objs[1..]| && o == Update(objs[1..][k], dt, m);
        assert objs[k + 1] == objs[1..][k];
      }
    }
  }

  /** Survivors keep their relative order: the survivors of an earlier run
      of objects come before those of a later run. */
  lemma {:induction false} SurvivorsConcat(a: seq<GameObject>, b: seq<GameObject>, dt: real, m: GameMap)
    requires m.Shaped()
    ensures Survivors(a + b, dt, m) == Survivors(a, dt, m) + Survivors(b, dt, m)
  {
    if a == [] {
      assert a + b == b;
    } else {
      assert (a + b)[0] == a[0];
      assert (a + b)[1..] == a[1..] + b;
      SurvivorsConcat(a[1..], b, dt, m);
    }
  }

  /** When no update flags a removal, every object is kept, updated, in place. */
  lemma {:induction false} NothingRemovedKeepsAll(objs: seq<GameObject>, dt: real, m: GameMap)
    requires m.Shaped()
    requires forall k :: 0 <= k < |objs| ==> !Update(objs[k], dt, m).removed
    ensures |Survivors(objs, dt, m)| == |objs|
    ensures forall k :: 0 <= k < |objs| ==> Survivors(objs, dt, m)[k] == Update(objs[k], dt, m)
  {
    if objs != [] {
      assert forall k :: 0 <= k < |objs[1..]| ==> objs[1..][k] == objs[k + 1];
      NothingRemovedKeepsAll(objs[1..], dt, m);
    }
  }

  /** An object moving at (2, 0) from (3, 3) for half a second lands on
      (4, 3), an open cell of the shipped level, so a fireball doing so stays. */
  lemma SampleFireballStays()
    ensures var o := Update(Spawn(Fireball(Vec(2.0, 0.0)), SpriteRef(0, 1, 1), 3.0, 3.0), 0.5, SampleMap());
            o.pos == Vec(4.0, 3.0) && !o.removed
  {
    var m := SampleMap();
    var p := Moved(Vec(3.0, 3.0), Vec(2.0, 0.0), 0.5);
    assert p == Vec(4.0, 3.0);
    assert Trunc(p.x) == 4 && Trunc(p.y) == 3;
    assert m.cells[3][4] == 0;
    assert !Collides(m, p);
  }

  /** A fireball that moves from (1.5, 5.5) into the wall cell (2, 5) is removed. */
  lemma SampleFireballHitsWall()
    ensures Update(Spawn(Fireball(Vec(2.0, 0.0)), SpriteRef(0, 1, 1), 1.5, 5.5), 0.5, SampleMap()).removed
  {
    var m := SampleMap();
    var p := Moved(Vec(1.5, 5.5), Vec(2.0, 0.0), 0.5);
    assert p == Vec(2.5, 5.5);
    assert Trunc(p.x) == 2 && Trunc(p.y) == 5;
    assert m.cells[5][2] == 1;
    assert Collides(m, p);
  }
}

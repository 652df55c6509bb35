/** The game object: the level, the player, the live objects and the depth
    buffer, with the per-frame steps that update the objects and redraw the
    scene column by column and sprite by sprite. */
module Engine {
  import opened Scalar
  import opened Grid
  import opened RayCaster
  import opened Depth
  import opened Objects
  import opened Projection
  import opened Render

  /** Updated objects keep their textures, so the survivors of a pass are
      as drawable as the objects it started from. */
  lemma SurvivorsKeepTextures(objs: seq<GameObject>, dt: real, m: GameMap)
    requires m.Shaped() && TexturesLoaded(objs)
    ensures TexturesLoaded(Survivors(objs, dt, m))
  {
    var s := Survivors(objs, dt, m);
    forall j | 0 <= j < |s|
      ensures s[j].sprite.height > 0
    {
      SurvivorsMembers(objs, dt, m, s[j]);
    }
  }

  class Game {
    const gameMap: GameMap
    const numerics: Numerics
    const textures: Textures
    const buffer: DepthBuffer
    var player: Player
    var gameObjects: seq<GameObject>

    ghost predicate Valid()
    {
      gameMap.Shaped() && SaneNumerics(numerics) && buffer.Valid()
    }

    /** Start-up: the shipped level, the player at (2, 2) facing along +x,
        one lamp at (3, 3), and a buffer of one distance per screen pixel. */
    constructor (n: Numerics, t: Textures, lamp: SpriteRef, screenWidth: nat, screenHeight: nat)
      requires SaneNumerics(n)
      ensures Valid() && fresh(buffer) && fresh(buffer.depth)
      ensures gameMap == SampleMap() && numerics == n && textures == t
      ensures buffer.width == screenWidth && buffer.height == screenHeight
      ensures player == Player(2.0, 2.0, 0.0)
      ensures gameObjects == [Spawn(Static, lamp, 3.0, 3.0)]
    {
      gameMap := SampleMap();
      numerics := n;
      textures := t;
      player := Player(2.0, 2.0, 0.0);
      gameObjects := [Spawn(Static, lamp, 3.0, 3.0)];
      buffer := new DepthBuffer(screenWidth, screenHeight);
    }

    /** One pass of the update loop, at index i: update object i in place,
        then erase it when it is flagged removed. Objects after i are
        already the survivors of their originals. */
    method UpdateAt(i: int, dt: real, ghost objs: seq<GameObject>)
      requires Valid() && 0 <= i < |objs|
      requires gameObjects == objs[..i + 1] + Survivors(objs[i + 1..], dt, gameMap)
      modifies this`gameObjects
      ensures gameObjects == objs[..i] + Survivors(objs[i..], dt, gameMap)
    {
      ghost var prefix, rest := objs[..i], Survivors(objs[i + 1..], dt, gameMap);
      assert objs[..i + 1] == prefix + [objs[i]];
      var u := Update(gameObjects[i], dt, gameMap);
      gameObjects := gameObjects[i := u];
      ReplaceBetween(prefix, objs[i], u, rest);
      if gameObjects[i].removed {
        gameObjects := gameObjects[..i] + gameObjects[i + 1..];
        EraseBetween(prefix, u, rest);
      }
      SurvivorsFrom(objs, i, dt, gameMap);
    }

    /** The object pass of a frame: from the last object to the first,
        update each and erase the ones flagged removed. */
    method UpdateObjects(dt: real)
      requires Valid()
      modifies this`gameObjects
      ensures gameObjects == Survivors(old(gameObjects), dt, gameMap)
    {
      ghost var objs := gameObjects;
      var i := |gameObjects| - 1;
      while i >= 0
        invariant -1 <= i < |objs|
        invariant gameObjects == objs[..i + 1] + Survivors(objs[i + 1..], dt, gameMap)
        decreases i
      {
        UpdateAt(i, dt, objs);
        i := i - 1;
      }
      assert objs[0..] == objs;
    }

    /** The ray of column x: its angle in the field of view, its direction,
        and the cast from the player's position. */
    method CastColumn(x: int) returns (d: real)
      requires Valid() && buffer.width > 0
      ensures d == ColumnDistance(numerics, gameMap, player, x, buffer.width)
    {
      var angle := ColumnAngle(x, buffer.width, player.angle);
      var direction := Vec(numerics.cos(angle), numerics.sin(angle));
      var hypot := HypotSteps(numerics, direction);
      var ray := CastRay(gameMap, Vec(player.x, player.y), direction, MaxDistance, hypot.0, hypot.1);
      d := ray.distance;
    }

    /** One of the three row loops of drawWall: rows lo .. hi - 1 of column
        x, all at distance d. */
    method DrawRun(x: int, lo: int, hi: int, d: real)
      requires Valid()
      modifies buffer.depth
      ensures buffer.depth[..] == Composite(old(buffer.depth[..]), buffer.width, buffer.height, RowRun(x, lo, hi, d))
    {
      ghost var start := buffer.depth[..];
      var y := lo;
      while y < hi
        invariant lo <= y <= MaxInt(lo, hi)
        invariant buffer.depth[..] == Composite(start, buffer.width, buffer.height, RowRun(x, lo, y, d))
      {
        var _ := buffer.Draw(x, y, d);
        RowRunSnoc(x, lo, y, d);
        CompositeSnoc(start, buffer.width, buffer.height, RowRun(x, lo, y, d), Write(x, y, d));
        y := y + 1;
      }
    }

    /** One screen column: cast the column's ray, then draw the ceiling,
        wall and floor runs at the hit distance. */
    method DrawWall(x: int) returns (d: real)
      requires Valid() && buffer.width > 0
      requires ColumnDistance(numerics, gameMap, player, x, buffer.width) != 0.0
      modifies buffer.depth
      ensures d == ColumnDistance(numerics, gameMap, player, x, buffer.width)
      ensures buffer.depth[..] == Composite(old(buffer.depth[..]), buffer.width, buffer.height, WallColumn(x, buffer.height, d))
    {
      var h := buffer.height;
      d := CastColumn(x);
      var band := WallBand(h, d);
      var ceiling, floor := band.0, band.1;
      ghost var start := buffer.depth[..];
      ghost var a := RowRun(x, 0, ceiling, d);
      ghost var b := RowRun(x, MaxInt(0, ceiling), MinInt(h, floor), d);
      ghost var c := RowRun(x, floor, h, d);
      DrawRun(x, 0, ceiling, d);
      DrawRun(x, MaxInt(0, ceiling), MinInt(h, floor), d);
      DrawRun(x, floor, h, d);
      CompositeAppend(start, buffer.width, h, a, b);
      CompositeAppend(start, buffer.width, h, a + b, c);
    }

    /** drawWall for every column, left to right; ds are the columns' cast
        distances. */
    method Raycast() returns (ghost ds: seq<real>)
      requires Valid() && ColumnsDefined(numerics, gameMap, player, buffer.width)
      modifies buffer.depth
      ensures |ds| == buffer.width && CastDistances(numerics, gameMap, player, buffer.width, ds) && NonZero(ds)
      ensures buffer.depth[..] == Composite(old(buffer.depth[..]), buffer.width, buffer.height, Walls(ds, buffer.height))
    {
      var w, h := buffer.width, buffer.height;
      ghost var start := buffer.depth[..];
      ds := [];
      var x := 0;
      while x < w
        invariant 0 <= x <= w && |ds| == x
        invariant CastDistances(numerics, gameMap, player, w, ds) && NonZero(ds)
        invariant buffer.depth[..] == Composite(start, w, h, Walls(ds, h))
      {
        var d := DrawWall(x);
        WallsSnoc(ds, h, d);
        CompositeAppend(start, w, h, Walls(ds, h), WallColumn(x, h, d));
        ds := ds + [d];
        x := x + 1;
      }
    }

    /** The inner loop of a billboard: texture column x, row by row, only
        texels whose sample is not transparent. */
    method DrawTexelColumn(r: Rect, x: int, d: real, sprite: SpriteRef)
      requires Valid() && 0 <= x < r.width
      modifies buffer.depth
      ensures buffer.depth[..]
           == Composite(old(buffer.depth[..]), buffer.width, buffer.height,
                        SpriteRowsUpTo(r, x, MaxInt(0, r.height), d, textures, sprite))
    {
      ghost var start := buffer.depth[..];
      var u := x as real / r.width as real;
      var y := 0;
      while y < r.height
        invariant 0 <= y <= MaxInt(0, r.height)
        invariant buffer.depth[..] == Composite(start, buffer.width, buffer.height, SpriteRowsUpTo(r, x, y, d, textures, sprite))
      {
        var v := y as real / r.height as real;
        ghost var rows := SpriteRowsUpTo(r, x, y, d, textures, sprite);
        SpriteRowsSnoc(r, x, y, d, textures, sprite);
        if textures(sprite, u, v) {
          var _ := buffer.Draw(r.left + x, r.top + y, d);
          CompositeSnoc(start, buffer.width, buffer.height, rows, Write(r.left + x, r.top + y, d));
        }
        y := y + 1;
      }
    }

    /** The outer loop of a billboard: texture columns left to right. */
    method DrawBillboard(r: Rect, d: real, sprite: SpriteRef)
      requires Valid()
      modifies buffer.depth
      ensures buffer.depth[..]
           == Composite(old(buffer.depth[..]), buffer.width, buffer.height,
                        SpriteColumnsUpTo(r, MaxInt(0, r.width), d, textures, sprite))
    {
      ghost var start := buffer.depth[..];
      var x := 0;
      while x < r.width
        invariant 0 <= x <= MaxInt(0, r.width)
        invariant buffer.depth[..] == Composite(start, buffer.width, buffer.height, SpriteColumnsUpTo(r, x, d, textures, sprite))
      {
        DrawTexelColumn(r, x, d, sprite);
        CompositeAppend(start, buffer.width, buffer.height, SpriteColumnsUpTo(r, x, d, textures, sprite),
                        SpriteRowsUpTo(r, x, MaxInt(0, r.height), d, textures, sprite));
        x := x + 1;
      }
    }

    /** The body of drawObjects for one object: its bearing and distance
        from the player, and its billboard when it is in view and beyond the
        near clip. */
    method DrawObject(obj: GameObject)
      requires Valid() && obj.sprite.height > 0
      modifies buffer.depth
      ensures buffer.depth[..]
           == Composite(old(buffer.depth[..]), buffer.width, buffer.height,
                        ObjectWrites(numerics, player, obj, buffer.width, buffer.height, textures))
    {
      var angle := ObjectBearing(numerics, player, obj);
      var distance := ObjectDistance(numerics, player, obj);
      if Visible(angle, distance) {
        var r := ObjectRect(numerics, player, obj, buffer.width, buffer.height);
        DrawBillboard(r, distance, obj.sprite);
      }
    }

    /** One pass of the drawObjects loop: object i after objects 0 .. i - 1. */
    method DrawNext(i: int, ghost start: seq<real>)
      requires Valid() && 0 <= i < |gameObjects| && TexturesLoaded(gameObjects)
      requires |start| == buffer.width * buffer.height
      requires buffer.depth[..] == Composite(start, buffer.width, buffer.height,
                                             Sprites(numerics, player, gameObjects[..i], buffer.width, buffer.height, textures))
      modifies buffer.depth
      ensures buffer.depth[..] == Composite(start, buffer.width, buffer.height,
                                            Sprites(numerics, player, gameObjects[..i + 1], buffer.width, buffer.height, textures))
    {
      var w, h := buffer.width, buffer.height;
      ghost var drawn := gameObjects[..i];
      assert drawn + [gameObjects[i]] == gameObjects[..i + 1];
      DrawObject(gameObjects[i]);
      SpritesSnoc(numerics, player, drawn, gameObjects[i], w, h, textures);
      CompositeAppend(start, w, h, Sprites(numerics, player, drawn, w, h, textures),
                      ObjectWrites(numerics, player, gameObjects[i], w, h, textures));
    }

    /** drawObjects: every object in list order. */
    method DrawObjects()
      requires Valid() && TexturesLoaded(gameObjects)
      modifies buffer.depth
      ensures buffer.depth[..]
           == Composite(old(buffer.depth[..]), buffer.width, buffer.height,
                        Sprites(numerics, player, gameObjects, buffer.width, buffer.height, textures))
    {
      ghost var start := buffer.depth[..];
      var i := 0;
      while i < |gameObjects|
        invariant 0 <= i <= |gameObjects|
        invariant buffer.depth[..] == Composite(start, buffer.width, buffer.height,
                                                Sprites(numerics, player, gameObjects[..i], buffer.width, buffer.height, textures))
      {
        DrawNext(i, start);
        i := i + 1;
      }
      assert gameObjects[..i] == gameObjects;
    }

    /** One frame, in the order the game runs it: the object pass, the
        depth buffer refilled with the far value, the walls, then the sprites. */
    method Frame(dt: real) returns (ghost ds: seq<real>)
      requires Valid() && TexturesLoaded(gameObjects)
      requires ColumnsDefined(numerics, gameMap, player, buffer.width)
      modifies this`gameObjects, buffer.depth
      ensures gameObjects == Survivors(old(gameObjects), dt, gameMap)
      ensures TexturesLoaded(gameObjects)
      ensures |ds| == buffer.width && CastDistances(numerics, gameMap, player, buffer.width, ds) && NonZero(ds)
      ensures buffer.depth[..]
           == Composite(Cleared(buffer.width * buffer.height), buffer.width, buffer.height,
                        Walls(ds, buffer.height)
                        + Sprites(numerics, player, gameObjects, buffer.width, buffer.height, textures))
    {
      UpdateObjects(dt);
      SurvivorsKeepTextures(old(gameObjects), dt, gameMap);
      buffer.Reset();
      ghost var cleared := buffer.depth[..];
      ds := Raycast();
      DrawObjects();
      CompositeAppend(cleared, buffer.width, buffer.height, Walls(ds, buffer.height),
                      Sprites(numerics, player, gameObjects, buffer.width, buffer.height, textures));
    }
  }
}

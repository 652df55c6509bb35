/** The draw calls a frame issues, as sequences of gated writes: for each
    screen column the ceiling, wall and floor runs of drawWall, and for each
    visible object the opaque texels of its billboard in drawObjects. Their
    effect on the depth buffer is Depth.Composite of those sequences. */
module Render {
  import opened Scalar
  import opened Grid
  import opened RayCaster
  import opened Depth
  import opened Objects
  import opened Projection

  datatype Player = Player(x: real, y: real, angle: real)

  /** Whether a texture's sample at (u, v) has non-zero alpha; the texture
      images themselves are outside the model. */
  type Textures = (SpriteRef, real, real) -> bool

  function MaxInt(a: int, b: int): int { if a >= b then a else b }
  function MinInt(a: int, b: int): int { if a <= b then a else b }

  /** Draw(x, y, d) for y = lo, lo + 1, ..., hi - 1. */
  function RowRun(x: int, lo: int, hi: int, d: real): (ws: seq<Write>)
    ensures |ws| == if hi > lo then hi - lo else 0
    ensures forall k :: 0 <= k < |ws| ==> ws[k] == Write(x, lo + k, d)
  {
    if hi <= lo then [] else seq(hi - lo, k => Write(x, lo + k, d))
  }

  lemma RowRunMembers(x: int, lo: int, hi: int, d: real, wr: Write)
    ensures wr in RowRun(x, lo, hi, d) <==> wr.x == x && lo <= wr.y < hi && wr.distance == d
  {
    var ws := RowRun(x, lo, hi, d);
    if wr.x == x && lo <= wr.y < hi && wr.distance == d {
      assert ws[wr.y - lo] == wr;
    }
  }

  lemma RowRunSnoc(x: int, lo: int, y: int, d: real)
    requires lo <= y
    ensures RowRun(x, lo, y + 1, d) == RowRun(x, lo, y, d) + [Write(x, y, d)]
  {
  }

  /** The three loops of drawWall for column x: rows [0, ceiling) as
      ceiling, rows [max(0, ceiling), min(H, floor)) as wall, rows [floor, H)
      as floor, every write at the column's one distance. */
  function ColumnWrites(x: int, screenHeight: nat, ceiling: int, floor: int, d: real): seq<Write>
  {
    RowRun(x, 0, ceiling, d)
    + RowRun(x, MaxInt(0, ceiling), MinInt(screenHeight, floor), d)
    + RowRun(x, floor, screenHeight, d)
  }

  /** When the ceiling row is at most the floor row and the floor row is not
      negative, the three runs together write every row of the screen in
      column x, at distance d, and nothing else. */
  lemma ColumnWritesCoverColumn(x: int, screenHeight: nat, ceiling: int, floor: int, d: real)
    requires ceiling <= floor && 0 <= floor
    ensures forall y :: 0 <= y < screenHeight ==> Write(x, y, d) in ColumnWrites(x, screenHeight, ceiling, floor, d)
    ensures forall wr :: wr in ColumnWrites(x, screenHeight, ceiling, floor, d) ==> wr.x == x && wr.distance == d
  {
    var a := RowRun(x, 0, ceiling, d);
    var b := RowRun(x, MaxInt(0, ceiling), MinInt(screenHeight, floor), d);
    var c := RowRun(x, floor, screenHeight, d);
    forall y | 0 <= y < screenHeight
      ensures Write(x, y, d) in a + b + c
    {
      RowRunMembers(x, 0, ceiling, d, Write(x, y, d));
      RowRunMembers(x, MaxInt(0, ceiling), MinInt(screenHeight, floor), d, Write(x, y, d));
      RowRunMembers(x, floor, screenHeight, d, Write(x, y, d));
    }
    forall wr: Write | wr in a + b + c
      ensures wr.x == x && wr.distance == d
    {
      RowRunMembers(x, 0, ceiling, d, wr);
      RowRunMembers(x, MaxInt(0, ceiling), MinInt(screenHeight, floor), d, wr);
      RowRunMembers(x, floor, screenHeight, d, wr);
    }
  }

  /** When every write to an on-screen pixel is at distance d, the pixel
      ends as the nearer of its old distance and d if a write to it is among
      them, and unchanged otherwise. */
  lemma PixelEffect(buf: seq<real>, w: nat, h: nat, ws: seq<Write>, d: real, px: int, py: int, hit: bool)
    requires |buf| == w * h && OnScreen(w, h, px, py)
    requires forall wr :: wr in ws && wr.x == px && wr.y == py ==> wr.distance == d
    requires hit <==> Write(px, py, d) in ws
    ensures At(Composite(buf, w, h, ws), w, h, px, py) == if hit then Min(At(buf, w, h, px, py), d) else At(buf, w, h, px, py)
  {
    var i := Index(w, px, py);
    IndexInRange(w, h, px, py);
    CompositeSlot(buf, w, h, ws, i);
    if hit {
      assert Targets(w, h, Write(px, py, d), i);
      var r := Composite(buf, w, h, ws)[i];
      if r != buf[i] {
        var wr :| wr in ws && Targets(w, h, wr, i) && r == wr.distance;
        IndexInjective(w, h, wr.x, wr.y, px, py);
      }
    } else {
      forall wr: Write | wr in ws
        ensures !Targets(w, h, wr, i)
      {
        if Targets(w, h, wr, i) {
          IndexInjective(w, h, wr.x, wr.y, px, py);
        }
      }
    }
  }

  /** The unit crossing lengths sqrt(1 + (dy/dx)^2) and sqrt(1 + (dx/dy)^2)
      of a ray direction; for a zero component the cast replaces the value,
      so any positive stand-in will do. */
  function HypotSteps(n: Numerics, dir: Vec): (hs: (real, real))
    requires SaneNumerics(n)
    ensures hs.0 >= 1.0 && hs.1 >= 1.0
  {
    var hx := if dir.x == 0.0 then 1.0 else n.sqrt(1.0 + (dir.y / dir.x) * (dir.y / dir.x));
    var hy := if dir.y == 0.0 then 1.0 else n.sqrt(1.0 + (dir.x / dir.y) * (dir.x / dir.y));
    (hx, hy)
  }

  /** Direction of the ray of column x. */
  function ColumnDirection(n: Numerics, p: Player, x: int, screenWidth: nat): Vec
    requires screenWidth > 0
  {
    var angle := ColumnAngle(x, screenWidth, p.angle);
    Vec(n.cos(angle), n.sin(angle))
  }

  /** The distance drawWall casts for column x. */
  function ColumnDistance(n: Numerics, m: GameMap, p: Player, x: int, screenWidth: nat): real
    requires SaneNumerics(n) && m.Shaped() && screenWidth > 0
  {
    var dir := ColumnDirection(n, p, x, screenWidth);
    var hs := HypotSteps(n, dir);
    Cast(m, Vec(p.x, p.y), dir, MaxDistance, hs.0, hs.1).distance
  }

  predicate NonZero(ds: seq<real>)
  {
    forall i :: 0 <= i < |ds| ==> ds[i] != 0.0
  }

  /** Every column's cast distance is non-zero, so every wall band is defined. */
  ghost predicate ColumnsDefined(n: Numerics, m: GameMap, p: Player, screenWidth: nat)
    requires SaneNumerics(n) && m.Shaped()
  {
    forall x :: 0 <= x < screenWidth ==> ColumnDistance(n, m, p, x, screenWidth) != 0.0
  }

  /** ds holds the cast distances of the first |ds| columns, left to right. */
  ghost predicate CastDistances(n: Numerics, m: GameMap, p: Player, screenWidth: nat, ds: seq<real>)
    requires SaneNumerics(n) && m.Shaped()
  {
    |ds| <= screenWidth && forall x :: 0 <= x < |ds| ==> ds[x] == ColumnDistance(n, m, p, x, screenWidth)
  }

  /** The writes of drawWall(x) once the column's ray has come back at
      distance d: ceiling, wall and floor runs of the band for d. */
  function WallColumn(x: int, screenHeight: nat, d: real): seq<Write>
    requires d != 0.0
  {
    var band := WallBand(screenHeight, d);
    ColumnWrites(x, screenHeight, band.0, band.1, d)
  }

  /** The writes of raycast(): drawWall for columns 0 .. |ds| - 1, left to
      right, given the columns' cast distances. */
  function Walls(ds: seq<real>, screenHeight: nat): seq<Write>
    requires NonZero(ds)
    decreases |ds|
  {
    if ds == [] then []
    else Walls(ds[..|ds| - 1], screenHeight) + WallColumn(|ds| - 1, screenHeight, ds[|ds| - 1])
  }

  /** One more column at the right is one more wall column batch. */
  lemma WallsSnoc(ds: seq<real>, screenHeight: nat, d: real)
    requires NonZero(ds) && d != 0.0
    ensures NonZero(ds + [d])
    ensures Walls(ds + [d], screenHeight) == Walls(ds, screenHeight) + WallColumn(|ds|, screenHeight, d)
  {
    assert (ds + [d])[..|ds|] == ds;
  }

  /** The batch writes every row 0 .. h - 1 of column x at distance d, and
      writes nothing outside column x nor at any other distance. */
  ghost predicate FillsColumn(ws: seq<Write>, h: nat, x: int, d: real)
  {
    && (forall y :: 0 <= y < h ==> Write(x, y, d) in ws)
    && (forall wr :: wr in ws ==> wr.x == x && wr.distance == d)
  }

  /** A wall column in front of the player fills its whole screen column. */
  lemma WallColumnFills(x: int, h: nat, d: real)
    requires d > 0.0
    ensures FillsColumn(WallColumn(x, h, d), h, x, d)
  {
    var band := WallBand(h, d);
    WallBandCentred(h, d);
    ColumnWritesCoverColumn(x, h, band.0, band.1, d);
  }

  predicate Positive(ds: seq<real>)
  {
    forall i :: 0 <= i < |ds| ==> ds[i] > 0.0
  }

  /** The wall columns of ds write every row of each column x < |ds| at the
      column's distance, and write nothing else. */
  lemma {:induction false} WallsCover(ds: seq<real>, h: nat)
    requires Positive(ds)
    ensures forall wr :: wr in Walls(ds, h) ==> 0 <= wr.x < |ds| && wr.distance == ds[wr.x]
    ensures forall x, y :: 0 <= x < |ds| && 0 <= y < h ==> Write(x, y, ds[x]) in Walls(ds, h)
    decreases |ds|
  {
    if ds != [] {
      var init, k := ds[..|ds| - 1], |ds| - 1;
      var prior, col := Walls(init, h), WallColumn(k, h, ds[k]);
      assert Walls(ds, h) == prior + col;
      WallsCover(init, h);
      WallColumnFills(k, h, ds[k]);
      forall x, y | 0 <= x < |ds| && 0 <= y < h
        ensures Write(x, y, ds[x]) in Walls(ds, h)
      {
        if x < k {
          assert init[x] == ds[x];
          assert Write(x, y, init[x]) in prior;
        }
      }
    }
  }

  /** After the wall columns of ds, when every wall is in front of the
      player, each pixel of a drawn column holds the nearer of its old
      distance and its column's distance; the other columns are unchanged. */
  lemma WallsEffect(buf: seq<real>, w: nat, h: nat, ds: seq<real>, px: int, py: int)
    requires |buf| == w * h && Positive(ds) && OnScreen(w, h, px, py)
    ensures At(Composite(buf, w, h, Walls(ds, h)), w, h, px, py)
            == if px < |ds| then Min(At(buf, w, h, px, py), ds[px]) else At(buf, w, h, px, py)
  {
    WallsCover(ds, h);
    if px < |ds| {
      PixelEffect(buf, w, h, Walls(ds, h), ds[px], px, py, true);
    } else {
      PixelEffect(buf, w, h, Walls(ds, h), 0.0, px, py, false);
    }
  }

  /** A whole frame as far as one pixel is concerned: starting from the
      far value, after the walls of ds and then any sprite writes, the
      pixel holds the nearest of the far value, its column's wall and the
      sprite writes that land on it. */
  lemma FramePixel(w: nat, h: nat, ds: seq<real>, sprites: seq<Write>, px: int, py: int)
    requires |ds| == w && Positive(ds) && OnScreen(w, h, px, py)
    ensures var r := At(Composite(Cleared(w * h), w, h, Walls(ds, h) + sprites), w, h, px, py);
            && r <= Min(FarDepth, ds[px])
            && (forall wr :: wr in sprites && wr.x == px && wr.y == py ==> r <= wr.distance)
            && (r == Min(FarDepth, ds[px]) || exists wr :: wr in sprites && wr.x == px && wr.y == py && r == wr.distance)
  {
    var cleared := Cleared(w * h);
    var walled := Composite(cleared, w, h, Walls(ds, h));
    CompositeAppend(cleared, w, h, Walls(ds, h), sprites);
    WallsEffect(cleared, w, h, ds, px, py);
    IndexInRange(w, h, px, py);
    var i := Index(w, px, py);
    CompositeSlot(walled, w, h, sprites, i);
    forall wr | wr in sprites && Targets(w, h, wr, i)
      ensures wr.x == px && wr.y == py
    {
      IndexInjective(w, h, wr.x, wr.y, px, py);
    }
  }

  /** The inner loop of drawObjects for texture column x of a billboard:
      the opaque texels among rows 0 .. count - 1, each a write at the
      sprite's distance. */
  function SpriteRowsUpTo(r: Rect, x: int, count: int, d: real, textures: Textures, sprite: SpriteRef): seq<Write>
    requires 0 <= x < r.width && count <= MaxInt(0, r.height)
    decreases count
  {
    if count <= 0 then []
    else
      SpriteRowsUpTo(r, x, count - 1, d, textures, sprite)
      + (if textures(sprite, x as real / r.width as real, (count - 1) as real / r.height as real)
         then [Write(r.left + x, r.top + count - 1, d)] else [])
  }

  lemma SpriteRowsSnoc(r: Rect, x: int, y: int, d: real, textures: Textures, sprite: SpriteRef)
    requires 0 <= x < r.width && 0 <= y < r.height
    ensures textures(sprite, x as real / r.width as real, y as real / r.height as real)
            ==> SpriteRowsUpTo(r, x, y + 1, d, textures, sprite)
                == SpriteRowsUpTo(r, x, y, d, textures, sprite) + [Write(r.left + x, r.top + y, d)]
    ensures !textures(sprite, x as real / r.width as real, y as real / r.height as real)
            ==> SpriteRowsUpTo(r, x, y + 1, d, textures, sprite) == SpriteRowsUpTo(r, x, y, d, textures, sprite)
  {
    assert SpriteRowsUpTo(r, x, y, d, textures, sprite) + [] == SpriteRowsUpTo(r, x, y, d, textures, sprite);
  }

  /** The outer loop: texture columns 0 .. count - 1, each with all its rows. */
  function SpriteColumnsUpTo(r: Rect, count: int, d: real, textures: Textures, sprite: SpriteRef): seq<Write>
    requires count <= MaxInt(0, r.width)
    decreases count
  {
    if count <= 0 then []
    else SpriteColumnsUpTo(r, count - 1, d, textures, sprite) + SpriteRowsUpTo(r, count - 1, MaxInt(0, r.height), d, textures, sprite)
  }

  /** A texel is drawn at the pixel offset (dx, dy) inside the rectangle
      when the texture sample at (dx / width, dy / height) is not transparent. */
  predicate Covers(r: Rect, px: int, py: int, textures: Textures, sprite: SpriteRef)
  {
    && r.left <= px < r.left + r.width
    && r.top <= py < r.top + r.height
    && textures(sprite, (px - r.left) as real / r.width as real, (py - r.top) as real / r.height as real)
  }

  lemma {:induction false} SpriteRowsMembers(r: Rect, x: int, count: int, d: real, textures: Textures, sprite: SpriteRef, wr: Write)
    requires 0 <= x < r.width && count <= MaxInt(0, r.height)
    ensures wr in SpriteRowsUpTo(r, x, count, d, textures, sprite) <==>
            wr.distance == d && wr.x == r.left + x && r.top <= wr.y < r.top + count && Covers(r, wr.x, wr.y, textures, sprite)
    decreases count
  {
    if count > 0 {
      SpriteRowsMembers(r, x, count - 1, d, textures, sprite, wr);
    }
  }

  lemma {:induction false} SpriteColumnsMembers(r: Rect, count: int, d: real, textures: Textures, sprite: SpriteRef, wr: Write)
    requires count <= MaxInt(0, r.width)
    ensures wr in SpriteColumnsUpTo(r, count, d, textures, sprite) <==>
            wr.distance == d && r.left <= wr.x < r.left + count && Covers(r, wr.x, wr.y, textures, sprite)
    decreases count
  {
    if count > 0 {
      SpriteColumnsMembers(r, count - 1, d, textures, sprite, wr);
      SpriteRowsMembers(r, count - 1, MaxInt(0, r.height), d, textures, sprite, wr);
    }
  }

  /** A billboard changes exactly the on-screen pixels it covers with an
      opaque texel, each to the nearer of its old distance and the sprite's. */
  lemma SpriteEffect(buf: seq<real>, w: nat, h: nat, r: Rect, d: real, textures: Textures, sprite: SpriteRef)
    requires |buf| == w * h
    ensures forall px, py :: OnScreen(w, h, px, py) ==>
              At(Composite(buf, w, h, SpriteColumnsUpTo(r, MaxInt(0, r.width), d, textures, sprite)), w, h, px, py)
              == if Covers(r, px, py, textures, sprite) then Min(At(buf, w, h, px, py), d) else At(buf, w, h, px, py)
  {
    var ws := SpriteColumnsUpTo(r, MaxInt(0, r.width), d, textures, sprite);
    forall wr: Write | wr in ws
      ensures wr.distance == d
    {
      SpriteColumnsMembers(r, MaxInt(0, r.width), d, textures, sprite, wr);
    }
    forall px, py | OnScreen(w, h, px, py)
      ensures At(Composite(buf, w, h, ws), w, h, px, py)
              == if Covers(r, px, py, textures, sprite) then Min(At(buf, w, h, px, py), d) else At(buf, w, h, px, py)
    {
      SpriteColumnsMembers(r, MaxInt(0, r.width), d, textures, sprite, Write(px, py, d));
      PixelEffect(buf, w, h, ws, d, px, py, Covers(r, px, py, textures, sprite));
    }
  }

  /** Bearing and distance of an object as drawObjects computes them: the
      atan2 of the offset minus the atan2 of the heading, corrected once,
      and the length of the offset. */
  function ObjectBearing(n: Numerics, p: Player, o: GameObject): real
  {
    Bearing(n.atan2(n.sin(p.angle), n.cos(p.angle)), n.atan2(o.pos.y - p.y, o.pos.x - p.x))
  }

  function ObjectDistance(n: Numerics, p: Player, o: GameObject): real
  {
    n.sqrt((p.x - o.pos.x) * (p.x - o.pos.x) + (p.y - o.pos.y) * (p.y - o.pos.y))
  }

  /** Every texture has at least one row, so its aspect ratio is defined. */
  ghost predicate TexturesLoaded(objs: seq<GameObject>)
  {
    forall k :: 0 <= k < |objs| ==> objs[k].sprite.height > 0
  }

  /** Screen rectangle of a visible object. */
  function ObjectRect(n: Numerics, p: Player, o: GameObject, screenWidth: nat, screenHeight: nat): Rect
    requires o.sprite.height > 0 && Visible(ObjectBearing(n, p, o), ObjectDistance(n, p, o))
  {
    SpriteRect(screenWidth, screenHeight, ObjectBearing(n, p, o), ObjectDistance(n, p, o), o.scale,
               o.sprite.width, o.sprite.height)
  }

  /** The writes of one object in drawObjects: none unless it is visible. */
  function ObjectWrites(n: Numerics, p: Player, o: GameObject, screenWidth: nat, screenHeight: nat,
                        textures: Textures): seq<Write>
    requires o.sprite.height > 0
  {
    if !Visible(ObjectBearing(n, p, o), ObjectDistance(n, p, o)) then []
    else
      var r := ObjectRect(n, p, o, screenWidth, screenHeight);
      SpriteColumnsUpTo(r, MaxInt(0, r.width), ObjectDistance(n, p, o), textures, o.sprite)
  }

  /** The writes of drawObjects: each object's writes, in list order. */
  function Sprites(n: Numerics, p: Player, objs: seq<GameObject>, screenWidth: nat, screenHeight: nat,
                   textures: Textures): seq<Write>
    requires TexturesLoaded(objs)
    decreases |objs|
  {
    if objs == [] then []
    else
      Sprites(n, p, objs[..|objs| - 1], screenWidth, screenHeight, textures)
      + ObjectWrites(n, p, objs[|objs| - 1], screenWidth, screenHeight, textures)
  }

  /** One more object at the end of the list is one more object batch. */
  lemma SpritesSnoc(n: Numerics, p: Player, objs: seq<GameObject>, o: GameObject, screenWidth: nat, screenHeight: nat,
                    textures: Textures)
    requires TexturesLoaded(objs) && o.sprite.height > 0
    ensures TexturesLoaded(objs + [o])
    ensures Sprites(n, p, objs + [o], screenWidth, screenHeight, textures)
         == Sprites(n, p, objs, screenWidth, screenHeight, textures) + ObjectWrites(n, p, o, screenWidth, screenHeight, textures)
  {
    assert (objs + [o])[..|objs|] == objs;
  }

  /** An object outside the field of view, or within the near clip, draws nothing;
      a drawn one writes only rows in [top, H - top) of its rectangle and only
      at its own distance. */
  lemma ObjectWritesWithinRect(n: Numerics, p: Player, o: GameObject, screenWidth: nat, screenHeight: nat,
                               textures: Textures, wr: Write)
    requires o.sprite.height > 0
    requires wr in ObjectWrites(n, p, o, screenWidth, screenHeight, textures)
    ensures Visible(ObjectBearing(n, p, o), ObjectDistance(n, p, o))
    ensures wr.distance == ObjectDistance(n, p, o)
    ensures var top := ObjectRect(n, p, o, screenWidth, screenHeight).top;
            top <= wr.y < screenHeight - top
  {
    var r := ObjectRect(n, p, o, screenWidth, screenHeight);
    SpriteColumnsMembers(r, MaxInt(0, r.width), ObjectDistance(n, p, o), textures, o.sprite, wr);
  }
}

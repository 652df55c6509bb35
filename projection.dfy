/** Screen-space geometry of drawWall and drawObjects: the ray angle of a
    column, the wall band of a column, the texture face bucket of a hit, the
    bearing and visibility of a sprite and the rectangle it covers. */
module Projection {
  import opened Scalar

  lemma TruncMonotone(a: real, b: real)
    requires a <= b
    ensures Trunc(a) <= Trunc(b)
  {
    if a >= 0.0 {
      assert a.Floor <= b.Floor;
    } else if b < 0.0 {
      assert (-b).Floor <= (-a).Floor;
    }
  }

  /** Ray angle of screen column x: x / W * FOV - HFOV + the player's angle. */
  function ColumnAngle(x: int, screenWidth: nat, playerAngle: real): real
    requires screenWidth > 0
  {
    x as real / screenWidth as real * FOV - HFOV + playerAngle
  }

  /** Columns 0 .. W-1 sweep the view from HFOV left of the heading up to,
      not including, HFOV right of it. */
  lemma ColumnAngleInView(x: int, screenWidth: nat, playerAngle: real)
    requires screenWidth > 0 && 0 <= x < screenWidth
    ensures -HFOV <= ColumnAngle(x, screenWidth, playerAngle) - playerAngle < HFOV
  {
    var f := x as real / screenWidth as real;
    assert f * screenWidth as real == x as real;
    assert 0.0 <= f < 1.0;
  }

  /** Screen column of the centre of a sprite seen at this bearing. */
  function SpriteCentre(bearing: real, screenWidth: nat): int
  {
    Trunc((bearing + HFOV) / FOV * screenWidth as real)
  }

  /** The sprite centre inverts the column angle: a sprite straight along
      the ray of column x is centred on column x. */
  lemma CentreOfColumnRay(x: int, screenWidth: nat, playerAngle: real)
    requires screenWidth > 0 && 0 <= x < screenWidth
    ensures SpriteCentre(ColumnAngle(x, screenWidth, playerAngle) - playerAngle, screenWidth) == x
  {
    var f := x as real / screenWidth as real;
    assert f * screenWidth as real == x as real;
    calc {
      (ColumnAngle(x, screenWidth, playerAngle) - playerAngle + HFOV) / FOV * screenWidth as real;
      (f * FOV) / FOV * screenWidth as real;
      f * screenWidth as real;
      x as real;
    }
  }

  /** A sprite inside the field of view is centred on a column in [0, W]. */
  lemma VisibleCentreOnScreen(bearing: real, screenWidth: nat)
    requires -HFOV <= bearing <= HFOV
    ensures 0 <= SpriteCentre(bearing, screenWidth) <= screenWidth
  {
    var f := (bearing + HFOV) / FOV;
    assert 0.0 <= f <= 1.0;
    assert 0.0 <= f * screenWidth as real <= screenWidth as real by {
      assert f * screenWidth as real <= 1.0 * screenWidth as real;
    }
    TruncMonotone(f * screenWidth as real, screenWidth as real);
  }

  /** Rows of the wall slice of a column at this distance: the ceiling row
      and the floor row, each H/2 -/+ H/(2 distance) truncated. */
  function WallBand(screenHeight: nat, distance: real): (band: (int, int))
    requires distance != 0.0
  {
    var delta := screenHeight as real / distance / 2.0;
    (Trunc(screenHeight as real / 2.0 - delta), Trunc(screenHeight as real / 2.0 + delta))
  }

  lemma TruncPairSum(a: real, h: int)
    requires h as real - a >= 0.0
    ensures h - 1 <= Trunc(a) + Trunc(h as real - a) <= h
  {
    var b := h as real - a;
    if a >= 0.0 {
      var fa := a.Floor;
      assert (h - fa - 1) as real < b <= (h - fa) as real;
      assert b.Floor == h - fa - 1 || b.Floor == h - fa;
    } else {
      var g := (-a).Floor;
      assert (h + g) as real <= b < (h + g + 1) as real;
      assert b.Floor == h + g;
    }
  }

  /** In front of the player the wall band is centred on the horizon: the
      ceiling row is at most the floor row and the two add up to H or H-1. */
  lemma WallBandCentred(screenHeight: nat, distance: real)
    requires distance > 0.0
    ensures WallBand(screenHeight, distance).0 <= WallBand(screenHeight, distance).1
    ensures screenHeight - 1 <= WallBand(screenHeight, distance).0 + WallBand(screenHeight, distance).1 <= screenHeight
    ensures 0 <= WallBand(screenHeight, distance).1
  {
    var hh := screenHeight as real;
    var delta := hh / distance / 2.0;
    assert delta >= 0.0;
    assert hh / 2.0 + delta == hh - (hh / 2.0 - delta);
    TruncPairSum(hh / 2.0 - delta, screenHeight);
    TruncMonotone(hh / 2.0 - delta, hh / 2.0 + delta);
  }

  /** A nearer wall has a taller band: its ceiling row is not lower and its
      floor row not higher than those of a farther wall. */
  lemma NearerWallIsTaller(screenHeight: nat, near: real, far: real)
    requires 0.0 < near <= far
    ensures WallBand(screenHeight, near).0 <= WallBand(screenHeight, far).0
    ensures WallBand(screenHeight, far).1 <= WallBand(screenHeight, near).1
  {
    var hh := screenHeight as real;
    DivAntitone(hh, near, far);
    TruncMonotone(hh / 2.0 - hh / near / 2.0, hh / 2.0 - hh / far / 2.0);
    TruncMonotone(hh / 2.0 + hh / far / 2.0, hh / 2.0 + hh / near / 2.0);
  }

  /** The four texture buckets of the hit angle: [A, B), [B, C), [C, D) and
      everything else, numbered 0 to 3. */
  predicate InBucket(angle: real, b: int)
  {
    if b == 0 then AngleA <= angle < AngleB
    else if b == 1 then AngleB <= angle < AngleC
    else if b == 2 then AngleC <= angle < AngleD
    else b == 3 && (angle < AngleA || AngleD <= angle)
  }

  /** The bucket the if / else-if chain of drawWall picks. The buckets are
      exhaustive and disjoint: every angle is in exactly the bucket chosen. */
  function Bucket(angle: real): (b: int)
    ensures 0 <= b < 4 && InBucket(angle, b)
    ensures forall c :: InBucket(angle, c) ==> c == b
  {
    if angle >= AngleA && angle < AngleB then 0
    else if angle >= AngleB && angle < AngleC then 1
    else if angle >= AngleC && angle < AngleD then 2
    else 3
  }

  /** The horizontal texture coordinate of a wall hit: the fractional x of
      the hit point for angles in [-3pi/4, -pi/4) or [pi/4, 3pi/4), the
      fractional y otherwise; in [0, 1) for a hit point with non-negative
      coordinates. */
  function TextureOffset(textureAngle: real, hit: Vec): (u: real)
    ensures (AngleA <= textureAngle < AngleB || AngleC <= textureAngle < AngleD) ==> u == TruncFract(hit.x)
    ensures !(AngleA <= textureAngle < AngleB || AngleC <= textureAngle < AngleD) ==> u == TruncFract(hit.y)
    ensures hit.x >= 0.0 && hit.y >= 0.0 ==> 0.0 <= u < 1.0
  {
    match Bucket(textureAngle)
    case 0 => TruncFract(hit.x)
    case 1 => TruncFract(hit.y)
    case 2 => TruncFract(hit.x)
    case _ => TruncFract(hit.y)
  }

  /** v lies strictly within 0.1 of the grid line k. */
  predicate NearLine(v: real, k: int)
  {
    -0.1 < v - k as real < 0.1
  }

  /** isEdge: the fractional part of either coordinate is below 0.1 or above 0.9. */
  function IsEdge(hitX: real, hitY: real): bool
  {
    Fract(hitX) < 0.1 || Fract(hitX) > 0.9 || Fract(hitY) < 0.1 || Fract(hitY) > 0.9
  }

  lemma NearSomeLine(v: real)
    ensures (Fract(v) < 0.1 || Fract(v) > 0.9) <==> exists k :: NearLine(v, k)
  {
    var f := v.Floor;
    if Fract(v) < 0.1 {
      assert NearLine(v, f);
    } else if Fract(v) > 0.9 {
      assert NearLine(v, f + 1);
    } else {
      forall k ensures !NearLine(v, k) {
        if k <= f {
          assert v - k as real >= v - f as real;
        } else {
          assert k as real >= f as real + 1.0;
        }
      }
    }
  }

  /** A hit point is an edge exactly when one of its coordinates is within
      0.1 of a grid line. */
  lemma IsEdgeNearGridLine(hitX: real, hitY: real)
    ensures IsEdge(hitX, hitY) <==> (exists k :: NearLine(hitX, k)) || (exists k :: NearLine(hitY, k))
  {
    NearSomeLine(hitX);
    NearSomeLine(hitY);
  }

  /** The bearing taken into [-PI, PI] by a single correction of 2 PI. */
  function NormalizeBearing(raw: real): (a: real)
    ensures -3.0 * PI <= raw <= 3.0 * PI ==> -PI <= a <= PI
    ensures -PI <= raw <= PI ==> a == raw
    ensures a == raw || a == raw - 2.0 * PI || a == raw + 2.0 * PI
  {
    if raw > PI then raw - 2.0 * PI
    else if raw < -PI then raw + 2.0 * PI
    else raw
  }

  /** Bearing of an object from the player's heading, given the two atan2
      values (of the heading and of the offset to the object). With both
      in [-1.5 PI, 1.5 PI], a range that takes in every atan2 result
      including a float pi slightly above the program's PI, the bearing is
      in [-PI, PI]; it differs from the plain difference by a whole turn at
      most. */
  function Bearing(headingAtan: real, objectAtan: real): (a: real)
    ensures -1.5 * PI <= headingAtan <= 1.5 * PI && -1.5 * PI <= objectAtan <= 1.5 * PI ==> -PI <= a <= PI
    ensures a == objectAtan - headingAtan || a == objectAtan - headingAtan - 2.0 * PI
         || a == objectAtan - headingAtan + 2.0 * PI
  {
    NormalizeBearing(-headingAtan + objectAtan)
  }

  /** The gate of drawObjects: inside the field of view and farther than
      the near clip. */
  predicate Visible(bearing: real, distance: real)
  {
    -HFOV <= bearing <= HFOV && distance > NearClip
  }

  /** Screen rectangle of a billboard: top row, left column, and the number
      of rows and columns drawn. */
  datatype Rect = Rect(left: int, top: int, width: int, height: int)

  /** Top row of a sprite: H/2 - (H / distance / 2) * scale, truncated. A
      sprite of non-negative scale starts at or above the horizon. */
  function SpriteTop(screenHeight: nat, distance: real, scale: real): (top: int)
    requires distance > 0.0
    ensures scale >= 0.0 ==> 2 * top <= screenHeight
  {
    var hh := screenHeight as real;
    var delta := HalfSpan(hh, distance, scale);
    assert scale >= 0.0 ==> 2 * Trunc(hh / 2.0 - delta) <= screenHeight by {
      if scale >= 0.0 {
        TruncMonotone(hh / 2.0 - delta, hh / 2.0);
      }
    }
    Trunc(hh / 2.0 - delta)
  }

  /** Half the sprite's on-screen height: (H / distance) / 2 * scale, never
      negative for a non-negative scale and shrinking with distance. */
  function HalfSpan(hh: real, distance: real, scale: real): (delta: real)
    requires distance > 0.0
    ensures hh >= 0.0 && scale >= 0.0 ==> delta >= 0.0
  {
    assert hh >= 0.0 && scale >= 0.0 ==> hh / distance / 2.0 * scale >= 0.0 by {
      if hh >= 0.0 && scale >= 0.0 {
        DivNonNegative(hh, distance);
        MulNonNegative(hh / distance / 2.0, scale);
      }
    }
    hh / distance / 2.0 * scale
  }

  /** The sprite rectangle: rows from SpriteTop down to bottom = H - top, so
      the sprite is centred on the horizon; width from the texture's aspect
      ratio; centred on the column of its bearing. */
  function SpriteRect(screenWidth: nat, screenHeight: nat, bearing: real, distance: real, scale: real,
                      textureWidth: nat, textureHeight: nat): (r: Rect)
    requires distance > 0.0 && textureHeight > 0
    ensures r.top == SpriteTop(screenHeight, distance, scale)
    ensures r.top + r.height == screenHeight - r.top
    ensures scale >= 0.0 ==> 2 * r.top <= screenHeight && r.height >= 0 && r.width >= 0
    ensures -1 <= 2 * (SpriteCentre(bearing, screenWidth) - r.left) - r.width <= 1
  {
    var top := SpriteTop(screenHeight, distance, scale);
    var bottom := screenHeight - top;
    var height := bottom - top;
    var aspectRatio := textureWidth as real / textureHeight as real;
    assert height >= 0 ==> aspectRatio * height as real >= 0.0 by {
      DivNonNegative(textureWidth as real, textureHeight as real);
      if height >= 0 {
        MulNonNegative(aspectRatio, height as real);
      }
    }
    var width := Trunc(aspectRatio * height as real);
    var midx := SpriteCentre(bearing, screenWidth);
    Rect(midx - Half(width), top, width, height)
  }

  /** The sprite's half height shrinks with distance. */
  lemma HalfSpanAntitone(hh: real, near: real, far: real, scale: real)
    requires hh >= 0.0 && 0.0 < near <= far && scale >= 0.0
    ensures HalfSpan(hh, far, scale) <= HalfSpan(hh, near, scale)
  {
    DivAntitone(hh, near, far);
    MulMonotoneReal(hh / far / 2.0, hh / near / 2.0, scale);
  }

  /** A nearer sprite starts on a row no lower than a farther one, so it
      covers at least as many rows. */
  lemma NearerSpriteIsTaller(screenHeight: nat, near: real, far: real, scale: real)
    requires 0.0 < near <= far && scale >= 0.0
    ensures SpriteTop(screenHeight, near, scale) <= SpriteTop(screenHeight, far, scale)
  {
    var hh := screenHeight as real;
    HalfSpanAntitone(hh, near, far, scale);
    TruncMonotone(hh / 2.0 - HalfSpan(hh, near, scale), hh / 2.0 - HalfSpan(hh, far, scale));
  }
}

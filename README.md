# Grid raycaster: a Dafny model

This project models the rendering and object core of a small first-person
grid raycaster (`Source.cpp`). The game keeps these pieces of state:

- a tile map of walls (`1`) and open cells (`0`);
- a player with a position and a heading;
- a list of game objects: a static lamp, and fireballs that move and
  remove themselves when they leave the map or enter a wall;
- a per-pixel depth buffer.

Every frame does the following, in order:

1. Update each object, walking the list from the back, and erase those
   flagged removed.
2. Refill the depth buffer with 1000.
3. For every screen column, cast a ray with a grid traversal (DDA) and draw
   that column's ceiling, textured wall band and floor.
4. Draw every visible object as a billboard sprite.

Every pixel goes through one depth-gated `Draw`. It writes only when the
new distance is strictly nearer than the stored one.

The model is split into these modules:

- `Scalar`: the program's constants and the C++ conversions it relies on.
  Float-to-int truncates toward zero, and integer halving truncates too.
  The transcendental functions `sqrtf`, `sinf`, `cosf` and `atan2f` are
  passed in as a `Numerics` value.
- `Grid`: the tile map and the shipped 10 x 7 level.
- `RayCaster`: `cast_ray`.
  - It is specified by the pure functions `Setup`, `Step`, `Walk` and
    `Cast`.
  - The methods `PrepareCast` and `CastRay` follow the source's
    statements and are proved equal to those functions.
- `Depth`: the depth buffer.
  - Specification: each draw call is a `Write(x, y, distance)`, and
    `Composite` folds the gated update `Apply` over a sequence of writes.
  - Properties proved: each pixel ends at the minimum of the writes that
    target it, the result does not depend on the order of the writes, and
    redrawing changes nothing.
  - `DepthBuffer` is the imperative buffer (an array) with `Reset` and
    `Draw`.
- `Objects`: game objects, their `update` overrides, and the survivors of
  one update pass.
- `Projection`: screen-space geometry.
  - Column angles, the wall band, the texture-face bucket of a hit, and
    `isEdge`.
  - The sprite bearing, the visibility gate, and the sprite rectangle.
- `Render`: the exact sequences of writes that `drawWall`, `raycast` and
  `drawObjects` issue. It proves what each batch does to every pixel.
- `Engine`: the `Game` class. Its methods update the object list in place,
  draw walls and sprites into the depth buffer, and run a whole frame.
  Each method is proved to leave the buffer equal to `Composite` of the
  corresponding write sequence.

## Model

| member | source | states |
|---|---|---|
| Scalar.Trunc | Source.cpp:301-302 | float-to-int conversion truncates toward zero: within 1 of the value, below it for non-negatives and above it for negatives, and non-negative exactly when the value exceeds -1 |
| Scalar.Half | Source.cpp:376 | integer division by 2 truncates toward zero: n - 2h is 0 or 1 for n >= 0 and 0 or -1 for n < 0, and the half lies between 0 and the value |
| Scalar.TruncFract | Source.cpp:316-325 | `v - (int)v` lies in [0, 1) for non-negative v and in (-1, 0] for negative v |
| Scalar.Fract | Source.cpp:253-254 | `v - floor(v)` lies in [0, 1), and v minus it is a whole number |
| Grid.SampleMap | Source.cpp:207-222 | the shipped level is well shaped with W = 7 and H = 10, and every border cell is a wall |
| Grid.GameMap.Solid | Source.cpp:113-114 | a cell is a wall only when it lies inside the map and holds 1; a cell outside is never indexed and never a wall (its consequences are stated by RayCaster.CastHitIsSolid and Objects.CollidesIffBlockedCell) |
| RayCaster.Running | Source.cpp:101 | the loop condition: nothing hit yet and the distance below the limit (RayCaster.Walk ends exactly when it fails) |
| RayCaster.Setup | Source.cpp:67-97 | the probe starts in the truncated start cell at distance 0 without a hit; each step is +1 for a positive direction component and -1 otherwise; a zero x component replaces the x unit length with the limit, and otherwise a zero y component replaces the y unit length; running probes have positive unit lengths; from a non-negative start both first crossings are non-negative |
| RayCaster.FirstCrossing | Source.cpp:81-97 | the first boundary crossing length is non-negative when the start, base and unit are |
| RayCaster.Step | Source.cpp:100-117 | one iteration moves one cell along x when lenX < lenY, and otherwise (ties included) one cell along y; it advances only that axis's length, reports the smaller length as the distance, and hits exactly when the new cell is a solid in-map cell |
| RayCaster.Walk | Source.cpp:99-118 | the loop ends in a state where it no longer runs: either a hit, or a distance at or past the limit |
| RayCaster.Cast | Source.cpp:66-121 | the whole cast: set-up followed by the loop run to its end (its meaning is stated by RayCaster.CastRay, RayCaster.CastHitIsSolid and RayCaster.CastEastHitsFirstWall / CastWestHitsFirstWall) |
| RayCaster.PrepareCast | Source.cpp:67-97 | the setup statements compute exactly `Setup` |
| RayCaster.CastRay | Source.cpp:66-121 | the method returns `Cast`'s hit flag and distance; a hit lies on a solid cell; a miss has distance at least the limit |
| RayCaster.WalkHitIsSolid | Source.cpp:113-117 | walking from a consistent state never reports a hit on a cell that is not solid |
| RayCaster.CastHitIsSolid | Source.cpp:113-117 | a cast that reports a hit stopped in a solid in-map cell |
| RayCaster.WalkDistanceGrows | Source.cpp:101-111 | the reported distance never decreases along the walk |
| RayCaster.CastDistanceNonNegative | Source.cpp:81-111 | from a start inside the positive quadrant the reported distance is non-negative |
| RayCaster.SampleCastEast | Source.cpp:66-121 | in the shipped level, from (2, 2) along +x the ray hits the east wall cell (6, 2) at distance 4 |
| RayCaster.WalkEastToWall | Source.cpp:99-118 | a ray moving along +x through open cells enters the first wall cell c of its row and reports a hit there, at the length c - x0 at which it crosses into that cell |
| RayCaster.WalkWestToWall | Source.cpp:99-118 | the mirror along -x: the hit is on the first wall cell c to the left, at the length x0 - (c + 1) |
| RayCaster.CastEastHitsFirstWall | Source.cpp:66-121 | for every start in the positive quadrant and every row, a cast along +x hits the first wall cell c to the right at distance c - start.x whenever that is below the limit |
| RayCaster.CastWestHitsFirstWall | Source.cpp:66-121 | for every such start, a cast along -x hits the first wall cell c to the left at distance start.x - (c + 1) whenever that is below the limit |
| RayCaster.MissOvershootsLimit | Source.cpp:101-120 | a tie between lenX and lenY steps along y, and a miss reports the overshooting distance (1.5 for limit 1), not the limit |
| Depth.IndexInRange | Source.cpp:238-242 | the index `y * W + x` of an on-screen pixel lies inside the buffer |
| Depth.IndexInjective | Source.cpp:242 | distinct on-screen pixels have distinct buffer slots |
| Depth.Accepts | Source.cpp:238-243 | the bounds check and the strict depth test of `Draw` (Depth.ApplyChangesIffAccepted and Depth.DepthBuffer.Draw state what it decides) |
| Depth.Apply | Source.cpp:237-246 | one `Draw` keeps the buffer's size; Depth.ApplySlot states its effect on every slot |
| Depth.ApplySlot | Source.cpp:237-246 | after one gated write, the slot it targets holds the smaller of its old value and the write's distance; every other slot is unchanged |
| Depth.ApplyChangesIffAccepted | Source.cpp:237-246 | a write changes the buffer exactly when it is on screen and strictly nearer than the stored value |
| Depth.Composite | Source.cpp:237-246 | a sequence of `Draw` calls keeps the buffer's size; Depth.CompositeSlot states that each slot ends at the minimum of its start value and the writes to it |
| Depth.CompositeSnoc | Source.cpp:237-246 | drawing one more write after a batch is one more gated update |
| Depth.CompositeSlot | Source.cpp:237-246 | after any batch, each slot is at most its old value and at most every write that targets it, and equals one of those values |
| Depth.OrderIndependent | Source.cpp:237-246 | two batches holding the same writes in any order leave the same buffer |
| Depth.CompositeAppend | Source.cpp:463-465 | drawing two batches one after the other is drawing their concatenation |
| Depth.BatchesCommute | Source.cpp:464-465 | drawing walls then sprites leaves the same buffer as sprites then walls |
| Depth.RedrawIsIdempotent | Source.cpp:237-246 | drawing the same batch twice leaves the same buffer as drawing it once |
| Depth.WrittenPixelRejectsFarther | Source.cpp:242-244 | once a pixel has been written at distance d, no later write at a distance of d or more passes the gate |
| Depth.Cleared | Source.cpp:461 | the refilled buffer has one slot per pixel, each holding 1000 |
| Depth.DepthBuffer.constructor | Source.cpp:410 | the buffer has one slot per screen pixel |
| Depth.DepthBuffer.Reset | Source.cpp:461 | every slot becomes 1000 |
| Depth.DepthBuffer.Draw | Source.cpp:237-246 | the pixel is plotted exactly when it is on screen and strictly nearer than the stored distance, and the buffer becomes the gated update of the old one |
| Objects.Spawn | Source.cpp:27-32 | a new object has the given kind, sprite and position, scale 1, and is not removed |
| Objects.Moved | Source.cpp:45-46 | the position advanced by v * dt on each axis (used by Objects.Update's contract) |
| Objects.Collides | Source.cpp:59 | the fireball's removal test; Objects.CollidesIffBlockedCell states it is "off the map or a wall" |
| Objects.Update | Source.cpp:34-62 | a static object is unchanged; a moving object advances by v * dt; a fireball advances and is flagged removed exactly when it was already removed or its new position collides; removal is never undone; kind, sprite and scale are kept |
| Objects.CollidesIffBlockedCell | Source.cpp:59 | a fireball collides exactly when the cell under its position is outside the map or a wall |
| Objects.Survivors | Source.cpp:454-459 | the list after one update pass; Objects.SurvivorsMembers, Objects.SurvivorsConcat and Engine.Game.UpdateObjects state its meaning |
| Objects.SurvivorsFrom | Source.cpp:454-459 | the survivors of a suffix are the updated head, unless it is removed, followed by the survivors of the rest |
| Objects.ReplaceBetween | Source.cpp:455 | updating the object at index i in place replaces only that element |
| Objects.EraseBetween | Source.cpp:457 | erasing index i drops exactly that element and keeps the rest in order |
| Objects.SurvivorsMembers | Source.cpp:454-459 | an object survives the pass exactly when it is the update of some listed object and that update is not removed |
| Objects.SurvivorsConcat | Source.cpp:454-459 | the pass treats objects independently: the survivors of a concatenation are the concatenation of the survivors |
| Objects.NothingRemovedKeepsAll | Source.cpp:454-459 | when no update is removed, the pass keeps every object in place as its update |
| Objects.SampleFireballStays | Source.cpp:57-62 | a fireball at (3, 3) moving at (2, 0) for 0.5 reaches the open cell (4, 3) and stays |
| Objects.SampleFireballHitsWall | Source.cpp:57-62 | a fireball at (1.5, 5.5) moving at (2, 0) for 0.5 enters the wall cell (2, 5) and is removed |
| Projection.ColumnAngle | Source.cpp:295 | the ray angle of a screen column; Projection.ColumnAngleInView bounds it to the field of view |
| Projection.SpriteCentre | Source.cpp:375 | the centre column of a sprite at a bearing; Projection.CentreOfColumnRay shows it inverts Projection.ColumnAngle |
| Projection.ColumnAngleInView | Source.cpp:295 | every screen column's ray lies within [-HFOV, HFOV) of the heading |
| Projection.CentreOfColumnRay | Source.cpp:375 | the sprite centre column inverts the column angle: an object seen along column x's ray is centred on column x |
| Projection.VisibleCentreOnScreen | Source.cpp:366-375 | an object inside the field of view is centred on a column in [0, W] |
| Projection.WallBand | Source.cpp:300-302 | the ceiling and floor rows of a wall at a distance; Projection.WallBandCentred and Projection.NearerWallIsTaller state its shape |
| Projection.WallBandCentred | Source.cpp:300-302 | for a wall in front, the ceiling row is not below the floor row, the floor row is non-negative, and the two rows add up to H or H - 1 |
| Projection.NearerWallIsTaller | Source.cpp:300-302 | a nearer wall's band starts no lower and ends no higher than a farther wall's |
| Projection.Bucket | Source.cpp:315-326 | the if / else-if chain picks one of four buckets; the hit angle lies in it and in no other |
| Projection.TextureOffset | Source.cpp:313-326 | buckets A..B and C..D sample by the hit's x fraction, the others by its y fraction; for a hit in the positive quadrant the offset lies in [0, 1) |
| Projection.IsEdge | Source.cpp:252-257 | `isEdge`; Projection.IsEdgeNearGridLine states it holds exactly near a grid line |
| Projection.NearSomeLine | Source.cpp:253-256 | a coordinate's fractional part is below 0.1 or above 0.9 exactly when the coordinate lies strictly within 0.1 of a grid line |
| Projection.IsEdgeNearGridLine | Source.cpp:252-257 | a hit point is an edge exactly when one of its coordinates lies within 0.1 of a grid line |
| Projection.NormalizeBearing | Source.cpp:355-360 | one 2 PI correction brings a raw bearing in [-3 PI, 3 PI] into [-PI, PI], leaves a bearing already there unchanged, and changes it by at most one turn |
| Projection.Bearing | Source.cpp:353-360 | with both atan2 values in [-1.5 PI, 1.5 PI] (every atan2 result, float pi included), the bearing lies in [-PI, PI]; it is the difference of the two angles, or that difference less or plus one turn |
| Projection.Visible | Source.cpp:366 | the draw gate: bearing within the half field of view and distance beyond 0.5; Render.ObjectWritesWithinRect states that only visible objects write |
| Projection.HalfSpan | Source.cpp:367 | the sprite's half height is non-negative for a non-negative screen height and scale |
| Projection.HalfSpanAntitone | Source.cpp:367 | the sprite's half height shrinks as the distance grows |
| Projection.SpriteTop | Source.cpp:368 | for a non-negative scale the sprite's top row lies in the upper half of the screen |
| Projection.SpriteRect | Source.cpp:367-376 | the bottom row is H - top, so the sprite is centred on the horizon at any scale; height and width are non-negative; the left column puts the sprite's middle within half a pixel of the centre column |
| Projection.NearerSpriteIsTaller | Source.cpp:367-368 | a nearer sprite starts on a row no lower than a farther one |
| Render.RowRun | Source.cpp:305-307 | a row loop issues one write per row from lo to hi - 1, in order, all at the given distance |
| Render.RowRunMembers | Source.cpp:305-307 | a write belongs to a row run exactly when it is in the column, in the row range, at the run's distance |
| Render.RowRunSnoc | Source.cpp:305-307 | one more loop iteration appends the write for that row |
| Render.ColumnWritesCoverColumn | Source.cpp:305-335 | when ceiling <= floor and the floor is not above the screen, the ceiling, wall and floor loops together write every row of the column, all at the cast distance |
| Render.PixelEffect | Source.cpp:237-246 | a batch whose writes to a pixel all carry distance d leaves that pixel at min(old, d) if it writes it, and unchanged otherwise |
| Render.ColumnDirection | Source.cpp:295-296 | the unit direction (cos, sin) of a column's ray angle |
| Render.ColumnDistance | Source.cpp:295-298 | the distance drawWall's cast returns for a column; Engine.Game.CastColumn computes it |
| Render.HypotSteps | Source.cpp:67 | both unit crossing lengths are at least 1 |
| Render.ColumnWrites | Source.cpp:305-335 | the ceiling, wall and floor loops of one column as writes; Render.ColumnWritesCoverColumn states they cover the column at one distance |
| Render.WallColumn | Source.cpp:300-335 | drawWall's writes for a column at its cast distance; Render.WallColumnFills states it fills the column |
| Render.Walls | Source.cpp:338-343 | raycast's writes, column by column; Render.WallsCover and Render.WallsEffect state their effect |
| Render.WallsSnoc | Source.cpp:338-343 | the next column of the raycast loop appends that column's wall writes |
| Render.WallColumnFills | Source.cpp:294-336 | drawWall for a wall in front writes every row of its column, all at the cast distance |
| Render.WallsCover | Source.cpp:338-343 | raycast writes every row of each drawn column at that column's distance, and nothing else |
| Render.WallsEffect | Source.cpp:338-343 | after raycast, each pixel of a drawn column holds the nearer of its old value and its column's distance; other pixels are unchanged |
| Render.FramePixel | Source.cpp:461-465 | after the refill, the walls and any sprite writes, each pixel holds the minimum of 1000, its column's wall distance and the sprite writes that land on it |
| Render.SpriteRowsUpTo | Source.cpp:380-385 | the inner sprite loop's writes; Render.SpriteRowsMembers states exactly which they are |
| Render.SpriteColumnsUpTo | Source.cpp:378-386 | both sprite loops' writes; Render.SpriteColumnsMembers and Render.SpriteEffect state which they are and what they do |
| Render.SpriteRowsSnoc | Source.cpp:380-384 | one more inner iteration appends a write exactly when the texel is opaque |
| Render.SpriteRowsMembers | Source.cpp:380-384 | the inner loop writes exactly the opaque texels of its texture column, at the object's distance |
| Render.SpriteColumnsMembers | Source.cpp:378-386 | the two sprite loops write exactly the opaque texels of the rectangle, at the object's distance |
| Render.SpriteEffect | Source.cpp:378-386 | a billboard lowers exactly the on-screen pixels it covers with an opaque texel, each to min(old, distance), and leaves all others unchanged |
| Render.ObjectBearing | Source.cpp:353-360 | an object's bearing from the heading; Projection.Bearing states its range |
| Render.ObjectDistance | Source.cpp:363 | the length of the offset from the player to an object |
| Render.ObjectWrites | Source.cpp:366-386 | one object's writes; Render.ObjectWritesWithinRect states they exist only for a visible object, at its distance, inside its rows |
| Render.Sprites | Source.cpp:350-388 | drawObjects's writes, object by object in list order; Engine.Game.DrawObjects draws them |
| Render.SpritesSnoc | Source.cpp:350 | one more object in the list appends that object's writes |
| Render.ObjectWritesWithinRect | Source.cpp:366-386 | an object writes only when it is visible (within the half field of view and beyond 0.5), at its own distance, between its top and bottom rows |
| Engine.SurvivorsKeepTextures | Source.cpp:454-459 | the objects that survive an update pass keep their textures |
| Engine.Game.constructor | Source.cpp:399-410 | the game starts on the shipped level with the player at (2, 2) facing +x, one lamp at (3, 3), and a one-slot-per-pixel buffer |
| Engine.Game.UpdateAt | Source.cpp:455-458 | one iteration at index i turns the prefix ending at i plus the survivors after it into the prefix before i plus the survivors from i |
| Engine.Game.UpdateObjects | Source.cpp:454-459 | the backward update-and-erase loop leaves exactly the survivors of the old list, in order |
| Engine.Game.CastColumn | Source.cpp:295-298 | the ray of column x returns that column's cast distance |
| Engine.Game.DrawRun | Source.cpp:305-307 | a row loop leaves the buffer as the gated fold of its row run |
| Engine.Game.DrawWall | Source.cpp:294-336 | drawWall returns the column's cast distance and leaves the buffer as the fold of that column's ceiling, wall and floor writes |
| Engine.Game.Raycast | Source.cpp:338-343 | raycast casts every column left to right and leaves the buffer as the fold of all wall columns at those distances |
| Engine.Game.DrawTexelColumn | Source.cpp:380-385 | the inner sprite loop leaves the buffer as the fold of its opaque-texel writes |
| Engine.Game.DrawBillboard | Source.cpp:378-386 | the sprite loops leave the buffer as the fold of the rectangle's opaque-texel writes |
| Engine.Game.DrawObject | Source.cpp:352-387 | one loop body leaves the buffer as the fold of that object's writes, which are empty unless the object is visible |
| Engine.Game.DrawNext | Source.cpp:350-388 | one more iteration of the object loop extends the fold by that object's writes |
| Engine.Game.DrawObjects | Source.cpp:345-389 | drawObjects leaves the buffer as the fold of every object's writes, in list order |
| Engine.Game.Frame | Source.cpp:454-465 | a frame leaves exactly the survivors as the object list; the buffer becomes the refilled buffer folded with every wall column's writes and then the writes of every surviving object, in list order |

The source cites are to `Source.cpp`.

Three details of the traversal that the model reproduces:

- On an exact tie between the two crossing lengths, the loop steps along y
  (`Source.cpp:102`). `RayCaster.Step` and `RayCaster.MissOvershootsLimit`
  state this.
- A miss reports the distance of its last step, which can exceed the limit
  (`Source.cpp:120`). `RayCaster.CastRay` states `distance >= maxDistance`
  for a miss, and `RayCaster.MissOvershootsLimit` exhibits an overshoot.
- An axis-aligned ray replaces the unit length with the limit on one axis
  only: x when the x component is zero, and otherwise y
  (`Source.cpp:72-79`).

## Left out

- Floating point: `float`/`double` are modelled as exact reals. Rounding,
  NaN and infinities are not modelled, and neither is `int` overflow of
  screen indices.
- `sqrtf`, `sinf`, `cosf`, `atan2f` and `mag()` are parameters (`Numerics`).
  The model assumes only that a square root of at least 1 is at least 1.
- RayCaster.CastRay: it takes the two unit crossing lengths as arguments instead of calling `sqrtf` itself; `Render.HypotSteps` computes them from the ray direction with the supplied square root.
- Render.HypotSteps: it stands in 1.0 for the unit length of a zero
  direction component. The cast replaces that value except when both
  components are zero; there the source divides 0 by 0 and gets NaN, which
  the model does not reproduce.
- Engine.Game.DrawWall: it requires a non-zero cast distance. At distance 0
  the source divides by zero and converts an infinite float to int, which
  is undefined behaviour. `Raycast` and `Frame` require this of every
  column (`ColumnsDefined`).
- Engine.Game.DrawObject: it requires the object's texture to have a
  positive height, and so do `DrawNext`, `DrawObjects` and `Frame` for every
  object (`Render.TexturesLoaded`). A zero-height texture, such as a
  failed load, makes the source divide by zero in the aspect ratio and
  convert the result to int (`Source.cpp:372-373`), which is undefined
  behaviour. The source reaches that division only once the object passes
  the visibility gate (`Source.cpp:366`). The model requires a positive
  height of every object, so it does not cover an invisible object whose
  texture failed to load, which the source skips safely.
- Pixel colours are left out: BLUE, DARK_RED, wall-texture sampling and the
  lamp/fireball texels. A sprite texel's alpha is the predicate `Textures`.
  `Draw`'s `plotted` result stands for the `PixelGameEngine::Draw` call.
  `Projection.TextureOffset` and `Projection.Bucket` model the wall
  texture coordinate, but the wall writes do not carry it, because the
  coordinate affects only colour.
- Engine.Game.Frame: it covers only the object update, the depth buffer
  refill and the two draw passes. Keyboard input is left out, because it
  depends on the engine's input state: movement and turning
  (`Source.cpp:418-444`) and the SPACE fireball spawn (`Source.cpp:446-452`).
- `Clear(olc::BLACK)`, `drawMap` and `shootRay`, the debug-only mini-map
  (`Source.cpp:259-291`, `463`, `466`), are left out.
- Asset loading (`Source.cpp:405-407`) is replaced by `SpriteRef`: a texture
  id with the sprite's width and height.
- `getLookDir` (`Source.cpp:18-20`) and `dist` (`Source.cpp:248-250`) are left
  out, because nothing calls them.
- Memory management: objects are values, so `new` and the missing `delete`
  of erased objects are not modelled.
- Depth.DepthBuffer.constructor: it states nothing about the initial
  contents. `new float[]` leaves them uninitialised in the source; every
  frame refills the buffer before drawing.
- The depth buffer is a field of `Game` allocated at construction, rather
  than in `OnUserCreate`. The screen size is the buffer's size.

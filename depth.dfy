/** The per-pixel depth buffer that gates every draw call. The buffer is a
    flat array of width * height distances, row-major; a write outside the
    screen is dropped and a write on the screen passes only when it is
    strictly nearer than what the pixel already holds. */
module Depth {
  import opened Scalar

  /** One attempted pixel write: column, row and the distance it is drawn at. */
  datatype Write = Write(x: int, y: int, distance: real)

  predicate OnScreen(w: nat, h: nat, x: int, y: int)
  {
    0 <= x < w && 0 <= y < h
  }

  /** Row-major slot of pixel (x, y). */
  function Index(w: nat, x: int, y: int): int
  {
    y * w + x
  }

  lemma IndexInRange(w: nat, h: nat, x: int, y: int)
    requires OnScreen(w, h, x, y)
    ensures 0 <= Index(w, x, y) < w * h
  {
    assert y * w <= (h - 1) * w by { MulMonotone(y, h - 1, w); }
    assert (h - 1) * w == h * w - w;
  }

  lemma MulMonotone(a: int, b: int, w: nat)
    requires a <= b
    ensures a * w <= b * w
  {
    assert b * w - a * w == (b - a) * w;
  }

  /** Two pixels on the screen share a slot only when they are the same pixel. */
  lemma IndexInjective(w: nat, h: nat, x1: int, y1: int, x2: int, y2: int)
    requires OnScreen(w, h, x1, y1) && OnScreen(w, h, x2, y2)
    requires Index(w, x1, y1) == Index(w, x2, y2)
    ensures x1 == x2 && y1 == y2
  {
    if y1 < y2 {
      assert (y1 + 1) * w == y1 * w + w;
      MulMonotone(y1 + 1, y2, w);
    } else if y2 < y1 {
      assert (y2 + 1) * w == y2 * w + w;
      MulMonotone(y2 + 1, y1, w);
    }
  }

  /** The distance stored for on-screen pixel (x, y). */
  function At(buf: seq<real>, w: nat, h: nat, x: int, y: int): real
    requires |buf| == w * h && OnScreen(w, h, x, y)
  {
    IndexInRange(w, h, x, y);
    buf[Index(w, x, y)]
  }

  /** The write lands on slot i of the buffer. */
  predicate Targets(w: nat, h: nat, wr: Write, i: int)
  {
    OnScreen(w, h, wr.x, wr.y) && Index(w, wr.x, wr.y) == i
  }

  /** The depth test: the write is on the screen and strictly nearer than
      the distance stored for its pixel. */
  predicate Accepts(buf: seq<real>, w: nat, h: nat, wr: Write)
    requires |buf| == w * h
  {
    OnScreen(w, h, wr.x, wr.y) && (IndexInRange(w, h, wr.x, wr.y); buf[Index(w, wr.x, wr.y)] > wr.distance)
  }

  /** The buffer after one gated write: the slot of an accepted write takes
      its distance, so every slot holds the nearer of its old distance and
      the distances written to it; nothing else changes. */
  function Apply(buf: seq<real>, w: nat, h: nat, wr: Write): (r: seq<real>)
    requires |buf| == w * h
    ensures |r| == |buf|
  {
    if Accepts(buf, w, h, wr) then
      IndexInRange(w, h, wr.x, wr.y);
      buf[Index(w, wr.x, wr.y) := wr.distance]
    else buf
  }

  /** After one gated write, the slot it targets holds the nearer of its old
      distance and the write's, and every other slot is unchanged. */
  lemma ApplySlot(buf: seq<real>, w: nat, h: nat, wr: Write, i: int)
    requires |buf| == w * h && 0 <= i < |buf|
    ensures Apply(buf, w, h, wr)[i] == if Targets(w, h, wr, i) then Min(buf[i], wr.distance) else buf[i]
  {
    if OnScreen(w, h, wr.x, wr.y) {
      IndexInRange(w, h, wr.x, wr.y);
    }
  }

  /** A write changes the buffer exactly when the depth test accepts it. */
  lemma ApplyChangesIffAccepted(buf: seq<real>, w: nat, h: nat, wr: Write)
    requires |buf| == w * h
    ensures Apply(buf, w, h, wr) != buf <==> Accepts(buf, w, h, wr)
  {
    if Accepts(buf, w, h, wr) {
      IndexInRange(w, h, wr.x, wr.y);
      assert Apply(buf, w, h, wr)[Index(w, wr.x, wr.y)] != buf[Index(w, wr.x, wr.y)];
    }
  }

  /** The buffer after a whole sequence of gated writes, in order. */
  function Composite(buf: seq<real>, w: nat, h: nat, ws: seq<Write>): (r: seq<real>)
    requires |buf| == w * h
    ensures |r| == |buf|
    decreases |ws|
  {
    if ws == [] then buf
    else Apply(Composite(buf, w, h, ws[..|ws| - 1]), w, h, ws[|ws| - 1])
  }

  /** One more write at the end of a batch is one more gated write. */
  lemma CompositeSnoc(buf: seq<real>, w: nat, h: nat, ws: seq<Write>, wr: Write)
    requires |buf| == w * h
    ensures Composite(buf, w, h, ws + [wr]) == Apply(Composite(buf, w, h, ws), w, h, wr)
  {
    assert (ws + [wr])[..|ws|] == ws;
  }

  /** Whatever the order of the writes, every slot ends as the nearest of
      its starting distance and the distances of the writes that land on it. */
  lemma {:induction false} CompositeSlot(buf: seq<real>, w: nat, h: nat, ws: seq<Write>, i: int)
    requires |buf| == w * h && 0 <= i < |buf|
    ensures Composite(buf, w, h, ws)[i] <= buf[i]
    ensures forall wr :: wr in ws && Targets(w, h, wr, i) ==> Composite(buf, w, h, ws)[i] <= wr.distance
    ensures Composite(buf, w, h, ws)[i] == buf[i]
         || exists wr :: wr in ws && Targets(w, h, wr, i) && Composite(buf, w, h, ws)[i] == wr.distance
    decreases |ws|
  {
    if ws != [] {
      var init := ws[..|ws| - 1];
      var last := ws[|ws| - 1];
      assert ws == init + [last];
      CompositeSlot(buf, w, h, init, i);
      var before := Composite(buf, w, h, init);
      ApplySlot(before, w, h, last, i);
      if !(before[i] == buf[i]) {
        var wr :| wr in init && Targets(w, h, wr, i) && before[i] == wr.distance;
        assert wr in ws;
      }
    }
  }

  /** Depth-buffered compositing does not depend on draw order: two
      sequences holding the same writes leave the same buffer. */
  lemma OrderIndependent(buf: seq<real>, w: nat, h: nat, ws1: seq<Write>, ws2: seq<Write>)
    requires |buf| == w * h
    requires multiset(ws1) == multiset(ws2)
    ensures Composite(buf, w, h, ws1) == Composite(buf, w, h, ws2)
  {
    var r1 := Composite(buf, w, h, ws1);
    var r2 := Composite(buf, w, h, ws2);
    forall i | 0 <= i < |buf|
      ensures r1[i] == r2[i]
    {
      CompositeSlot(buf, w, h, ws1, i);
      CompositeSlot(buf, w, h, ws2, i);
      forall wr | wr in ws1
        ensures wr in ws2
      {
        assert wr in multiset(ws1);
      }
      forall wr | wr in ws2
        ensures wr in ws1
      {
        assert wr in multiset(ws2);
      }
    }
  }

  /** Drawing a batch and then another batch is drawing their concatenation. */
  lemma {:induction false} CompositeAppend(buf: seq<real>, w: nat, h: nat, ws1: seq<Write>, ws2: seq<Write>)
    requires |buf| == w * h
    ensures Composite(buf, w, h, ws1 + ws2) == Composite(Composite(buf, w, h, ws1), w, h, ws2)
    decreases |ws2|
  {
    if ws2 == [] {
      assert ws1 + ws2 == ws1;
    } else {
      var init := ws2[..|ws2| - 1];
      assert (ws1 + ws2)[..|ws1 + ws2| - 1] == ws1 + init;
      CompositeAppend(buf, w, h, ws1, init);
    }
  }

  /** Walls then sprites leaves the same buffer as sprites then walls. */
  lemma BatchesCommute(buf: seq<real>, w: nat, h: nat, walls: seq<Write>, sprites: seq<Write>)
    requires |buf| == w * h
    ensures Composite(Composite(buf, w, h, walls), w, h, sprites)
         == Composite(Composite(buf, w, h, sprites), w, h, walls)
  {
    CompositeAppend(buf, w, h, walls, sprites);
    CompositeAppend(buf, w, h, sprites, walls);
    OrderIndependent(buf, w, h, walls + sprites, sprites + walls);
  }

  /** Issuing the same writes again changes nothing. */
  lemma RedrawIsIdempotent(buf: seq<real>, w: nat, h: nat, ws: seq<Write>)
    requires |buf| == w * h
    ensures Composite(Composite(buf, w, h, ws), w, h, ws) == Composite(buf, w, h, ws)
  {
    var once := Composite(buf, w, h, ws);
    var twice := Composite(once, w, h, ws);
    forall i | 0 <= i < |buf|
      ensures twice[i] == once[i]
    {
      CompositeSlot(buf, w, h, ws, i);
      CompositeSlot(once, w, h, ws, i);
    }
  }

  /** Once a pixel has been written at distance d, a later write to it at a
      distance of d or more is rejected. */
  lemma WrittenPixelRejectsFarther(buf: seq<real>, w: nat, h: nat, ws: seq<Write>, wr: Write, d: real)
    requires |buf| == w * h
    requires wr in ws && OnScreen(w, h, wr.x, wr.y) && d >= wr.distance
    ensures !Accepts(Composite(buf, w, h, ws), w, h, Write(wr.x, wr.y, d))
  {
    IndexInRange(w, h, wr.x, wr.y);
    CompositeSlot(buf, w, h, ws, Index(w, wr.x, wr.y));
  }

  /** A buffer in which every slot holds the frame's far value. */
  function Cleared(n: nat): (r: seq<real>)
    ensures |r| == n && forall i :: 0 <= i < n ==> r[i] == FarDepth
  {
    seq(n, _ => FarDepth)
  }

  /** The depth buffer object of the game. */
  class DepthBuffer {
    const width: nat
    const height: nat
    const depth: array<real>

    ghost predicate Valid()
    {
      depth.Length == width * height
    }

    constructor (screenWidth: nat, screenHeight: nat)
      ensures Valid() && fresh(depth)
      ensures width == screenWidth && height == screenHeight
    {
      width := screenWidth;
      height := screenHeight;
      depth := new real[screenWidth * screenHeight];
    }

    /** Start of a frame: every slot is refilled with the far value. */
    method Reset()
      requires Valid()
      modifies depth
      ensures depth[..] == Cleared(depth.Length)
    {
      var i := 0;
      while i < depth.Length
        invariant 0 <= i <= depth.Length
        invariant forall j :: 0 <= j < i ==> depth[j] == FarDepth
      {
        depth[i] := FarDepth;
        i := i + 1;
      }
    }

    /** One gated pixel write; plotted tells whether the pixel is drawn. */
    method Draw(x: int, y: int, distance: real) returns (plotted: bool)
      requires Valid()
      modifies depth
      ensures plotted == Accepts(old(depth[..]), width, height, Write(x, y, distance))
      ensures depth[..] == Apply(old(depth[..]), width, height, Write(x, y, distance))
    {
      plotted := false;
      if x < 0 || x >= width || y < 0 || y >= height {
        return;
      }
      IndexInRange(width, height, x, y);
      if depth[y * width + x] > distance {
        depth[y * width + x] := distance;
        plotted := true;
      }
    }
  }
}

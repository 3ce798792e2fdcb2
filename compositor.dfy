/**
 * Compositing four equally sized images into one canvas, as both tools do
 * with a `QPainter`: the canvas is twice the tile's width and height, and the
 * four `drawImage` calls place the tiles at (0, 0), (W-1, 0), (0, H-1) and
 * (W-1, H-1) in that order, each overwriting what it covers.
 */
module Compositor {
  import opened Images
  import opened Patterns

  /** The pixel at (x, y) after drawing `tile` with its top-left corner at (ox, oy). */
  function DrawnPixel(canvas: Image, tile: Image, ox: nat, oy: nat, x: nat, y: nat): Pixel
    requires IsImage(canvas) && IsImage(tile) && x < Width(canvas) && y < Height(canvas)
  {
    if ox <= x < ox + Width(tile) && oy <= y < oy + Height(tile) then tile[y - oy][x - ox]
    else canvas[y][x]
  }

  /** `painter.drawImage(ox, oy, tile)`: an opaque overwrite, clipped to the canvas. */
  function Draw(canvas: Image, tile: Image, ox: nat, oy: nat): (r: Image)
    requires IsImage(canvas) && IsImage(tile)
    ensures HasSize(r, Width(canvas), Height(canvas))
  {
    var w, h := Width(canvas), Height(canvas);
    seq(h, y requires 0 <= y < h =>
      seq(w, x requires 0 <= x < w => DrawnPixel(canvas, tile, ox, oy, x, y)))
  }

  /** A draw is an opaque overwrite: drawing the same tile again at the same place changes nothing. */
  lemma DrawTwice(canvas: Image, tile: Image, ox: nat, oy: nat)
    requires IsImage(canvas) && IsImage(tile)
    ensures Draw(Draw(canvas, tile, ox, oy), tile, ox, oy) == Draw(canvas, tile, ox, oy)
  {
    var once := Draw(canvas, tile, ox, oy);
    var twice := Draw(once, tile, ox, oy);
    forall y | 0 <= y < |once|
      ensures twice[y] == once[y]
    {
      assert forall x :: 0 <= x < |once[y]| ==> twice[y][x] == once[y][x];
    }
  }

  /** Four images of one size. */
  predicate TileSet(tiles: seq<Image>)
  {
    |tiles| == 4 && IsImage(tiles[0])
    && HasSize(tiles[1], Width(tiles[0]), Height(tiles[0]))
    && HasSize(tiles[2], Width(tiles[0]), Height(tiles[0]))
    && HasSize(tiles[3], Width(tiles[0]), Height(tiles[0]))
  }

  /** Four tiles of one size and a canvas of twice that width and height. */
  predicate CanvasFor(canvas: Image, tiles: seq<Image>)
  {
    TileSet(tiles) && HasSize(canvas, 2 * Width(tiles[0]), 2 * Height(tiles[0]))
  }

  /** A source image and a canvas of twice its width and height, as both tools allocate. */
  predicate CanvasForSource(canvas: Image, src: Image)
  {
    IsImage(src) && HasSize(canvas, 2 * Width(src), 2 * Height(src))
  }

  /** The four draws of one collage, in the order the tools issue them. */
  function Collage(canvas: Image, tiles: seq<Image>): (r: Image)
    requires CanvasFor(canvas, tiles)
    ensures HasSize(r, Width(canvas), Height(canvas))
  {
    var w, h := Width(tiles[0]), Height(tiles[0]);
    Draw(Draw(Draw(Draw(canvas, tiles[0], 0, 0), tiles[1], w - 1, 0), tiles[2], 0, h - 1),
         tiles[3], w - 1, h - 1)
  }

  /** The slot whose tile covers (x, y) last: 0 top-left, 1 top-right, 2 bottom-left, 3 bottom-right. */
  function Slot(x: nat, y: nat, w: nat, h: nat): (k: nat)
    ensures k < 4
  {
    (if y + 1 >= h then 2 else 0) + (if x + 1 >= w then 1 else 0)
  }

  /** The left edge of the quadrant that covers column x last. */
  function OffsetX(x: nat, w: nat): (dx: nat)
    requires w >= 1
  {
    if x + 1 >= w then w - 1 else 0
  }

  /** The top edge of the quadrant that covers row y last. */
  function OffsetY(y: nat, h: nat): (dy: nat)
    requires h >= 1
  {
    if y + 1 >= h then h - 1 else 0
  }

  /**
   * What the four draws leave at (x, y): inside [0, 2W-1) x [0, 2H-1) the
   * pixel of the last tile drawn over it, sampled relative to that tile's
   * corner; the last column and the last row keep the canvas's prior contents.
   */
  function ShownPixel(canvas: Image, tiles: seq<Image>, x: nat, y: nat): Pixel
    requires CanvasFor(canvas, tiles) && x < Width(canvas) && y < Height(canvas)
  {
    var w, h := Width(tiles[0]), Height(tiles[0]);
    if x < 2 * w - 1 && y < 2 * h - 1
    then tiles[Slot(x, y, w, h)][y - OffsetY(y, h)][x - OffsetX(x, w)]
    else canvas[y][x]
  }

  /** The collage shows, pixel by pixel, the closed form `ShownPixel`. */
  lemma {:induction false} CollageAt(canvas: Image, tiles: seq<Image>, x: nat, y: nat)
    requires CanvasFor(canvas, tiles) && x < Width(canvas) && y < Height(canvas)
    ensures Collage(canvas, tiles)[y][x] == ShownPixel(canvas, tiles, x, y)
  {
    var w, h := Width(tiles[0]), Height(tiles[0]);
    var c1 := Draw(canvas, tiles[0], 0, 0);
    var c2 := Draw(c1, tiles[1], w - 1, 0);
    var c3 := Draw(c2, tiles[2], 0, h - 1);
    var c4 := Draw(c3, tiles[3], w - 1, h - 1);
    assert c4[y][x] == DrawnPixel(c3, tiles[3], w - 1, h - 1, x, y);
    assert c3[y][x] == DrawnPixel(c2, tiles[2], 0, h - 1, x, y);
    assert c2[y][x] == DrawnPixel(c1, tiles[1], w - 1, 0, x, y);
    assert c1[y][x] == DrawnPixel(canvas, tiles[0], 0, 0, x, y);
  }

  /**
   * Redrawing a collage over an earlier one leaves no trace of the earlier
   * one: its draws cover exactly what the new draws cover, and the border
   * they both leave is the canvas's.
   */
  lemma RedrawAbsorbs(canvas: Image, earlier: seq<Image>, tiles: seq<Image>)
    requires CanvasFor(canvas, earlier) && CanvasFor(canvas, tiles)
    ensures CanvasFor(Collage(canvas, earlier), tiles)
    ensures Collage(Collage(canvas, earlier), tiles) == Collage(canvas, tiles)
  {
    var first := Collage(canvas, earlier);
    var a := Collage(first, tiles);
    var b := Collage(canvas, tiles);
    forall y, x | 0 <= y < Height(canvas) && 0 <= x < Width(canvas)
      ensures a[y][x] == b[y][x]
    {
      CollageAt(first, tiles, x, y);
      CollageAt(canvas, earlier, x, y);
      CollageAt(canvas, tiles, x, y);
    }
    SamePixels(a, b);
  }

  /** Collages of the same tiles agree wherever they are drawn, whatever the canvas held. */
  lemma DrawnRegionIndependent(c1: Image, c2: Image, tiles: seq<Image>, x: nat, y: nat)
    requires CanvasFor(c1, tiles) && CanvasFor(c2, tiles)
    requires x < 2 * Width(tiles[0]) - 1 && y < 2 * Height(tiles[0]) - 1
    ensures Collage(c1, tiles)[y][x] == Collage(c2, tiles)[y][x]
  {
    CollageAt(c1, tiles, x, y);
    CollageAt(c2, tiles, x, y);
  }

  /** The left edge of slot `k`'s quadrant. */
  function CornerX(k: nat, w: nat): nat
    requires w >= 1
  {
    if k == 1 || k == 3 then w - 1 else 0
  }

  /** The top edge of slot `k`'s quadrant. */
  function CornerY(k: nat, h: nat): nat
    requires h >= 1
  {
    if k >= 2 then h - 1 else 0
  }

  /** `tile` appears whole in `img` with its top-left corner at (ox, oy). */
  predicate ShowsWhole(img: Image, tile: Image, ox: nat, oy: nat)
    requires IsImage(img) && IsImage(tile)
    requires ox + Width(tile) <= Width(img) && oy + Height(tile) <= Height(img)
  {
    forall j, i :: 0 <= j < Height(tile) && 0 <= i < Width(tile) ==> img[oy + j][ox + i] == tile[j][i]
  }

  /** Every tile of a collage appears whole in its quadrant. */
  predicate AllQuadrantsWhole(img: Image, tiles: seq<Image>)
    requires CanvasFor(img, tiles)
  {
    var w, h := Width(tiles[0]), Height(tiles[0]);
    ShowsWhole(img, tiles[0], CornerX(0, w), CornerY(0, h)) && ShowsWhole(img, tiles[1], CornerX(1, w), CornerY(1, h))
    && ShowsWhole(img, tiles[2], CornerX(2, w), CornerY(2, h)) && ShowsWhole(img, tiles[3], CornerX(3, w), CornerY(3, h))
  }

  /** The last column of `a` is the first column of `b`. */
  predicate SideSeam(a: Image, b: Image)
    requires IsImage(a) && HasSize(b, Width(a), Height(a))
  {
    forall j :: 0 <= j < Height(a) ==> a[j][Width(a) - 1] == b[j][0]
  }

  /** The last row of `a` is the first row of `b`. */
  predicate BottomSeam(a: Image, b: Image)
    requires IsImage(a) && HasSize(b, Width(a), Height(a))
  {
    forall i :: 0 <= i < Width(a) ==> a[Height(a) - 1][i] == b[0][i]
  }

  /** The tiles agree along the four one-pixel lines where their quadrants overlap. */
  predicate Seamed(tiles: seq<Image>)
    requires TileSet(tiles)
  {
    SideSeam(tiles[0], tiles[1]) && SideSeam(tiles[2], tiles[3])
    && BottomSeam(tiles[0], tiles[2]) && BottomSeam(tiles[1], tiles[3])
  }

  /** Pixel (x, y) of `img` is what the four draws leave there on `canvas`. */
  predicate ShowsAt(img: Image, canvas: Image, tiles: seq<Image>, x: nat, y: nat)
    requires CanvasFor(canvas, tiles) && HasSize(img, Width(canvas), Height(canvas))
    requires x < Width(canvas) && y < Height(canvas)
  {
    img[y][x] == ShownPixel(canvas, tiles, x, y)
  }

  /** `img` is, pixel by pixel, what the four draws leave on `canvas`. */
  ghost predicate Shows(img: Image, canvas: Image, tiles: seq<Image>)
    requires CanvasFor(canvas, tiles)
  {
    HasSize(img, Width(canvas), Height(canvas))
    && forall y, x :: 0 <= y < Height(canvas) && 0 <= x < Width(canvas) ==> ShowsAt(img, canvas, tiles, x, y)
  }

  lemma CollageShows(canvas: Image, tiles: seq<Image>)
    requires CanvasFor(canvas, tiles)
    ensures Shows(Collage(canvas, tiles), canvas, tiles)
  {
    forall y, x | 0 <= y < Height(canvas) && 0 <= x < Width(canvas)
      ensures ShowsAt(Collage(canvas, tiles), canvas, tiles, x, y)
    {
      CollageAt(canvas, tiles, x, y);
    }
  }

  /** Where the tiles agree along their overlaps, pixel (i, j) of tile `k` survives the later draws. */
  lemma SeamedPixel(img: Image, canvas: Image, tiles: seq<Image>, k: nat, i: nat, j: nat)
    requires CanvasFor(canvas, tiles) && Shows(img, canvas, tiles) && Seamed(tiles) && k < 4
    requires i < Width(tiles[0]) && j < Height(tiles[0])
    ensures var w, h := Width(tiles[0]), Height(tiles[0]);
      img[CornerY(k, h) + j][CornerX(k, w) + i] == tiles[k][j][i]
  {
    var w, h := Width(tiles[0]), Height(tiles[0]);
    var ox, oy := CornerX(k, w), CornerY(k, h);
    assert ShowsAt(img, canvas, tiles, ox + i, oy + j);
    assert tiles[0][j][w - 1] == tiles[1][j][0] && tiles[2][j][w - 1] == tiles[3][j][0];
    assert tiles[0][h - 1][i] == tiles[2][0][i] && tiles[1][h - 1][i] == tiles[3][0][i];
    assert tiles[0][h - 1][w - 1] == tiles[1][h - 1][0] == tiles[3][0][0];
  }

  /** Where the tiles agree along their overlaps, quadrant `k` shows its tile whole. */
  lemma SeamedQuadrantWhole(img: Image, canvas: Image, tiles: seq<Image>, k: nat)
    requires CanvasFor(canvas, tiles) && Shows(img, canvas, tiles) && Seamed(tiles) && k < 4
    ensures var w, h := Width(tiles[0]), Height(tiles[0]);
      ShowsWhole(img, tiles[k], CornerX(k, w), CornerY(k, h))
  {
    var w, h := Width(tiles[0]), Height(tiles[0]);
    var ox, oy := CornerX(k, w), CornerY(k, h);
    forall j, i | 0 <= j < h && 0 <= i < w
      ensures img[oy + j][ox + i] == tiles[k][j][i]
    {
      SeamedPixel(img, canvas, tiles, k, i, j);
    }
  }

  /** Where every quadrant shows its tile whole, the tiles agree along their overlaps. */
  lemma WholeQuadrantsSeamed(img: Image, tiles: seq<Image>)
    requires CanvasFor(img, tiles) && AllQuadrantsWhole(img, tiles)
    ensures Seamed(tiles)
  {
    var w, h := Width(tiles[0]), Height(tiles[0]);
    assert ShowsWhole(img, tiles[0], 0, 0) && ShowsWhole(img, tiles[1], w - 1, 0);
    assert ShowsWhole(img, tiles[2], 0, h - 1) && ShowsWhole(img, tiles[3], w - 1, h - 1);
    forall j | 0 <= j < h
      ensures tiles[0][j][w - 1] == tiles[1][j][0] && tiles[2][j][w - 1] == tiles[3][j][0]
    {
      assert img[j][w - 1] == tiles[0][j][w - 1];
      assert img[j][w - 1 + 0] == tiles[1][j][0];
      assert img[h - 1 + j][w - 1] == tiles[2][j][w - 1];
      assert img[h - 1 + j][w - 1 + 0] == tiles[3][j][0];
    }
    forall i | 0 <= i < w
      ensures tiles[0][h - 1][i] == tiles[2][0][i] && tiles[1][h - 1][i] == tiles[3][0][i]
    {
      assert img[h - 1][i] == tiles[0][h - 1][i];
      assert img[h - 1 + 0][i] == tiles[2][0][i];
      assert img[h - 1][w - 1 + i] == tiles[1][h - 1][i];
      assert img[h - 1 + 0][w - 1 + i] == tiles[3][0][i];
    }
  }

  /** Where the tiles agree along their overlaps, every quadrant of the collage shows its tile whole. */
  lemma SeamedAllWhole(canvas: Image, tiles: seq<Image>)
    requires CanvasFor(canvas, tiles) && Seamed(tiles)
    ensures AllQuadrantsWhole(Collage(canvas, tiles), tiles)
  {
    var img := Collage(canvas, tiles);
    CollageShows(canvas, tiles);
    SeamedQuadrantWhole(img, canvas, tiles, 0);
    SeamedQuadrantWhole(img, canvas, tiles, 1);
    SeamedQuadrantWhole(img, canvas, tiles, 2);
    SeamedQuadrantWhole(img, canvas, tiles, 3);
  }

  /**
   * The one-pixel overlap hides nothing exactly when the tiles agree where
   * they overlap: then each quadrant shows its whole tile, and otherwise some
   * tile is partly painted over.
   */
  lemma QuadrantsWholeIffSeamed(canvas: Image, tiles: seq<Image>)
    requires CanvasFor(canvas, tiles)
    ensures AllQuadrantsWhole(Collage(canvas, tiles), tiles) <==> Seamed(tiles)
  {
    if Seamed(tiles) {
      SeamedAllWhole(canvas, tiles);
    }
    if AllQuadrantsWhole(Collage(canvas, tiles), tiles) {
      WholeQuadrantsSeamed(Collage(canvas, tiles), tiles);
    }
  }

  /**
   * In a mirror pattern neighbouring tiles are mirror images across their
   * shared edge, so they agree along it.
   */
  lemma MirrorPatternSeamed(p: Pattern, src: Image)
    requires IsImage(src) && MirrorPattern(p)
    ensures Seamed(Tiles(p, src))
  {
    var t := Tiles(p, src);
    ApplyFlipH(p[0], src);
    ApplyFlipV(p[0], src);
    ApplyFlipV(p[1], src);
    assert p[3] == FlipH(p[2]);
    ApplyFlipH(p[2], src);
    MirrorSideSeam(t[0]);
    MirrorSideSeam(t[2]);
    MirrorBottomSeam(t[0]);
    MirrorBottomSeam(t[1]);
  }

  /** An image and its left-right mirror agree along the edge they share when set side by side. */
  lemma MirrorSideSeam(a: Image)
    requires IsImage(a)
    ensures SideSeam(a, Mirrored(a, true, false))
  {
    forall j | 0 <= j < Height(a)
      ensures a[j][Width(a) - 1] == Mirrored(a, true, false)[j][0]
    {
      MirroredAt(a, true, false, 0, j);
    }
  }

  /** An image and its top-bottom mirror agree along the edge they share when stacked. */
  lemma MirrorBottomSeam(a: Image)
    requires IsImage(a)
    ensures BottomSeam(a, Mirrored(a, false, true))
  {
    forall i | 0 <= i < Width(a)
      ensures a[Height(a) - 1][i] == Mirrored(a, false, true)[0][i]
    {
      MirroredAt(a, false, true, i, 0);
    }
  }

  /** `c[y, x]` as a raster. */
  function Grid(c: array2<Pixel>): (g: Image)
    reads c
    ensures |g| == c.Length0 && forall y :: 0 <= y < |g| ==> |g[y]| == c.Length1
    ensures forall y, x :: 0 <= y < c.Length0 && 0 <= x < c.Length1 ==> g[y][x] == c[y, x]
  {
    seq(c.Length0, y requires 0 <= y < c.Length0 reads c =>
      seq(c.Length1, x requires 0 <= x < c.Length1 reads c => c[y, x]))
  }

  /** `QImage(width, height, format)`: a canvas whose pixels are whatever `init` holds. */
  method NewCanvas(init: Image) returns (c: array2<Pixel>)
    requires IsImage(init)
    ensures fresh(c) && Grid(c) == init
  {
    var h, w := Height(init), Width(init);
    c := new Pixel[h, w]((y, x) requires 0 <= y < h && 0 <= x < w => init[y][x]);
    SamePixels(Grid(c), init);
  }

  /** `painter.drawImage(ox, oy, tile)` on the canvas, row by row. */
  method DrawAt(c: array2<Pixel>, tile: Image, ox: nat, oy: nat)
    requires IsImage(tile) && c.Length0 >= 1 && c.Length1 >= 1
    modifies c
    ensures Grid(c) == Draw(old(Grid(c)), tile, ox, oy)
  {
    var w, h := Width(tile), Height(tile);
    var y := 0;
    while y < h && oy + y < c.Length0
      invariant 0 <= y <= h
      invariant forall j, i :: 0 <= j < c.Length0 && 0 <= i < c.Length1 ==>
        c[j, i] == if oy <= j < oy + y && ox <= i < ox + w then tile[j - oy][i - ox] else old(c[j, i])
    {
      var x := 0;
      while x < w && ox + x < c.Length1
        invariant 0 <= x <= w
        invariant forall j, i :: 0 <= j < c.Length0 && 0 <= i < c.Length1 ==>
          c[j, i] == if (oy <= j < oy + y && ox <= i < ox + w) || (j == oy + y && ox <= i < ox + x)
                     then tile[j - oy][i - ox] else old(c[j, i])
      {
        c[oy + y, ox + x] := tile[y][x];
        x := x + 1;
      }
      y := y + 1;
    }
    ghost var before := old(Grid(c));
    SamePixels(Grid(c), Draw(before, tile, ox, oy));
  }

  /** The four draws of one collage on the canvas. */
  method Compose(c: array2<Pixel>, tiles: seq<Image>)
    requires TileSet(tiles)
    requires c.Length0 == 2 * Height(tiles[0]) && c.Length1 == 2 * Width(tiles[0])
    modifies c
    ensures CanvasFor(old(Grid(c)), tiles)
    ensures Grid(c) == Collage(old(Grid(c)), tiles)
  {
    var w, h := Width(tiles[0]), Height(tiles[0]);
    DrawAt(c, tiles[0], 0, 0);
    DrawAt(c, tiles[1], w - 1, 0);
    DrawAt(c, tiles[2], 0, h - 1);
    DrawAt(c, tiles[3], w - 1, h - 1);
  }
}

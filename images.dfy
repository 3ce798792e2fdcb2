/**
 * Rasters and their mirror variants, as `QImage` and `QImage.mirrored(h, v)`
 * provide them to both collage tools. A raster is a sequence of rows of
 * pixels, row 0 at the top; pixel (x, y) is `img[y][x]`.
 */
module Images {

  /** One pixel; its format and value play no part in the composition. */
  type Pixel(==)

  type Image = seq<seq<Pixel>>

  /** A decoded raster: at least one row and one column, all rows equally wide. */
  predicate IsImage(img: Image)
  {
    |img| >= 1 && |img[0]| >= 1 && forall y :: 0 <= y < |img| ==> |img[y]| == |img[0]|
  }

  function Width(img: Image): nat
    requires IsImage(img)
  {
    |img[0]|
  }

  function Height(img: Image): nat
  {
    |img|
  }

  predicate HasSize(img: Image, w: nat, h: nat)
  {
    IsImage(img) && Width(img) == w && Height(img) == h
  }

  /** One `image.save(path, quality=100)`: the file name written and the image saved. */
  datatype Write = Write(name: string, image: Image)

  /** Two rasters of one size are equal when every pixel is. */
  lemma SamePixels(a: Image, b: Image)
    requires IsImage(a) && IsImage(b) && Width(a) == Width(b) && Height(a) == Height(b)
    requires forall y, x :: 0 <= y < Height(a) && 0 <= x < Width(a) ==> a[y][x] == b[y][x]
    ensures a == b
  {
    forall y | 0 <= y < Height(a)
      ensures a[y] == b[y]
    {
      assert |a[y]| == |b[y]| == Width(a);
    }
  }

  /**
   * `img.mirrored(horizontal, vertical)`: a horizontal mirror reverses every
   * row, a vertical mirror reverses the order of the rows.
   */
  function Mirrored(img: Image, horizontal: bool, vertical: bool): (r: Image)
    requires IsImage(img)
    ensures HasSize(r, Width(img), Height(img))
  {
    var w, h := Width(img), Height(img);
    seq(h, y requires 0 <= y < h =>
      seq(w, x requires 0 <= x < w => img[Reflect(y, h, vertical)][Reflect(x, w, horizontal)]))
  }

  /** Position `i` of `n`, counted from the other end when `flip` holds. */
  function Reflect(i: nat, n: nat, flip: bool): (j: nat)
    requires i < n
    ensures j < n
  {
    if flip then n - 1 - i else i
  }

  lemma MirroredAt(img: Image, horizontal: bool, vertical: bool, x: nat, y: nat)
    requires IsImage(img) && x < Width(img) && y < Height(img)
    ensures Mirrored(img, horizontal, vertical)[y][x]
         == img[Reflect(y, Height(img), vertical)][Reflect(x, Width(img), horizontal)]
  {
  }

  /**
   * Mirroring twice is mirroring once by the exclusive-or of the flags: the
   * four mirrorings form a group in which each is its own inverse.
   */
  lemma MirroredTwice(img: Image, h1: bool, v1: bool, h2: bool, v2: bool)
    requires IsImage(img)
    ensures Mirrored(Mirrored(img, h1, v1), h2, v2) == Mirrored(img, h1 != h2, v1 != v2)
  {
    var once := Mirrored(img, h1, v1);
    var a := Mirrored(once, h2, v2);
    var b := Mirrored(img, h1 != h2, v1 != v2);
    var w, h := Width(img), Height(img);
    forall y, x | 0 <= y < h && 0 <= x < w
      ensures a[y][x] == b[y][x]
    {
      var y1, x1 := Reflect(y, h, v2), Reflect(x, w, h2);
      MirroredAt(once, h2, v2, x, y);
      MirroredAt(img, h1, v1, x1, y1);
      MirroredAt(img, h1 != h2, v1 != v2, x, y);
    }
    SamePixels(a, b);
  }

  lemma MirroredNeither(img: Image)
    requires IsImage(img)
    ensures Mirrored(img, false, false) == img
  {
    SamePixels(Mirrored(img, false, false), img);
  }

  /** The horizontal mirror undoes itself. */
  lemma MirrorHInvolution(img: Image)
    requires IsImage(img)
    ensures Mirrored(Mirrored(img, true, false), true, false) == img
  {
    MirroredTwice(img, true, false, true, false);
    MirroredNeither(img);
  }

  /** The vertical mirror undoes itself. */
  lemma MirrorVInvolution(img: Image)
    requires IsImage(img)
    ensures Mirrored(Mirrored(img, false, true), false, true) == img
  {
    MirroredTwice(img, false, true, false, true);
    MirroredNeither(img);
  }

  /** Horizontal and vertical mirrors commute. */
  lemma MirrorsCommute(img: Image)
    requires IsImage(img)
    ensures Mirrored(Mirrored(img, true, false), false, true)
         == Mirrored(Mirrored(img, false, true), true, false)
  {
    MirroredTwice(img, true, false, false, true);
    MirroredTwice(img, false, true, true, false);
  }

  /** `mirrored(True, True)` is the vertical mirror followed by the horizontal one. */
  lemma MirrorHVIsHAfterV(img: Image)
    requires IsImage(img)
    ensures Mirrored(img, true, true) == Mirrored(Mirrored(img, false, true), true, false)
  {
    MirroredTwice(img, false, true, true, false);
  }

  /** The four images a pattern slot can name. */
  datatype Variant = N | H | V | HV

  predicate FlipsH(v: Variant) { v == H || v == HV }

  predicate FlipsV(v: Variant) { v == V || v == HV }

  /**
   * The image a slot draws: `src_image` itself for N, otherwise the mirror
   * `src_image.mirrored(...)` the tools derive once per source.
   */
  function Apply(v: Variant, src: Image): (r: Image)
    requires IsImage(src)
    ensures HasSize(r, Width(src), Height(src))
    ensures r == Mirrored(src, FlipsH(v), FlipsV(v))
  {
    match v
    case N => MirroredNeither(src); src
    case H => Mirrored(src, true, false)
    case V => Mirrored(src, false, true)
    case HV => Mirrored(src, true, true)
  }

  /** The variant whose image is the left-right mirror of `v`'s. */
  function FlipH(v: Variant): (r: Variant)
    ensures FlipsH(r) != FlipsH(v) && FlipsV(r) == FlipsV(v)
  {
    match v
    case N => H
    case H => N
    case V => HV
    case HV => V
  }

  /** The variant whose image is the top-bottom mirror of `v`'s. */
  function FlipV(v: Variant): (r: Variant)
    ensures FlipsV(r) != FlipsV(v) && FlipsH(r) == FlipsH(v)
  {
    match v
    case N => V
    case V => N
    case H => HV
    case HV => H
  }

  lemma ApplyFlipH(v: Variant, src: Image)
    requires IsImage(src)
    ensures Apply(FlipH(v), src) == Mirrored(Apply(v, src), true, false)
  {
    MirroredTwice(src, FlipsH(v), FlipsV(v), true, false);
  }

  lemma ApplyFlipV(v: Variant, src: Image)
    requires IsImage(src)
    ensures Apply(FlipV(v), src) == Mirrored(Apply(v, src), false, true)
  {
    MirroredTwice(src, FlipsH(v), FlipsV(v), false, true);
  }
}

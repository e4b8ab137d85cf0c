/**
 * tools/generate_normals.js: the per-pixel loop that turns a sprite into a
 * bevel normal map. A transparent pixel becomes a flat, transparent normal;
 * an opaque pixel leans its red (x) and green (y) channels by 127 away from
 * every transparent 4-neighbour that lies inside the image.
 */
module NormalMap {
  import opened Pixels

  /** The bevel strength added per transparent neighbour. */
  const Strength: int := 127

  /** `Math.max(0, Math.min(255, v))`. */
  function Clamp(v: int): (r: byte)
    ensures 0 <= v <= 255 ==> r == v
    ensures v < 0 ==> r == 0
    ensures v > 255 ==> r == 255
  {
    if v < 0 then 0 else if v > 255 then 255 else v
  }

  /** The in-image pixel (x, y) has alpha 0; a coordinate outside the image never does. */
  predicate TransparentAt(img: Image, x: int, y: int)
    requires img.Valid()
  {
    0 <= x < img.width && 0 <= y < img.height && img.At(x, y).a == 0
  }

  /** The horizontal lean: −127 for a transparent left neighbour, +127 for a transparent right one. */
  function LeanX(img: Image, x: nat, y: nat): int
    requires img.Valid()
  {
    (if TransparentAt(img, x - 1, y) then -Strength else 0)
    + (if TransparentAt(img, x + 1, y) then Strength else 0)
  }

  /** The vertical lean: −127 for a transparent upper neighbour, +127 for a transparent lower one. */
  function LeanY(img: Image, x: nat, y: nat): int
    requires img.Valid()
  {
    (if TransparentAt(img, x, y - 1) then -Strength else 0)
    + (if TransparentAt(img, x, y + 1) then Strength else 0)
  }

  /** The normal-map pixel for source pixel (x, y). */
  function Normal(img: Image, x: nat, y: nat): Rgba
    requires img.Valid() && x < img.width && y < img.height
  {
    var p := img.At(x, y);
    if p.a == 0 then Rgba(128, 128, 255, 0)
    else Rgba(Clamp(128 + LeanX(img, x, y)), Clamp(128 + LeanY(img, x, y)), 255, p.a)
  }

  /** The body of the handler's inner loop: one output pixel, read from the source buffer. */
  method NormalPixel(src: Image, x: nat, y: nat) returns (p: Rgba)
    requires src.Valid() && x < src.width && y < src.height
    ensures p == Normal(src, x, y)
  {
    var width, height := src.width, src.height;
    IdxInRange(width, height, x, y);
    var alpha := src.pixels[Idx(width, x, y)].a;
    if alpha == 0 {
      return Rgba(128, 128, 255, 0);
    }
    var dx, dy := 0, 0;
    if x > 0 {
      IdxInRange(width, height, x - 1, y);
      if src.pixels[Idx(width, x - 1, y)].a == 0 { dx := dx - Strength; }
    }
    if x < width - 1 {
      IdxInRange(width, height, x + 1, y);
      if src.pixels[Idx(width, x + 1, y)].a == 0 { dx := dx + Strength; }
    }
    if y > 0 {
      IdxInRange(width, height, x, y - 1);
      if src.pixels[Idx(width, x, y - 1)].a == 0 { dy := dy - Strength; }
    }
    if y < height - 1 {
      IdxInRange(width, height, x, y + 1);
      if src.pixels[Idx(width, x, y + 1)].a == 0 { dy := dy + Strength; }
    }
    p := Rgba(Clamp(128 + dx), Clamp(128 + dy), 255, alpha);
  }

  /**
   * The handler's loop: a new buffer of the same size, filled pixel by pixel
   * in row-major order. The source image is a value and is never written.
   */
  method GenerateNormals(src: Image) returns (dst: array<Rgba>)
    requires src.Valid()
    ensures dst.Length == src.width * src.height
    ensures forall y: nat, x: nat :: y < src.height && x < src.width ==>
      Idx(src.width, x, y) < dst.Length && dst[Idx(src.width, x, y)] == Normal(src, x, y)
  {
    var width, height := src.width, src.height;
    dst := new Rgba[width * height](_ => Clear);
    forall yy: nat, xx: nat | yy < height && xx < width ensures Idx(width, xx, yy) < width * height {
      IdxInRange(width, height, xx, yy);
    }
    for y := 0 to height
      invariant dst.Length == width * height
      invariant forall yy: nat, xx: nat :: yy < y && xx < width ==>
        dst[Idx(width, xx, yy)] == Normal(src, xx, yy)
    {
      for x := 0 to width
        invariant dst.Length == width * height
        invariant forall yy: nat, xx: nat :: (yy < y || (yy == y && xx < x)) && xx < width ==>
          dst[Idx(width, xx, yy)] == Normal(src, xx, yy)
      {
        var idx := Idx(width, x, y);
        IdxInRange(width, height, x, y);
        forall yy: nat, xx: nat | (yy < y || (yy == y && xx < x)) && xx < width
          ensures Idx(width, xx, yy) < idx
        {
          IdxBefore(width, xx, yy, x, y);
        }
        var p := NormalPixel(src, x, y);
        dst[idx] := p;
      }
    }
  }

  /** A transparent source pixel becomes exactly (128, 128, 255, 0), whatever its neighbours. */
  lemma TransparentIsFlat(img: Image, x: nat, y: nat)
    requires img.Valid() && x < img.width && y < img.height
    requires img.At(x, y).a == 0
    ensures Normal(img, x, y) == Rgba(128, 128, 255, 0)
  {
  }

  /** An opaque source pixel keeps its alpha and gets blue 255. */
  lemma OpaqueKeepsAlpha(img: Image, x: nat, y: nat)
    requires img.Valid() && x < img.width && y < img.height
    requires img.At(x, y).a != 0
    ensures Normal(img, x, y).a == img.At(x, y).a && Normal(img, x, y).b == 255
  {
  }

  /**
   * The clamp never bites: an opaque pixel's red channel is 1 exactly when
   * only its left neighbour is transparent, 255 exactly when only its right
   * one is, and 128 otherwise; green likewise for the upper and lower ones.
   */
  lemma LeanChannels(img: Image, x: nat, y: nat)
    requires img.Valid() && x < img.width && y < img.height
    requires img.At(x, y).a != 0
    ensures Normal(img, x, y).r == 1 <==> TransparentAt(img, x - 1, y) && !TransparentAt(img, x + 1, y)
    ensures Normal(img, x, y).r == 255 <==> !TransparentAt(img, x - 1, y) && TransparentAt(img, x + 1, y)
    ensures Normal(img, x, y).r in {1, 128, 255}
    ensures Normal(img, x, y).g == 1 <==> TransparentAt(img, x, y - 1) && !TransparentAt(img, x, y + 1)
    ensures Normal(img, x, y).g == 255 <==> !TransparentAt(img, x, y - 1) && TransparentAt(img, x, y + 1)
    ensures Normal(img, x, y).g in {1, 128, 255}
  {
  }

  /** An opaque pixel whose in-image 4-neighbours are all opaque faces straight out: red = green = 128. */
  lemma InteriorIsFlat(img: Image, x: nat, y: nat)
    requires img.Valid() && x < img.width && y < img.height
    requires img.At(x, y).a != 0
    requires x > 0 ==> img.At(x - 1, y).a != 0
    requires x + 1 < img.width ==> img.At(x + 1, y).a != 0
    requires y > 0 ==> img.At(x, y - 1).a != 0
    requires y + 1 < img.height ==> img.At(x, y + 1).a != 0
    ensures Normal(img, x, y).r == 128 && Normal(img, x, y).g == 128
  {
  }

  /** A single opaque pixel in a 1×1 image: the missing neighbours do not count as transparent. */
  lemma LonePixelIsFlat(p: Rgba)
    requires p.a != 0
    ensures Normal(Image(1, 1, [p]), 0, 0) == Rgba(128, 128, 255, p.a)
  {
  }
}

/**
 * Decoded RGBA images, as the PNG decoder hands them to the image tools:
 * `width` × `height` pixels stored row by row. The source addresses byte
 * `(width·y + x)·4 + channel`; here one element holds all four channels of
 * a pixel, so pixel (x, y) is element `width·y + x`.
 */
module Pixels {

  /** One 8-bit channel value. */
  type byte = b: int | 0 <= b < 256

  /** One pixel: red, green, blue and alpha. */
  datatype Rgba = Rgba(r: byte, g: byte, b: byte, a: byte)

  /** A fully transparent black pixel, what a new PNG buffer holds. */
  const Clear: Rgba := Rgba(0, 0, 0, 0)

  /** Position of pixel (x, y) in a buffer `w` pixels wide. */
  function Idx(w: nat, x: nat, y: nat): nat {
    w * y + x
  }

  /** A decoded image. */
  datatype Image = Image(width: nat, height: nat, pixels: seq<Rgba>) {

    /** The buffer holds exactly one pixel per coordinate. */
    predicate Valid() {
      |pixels| == width * height
    }

    /** Pixel (x, y). */
    function At(x: nat, y: nat): Rgba
      requires Valid() && x < width && y < height
    {
      IdxInRange(width, height, x, y);
      pixels[Idx(width, x, y)]
    }
  }

  /** Every in-image coordinate addresses an element of the buffer. */
  lemma IdxInRange(w: nat, h: nat, x: nat, y: nat)
    requires x < w && y < h
    ensures Idx(w, x, y) < w * h
  {
    calc {
      w * y + x;
    <  w * y + w;
    == w * (y + 1);
    <= { MulMonotone(w, y + 1, h); } w * h;
    }
  }

  /** Multiplication by a non-negative number is monotone. */
  lemma MulMonotone(w: nat, a: nat, b: nat)
    ensures a <= b ==> w * a <= w * b
  {
    if a <= b {
      assert w * b == w * a + w * (b - a);
    }
  }

  /** A coordinate of a `f`-times enlarged image maps back inside the original. */
  lemma DivBound(x: nat, f: nat, w: nat)
    requires x < f * w
    ensures f > 0 && x / f < w
  {
    MulMonotone(f, w, x / f);
  }

  /** Row-major order: a pixel in an earlier row, or earlier in the same row, has a smaller index. */
  lemma IdxBefore(w: nat, x1: nat, y1: nat, x2: nat, y2: nat)
    requires x1 < w
    requires y1 < y2 || (y1 == y2 && x1 < x2)
    ensures Idx(w, x1, y1) < Idx(w, x2, y2)
  {
    MulMonotone(w, y1 + 1, y2);
  }

  /** Every element of a buffer of `w·h` pixels is some in-image coordinate. */
  lemma IdxOnto(w: nat, h: nat, i: nat)
    requires i < w * h
    ensures w > 0 && i % w < w && i / w < h && Idx(w, i % w, i / w) == i
  {
    MulMonotone(w, h, i / w);
  }

  /** Euclidean division is unique: a quotient and remainder that rebuild `x` are `x / f` and `x % f`. */
  lemma DivUnique(x: nat, f: nat, q: nat, r: nat)
    requires r < f && x == f * q + r
    ensures x / f == q && x % f == r
  {
    MulMonotone(f, q + 1, x / f);
    MulMonotone(f, x / f + 1, q);
    assert f * (q + 1) == f * q + f;
    assert f * (x / f + 1) == f * (x / f) + f;
  }
}

/**
 * tools/scale_sprites.js: `scalePNG` rescales a sprite sheet by an integer
 * factor with nearest-neighbour sampling, and the script rescales its four
 * listed sheets by 2, writing each one back to the path it was read from.
 */
module ScaleSprites {
  import opened Wrappers
  import opened Pixels

  /** The sheets the script rescales, in order. */
  const Sprites: seq<string> := ["player_idle.png", "player_idle_n.png", "player_run.png", "player_run_n.png"]

  /** `Math.floor(x / f)` for a positive factor, as repeated subtraction. */
  function Down(x: nat, f: nat): (q: nat)
    requires f > 0
    decreases x
  {
    if x < f then 0 else 1 + Down(x - f, f)
  }

  /** `Down` is integer division. */
  lemma {:induction false} DownIsDiv(x: nat, f: nat)
    requires f > 0
    ensures Down(x, f) == x / f
    decreases x
  {
    if x >= f {
      DownIsDiv(x - f, f);
      DivUnique(x, f, (x - f) / f + 1, (x - f) % f);
    }
  }

  /** A coordinate of the enlarged image maps back inside the original. */
  lemma DownBound(x: nat, f: nat, w: nat)
    requires x < f * w
    ensures f > 0 && Down(x, f) < w
  {
    DivBound(x, f, w);
    DownIsDiv(x, f);
  }

  /**
   * Row `y` of `scalePNG`'s loop, `newWidth` pixels starting at `rowStart`:
   * output pixel x copies source pixel (x div factor, y div factor), and no
   * element outside the row changes.
   */
  method ScaleRow(src: Image, factor: nat, dst: array<Rgba>, newWidth: nat, y: nat, rowStart: nat)
    requires src.Valid() && factor > 0
    requires rowStart + newWidth <= dst.Length
    requires Down(y, factor) < src.height
    requires forall xx: nat :: xx < newWidth ==> Down(xx, factor) < src.width
    modifies dst
    ensures forall xx: nat :: xx < newWidth ==>
      Down(xx, factor) < src.width && dst[rowStart + xx] == src.At(Down(xx, factor), Down(y, factor))
    ensures forall i :: 0 <= i < dst.Length && !(rowStart <= i < rowStart + newWidth) ==> dst[i] == old(dst[i])
  {
    var srcY := y / factor;
    DownIsDiv(y, factor);
    for x := 0 to newWidth
      invariant forall xx: nat :: xx < x ==> dst[rowStart + xx] == src.At(Down(xx, factor), srcY)
      invariant forall i :: 0 <= i < dst.Length && !(rowStart <= i < rowStart + newWidth) ==> dst[i] == old(dst[i])
    {
      var srcX := x / factor;
      DownIsDiv(x, factor);
      dst[rowStart + x] := src.At(srcX, srcY);
    }
  }

  /** The outer loop of `scalePNG`: rows 0 to `newHeight` of a buffer `newWidth` pixels wide, one after another. */
  method ScaleRows(src: Image, factor: nat, dst: array<Rgba>, newWidth: nat, newHeight: nat)
    requires src.Valid() && factor > 0
    requires forall yy: nat, xx: nat :: yy < newHeight && xx < newWidth ==> Idx(newWidth, xx, yy) < dst.Length
    requires forall xx: nat :: xx < newWidth ==> Down(xx, factor) < src.width
    requires forall yy: nat :: yy < newHeight ==> Down(yy, factor) < src.height
    modifies dst
    ensures forall yy: nat, xx: nat :: yy < newHeight && xx < newWidth ==>
      dst[Idx(newWidth, xx, yy)] == src.At(Down(xx, factor), Down(yy, factor))
  {
    for y := 0 to newHeight
      invariant forall yy: nat, xx: nat :: yy < y && xx < newWidth ==>
        dst[Idx(newWidth, xx, yy)] == src.At(Down(xx, factor), Down(yy, factor))
    {
      var rowStart := Idx(newWidth, 0, y);
      if newWidth > 0 {
        assert Idx(newWidth, newWidth - 1, y) < dst.Length;
      }
      ghost var prev := dst[..];
      ScaleRow(src, factor, dst, newWidth, y, rowStart);
      forall yy: nat, xx: nat | yy < y && xx < newWidth
        ensures dst[Idx(newWidth, xx, yy)] == src.At(Down(xx, factor), Down(yy, factor))
      {
        IdxBefore(newWidth, xx, yy, 0, y);
        assert dst[Idx(newWidth, xx, yy)] == prev[Idx(newWidth, xx, yy)];
      }
      forall xx: nat | xx < newWidth
        ensures dst[Idx(newWidth, xx, y)] == src.At(Down(xx, factor), Down(y, factor))
      {
        assert Idx(newWidth, xx, y) == rowStart + xx;
      }
    }
  }

  /** `scalePNG`: every output pixel (x, y) copies source pixel (x div factor, y div factor). */
  method ScalePng(src: Image, factor: nat) returns (dst: array<Rgba>)
    requires src.Valid()
    ensures dst.Length == (src.width * factor) * (src.height * factor)
    ensures forall y: nat, x: nat :: y < src.height * factor && x < src.width * factor ==>
      Idx(src.width * factor, x, y) < dst.Length
      && factor > 0 && Down(x, factor) < src.width && Down(y, factor) < src.height
      && dst[Idx(src.width * factor, x, y)] == src.At(Down(x, factor), Down(y, factor))
  {
    var newWidth, newHeight := src.width * factor, src.height * factor;
    dst := new Rgba[newWidth * newHeight](_ => Clear);
    forall yy: nat, xx: nat | yy < newHeight && xx < newWidth
      ensures Idx(newWidth, xx, yy) < dst.Length
    {
      IdxInRange(newWidth, newHeight, xx, yy);
    }
    forall xx: nat | xx < newWidth ensures factor > 0 && Down(xx, factor) < src.width {
      DownBound(xx, factor, src.width);
    }
    forall yy: nat | yy < newHeight ensures factor > 0 && Down(yy, factor) < src.height {
      DownBound(yy, factor, src.height);
    }
    if factor > 0 {
      ScaleRows(src, factor, dst, newWidth, newHeight);
    }
  }

  /** The coordinates of buffer element `i` of a `w`-wide image. */
  lemma Coordinates(w: nat, h: nat, i: nat) returns (x: nat, y: nat)
    requires i < w * h
    ensures x < w && y < h && Idx(w, x, y) == i
  {
    IdxOnto(w, h, i);
    x, y := i % w, i / w;
  }

  /** Factor 1 keeps every coordinate. */
  lemma {:induction false} DownOne(x: nat)
    ensures Down(x, 1) == x
  {
    if x >= 1 {
      DownOne(x - 1);
    }
  }

  /** Factor 1 reproduces the input pixel for pixel. */
  lemma FactorOneIsIdentity(src: Image, d: seq<Rgba>)
    requires src.Valid()
    requires |d| == (1 * src.width) * (1 * src.height)
    requires forall y: nat, x: nat :: y < 1 * src.height && x < 1 * src.width ==>
      Idx(1 * src.width, x, y) < |d| && Down(x, 1) < src.width && Down(y, 1) < src.height
      && d[Idx(1 * src.width, x, y)] == src.At(Down(x, 1), Down(y, 1))
    ensures d == src.pixels
  {
    var w := src.width;
    assert 1 * w == w && 1 * src.height == src.height;
    forall i | 0 <= i < |d| ensures d[i] == src.pixels[i] {
      var x, y := Coordinates(w, src.height, i);
      DownOne(x);
      DownOne(y);
      assert d[i] == src.At(x, y);
    }
  }

  /** `after` is `before` rescaled by 2: twice the size, each pixel copied from (x div 2, y div 2). */
  ghost predicate Rescaled(before: Image, after: Image)
    requires before.Valid()
  {
    after.Valid() && after.width == 2 * before.width && after.height == 2 * before.height
    && forall y: nat, x: nat :: y < after.height && x < after.width ==>
      x / 2 < before.width && y / 2 < before.height && after.At(x, y) == before.At(x / 2, y / 2)
  }

  /** Position of the first listed sheet missing from `files`, or the list's length if none is. */
  function FirstMissing(files: map<string, Image>, from: nat): (n: nat)
    requires from <= |Sprites|
    ensures from <= n <= |Sprites|
    ensures forall k :: from <= k < n ==> Sprites[k] in files
    ensures n < |Sprites| ==> Sprites[n] !in files
    decreases |Sprites| - from
  {
    if from == |Sprites| || Sprites[from] !in files then from else FirstMissing(files, from + 1)
  }

  /**
   * The script: each listed sheet in turn is read, rescaled by 2 and written
   * back under its own name. `files` holds the decoded sheets present on
   * disk; a missing sheet makes the read throw, which ends the script with
   * the sheets before it already rewritten and the rest untouched.
   */
  method ScaleAll(files: map<string, Image>) returns (out: map<string, Image>, failed: Option<string>)
    requires forall name :: name in files ==> files[name].Valid()
    ensures out.Keys == files.Keys
    ensures var n := FirstMissing(files, 0);
      && failed == (if n < |Sprites| then Some(Sprites[n]) else None)
      && (forall k :: 0 <= k < n ==> Rescaled(files[Sprites[k]], out[Sprites[k]]))
      && (forall name :: name in files && name !in Sprites[..n] ==> out[name] == files[name])
  {
    out := files;
    failed := None;
    var i := 0;
    var n := FirstMissing(files, 0);
    while i < |Sprites|
      invariant 0 <= i <= n
      invariant out.Keys == files.Keys
      invariant forall k :: 0 <= k < i ==> Rescaled(files[Sprites[k]], out[Sprites[k]])
      invariant forall name :: name in files && name !in Sprites[..i] ==> out[name] == files[name]
      invariant failed == None
    {
      var name := Sprites[i];
      if name !in files {
        failed := Some(name);
        break;
      }
      var png := files[name];
      var dst := ScalePng(png, 2);
      var scaled := Image(2 * png.width, 2 * png.height, dst[..]);
      forall x: nat { DownIsDiv(x, 2); }
      assert Rescaled(png, scaled);
      out := out[name := scaled];
      assert Sprites[..i + 1] == Sprites[..i] + [name];
      i := i + 1;
    }
  }
}

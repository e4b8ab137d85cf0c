/**
 * tools/upscale_teachers.js: `upscale` doubles a sprite sheet by copying
 * every source pixel into a 2×2 block of a new buffer twice as wide and
 * twice as tall.
 */
module Upscale {
  import opened Pixels

  /** Position in the doubled buffer of offset (dx, dy) inside the block of source pixel (sx, sy). */
  function BlockIdx(w: nat, sx: nat, sy: nat, dx: nat, dy: nat): nat {
    Idx(2 * w, 2 * sx + dx, 2 * sy + dy)
  }

  /** Every block position lies inside the doubled buffer. */
  lemma BlockInRange(w: nat, h: nat, sx: nat, sy: nat, dx: nat, dy: nat)
    requires sx < w && sy < h && dx < 2 && dy < 2
    ensures BlockIdx(w, sx, sy, dx, dy) < (2 * w) * (2 * h)
  {
    IdxInRange(2 * w, 2 * h, 2 * sx + dx, 2 * sy + dy);
  }

  /** Blocks of source pixels in row-major order occupy distinct positions. */
  lemma BlockDistinct(w: nat, sx: nat, sy: nat, dx: nat, dy: nat, x: nat, y: nat, ex: nat, ey: nat)
    requires sx < w && x < w && dx < 2 && dy < 2 && ex < 2 && ey < 2
    requires sy < y || (sy == y && sx < x)
    ensures BlockIdx(w, sx, sy, dx, dy) != BlockIdx(w, x, y, ex, ey)
  {
    var r1, c1, r2, c2 := 2 * sy + dy, 2 * sx + dx, 2 * y + ey, 2 * x + ex;
    if r1 < r2 {
      IdxBefore(2 * w, c1, r1, c2, r2);
    } else if r2 < r1 {
      IdxBefore(2 * w, c2, r2, c1, r1);
    } else {
      IdxBefore(2 * w, c1, r1, c2, r2);
    }
  }

  /** The four positions of the block of source pixel (x, y). */
  function Block(w: nat, x: nat, y: nat): set<nat> {
    {BlockIdx(w, x, y, 0, 0), BlockIdx(w, x, y, 1, 0), BlockIdx(w, x, y, 0, 1), BlockIdx(w, x, y, 1, 1)}
  }

  /** Inside a block, offsets move by one column or by one row of the doubled buffer. */
  lemma BlockLinear(w: nat, x: nat, y: nat, dx: nat, dy: nat)
    requires dx < 2 && dy < 2
    ensures BlockIdx(w, x, y, dx, dy) == BlockIdx(w, x, y, 0, 0) + dx + (if dy == 0 then 0 else 2 * w)
  {
  }

  /** The two nested two-step loops of one source pixel: its 2×2 block gets `p`, every other element is kept. */
  method CopyBlock(dst: array<Rgba>, w: nat, h: nat, x: nat, y: nat, p: Rgba)
    requires dst.Length == (2 * w) * (2 * h) && x < w && y < h
    modifies dst
    ensures forall dx: nat, dy: nat :: dx < 2 && dy < 2 ==>
      BlockIdx(w, x, y, dx, dy) < dst.Length && dst[BlockIdx(w, x, y, dx, dy)] == p
    ensures forall i :: 0 <= i < dst.Length && i !in Block(w, x, y) ==> dst[i] == old(dst[i])
  {
    forall dx: nat, dy: nat | dx < 2 && dy < 2
      ensures BlockIdx(w, x, y, dx, dy) == BlockIdx(w, x, y, 0, 0) + dx + (if dy == 0 then 0 else 2 * w)
      ensures BlockIdx(w, x, y, dx, dy) < dst.Length
    {
      BlockLinear(w, x, y, dx, dy);
      BlockInRange(w, h, x, y, dx, dy);
    }
    for dy := 0 to 2
      invariant forall ddx: nat, ddy: nat :: ddx < 2 && ddy < dy ==> dst[BlockIdx(w, x, y, ddx, ddy)] == p
      invariant forall i :: 0 <= i < dst.Length && i !in Block(w, x, y) ==> dst[i] == old(dst[i])
    {
      for dx := 0 to 2
        invariant forall ddx: nat, ddy: nat :: ddx < 2 && (ddy < dy || (ddy == dy && ddx < dx)) ==>
          dst[BlockIdx(w, x, y, ddx, ddy)] == p
        invariant forall i :: 0 <= i < dst.Length && i !in Block(w, x, y) ==> dst[i] == old(dst[i])
      {
        var dstIdx := BlockIdx(w, x, y, dx, dy);
        dst[dstIdx] := p;
      }
    }
  }

  /**
   * `upscale`'s loop: the output is (2·width)×(2·height) and the block of
   * every source pixel holds that pixel on all four channels.
   */
  method UpscaleImage(src: Image) returns (dst: array<Rgba>)
    requires src.Valid()
    ensures dst.Length == (2 * src.width) * (2 * src.height)
    ensures forall sy: nat, sx: nat, dx: nat, dy: nat :: sy < src.height && sx < src.width && dx < 2 && dy < 2 ==>
      BlockIdx(src.width, sx, sy, dx, dy) < dst.Length && dst[BlockIdx(src.width, sx, sy, dx, dy)] == src.At(sx, sy)
  {
    var width, height := src.width, src.height;
    dst := new Rgba[(2 * width) * (2 * height)](_ => Clear);
    for y := 0 to height
      invariant forall sy: nat, sx: nat, dx: nat, dy: nat :: sy < y && sx < width && dx < 2 && dy < 2 ==>
        BlockIdx(width, sx, sy, dx, dy) < dst.Length && dst[BlockIdx(width, sx, sy, dx, dy)] == src.At(sx, sy)
    {
      for x := 0 to width
        invariant forall sy: nat, sx: nat, dx: nat, dy: nat ::
          (sy < y || (sy == y && sx < x)) && sx < width && dx < 2 && dy < 2 ==>
          BlockIdx(width, sx, sy, dx, dy) < dst.Length && dst[BlockIdx(width, sx, sy, dx, dy)] == src.At(sx, sy)
      {
        IdxInRange(width, height, x, y);
        var p := src.pixels[Idx(width, x, y)];
        forall sy: nat, sx: nat, dx: nat, dy: nat, ex: nat, ey: nat |
          (sy < y || (sy == y && sx < x)) && sx < width && dx < 2 && dy < 2 && ex < 2 && ey < 2
          ensures BlockIdx(width, sx, sy, dx, dy) != BlockIdx(width, x, y, ex, ey)
        {
          BlockDistinct(width, sx, sy, dx, dy, x, y, ex, ey);
        }
        CopyBlock(dst, width, height, x, y, p);
      }
    }
  }

  /**
   * The blocks tile the whole doubled image: a buffer that holds every
   * source pixel in its block holds, at every (X, Y), source pixel
   * (X div 2, Y div 2). So every destination pixel is written.
   */
  lemma BlocksCover(src: Image, d: seq<Rgba>, X: nat, Y: nat)
    requires src.Valid() && X < 2 * src.width && Y < 2 * src.height
    requires forall sy: nat, sx: nat, dx: nat, dy: nat :: sy < src.height && sx < src.width && dx < 2 && dy < 2 ==>
      BlockIdx(src.width, sx, sy, dx, dy) < |d| && d[BlockIdx(src.width, sx, sy, dx, dy)] == src.At(sx, sy)
    ensures Idx(2 * src.width, X, Y) < |d| && d[Idx(2 * src.width, X, Y)] == src.At(X / 2, Y / 2)
  {
    assert BlockIdx(src.width, X / 2, Y / 2, X % 2, Y % 2) == Idx(2 * src.width, X, Y);
  }
}

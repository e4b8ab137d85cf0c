/**
 * tools/generate_frames.js: for each entry of `frames`, a 64×86 buffer is
 * painted with an opaque 4-pixel border in the entry's colour around a
 * fully transparent centre.
 */
module Frames {
  import opened Pixels

  const Width: nat := 64
  const Height: nat := 86
  /** Thickness of the border in pixels. */
  const Border: nat := 4

  /** An entry of the `frames` table: output name and RGB colour. */
  datatype Frame = Frame(name: string, red: byte, green: byte, blue: byte)

  /** The three frames, in table order: bronze, silver and gold. */
  const Frames: seq<Frame> := [
    Frame("frame_bronze.png", 205, 127, 50),
    Frame("frame_silver.png", 192, 192, 192),
    Frame("frame_gold.png", 255, 215, 0)
  ]

  /** `isBorder`: within 4 pixels of some edge. */
  predicate IsBorder(x: nat, y: nat) {
    x < Border || x >= Width - Border || y < Border || y >= Height - Border
  }

  /** The pixel the loop writes at (x, y). */
  function FramePixel(f: Frame, x: nat, y: nat): Rgba {
    if IsBorder(x, y) then Rgba(f.red, f.green, f.blue, 255) else Clear
  }

  /** The nested loops of one frame, on a new 64×86 buffer. */
  method PaintFrame(f: Frame) returns (dst: array<Rgba>)
    ensures dst.Length == Width * Height
    ensures forall y: nat, x: nat :: y < Height && x < Width ==>
      Idx(Width, x, y) < dst.Length && dst[Idx(Width, x, y)] == FramePixel(f, x, y)
  {
    dst := new Rgba[Width * Height](_ => Clear);
    for y := 0 to Height
      invariant forall yy: nat, xx: nat :: yy < y && xx < Width ==> dst[Idx(Width, xx, yy)] == FramePixel(f, xx, yy)
    {
      for x := 0 to Width
        invariant forall yy: nat, xx: nat :: (yy < y || (yy == y && xx < x)) && xx < Width ==>
          dst[Idx(Width, xx, yy)] == FramePixel(f, xx, yy)
      {
        var idx := Idx(Width, x, y);
        var isBorder := x < Border || x >= Width - Border || y < Border || y >= Height - Border;
        if isBorder {
          dst[idx] := Rgba(f.red, f.green, f.blue, 255);
        } else {
          dst[idx] := Rgba(0, 0, 0, 0);
        }
      }
    }
  }

  /**
   * A frame pixel carries the frame's colour at full alpha exactly on the
   * border x < 4, x ≥ 60, y < 4 or y ≥ 82; every other pixel is (0, 0, 0, 0).
   */
  lemma BorderIffOpaque(f: Frame, x: nat, y: nat)
    requires x < Width && y < Height
    ensures FramePixel(f, x, y) == Rgba(f.red, f.green, f.blue, 255) <==> (x < 4 || x >= 60 || y < 4 || y >= 82)
    ensures !(x < 4 || x >= 60 || y < 4 || y >= 82) <==> FramePixel(f, x, y) == Rgba(0, 0, 0, 0)
  {
  }

  /** The centre pixel is transparent and the corner is coloured: the two regions are both non-empty. */
  lemma CentreAndCorner(f: Frame)
    ensures FramePixel(f, 32, 43) == Clear
    ensures FramePixel(f, 0, 0).a == 255 && FramePixel(f, 63, 85).a == 255
  {
  }

  /** The script's `forEach`: one painted buffer per table entry, in order, under the entry's name. */
  method GenerateFrames() returns (out: seq<(string, seq<Rgba>)>)
    ensures |out| == |Frames|
    ensures forall k :: 0 <= k < |out| ==>
      out[k].0 == Frames[k].name && |out[k].1| == Width * Height
      && forall y: nat, x: nat :: y < Height && x < Width ==>
        Idx(Width, x, y) < |out[k].1| && out[k].1[Idx(Width, x, y)] == FramePixel(Frames[k], x, y)
  {
    out := [];
    for k := 0 to |Frames|
      invariant |out| == k
      invariant forall j :: 0 <= j < k ==>
        out[j].0 == Frames[j].name && |out[j].1| == Width * Height
        && forall y: nat, x: nat :: y < Height && x < Width ==>
          Idx(Width, x, y) < |out[j].1| && out[j].1[Idx(Width, x, y)] == FramePixel(Frames[j], x, y)
    {
      var frame := Frames[k];
      var png := PaintFrame(frame);
      out := out + [(frame.name, png[..])];
    }
  }
}

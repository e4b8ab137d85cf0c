/**
 * scripts/analyze_grid.py: `print_grid` partitions a sprite sheet into
 * 16×16 tiles, samples the central 8×8 window of each tile for a pixel with
 * alpha above 0, and prints one line per tile row with a marker per tile and
 * the row's count. The script runs it on the idle and the run sheet.
 */
module AnalyzeGrid {
  import opened Wrappers
  import opened Pixels
  import opened Strings

  const TileW: nat := 16
  const TileH: nat := 16

  /** Number of whole tile columns; a trailing partial tile is not part of the grid. */
  function Cols(img: Image): nat { img.width / TileW }

  /** Number of whole tile rows. */
  function Rows(img: Image): nat { img.height / TileH }

  /** (x, y) lies in the sampled window of tile (r, c): offsets 4 to 11 inside the tile on both axes. */
  predicate InWindow(r: nat, c: nat, x: nat, y: nat) {
    r * TileH + 4 <= y < r * TileH + 12 && c * TileW + 4 <= x < c * TileW + 12
  }

  /** Some in-image pixel of the window of tile (r, c) has alpha above 0. */
  predicate HasContent(img: Image, r: nat, c: nat)
    requires img.Valid()
  {
    exists y: nat, x: nat :: InWindow(r, c, x, y) && x < img.width && y < img.height && img.At(x, y).a > 0
  }

  /** The marker printed for a tile. */
  function Marker(has: bool): string {
    if has then "[X]" else "[ ]"
  }

  /** The markers of the first `n` tiles of row `r`, left to right. */
  function Markers(img: Image, r: nat, n: nat): string
    requires img.Valid()
  {
    if n == 0 then "" else Markers(img, r, n - 1) + Marker(HasContent(img, r, n - 1))
  }

  /** How many of the first `n` tiles of row `r` have content. */
  function Count(img: Image, r: nat, n: nat): nat
    requires img.Valid()
  {
    if n == 0 then 0 else Count(img, r, n - 1) + (if HasContent(img, r, n - 1) then 1 else 0)
  }

  /** The printed line of tile row `r`. */
  function RowLine(img: Image, r: nat): string
    requires img.Valid()
  {
    "Row " + NatToString(r) + ": " + Markers(img, r, Cols(img)) + " (Count: " + NatToString(Count(img, r, Cols(img))) + ")"
  }

  /** The lines of tile rows 0 to n - 1, in ascending order. */
  function RowLines(img: Image, n: nat): seq<string>
    requires img.Valid()
  {
    if n == 0 then [] else RowLines(img, n - 1) + [RowLine(img, n - 1)]
  }

  /** The heading printed before the `try`: an empty line from the leading newline, then the name. */
  function Heading(name: string): seq<string> {
    ["", "--- Analyzing " + name + " ---"]
  }

  /**
   * Everything one call prints. `sheet` is the outcome of `Image.open`: a
   * decoded RGBA image, or the message of the exception it raised.
   */
  function Report(name: string, sheet: Result<Image>): seq<string>
    requires sheet.Ok? ==> sheet.value.Valid()
  {
    match sheet
    case Err(msg) => Heading(name) + ["Error: " + msg]
    case Ok(img) =>
      Heading(name) + [DimensionsLine(img), GridLine(img)] + RowLines(img, Rows(img))
  }

  /** The line giving the image's size in pixels. */
  function DimensionsLine(img: Image): string {
    "Dimensions: " + NatToString(img.width) + "x" + NatToString(img.height)
  }

  /** The line giving the number of whole tiles across and down. */
  function GridLine(img: Image): string {
    "Potential Grid: " + NatToString(Cols(img)) + " cols x " + NatToString(Rows(img)) + " rows"
  }

  /**
   * The two window loops with their `break`s: `has` is set exactly when
   * some in-image window pixel has alpha above 0.
   */
  method SampleTile(img: Image, r: nat, c: nat) returns (has: bool)
    requires img.Valid()
    ensures has <==> HasContent(img, r, c)
  {
    has := false;
    var y := r * TileH + 4;
    while y < r * TileH + 12
      invariant r * TileH + 4 <= y <= r * TileH + 12
      invariant !has
      invariant forall yy: nat, xx: nat :: yy < y && InWindow(r, c, xx, yy) && xx < img.width && yy < img.height ==>
        img.At(xx, yy).a == 0
    {
      var x := c * TileW + 4;
      while x < c * TileW + 12
        invariant c * TileW + 4 <= x <= c * TileW + 12
        invariant !has
        invariant forall yy: nat, xx: nat ::
          (yy < y || (yy == y && xx < x)) && InWindow(r, c, xx, yy) && xx < img.width && yy < img.height ==>
          img.At(xx, yy).a == 0
      {
        if x < img.width && y < img.height {
          var pixel := img.At(x, y);
          if pixel.a > 0 {
            has := true;
            assert InWindow(r, c, x, y);
            break;
          }
        }
        x := x + 1;
      }
      if has {
        break;
      }
      y := y + 1;
    }
  }

  /** One pass of the row loop: the markers of row `r` left to right, then its count. */
  method ScanRow(img: Image, r: nat) returns (line: string)
    requires img.Valid()
    ensures line == RowLine(img, r)
  {
    var cols := img.width / TileW;
    line := "Row " + NatToString(r) + ": ";
    ghost var start := line;
    var count := 0;
    for c := 0 to cols
      invariant line == start + Markers(img, r, c)
      invariant count == Count(img, r, c)
    {
      var has := SampleTile(img, r, c);
      if has {
        line := line + "[X]";
        count := count + 1;
      } else {
        line := line + "[ ]";
      }
      assert line == start + (Markers(img, r, c) + Marker(has));
    }
    line := line + " (Count: " + NatToString(count) + ")";
  }

  /** `print_grid`: the printed lines, in order. */
  method PrintGrid(name: string, sheet: Result<Image>) returns (lines: seq<string>)
    requires sheet.Ok? ==> sheet.value.Valid()
    ensures lines == Report(name, sheet)
  {
    lines := Heading(name);
    if sheet.Err? {
      lines := lines + ["Error: " + sheet.error];
      return;
    }
    var img := sheet.value;
    var cols := img.width / TileW;
    var rows := img.height / TileH;
    lines := lines + [DimensionsLine(img)];
    lines := lines + [GridLine(img)];
    ghost var header := lines;
    assert header == Heading(name) + [DimensionsLine(img), GridLine(img)];
    var r := 0;
    while r < rows
      invariant r <= rows && lines == header + RowLines(img, r)
    {
      var line := ScanRow(img, r);
      assert RowLines(img, r + 1) == RowLines(img, r) + [line];
      lines := lines + [line];
      r := r + 1;
    }
  }

  /** The script: both sheets are analysed, the second even when the first could not be opened. */
  method AnalyzeSheets(idle: Result<Image>, run: Result<Image>) returns (lines: seq<string>)
    requires idle.Ok? ==> idle.value.Valid()
    requires run.Ok? ==> run.value.Valid()
    ensures lines == Report("Idle Sheet", idle) + Report("Run Sheet", run)
  {
    var first := PrintGrid("Idle Sheet", idle);
    var second := PrintGrid("Run Sheet", run);
    lines := first + second;
  }

  // Properties of the report.

  /** The grid never exceeds the image, and the pixels past the last whole tile are outside every tile. */
  lemma GridWithinImage(img: Image)
    ensures Cols(img) * TileW <= img.width < (Cols(img) + 1) * TileW
    ensures Rows(img) * TileH <= img.height < (Rows(img) + 1) * TileH
  {
  }

  /** For a tile inside the grid, every window pixel is in the image, so the bounds guard always holds. */
  lemma WindowInBounds(img: Image, r: nat, c: nat, x: nat, y: nat)
    requires r < Rows(img) && c < Cols(img) && InWindow(r, c, x, y)
    ensures x < img.width && y < img.height
  {
  }

  /** The window lies strictly inside the tile: it never reaches the outer 4-pixel band. */
  lemma WindowInsideTile(r: nat, c: nat, x: nat, y: nat)
    requires InWindow(r, c, x, y)
    ensures x / TileW == c && 4 <= x % TileW < 12 && y / TileH == r && 4 <= y % TileH < 12
  {
    DivUnique(x, TileW, c, x - c * TileW);
    DivUnique(y, TileH, r, y - r * TileH);
  }

  /**
   * Pixels outside the window never affect the marker: two images of the
   * same size whose window pixels agree on alpha get the same marker.
   */
  lemma BandIndependent(a: Image, b: Image, r: nat, c: nat)
    requires a.Valid() && b.Valid() && a.width == b.width && a.height == b.height
    requires forall y: nat, x: nat :: InWindow(r, c, x, y) && x < a.width && y < a.height ==> a.At(x, y).a == b.At(x, y).a
    ensures HasContent(a, r, c) <==> HasContent(b, r, c)
  {
    if HasContent(a, r, c) {
      var y: nat, x: nat :| InWindow(r, c, x, y) && x < a.width && y < a.height && a.At(x, y).a > 0;
      assert b.At(x, y).a > 0;
    }
    if HasContent(b, r, c) {
      var y: nat, x: nat :| InWindow(r, c, x, y) && x < b.width && y < b.height && b.At(x, y).a > 0;
      assert a.At(x, y).a > 0;
    }
  }

  /** Each row line holds exactly one three-character marker per column, the k-th telling tile k's content. */
  lemma {:induction false} MarkersShape(img: Image, r: nat, n: nat)
    requires img.Valid()
    ensures |Markers(img, r, n)| == 3 * n
    ensures forall k :: 0 <= k < n ==> Markers(img, r, n)[3 * k..3 * k + 3] == Marker(HasContent(img, r, k))
  {
    if n > 0 {
      MarkersShape(img, r, n - 1);
      var m := Markers(img, r, n - 1);
      assert Markers(img, r, n) == m + Marker(HasContent(img, r, n - 1));
      forall k | 0 <= k < n ensures Markers(img, r, n)[3 * k..3 * k + 3] == Marker(HasContent(img, r, k)) {
        if k < n - 1 {
          assert Markers(img, r, n)[3 * k..3 * k + 3] == m[3 * k..3 * k + 3];
        }
      }
    }
  }

  /** The count is the number of tiles in the row prefix that have content, i.e. of "[X]" markers. */
  lemma {:induction false} CountIsMarked(img: Image, r: nat, n: nat)
    requires img.Valid()
    ensures Count(img, r, n) == |set k | 0 <= k < n && HasContent(img, r, k)|
  {
    if n > 0 {
      var before := set k | 0 <= k < n - 1 && HasContent(img, r, k);
      var now := set k | 0 <= k < n && HasContent(img, r, k);
      assert Count(img, r, n) == Count(img, r, n - 1) + (if HasContent(img, r, n - 1) then 1 else 0);
      CountIsMarked(img, r, n - 1);
      MarkedStep(img, r, n);
      if HasContent(img, r, n - 1) {
        assert n - 1 !in before;
        assert |now| == |before| + 1;
      }
    }
  }

  /** The tiles with content among the first `n` are those among the first `n - 1`, and tile `n - 1` if it has content. */
  lemma MarkedStep(img: Image, r: nat, n: nat)
    requires img.Valid() && n > 0
    ensures (set k | 0 <= k < n && HasContent(img, r, k)) ==
            (set k | 0 <= k < n - 1 && HasContent(img, r, k)) + (if HasContent(img, r, n - 1) then {n - 1} else {})
  {
  }

  /** A fully transparent sheet: no tile has content and every count is 0. */
  lemma {:induction false} TransparentCountsZero(img: Image, r: nat, n: nat)
    requires img.Valid()
    requires forall i :: 0 <= i < |img.pixels| ==> img.pixels[i].a == 0
    ensures Count(img, r, n) == 0
  {
    if n > 0 {
      TransparentCountsZero(img, r, n - 1);
      if HasContent(img, r, n - 1) {
        var y: nat, x: nat :| InWindow(r, n - 1, x, y) && x < img.width && y < img.height && img.At(x, y).a > 0;
        IdxInRange(img.width, img.height, x, y);
      }
    }
  }

  /** A fully opaque sheet: every tile of a grid row has content, so the count of a grid row is `cols`. */
  lemma {:induction false} OpaqueCountsAll(img: Image, r: nat, n: nat)
    requires img.Valid() && r < Rows(img) && n <= Cols(img)
    requires forall i :: 0 <= i < |img.pixels| ==> img.pixels[i].a > 0
    ensures Count(img, r, n) == n
  {
    if n > 0 {
      OpaqueCountsAll(img, r, n - 1);
      var x, y := (n - 1) * TileW + 4, r * TileH + 4;
      WindowInBounds(img, r, n - 1, x, y);
      IdxInRange(img.width, img.height, x, y);
      assert InWindow(r, n - 1, x, y) && img.At(x, y).a > 0;
    }
  }

  /** The report of an opened image has the four heading lines and then exactly one line per tile row. */
  lemma {:induction false} RowLinesShape(img: Image, n: nat)
    requires img.Valid()
    ensures |RowLines(img, n)| == n
    ensures forall r :: 0 <= r < n ==> RowLines(img, n)[r] == RowLine(img, r)
  {
    if n > 0 {
      var prev := RowLines(img, n - 1);
      assert RowLines(img, n) == prev + [RowLine(img, n - 1)];
      RowLinesShape(img, n - 1);
      forall r | 0 <= r < n ensures RowLines(img, n)[r] == RowLine(img, r) {
        if r < n - 1 {
          assert RowLines(img, n)[r] == prev[r];
        }
      }
    }
  }

  /** A failed open prints the heading and one "Error:" line only. */
  lemma ErrorReport(name: string, msg: string)
    ensures |Report(name, Err(msg))| == 3 && Report(name, Err(msg))[2] == "Error: " + msg
  {
  }
}

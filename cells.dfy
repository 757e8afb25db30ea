/**
 * Reference definitions of the spec arrays the Launchpad builds before it
 * sends them: the cleared grid (clearPads), the page indicators (setPage),
 * the cleared rectangle and stamped glyph (drawLayout), the fader column
 * (setFader), the colour-wheel pads (colorWheel) and the image burst
 * (RGBAToLaunchpad); with the geometric facts each promises.
 */
module Cells {
  import opened Util
  import opened ColorSpecs
  import opened Sysex
  import opened Layouts

  // ---------------------------------------------------------------- clearPads

  /** Number of pads in rows 0..8, columns 1..8. */
  const GRID_SIZE: nat := 72

  /** Pad of the k-th grid cell in row-major order. */
  function GridPos(k: int): (r: int)
  {
    (k / 8) * 10 + k % 8 + 1
  }

  /** The pads clearPads walks: 0..89 without the columns 0 and 9. */
  predicate IsGridPad(p: int)
  {
    0 <= p <= 89 && p % 10 != 0 && p % 10 != 9
  }

  /** Number of grid pads strictly below p (for 0 <= p <= 90). */
  function GridCount(p: int): (r: int)
  {
    (p / 10) * 8 + Min(Max(p % 10 - 1, 0), 8)
  }

  function GridCells(color: int): (r: seq<ColorSpec>)
  {
    seq(GRID_SIZE, k => Static(GridPos(k), color))
  }

  function ExtraCells(additional: seq<int>): (r: seq<ColorSpec>)
  {
    seq(|additional|, i requires 0 <= i < |additional| => Static(additional[i], 0))
  }

  /** clearPads(additional, color): the grid in `color`, then each extra pad in palette 0. */
  function ClearPadsCells(additional: seq<int>, color: int): (r: seq<ColorSpec>)
  {
    GridCells(color) + ExtraCells(additional)
  }

  lemma GridPosStep(k: int)
    requires 0 <= k
    ensures GridPos(k + 1) == (if k % 8 == 7 then GridPos(k) + 3 else GridPos(k) + 1)
  {
    var q, r := k / 8, k % 8;
    assert k == 8 * q + r;
    if r == 7 {
      assert k + 1 == 8 * (q + 1);
      assert (k + 1) / 8 == q + 1 && (k + 1) % 8 == 0;
    } else {
      assert (k + 1) / 8 == q && (k + 1) % 8 == r + 1;
    }
  }

  /** The grid cells go strictly up, one pad at a time, skipping columns 9 and 0. */
  lemma {:induction false} GridPosIncreasing(j: int, k: int)
    requires 0 <= j < k
    ensures GridPos(j) < GridPos(k)
    decreases k - j
  {
    GridPosStep(k - 1);
    if j < k - 1 {
      GridPosIncreasing(j, k - 1);
    }
  }

  /** A pad is cleared by the grid part of clearPads exactly when it is a grid pad. */
  lemma GridCellsExact(p: int)
    ensures (exists k :: 0 <= k < GRID_SIZE && GridPos(k) == p) <==> IsGridPad(p)
  {
    if IsGridPad(p) {
      var k := GridCount(p);
      GridCountAt(p);
      assert 0 <= k < GRID_SIZE && GridPos(k) == p;
    }
    if exists k :: 0 <= k < GRID_SIZE && GridPos(k) == p {
      var k :| 0 <= k < GRID_SIZE && GridPos(k) == p;
      GridPosIsGridPad(k);
    }
  }

  lemma GridPosIsGridPad(k: int)
    requires 0 <= k < GRID_SIZE
    ensures IsGridPad(GridPos(k))
  {
    var q, r := k / 8, k % 8;
    assert 0 <= q < 9 && 0 <= r < 8;
    DivModTen(q, r + 1);
  }

  /** Row and column of `10q + d`. */
  lemma DivModTen(q: int, d: int)
    requires 0 <= d < 10
    ensures (q * 10 + d) / 10 == q && (q * 10 + d) % 10 == d
  {
  }

  /** At a grid pad, the count of grid pads below it indexes that very pad. */
  lemma GridCountAt(p: int)
    requires IsGridPad(p)
    ensures GridCount(p) < GRID_SIZE && GridPos(GridCount(p)) == p
  {
    var q, r := p / 10, p % 10;
    assert p == 10 * q + r && 1 <= r <= 8 && 0 <= q <= 8;
    var k := GridCount(p);
    assert k == 8 * q + (r - 1);
    assert k / 8 == q && k % 8 == r - 1;
  }

  /** GridCount grows by one exactly at grid pads. */
  lemma GridCountStep(p: int)
    requires 0 <= p <= 89
    ensures GridCount(p + 1) == GridCount(p) + (if IsGridPad(p) then 1 else 0)
  {
    var q, r := p / 10, p % 10;
    assert p == 10 * q + r;
    if r == 9 {
      assert p + 1 == 10 * (q + 1);
      assert (p + 1) / 10 == q + 1 && (p + 1) % 10 == 0;
    } else {
      assert (p + 1) / 10 == q && (p + 1) % 10 == r + 1;
    }
  }

  // ------------------------------------------------------------------ setPage

  /** The pad of the i-th dimmed page indicator while page n is lit. */
  function DimPos(n: int, i: int): (r: int)
  {
    if 1 <= n <= 8 && 101 + i >= 100 + n then 102 + i else 101 + i
  }

  /** The eight page-indicator pads 101..108 along the top edge. */
  const INDICATOR_PADS: set<int> := set p | 101 <= p <= 108

  function DimCount(n: int): (r: nat)
  {
    if 1 <= n <= 8 then 7 else 8
  }

  /**
   * setPage(n, color): the highlight spec first (moved to pad 100+n when that
   * is one of 101..108), then palette 0 on each other indicator pad, in order.
   */
  function IndicatorCells(n: int, color: ColorSpec): (r: seq<ColorSpec>)
  {
    [if 1 <= n <= 8 then WithPosition(color, 100 + n) else color]
      + seq(DimCount(n), i => Static(DimPos(n, i), 0))
  }

  /** For a page 1..8, the eight indicators are covered once each and only page n is lit. */
  lemma IndicatorsExact(n: int, color: ColorSpec)
    requires 1 <= n <= 8
    ensures var cells := IndicatorCells(n, color);
      && |cells| == 8
      && cells[0] == WithPosition(color, 100 + n)
      && (forall i :: 1 <= i < 8 ==> cells[i].Static? && cells[i].palette == 0)
      && (forall i, j :: 0 <= i < j < 8 ==> cells[i].position != cells[j].position)
      && Positions(cells) == INDICATOR_PADS
  {
    var cells := IndicatorCells(n, color);
    forall p | p in INDICATOR_PADS
      ensures p in Positions(cells)
    {
      if p == 100 + n {
        assert cells[0].position == p;
      } else if p < 100 + n {
        assert cells[p - 100].position == p;
      } else {
        assert cells[p - 101].position == p;
      }
    }
  }

  // --------------------------------------------------------------- drawLayout

  /** Palette-0 cells of one row, columns col..maxCol, shifted by the offsets. */
  function RowCells(row: int, col: int, maxCol: int, offsetX: int, offsetY: int): (r: seq<ColorSpec>)
    decreases maxCol - col + 1
  {
    if col > maxCol then []
    else [Static((row + offsetY) * 10 + col + offsetX, 0)] + RowCells(row, col + 1, maxCol, offsetX, offsetY)
  }

  /** Rows row..maxRow of the box, row-major. */
  function RectCells(b: Box, row: int, offsetX: int, offsetY: int): (r: seq<ColorSpec>)
    decreases b.maxRow - row + 1
  {
    if row > b.maxRow then []
    else RowCells(row, b.minCol, b.maxCol, offsetX, offsetY) + RectCells(b, row + 1, offsetX, offsetY)
  }

  /** The clear phase of drawLayout for a bounding box (none for an empty layout). */
  function ClearCells(bounding: Option<Box>, offsetX: int, offsetY: int): (r: seq<ColorSpec>)
  {
    match bounding
    case None => []
    case Some(b) => RectCells(b, b.minRow, offsetX, offsetY)
  }

  /** The stamp phase of drawLayout: one copy of the template per layout pad, shifted. */
  function StampCells(layout: seq<byte>, offsetX: int, offsetY: int, template: ColorSpec): (r: seq<ColorSpec>)
  {
    seq(|layout|, i requires 0 <= i < |layout| => WithPosition(template, layout[i] + offsetY * 10 + offsetX))
  }

  /** The plain-note alternative of drawLayout: one note-on message per layout pad. */
  function NoteOnMessages(layout: seq<byte>, offsetX: int, offsetY: int, color: int): (r: seq<seq<int>>)
  {
    seq(|layout|, i requires 0 <= i < |layout| => [0x90, layout[i] + offsetY * 10 + offsetX, color])
  }

  lemma {:induction false} RowCellsShape(row: int, col: int, maxCol: int, offsetX: int, offsetY: int)
    ensures |RowCells(row, col, maxCol, offsetX, offsetY)| == Max(maxCol - col + 1, 0)
    ensures forall j :: 0 <= j < |RowCells(row, col, maxCol, offsetX, offsetY)| ==>
      RowCells(row, col, maxCol, offsetX, offsetY)[j] == Static((row + offsetY) * 10 + col + j + offsetX, 0)
    decreases maxCol - col + 1
  {
    if col <= maxCol {
      RowCellsShape(row, col + 1, maxCol, offsetX, offsetY);
    }
  }

  lemma {:induction false} RectCellsLength(b: Box, row: int, offsetX: int, offsetY: int)
    requires b.minCol <= b.maxCol
    ensures |RectCells(b, row, offsetX, offsetY)| == Max(b.maxRow - row + 1, 0) * (b.maxCol - b.minCol + 1)
    decreases b.maxRow - row + 1
  {
    if row <= b.maxRow {
      RowCellsShape(row, b.minCol, b.maxCol, offsetX, offsetY);
      RectCellsLength(b, row + 1, offsetX, offsetY);
    }
  }

  lemma {:induction false} RectCellsBlank(b: Box, row: int, offsetX: int, offsetY: int)
    ensures forall j :: 0 <= j < |RectCells(b, row, offsetX, offsetY)| ==>
      RectCells(b, row, offsetX, offsetY)[j].Static? && RectCells(b, row, offsetX, offsetY)[j].palette == 0
    decreases b.maxRow - row + 1
  {
    if row <= b.maxRow {
      RowCellsShape(row, b.minCol, b.maxCol, offsetX, offsetY);
      RectCellsBlank(b, row + 1, offsetX, offsetY);
    }
  }

  /** Every pad of rows row..maxRow, columns minCol..maxCol is cleared. */
  lemma {:induction false} RectCellsCover(b: Box, row: int, r: int, c: int, offsetX: int, offsetY: int)
    requires row <= r <= b.maxRow && b.minCol <= c <= b.maxCol
    ensures Static((r + offsetY) * 10 + c + offsetX, 0) in RectCells(b, row, offsetX, offsetY)
    decreases b.maxRow - row + 1
  {
    if r == row {
      RowCellsShape(row, b.minCol, b.maxCol, offsetX, offsetY);
      assert RowCells(row, b.minCol, b.maxCol, offsetX, offsetY)[c - b.minCol]
        == Static((r + offsetY) * 10 + c + offsetX, 0);
    } else {
      RectCellsCover(b, row + 1, r, c, offsetX, offsetY);
    }
  }

  /**
   * drawLayout's clear phase blanks the whole bounding rectangle, row by row,
   * so it covers every pad the stamp phase then paints.
   */
  lemma ClearCoversStamp(layout: seq<byte>, offsetX: int, offsetY: int, template: ColorSpec)
    ensures var clear := ClearCells(Bounding(layout), offsetX, offsetY);
      && (forall j :: 0 <= j < |clear| ==> clear[j].Static? && clear[j].palette == 0)
      && (forall i :: 0 <= i < |layout| ==>
            Static(StampCells(layout, offsetX, offsetY, template)[i].position, 0) in clear)
  {
    if layout != [] {
      var b := Bounding(layout).value;
      RectCellsBlank(b, b.minRow, offsetX, offsetY);
      forall i | 0 <= i < |layout|
        ensures Static(StampCells(layout, offsetX, offsetY, template)[i].position, 0)
          in ClearCells(Bounding(layout), offsetX, offsetY)
      {
        var v := layout[i];
        assert Encloses(b, v);
        RectCellsCover(b, b.minRow, Row(v), Col(v), offsetX, offsetY);
        assert (Row(v) + offsetY) * 10 + Col(v) + offsetX == v + offsetY * 10 + offsetX;
      }
    }
  }

  /** The clear phase has (rows) x (columns) cells. */
  lemma ClearCellsCount(layout: seq<byte>, offsetX: int, offsetY: int)
    requires layout != []
    ensures var b := Bounding(layout).value;
      |ClearCells(Bounding(layout), offsetX, offsetY)| == (b.maxRow - b.minRow + 1) * (b.maxCol - b.minCol + 1)
  {
    var b := Bounding(layout).value;
    RectCellsLength(b, b.minRow, offsetX, offsetY);
  }

  // ----------------------------------------------------------------- setFader

  type Triple = (int, int, int)

  /** `Math.floor(m / 16) + 1`: the row of the fader's top cell. */
  function FaderHeight(m: int): (r: int)
  {
    m / 16 + 1
  }

  /**
   * `m / 16 % 1 * 128` for an integer m, with JavaScript's remainder (which
   * keeps the sign of the dividend), then the 128-to-127 clamp.
   */
  function Brightness(m: int): (v: int)
    ensures -120 <= v <= 120
    ensures m >= 0 ==> v == (m % 16) * 8
  {
    var raw := if m >= 0 then (m % 16) * 8 else -(((-m) % 16) * 8);
    if raw == 128 then 127 else raw
  }

  /** Number of cells cleared above the top cell (`c` from 8 down to height+1). */
  function ClearedCount(h: int): (r: nat)
  {
    if h >= 8 then 0 else 8 - h
  }

  /** Number of full bar cells (`v` from 1 up to height-1). */
  function BarCount(h: int): (r: nat)
  {
    if h > 1 then h - 1 else 0
  }

  function FaderClearCells(col: int, h: int): (r: seq<ColorSpec>)
  {
    seq(ClearedCount(h), i => Static((8 - i) * 10 + col, 0))
  }

  /** An RGB spec at a position. setFader's and colorWheel's templates sit at 0 (setFader's at JavaScript null, which copy treats alike). */
  function RgbSpec(position: int, rgb: Triple): (r: ColorSpec)
  {
    Rgb(position, rgb.0, rgb.1, rgb.2)
  }

  function BarCells(col: int, h: int, rgb: Triple): (r: seq<ColorSpec>)
  {
    seq(BarCount(h), i => Copy(RgbSpec(0, rgb), Some((i + 1) * 10 + col)))
  }

  /**
   * The partial top cell. Its colour is the colour-space conversion of the
   * bar colour at value Brightness(m); `shade` stands for that conversion.
   */
  function TopCell(col: int, m: int, rgb: Triple, shade: (Triple, int) -> Triple): (r: ColorSpec)
  {
    RgbSpec(FaderHeight(m) * 10 + col, shade(rgb, Brightness(m)))
  }

  /** The button under the fader: green when full, red when empty, grey otherwise. */
  function BottomPad(col: int, m: int): (r: ColorSpec)
  {
    if m == 128 then Rgb(col, 0, 127, 0)
    else if m == 0 then Rgb(col, 127, 0, 0)
    else Rgb(col, m, m, m)
  }

  /** setFader's spec array; `drawBar` is `!isShift && page == onPage`. */
  function FaderCells(col: int, m: int, rgb: Triple, drawBar: bool, shade: (Triple, int) -> Triple): (r: seq<ColorSpec>)
  {
    (if drawBar then
       FaderClearCells(col, FaderHeight(m)) + BarCells(col, FaderHeight(m), rgb) + [TopCell(col, m, rgb, shade)]
     else [])
    + [BottomPad(col, m)]
  }

  /** For a midi-equivalent value 0..128 the top cell is in row 1..9 and the array has 9 or 10 cells. */
  lemma FaderShape(col: int, m: int, rgb: Triple, drawBar: bool, shade: (Triple, int) -> Triple)
    requires 0 <= m <= 128
    ensures var h := FaderHeight(m);
      var cells := FaderCells(col, m, rgb, drawBar, shade);
      && 1 <= h <= 9
      && |cells| == (if !drawBar then 1 else if h == 9 then 10 else 9)
      && cells[|cells| - 1] == BottomPad(col, m)
  {
  }

  /**
   * With the bar drawn, rows 1..8 of the column are each painted once: rows
   * above the top cell cleared to palette 0 (from row 8 down), rows below it in
   * the bar colour (from row 1 up), and the top cell at row `height`.
   */
  lemma FaderRows(col: int, m: int, rgb: Triple, shade: (Triple, int) -> Triple, v: int)
    requires 1 <= v <= 8
    ensures var h := FaderHeight(m);
      var cells := FaderCells(col, m, rgb, true, shade);
      && (v > h ==> cells[8 - v] == Static(v * 10 + col, 0))
      && (1 <= v < h ==>
            && cells[ClearedCount(h) + v - 1].position == v * 10 + col
            && cells[ClearedCount(h) + v - 1].Rgb?
            && ColorData(cells[ClearedCount(h) + v - 1]) == [rgb.0, rgb.1, rgb.2])
      && (v == h ==>
            && cells[ClearedCount(h) + h - 1] == TopCell(col, m, rgb, shade)
            && cells[ClearedCount(h) + h - 1].position == v * 10 + col)
  {
    var h := FaderHeight(m);
    var cells := FaderCells(col, m, rgb, true, shade);
    var clear, bar := FaderClearCells(col, h), BarCells(col, h, rgb);
    assert cells == clear + bar + [TopCell(col, m, rgb, shade)] + [BottomPad(col, m)];
    assert |clear| == ClearedCount(h) && |bar| == BarCount(h);
    if v > h {
      assert cells[8 - v] == clear[8 - v];
    } else if v < h {
      assert cells[ClearedCount(h) + v - 1] == bar[v - 1];
    } else {
      assert cells[ClearedCount(h) + h - 1] == TopCell(col, m, rgb, shade);
    }
  }

  /** The bottom button alone is sent when the bar is not drawn. */
  lemma FaderButtonOnly(col: int, m: int, rgb: Triple, shade: (Triple, int) -> Triple)
    ensures FaderCells(col, m, rgb, false, shade) == [BottomPad(col, m)]
  {
  }

  // --------------------------------------------------------------- colorWheel

  /** `if (hue >= HUE_MAX - 1) hue = 0; hue++`. */
  function NextHue(hue: int): (r: int)
  {
    (if hue >= 359 then 0 else hue) + 1
  }

  function HueAfter(hue: int, ticks: nat): (r: int)
    decreases ticks
  {
    if ticks == 0 then hue else HueAfter(NextHue(hue), ticks - 1)
  }

  /**
   * From any hue in 0..359 the counter walks 1, 2, ..., 359, 1, ...: after n
   * ticks it is n steps further round a cycle of 359 values (0 acts as 359).
   */
  lemma {:induction false} HueCycle(hue: int, ticks: nat)
    requires 0 <= hue <= 359
    ensures HueAfter(hue, ticks) == (if ticks == 0 then hue
                                     else ((if hue == 0 then 358 else hue - 1) + ticks) % 359 + 1)
    decreases ticks
  {
    if ticks > 0 {
      var next := NextHue(hue);
      HueCycle(next, ticks - 1);
      if ticks > 1 {
        var base := if hue == 0 then 358 else hue - 1;
        assert next - 1 == (base + 1) % 359;
        ModShift(base + 1, ticks - 1);
      }
    }
  }

  /** Reducing before adding a further count does not change the residue. */
  lemma ModShift(a: nat, k: nat)
    ensures (a % 359 + k) % 359 == (a + k) % 359
  {
    assert a + k == 359 * (a / 359) + (a % 359 + k);
  }

  /** The colour-wheel spec: a copy of the coloured template for each position. */
  function WheelCells(positions: seq<int>, color: ColorSpec): (r: seq<ColorSpec>)
  {
    seq(|positions|, i requires 0 <= i < |positions| => Copy(color, Some(positions[i])))
  }

  /**
   * Every position gets the wheel colour, in order; a position of 0 is falsy
   * for copy, so that cell keeps the template's own position.
   */
  lemma WheelCellsShape(positions: seq<int>, color: ColorSpec)
    ensures |WheelCells(positions, color)| == |positions|
    ensures forall i :: 0 <= i < |positions| ==>
      && WheelCells(positions, color)[i].Rgb? == color.Rgb?
      && ColorData(WheelCells(positions, color)[i]) == ColorData(color)
      && WheelCells(positions, color)[i].position == (if positions[i] != 0 then positions[i] else color.position)
  {
  }

  // ---------------------------------------------------------- RGBAToLaunchpad

  /** The pad the k-th pixel of the 8-wide image is painted on (row-major from 11). */
  function PadAt(k: int): (r: int)
  {
    GridPos(k + 8)
  }

  /** One step of `lp_position`: next pad, jumping from column 9 to column 1 above. */
  function NextPad(p: int): (r: int)
  {
    if (p + 1) % 10 == 9 then p + 3 else p + 1
  }

  lemma NextPadAt(k: int)
    requires 0 <= k
    ensures NextPad(PadAt(k)) == PadAt(k + 1)
  {
    GridPosStep(k + 8);
    var q, r := k / 8, k % 8;
    assert k + 8 == 8 * (q + 1) + r;
    assert (k + 8) / 8 == q + 1 && (k + 8) % 8 == r;
    assert PadAt(k) == 10 * q + r + 11;
    assert (PadAt(k) + 1) % 10 == r + 2;
  }

  /** The RGB spec of the k-th pixel: every channel halved, alpha dropped. */
  function PixelSpec(data: seq<byte>, k: nat): (r: ColorSpec)
    requires 4 * k + 2 < |data|
  {
    Rgb(PadAt(k), data[4 * k] / 2, data[4 * k + 1] / 2, data[4 * k + 2] / 2)
  }

  function Pixels(data: seq<byte>, n: nat): (r: seq<ColorSpec>)
    requires 4 * n <= |data|
  {
    seq(n, k requires 0 <= k < n => PixelSpec(data, k))
  }

  function Halves(s: seq<byte>): (r: seq<int>)
  {
    seq(|s|, i requires 0 <= i < |s| => s[i] / 2)
  }

  /**
   * What RGBAToLaunchpad returns: after the header and marker one RGB spec per
   * whole pixel, then the dangling `[3, pad]` opened after the last alpha byte,
   * then the halved bytes of an incomplete trailing pixel, then 247.
   */
  function ImageMessage(data: seq<byte>): (r: seq<int>)
  {
    var n := |data| / 4;
    HEADER + [COLOR_MARKER] + Flatten(Pixels(data, n)) + [3, PadAt(n)] + Halves(data[4 * n..]) + STOP
  }

  /** An 8x8 image paints all 64 grid pads in row-major order and ends with `3, 91, 247`. */
  lemma ImageMessageOfGrid(data: seq<byte>)
    requires |data| == 256
    ensures var px := Pixels(data, 64);
      && (forall k :: 0 <= k < 64 ==> IsGridPad(px[k].position) && px[k].position >= 11)
      && (forall j, k :: 0 <= j < k < 64 ==> px[j].position < px[k].position)
      && |ImageMessage(data)| == 330
      && ImageMessage(data)[327..] == [3, 91, 247]
  {
    PixelPads(data);
    PixelsLength(data, 64);
    assert data[256..] == [];
    assert Halves(data[256..]) == [];
    var msg := ImageMessage(data);
    assert msg == (HEADER + [COLOR_MARKER] + Flatten(Pixels(data, 64))) + [3, 91] + [] + STOP;
  }

  /** The 64 pixels of an 8x8 image land on distinct grid pads above the bottom row, in increasing order. */
  lemma PixelPads(data: seq<byte>)
    requires |data| == 256
    ensures var px := Pixels(data, 64);
      && (forall k :: 0 <= k < 64 ==> IsGridPad(px[k].position) && px[k].position >= 11)
      && (forall j, k :: 0 <= j < k < 64 ==> px[j].position < px[k].position)
  {
    var px := Pixels(data, 64);
    forall k | 0 <= k < 64
      ensures IsGridPad(px[k].position) && px[k].position >= 11
    {
      assert px[k].position == PadAt(k) == GridPos(k + 8);
      GridPosIsGridPad(k + 8);
    }
    forall j, k | 0 <= j < k < 64
      ensures px[j].position < px[k].position
    {
      assert PadAt(j) == GridPos(j + 8) && PadAt(k) == GridPos(k + 8);
      GridPosIncreasing(j + 8, k + 8);
    }
  }

  lemma {:induction false} PixelsLength(data: seq<byte>, n: nat)
    requires 4 * n <= |data|
    ensures |Flatten(Pixels(data, n))| == 5 * n
  {
    if n > 0 {
      PixelsSnoc(data, n - 1);
      FlattenConcat(Pixels(data, n - 1), [PixelSpec(data, n - 1)]);
      PixelsLength(data, n - 1);
    }
  }

  lemma PixelsSnoc(data: seq<byte>, n: nat)
    requires 4 * n + 4 <= |data|
    ensures Pixels(data, n + 1) == Pixels(data, n) + [PixelSpec(data, n)]
  {
  }
}

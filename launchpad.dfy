/**
 * The Launchpad device-state engine: current page, shift, delete mode and the
 * colour-wheel hue, with the setters and drawing routines that compute
 * lighting messages. The output device is a ghost log of what is sent, in
 * order; render routines that depend on the media player's state are logged
 * by name only.
 */
module Engine {
  import opened Util
  import opened ColorSpecs
  import opened Sysex
  import opened Layouts
  import opened Cells

  /** The render routines the page table and initDefaultPage invoke. */
  datatype Routine =
    | PlaybackIcon | PlayNextIndicator | RepeatIcon | Autoplay | Shuffle | Fader
    | Progress | SongIndexColor | NowPlayingToMidiOut | FavSongPads | DeleteLetter

  /** One entry of the output log. */
  datatype Output = Sent(bytes: seq<int>) | Rendered(routine: Routine)

  /** `_pageMap`: the routines registered for each page (none for other pages). */
  function PageRoutines(page: int): (r: seq<Routine>)
  {
    if page == 1 then [PlaybackIcon, PlayNextIndicator, RepeatIcon, Autoplay, Shuffle, Fader, Progress, SongIndexColor]
    else if page == 2 then [NowPlayingToMidiOut, PlaybackIcon]
    else if page == 3 then [FavSongPads, PlaybackIcon]
    else if page == 8 then [DeleteLetter, SongIndexColor, PlaybackIcon]
    else []
  }

  /** The routines initDefaultPage runs before it selects page 1. */
  const DEFAULT_ROUTINES: seq<Routine> := [PlaybackIcon, PlayNextIndicator, RepeatIcon, Autoplay, Shuffle, Fader, Progress]

  /** The two routines that only draw a glyph: `setDeleteLetter` and `setPlayNextIndicator`. */
  predicate IsGlyphRoutine(routine: Routine)
  {
    routine == DeleteLetter || routine == PlayNextIndicator
  }

  /** The page a glyph routine draws on. */
  function GlyphPage(routine: Routine): (p: int)
    requires IsGlyphRoutine(routine)
    ensures p == 1 || p == 8
  {
    if routine == DeleteLetter then 8 else 1
  }

  /** The glyph a glyph routine draws: its layout, row offset and palette colour. */
  function Glyph(routine: Routine, playNext: bool): (g: (seq<byte>, int, int))
    requires IsGlyphRoutine(routine)
  {
    if routine == DeleteLetter then (LARGE_LETTER_D_LAYOUT, 0, 5)
    else (if playNext then PLAY_ITEM_NEXT_LAYOUT else PLAY_ITEM_LATER_LAYOUT, 5, 67)
  }

  /**
   * What one routine sends, given the flags it reads. The glyph routines draw
   * through drawLayout, on their own page and outside shift mode; the routines
   * that read the media player, the key-value store or the artwork canvas are
   * logged by name.
   */
  function RoutineOutputs(routine: Routine, isShift: bool, page: int, playNext: bool): (r: seq<Output>)
  {
    if IsGlyphRoutine(routine) then
      if !isShift && page == GlyphPage(routine) then
        var g := Glyph(routine, playNext);
        DrawOutputs(g.0, 0, g.1, g.2, true, None, None)
      else []
    else [Rendered(routine)]
  }

  /** What calling the routines in order sends. */
  function Invocations(routines: seq<Routine>, isShift: bool, page: int, playNext: bool): (r: seq<Output>)
    decreases |routines|
  {
    if routines == [] then []
    else RoutineOutputs(routines[0], isShift, page, playNext) + Invocations(routines[1..], isShift, page, playNext)
  }

  lemma {:induction false} InvocationsSnoc(routines: seq<Routine>, routine: Routine, isShift: bool, page: int, playNext: bool)
    ensures Invocations(routines + [routine], isShift, page, playNext)
            == Invocations(routines, isShift, page, playNext) + RoutineOutputs(routine, isShift, page, playNext)
    decreases |routines|
  {
    if routines == [] {
      assert [] + [routine] == [routine];
      assert [routine][1..] == [];
    } else {
      assert (routines + [routine])[1..] == routines[1..] + [routine];
      InvocationsSnoc(routines[1..], routine, isShift, page, playNext);
    }
  }

  /** A log holding the first `i` invocations, extended by the next routine's output, holds `i + 1`. */
  lemma InvocationsStep(before: seq<Output>, mid: seq<Output>, after: seq<Output>, routines: seq<Routine>, i: nat,
                        isShift: bool, page: int, playNext: bool)
    requires i < |routines|
    requires mid == before + Invocations(routines[..i], isShift, page, playNext)
    requires after == mid + RoutineOutputs(routines[i], isShift, page, playNext)
    ensures after == before + Invocations(routines[..i + 1], isShift, page, playNext)
  {
    var prefix, next := routines[..i], routines[i];
    assert routines[..i + 1] == prefix + [next];
    InvocationsSnoc(prefix, next, isShift, page, playNext);
    var done, step := Invocations(prefix, isShift, page, playNext), RoutineOutputs(next, isShift, page, playNext);
    ConcatAssoc(before, done, step);
  }

  /** Pads cleared, besides the grid, when the page changes. */
  const PAGE_CHANGE_EXTRAS: seq<int> := [4, 5, 19, 29, 39, 49, 59, 69, 79, 89]

  /**
   * The page-indicator highlight. `_pageColors` holds it for page 1; for other
   * pages the lookup yields undefined and setPage falls back to the same default.
   */
  const PAGE_HIGHLIGHT: ColorSpec := Static(101, 37)

  /** The delete-mode pad: red while deleting, green otherwise. */
  function DeleteModeColor(on: bool): (r: ColorSpec)
  {
    Static(60, if on then 5 else 3)
  }

  /** Everything the page setter emits, from the old page, the new value and the shift flag. */
  function PageOutputs(oldPage: int, value: int, shift: bool, playNext: bool): (r: seq<Output>)
  {
    if 0 < value < 9 then
      [Sent(Encode(IndicatorCells(value, PAGE_HIGHLIGHT)))] + (if shift then [] else PageChangeOutputs(oldPage, value, playNext))
    else []
  }

  /** Outside shift mode: the clear on a change of page, then the page's routines with the new page shown. */
  function PageChangeOutputs(oldPage: int, value: int, playNext: bool): (r: seq<Output>)
  {
    (if value != oldPage then [Sent(Encode(ClearPadsCells(PAGE_CHANGE_EXTRAS, 0)))] else [])
    + Invocations(PageRoutines(value), false, value, playNext)
  }

  /** What drawLayout sends: the cleared bounding rectangle, then the stamped glyph or one note per pad. */
  function DrawOutputs(layout: seq<byte>, offsetX: int, offsetY: int, color: int, clear: bool,
                       altBounding: Option<seq<byte>>, colorSysex: Option<ColorSpec>): (r: seq<Output>)
  {
    (if clear then [Sent(Encode(ClearCells(Bounding(if altBounding.Some? then altBounding.value else layout), offsetX, offsetY)))]
     else [])
    + PaintOutputs(layout, offsetX, offsetY, color, colorSysex)
  }

  /** The paint phase of drawLayout: one stamped message, or a note-on per pad. */
  function PaintOutputs(layout: seq<byte>, offsetX: int, offsetY: int, color: int, colorSysex: Option<ColorSpec>): (r: seq<Output>)
  {
    if colorSysex.Some? then [Sent(Encode(StampCells(layout, offsetX, offsetY, colorSysex.value)))]
    else NoteOutputs(NoteOnMessages(layout, offsetX, offsetY, color))
  }

  function NoteOutputs(messages: seq<seq<int>>): (r: seq<Output>)
  {
    seq(|messages|, i requires 0 <= i < |messages| => Sent(messages[i]))
  }

  /**
   * Re-selecting the current page is not a no-op: it re-sends the indicators
   * and invokes every routine of the page again, without the page-change clear.
   */
  lemma PageReselect(page: int, playNext: bool)
    requires 1 <= page <= 8
    ensures var out := PageOutputs(page, page, false, playNext);
      && out[0] == Sent(Encode(IndicatorCells(page, PAGE_HIGHLIGHT)))
      && out[1..] == Invocations(PageRoutines(page), false, page, playNext)
  {
  }

  /** Moving to another page also clears the grid and the side pads before rendering. */
  lemma PageChange(oldPage: int, page: int, playNext: bool)
    requires 1 <= page <= 8 && page != oldPage
    ensures var out := PageOutputs(oldPage, page, false, playNext);
      && out[0] == Sent(Encode(IndicatorCells(page, PAGE_HIGHLIGHT)))
      && out[1] == Sent(Encode(ClearPadsCells(PAGE_CHANGE_EXTRAS, 0)))
      && out[2..] == Invocations(PageRoutines(page), false, page, playNext)
  {
  }

  /** In shift mode only the indicators change; out of range nothing is sent. */
  lemma PageShiftOrOutOfRange(oldPage: int, page: int, playNext: bool)
    ensures 1 <= page <= 8 ==> PageOutputs(oldPage, page, true, playNext) == [Sent(Encode(IndicatorCells(page, PAGE_HIGHLIGHT)))]
    ensures !(1 <= page <= 8) ==> PageOutputs(oldPage, page, true, playNext) == [] && PageOutputs(oldPage, page, false, playNext) == []
  {
  }

  class Launchpad {
    /** `_page`: any number may be stored; only 1..8 render. */
    var page: int
    var isShift: bool
    /** `_deleteMode`. */
    var deleteMode: bool
    var playNext: bool
    /** The colour-wheel hue counter. */
    var hue: int
    /** The external key-value store, for the keys this model writes. */
    var storage: map<string, int>
    /** Everything sent to the output device, in order. */
    ghost var log: seq<Output>

    ghost predicate Valid()
      reads this
    {
      0 <= hue <= 359
    }

    constructor ()
      ensures Valid()
      ensures page == 1 && !isShift && !deleteMode && !playNext && hue == 0
      ensures storage == map[] && log == []
    {
      page := 1;
      isShift := false;
      deleteMode := false;
      playNext := false;
      hue := 0;
      storage := map[];
      log := [];
    }

    /** `set deleteMode(value)`: stores the flag and lights pad 60. */
    method DeleteModeSetter(value: bool)
      modifies this`deleteMode, this`log
      ensures deleteMode == value
      ensures log == old(log) + [Sent(Encode([DeleteModeColor(value)]))]
    {
      if value {
        deleteMode := true;
        log := log + [Sent(Encode([Static(60, 5)]))];
      } else {
        deleteMode := false;
        log := log + [Sent(Encode([Static(60, 3)]))];
      }
    }

    /** `setPage(pageNumber, color)`: lights the indicator of the page, dims the seven others. */
    method SetPage(pageNumber: int, color: ColorSpec)
      modifies this`log
      ensures log == old(log) + [Sent(Encode(IndicatorCells(pageNumber, color)))]
    {
      var first := color;
      var dims: seq<ColorSpec> := [];
      var pos := 101;
      while pos <= 108
        invariant 101 <= pos <= 109
        invariant first == if 1 <= pageNumber <= 8 && 100 + pageNumber < pos then WithPosition(color, 100 + pageNumber) else color
        invariant dims == seq(pos - 101 - (if 1 <= pageNumber <= 8 && 100 + pageNumber < pos then 1 else 0),
                              i => Static(DimPos(pageNumber, i), 0))
      {
        assert pos % 10 == pos - 100;
        if pos % 10 == pageNumber {
          first := WithPosition(first, pos);
        } else {
          dims := dims + [Static(pos, 0)];
        }
        pos := pos + 1;
      }
      log := log + [Sent(Encode([first] + dims))];
    }

    /** `clearPads(additional, color)`: the 72 grid pads in `color`, then the extra pads in palette 0. */
    method ClearPads(additional: seq<int>, color: int)
      modifies this`log
      ensures log == old(log) + [Sent(Encode(ClearPadsCells(additional, color)))]
    {
      var clear: seq<ColorSpec> := [];
      var pos := 0;
      while pos <= 89
        invariant 0 <= pos <= 90
        invariant 0 <= GridCount(pos) <= GRID_SIZE
        invariant clear == GridCells(color)[..GridCount(pos)]
        invariant log == old(log)
      {
        GridPrefixStep(color, pos);
        if pos % 10 != 9 && pos % 10 != 0 {
          clear := clear + [Static(pos, color)];
        }
        pos := pos + 1;
      }
      assert clear == GridCells(color);
      var i := 0;
      while i < |additional|
        invariant 0 <= i <= |additional|
        invariant clear == GridCells(color) + ExtraCells(additional[..i])
      {
        assert ExtraCells(additional[..i + 1]) == ExtraCells(additional[..i]) + [Static(additional[i], 0)];
        clear := clear + [Static(additional[i], 0)];
        i := i + 1;
      }
      assert additional[..i] == additional;
      assert clear == ClearPadsCells(additional, color);
      log := log + [Sent(Encode(clear))];
    }

    /**
     * `set page(value)`: stores the value; for 1..8 re-lights the indicators,
     * and unless in shift mode clears the pads on a page change and invokes the
     * page's routines; then persists the page.
     */
    method PageSetter(value: int)
      modifies this`page, this`log, this`storage
      ensures page == value
      ensures log == old(log) + PageOutputs(old(page), value, isShift, playNext)
      ensures storage == if 0 < value < 9 then old(storage)["page" := value] else old(storage)
    {
      var oldPage := page;
      page := value;
      if 0 < value < 9 {
        SetPage(page, PAGE_HIGHLIGHT);
        if !isShift {
          ghost var indicators := [Sent(Encode(IndicatorCells(value, PAGE_HIGHLIGHT)))];
          ShowPage(oldPage);
          ConcatAssoc(old(log), indicators, PageChangeOutputs(oldPage, value, playNext));
        }
        storage := storage["page" := page];
      }
    }

    /** The non-shift part of the page setter: clear on a change, then call each routine of the page. */
    method ShowPage(oldPage: int)
      requires !isShift
      modifies this`log
      ensures log == old(log) + PageChangeOutputs(oldPage, page, playNext)
    {
      ghost var clear: seq<Output> := [];
      if page != oldPage {
        ClearPads(PAGE_CHANGE_EXTRAS, 0);
        clear := [Sent(Encode(ClearPadsCells(PAGE_CHANGE_EXTRAS, 0)))];
      }
      RunAll(PageRoutines(page));
      ConcatAssoc(old(log), clear, Invocations(PageRoutines(page), isShift, page, playNext));
    }

    /** `for (const pageFunction of pageFunctions) pageFunction.call(this)`. */
    method RunAll(routines: seq<Routine>)
      modifies this`log
      ensures log == old(log) + Invocations(routines, isShift, page, playNext)
    {
      var i := 0;
      while i < |routines|
        invariant 0 <= i <= |routines|
        invariant log == old(log) + Invocations(routines[..i], isShift, page, playNext)
      {
        RunNext(old(log), routines, i);
        i := i + 1;
      }
      assert routines[..i] == routines;
    }

    /** One step of `RunAll`: calling the next routine extends the invocations by its output. */
    method RunNext(ghost before: seq<Output>, routines: seq<Routine>, i: nat)
      requires i < |routines|
      requires log == before + Invocations(routines[..i], isShift, page, playNext)
      modifies this`log
      ensures log == before + Invocations(routines[..i + 1], isShift, page, playNext)
    {
      ghost var mid := log;
      Run(routines[i]);
      InvocationsStep(before, mid, log, routines, i, isShift, page, playNext);
    }

    /** Calls one routine. */
    method Run(routine: Routine)
      modifies this`log
      ensures log == old(log) + RoutineOutputs(routine, isShift, page, playNext)
    {
      if routine == DeleteLetter {
        SetDeleteLetter();
      } else if routine == PlayNextIndicator {
        SetPlayNextIndicator();
      } else {
        log := log + [Rendered(routine)];
      }
    }

    /** `setDeleteLetter()`: the large letter D in palette 5, on page 8 outside shift mode. */
    method SetDeleteLetter()
      modifies this`log
      ensures log == old(log) + RoutineOutputs(DeleteLetter, isShift, page, playNext)
    {
      if !isShift && page == 8 {
        DrawLayout(LARGE_LETTER_D_LAYOUT, 0, 0, 5, true, None, None);
      }
    }

    /** `setPlayNextIndicator()`: the play-next or play-later glyph in rows 6..8, on page 1 outside shift mode. */
    method SetPlayNextIndicator()
      modifies this`log
      ensures log == old(log) + RoutineOutputs(PlayNextIndicator, isShift, page, playNext)
    {
      if !isShift && page == 1 {
        if playNext {
          DrawLayout(PLAY_ITEM_NEXT_LAYOUT, 0, 5, 67, true, None, None);
        } else {
          DrawLayout(PLAY_ITEM_LATER_LAYOUT, 0, 5, 67, true, None, None);
        }
      }
    }

    /** `drawLayout(...)`: clears the bounding rectangle row-major, then paints the layout. */
    method DrawLayout(layout: seq<byte>, offsetX: int, offsetY: int, color: int, clear: bool,
                      altBounding: Option<seq<byte>>, colorSysex: Option<ColorSpec>)
      modifies this`log
      ensures log == old(log) + DrawOutputs(layout, offsetX, offsetY, color, clear, altBounding, colorSysex)
    {
      ghost var cleared: seq<Output> := [];
      if clear {
        var bounding := Bounding(if altBounding.Some? then altBounding.value else layout);
        var cells: seq<ColorSpec> := [];
        if bounding.Some? {
          cells := ClearRect(bounding.value, offsetX, offsetY);
        }
        cleared := [Sent(Encode(cells))];
        log := log + [Sent(Encode(cells))];
      }
      Paint(layout, offsetX, offsetY, color, colorSysex);
      ConcatAssoc(old(log), cleared, PaintOutputs(layout, offsetX, offsetY, color, colorSysex));
    }

    /** The second half of drawLayout. */
    method Paint(layout: seq<byte>, offsetX: int, offsetY: int, color: int, colorSysex: Option<ColorSpec>)
      modifies this`log
      ensures log == old(log) + PaintOutputs(layout, offsetX, offsetY, color, colorSysex)
    {
      if colorSysex.Some? {
        var colors := Stamp(layout, offsetX, offsetY, colorSysex.value);
        log := log + [Sent(Encode(colors))];
      } else {
        var i := 0;
        while i < |layout|
          invariant 0 <= i <= |layout|
          invariant log == old(log) + NoteOutputs(NoteOnMessages(layout[..i], offsetX, offsetY, color))
        {
          NoteStep(layout, offsetX, offsetY, color, i);
          log := log + [Sent([0x90, layout[i] + offsetY * 10 + offsetX, color])];
          i := i + 1;
        }
        assert layout[..i] == layout;
      }
    }

    /**
     * `setFader(col, valueToCheck, r, g, b, onPage)` for the midi-equivalent
     * value m = round(valueToCheck * 128). `shade` is the colour-space
     * conversion of the bar colour at a given brightness.
     */
    method SetFader(col: int, m: int, rgb: Triple, onPage: int, shade: (Triple, int) -> Triple)
      modifies this`log
      ensures log == old(log) + [Sent(Encode(FaderCells(col, m, rgb, !isShift && page == onPage, shade)))]
    {
      var cells: seq<ColorSpec> := [];
      if !isShift && page == onPage {
        cells := FaderBar(col, m, rgb, shade);
      }
      if m == 128 {
        cells := cells + [Rgb(col, 0, 127, 0)];
      } else if m == 0 {
        cells := cells + [Rgb(col, 127, 0, 0)];
      } else {
        cells := cells + [Rgb(col, m, m, m)];
      }
      log := log + [Sent(Encode(cells))];
    }

    /**
     * `colorWheel(positions)`: advances the hue (1..359, then round again) and
     * paints the positions with the wheel colour `wheel(hue)`.
     */
    method ColorWheel(positions: seq<int>, wheel: int -> Triple)
      requires Valid()
      modifies this`hue, this`log
      ensures Valid()
      ensures hue == NextHue(old(hue)) && 1 <= hue <= 359
      ensures log == old(log) + [Sent(Encode(WheelCells(positions, RgbSpec(0, wheel(hue)))))]
    {
      if hue >= 359 {
        hue := 0;
      }
      hue := hue + 1;
      var color := RgbSpec(0, wheel(hue));
      var colors: seq<ColorSpec> := [];
      var i := 0;
      while i < |positions|
        invariant 0 <= i <= |positions|
        invariant colors == WheelCells(positions[..i], color)
      {
        colors := colors + [Copy(color, Some(positions[i]))];
        i := i + 1;
      }
      assert positions[..i] == positions;
      log := log + [Sent(Encode(colors))];
    }

    /** `RGBAToLaunchpad(imageData)`: one RGB spec per pixel walking the grid from pad 11. */
    method RgbaToLaunchpad(imageData: seq<byte>) returns (out: seq<int>)
      ensures out == ImageMessage(imageData)
    {
      var lp := 11;
      out := HEADER + [3, 3, lp];
      var pos := 0;
      while pos < |imageData|
        invariant 0 <= pos <= |imageData|
        invariant lp == PadAt(pos / 4)
        invariant out == HEADER + [COLOR_MARKER] + Walk(imageData, pos)
      {
        PadStep(pos);
        if (pos + 1) % 4 == 0 {
          lp := lp + 1;
          if lp % 10 == 9 {
            lp := lp + 2;
          }
          out := out + [3, lp];
        } else {
          out := out + [imageData[pos] / 2];
        }
        pos := pos + 1;
      }
      WalkIsImageBody(imageData, pos);
      ImageDone(imageData);
      out := out + [247];
    }

    /** Shift pressed (CC 90 at velocity 127): clears the pads, refreshes the slots and the artwork burst. */
    method EnterShift()
      modifies this`isShift, this`log
      ensures isShift
      ensures log == old(log) + [Sent(Encode(ClearPadsCells([4], 0)))]
                   + [Rendered(SongIndexColor), Rendered(NowPlayingToMidiOut)]
    {
      isShift := true;
      ClearPads([4], 0);
      log := log + [Rendered(SongIndexColor), Rendered(NowPlayingToMidiOut)];
    }

    /** Shift released (CC 90 at velocity 0): clears the pads and re-selects the current page. */
    method ExitShift()
      modifies this`isShift, this`log, this`page, this`storage
      ensures !isShift && page == old(page)
      ensures log == old(log) + [Sent(Encode(ClearPadsCells([4], 0)))]
                   + PageOutputs(old(page), old(page), false, playNext) + [Rendered(SongIndexColor)]
      ensures storage == if 0 < page < 9 then old(storage)["page" := page] else old(storage)
    {
      isShift := false;
      ClearPads([4], 0);
      PageSetter(page);
      log := log + [Rendered(SongIndexColor)];
    }

    /** `initDefaultPage()`: the page-1 routines, then page 1, then delete mode off. */
    method InitDefaultPage()
      modifies this`page, this`log, this`storage, this`deleteMode
      ensures page == 1 && !deleteMode
      ensures log == old(log) + Invocations(DEFAULT_ROUTINES, isShift, old(page), playNext)
                   + PageOutputs(old(page), 1, isShift, playNext) + [Sent(Encode([DeleteModeColor(false)]))]
      ensures storage == old(storage)["page" := 1]
    {
      RunAll(DEFAULT_ROUTINES);
      ShowDefaultPage();
    }

    /** The second half of initDefaultPage: page 1, then delete mode off. */
    method ShowDefaultPage()
      modifies this`page, this`log, this`storage, this`deleteMode
      ensures page == 1 && !deleteMode
      ensures log == old(log) + PageOutputs(old(page), 1, isShift, playNext) + [Sent(Encode([DeleteModeColor(false)]))]
      ensures storage == old(storage)["page" := 1]
    {
      PageSetter(1);
      DeleteModeSetter(false);
    }
  }

  /** The drawn part of setFader: the cells cleared above the top, the bar, then the top cell. */
  method FaderBar(col: int, m: int, rgb: Triple, shade: (Triple, int) -> Triple) returns (cells: seq<ColorSpec>)
    ensures cells == FaderClearCells(col, FaderHeight(m)) + BarCells(col, FaderHeight(m), rgb) + [TopCell(col, m, rgb, shade)]
  {
    cells := [];
    var height := m / 16 + 1;
    var c := 8;
    while c >= height + 1
      invariant Min(height, 8) <= c <= 8
      invariant cells == seq(8 - c, i => Static((8 - i) * 10 + col, 0))
    {
      cells := cells + [Static(c * 10 + col, 0)];
      c := c - 1;
    }
    assert cells == FaderClearCells(col, height);
    var template := RgbSpec(0, rgb);
    var v := 1;
    while v < height
      invariant 1 <= v <= Max(height, 1)
      invariant cells == FaderClearCells(col, height) + seq(v - 1, i => Copy(template, Some((i + 1) * 10 + col)))
    {
      cells := cells + [Copy(template, Some(v * 10 + col))];
      v := v + 1;
    }
    assert cells == FaderClearCells(col, height) + BarCells(col, height, rgb);
    cells := cells + [RgbSpec(height * 10 + col, shade(rgb, Brightness(m)))];
  }

  /** The clear phase of drawLayout: every pad of the box, row by row, shifted by the offsets. */
  method ClearRect(b: Box, offsetX: int, offsetY: int) returns (cells: seq<ColorSpec>)
    ensures cells == RectCells(b, b.minRow, offsetX, offsetY)
  {
    cells := [];
    var row := b.minRow;
    while row <= b.maxRow
      invariant row <= b.maxRow + 1 || row == b.minRow
      invariant cells + RectCells(b, row, offsetX, offsetY) == RectCells(b, b.minRow, offsetX, offsetY)
      decreases b.maxRow - row
    {
      var line := ClearRow(row, b.minCol, b.maxCol, offsetX, offsetY);
      ghost var rest := RectCells(b, row + 1, offsetX, offsetY);
      assert RectCells(b, row, offsetX, offsetY) == line + rest;
      ConcatAssoc(cells, line, rest);
      cells := cells + line;
      row := row + 1;
    }
  }

  /** One row of the clear phase: columns minCol..maxCol, left to right. */
  method ClearRow(row: int, minCol: int, maxCol: int, offsetX: int, offsetY: int) returns (line: seq<ColorSpec>)
    ensures line == RowCells(row, minCol, maxCol, offsetX, offsetY)
  {
    line := [];
    var col := minCol;
    while col <= maxCol
      invariant col <= maxCol + 1 || col == minCol
      invariant line + RowCells(row, col, maxCol, offsetX, offsetY) == RowCells(row, minCol, maxCol, offsetX, offsetY)
      decreases maxCol - col
    {
      var cell := Static((row + offsetY) * 10 + col + offsetX, 0);
      ghost var rest := RowCells(row, col + 1, maxCol, offsetX, offsetY);
      assert RowCells(row, col, maxCol, offsetX, offsetY) == [cell] + rest;
      ConcatAssoc(line, [cell], rest);
      line := line + [cell];
      col := col + 1;
    }
  }

  /** The stamp phase of drawLayout: a copy of the template at each shifted layout pad. */
  method Stamp(layout: seq<byte>, offsetX: int, offsetY: int, template: ColorSpec) returns (colors: seq<ColorSpec>)
    ensures colors == StampCells(layout, offsetX, offsetY, template)
  {
    colors := [];
    var i := 0;
    while i < |layout|
      invariant 0 <= i <= |layout|
      invariant colors == StampCells(layout[..i], offsetX, offsetY, template)
    {
      var newSysex := Copy(template, None);
      newSysex := WithPosition(newSysex, layout[i] + offsetY * 10 + offsetX);
      colors := colors + [newSysex];
      i := i + 1;
    }
    assert layout[..i] == layout;
  }

  /** One more layout pad adds its note-on message to the plain-note output. */
  lemma NoteStep(layout: seq<byte>, offsetX: int, offsetY: int, color: int, i: int)
    requires 0 <= i < |layout|
    ensures NoteOutputs(NoteOnMessages(layout[..i + 1], offsetX, offsetY, color))
            == NoteOutputs(NoteOnMessages(layout[..i], offsetX, offsetY, color)) + [Sent([0x90, layout[i] + offsetY * 10 + offsetX, color])]
  {
  }

  /** The scan of clearPads: pad `pos` extends the prefix of the grid exactly when it is a grid pad. */
  lemma GridPrefixStep(color: int, pos: int)
    requires 0 <= pos <= 89
    ensures 0 <= GridCount(pos) <= GridCount(pos + 1) <= GRID_SIZE
    ensures GridCells(color)[..GridCount(pos + 1)]
            == GridCells(color)[..GridCount(pos)] + (if pos % 10 != 9 && pos % 10 != 0 then [Static(pos, color)] else [])
  {
    GridCountStep(pos);
    if pos % 10 != 9 && pos % 10 != 0 {
      GridCountAt(pos);
    }
  }

  /** What follows header and marker in RGBAToLaunchpad's output after the first `pos` image bytes. */
  function ImageBody(data: seq<byte>, pos: int): (r: seq<int>)
    requires 0 <= pos <= |data|
  {
    Flatten(Pixels(data, pos / 4)) + [3, PadAt(pos / 4)] + Halves(data[4 * (pos / 4)..pos])
  }

  lemma ImageDone(data: seq<byte>)
    ensures HEADER + [COLOR_MARKER] + ImageBody(data, |data|) + [247] == ImageMessage(data)
  {
    var n := |data| / 4;
    var start, pixels, pad, tail := HEADER + [COLOR_MARKER], Flatten(Pixels(data, n)), [3, PadAt(n)], Halves(data[4 * n..]);
    assert data[4 * n..|data|] == data[4 * n..];
    assert ImageBody(data, |data|) == pixels + pad + tail;
    ConcatAssoc(start, pixels + pad, tail);
    ConcatAssoc(start, pixels, pad);
  }

  /** RGBAToLaunchpad's output after `pos` bytes, byte by byte: an alpha byte opens the next pad, a colour byte is halved. */
  function Walk(data: seq<byte>, pos: nat): (r: seq<int>)
    requires pos <= |data|
  {
    if pos == 0 then [3, 11]
    else Walk(data, pos - 1) + (if pos % 4 == 0 then [3, PadAt(pos / 4)] else [data[pos - 1] / 2])
  }

  /** The pad counter after `pos + 1` bytes. */
  lemma PadStep(pos: nat)
    ensures (pos + 1) % 4 == 0 ==> PadAt((pos + 1) / 4) == NextPad(PadAt(pos / 4))
    ensures (pos + 1) % 4 != 0 ==> PadAt((pos + 1) / 4) == PadAt(pos / 4)
  {
    if (pos + 1) % 4 == 0 {
      assert (pos + 1) / 4 == pos / 4 + 1;
      NextPadAt(pos / 4);
    } else {
      assert (pos + 1) / 4 == pos / 4;
    }
  }

  /** The byte walk builds the closed form: whole pixels as RGB specs, then the pad opened last and the partial pixel. */
  lemma {:induction false} WalkIsImageBody(data: seq<byte>, pos: nat)
    requires pos <= |data|
    ensures Walk(data, pos) == ImageBody(data, pos)
  {
    if pos == 0 {
      assert Pixels(data, 0) == [];
      assert Halves(data[0..0]) == [];
    } else {
      WalkIsImageBody(data, pos - 1);
      if pos % 4 == 0 {
        ImageStep(data, pos - 1);
      } else {
        ColorByteStep(data, pos - 1);
      }
    }
  }

  /** One alpha byte of RGBAToLaunchpad closes a pixel's RGB spec and opens the next pad's. */
  lemma ImageStep(data: seq<byte>, pos: int)
    requires 0 <= pos < |data| && (pos + 1) % 4 == 0
    ensures (pos + 1) / 4 == pos / 4 + 1
    ensures ImageBody(data, pos) + [3, PadAt((pos + 1) / 4)] == ImageBody(data, pos + 1)
  {
    var q := pos / 4;
    assert pos == 4 * q + 3 && (pos + 1) / 4 == q + 1;
    var f := Flatten(Pixels(data, q));
    var rgb := [data[4 * q] / 2, data[4 * q + 1] / 2, data[4 * q + 2] / 2];
    assert Halves(data[4 * q..pos]) == rgb;
    assert ImageBody(data, pos) == f + [3, PadAt(q)] + rgb;
    PixelBytes(data, q);
    assert Halves(data[4 * (q + 1)..pos + 1]) == [];
    assert ImageBody(data, pos + 1) == f + ([3, PadAt(q)] + rgb) + [3, PadAt(q + 1)];
  }

  /** The encoding of one more whole pixel. */
  lemma PixelBytes(data: seq<byte>, q: nat)
    requires 4 * q + 4 <= |data|
    ensures Flatten(Pixels(data, q + 1))
            == Flatten(Pixels(data, q)) + ([3, PadAt(q)] + [data[4 * q] / 2, data[4 * q + 1] / 2, data[4 * q + 2] / 2])
  {
    PixelsSnoc(data, q);
    FlattenConcat(Pixels(data, q), [PixelSpec(data, q)]);
    assert Flatten([PixelSpec(data, q)]) == SpecBytes(PixelSpec(data, q));
  }

  /** A colour byte of RGBAToLaunchpad appends its halved value. */
  lemma ColorByteStep(data: seq<byte>, pos: int)
    requires 0 <= pos < |data| && (pos + 1) % 4 != 0
    ensures (pos + 1) / 4 == pos / 4
    ensures ImageBody(data, pos) + [data[pos] / 2] == ImageBody(data, pos + 1)
  {
    var q := pos / 4;
    assert data[4 * q..pos + 1] == data[4 * q..pos] + [data[pos]];
    assert Halves(data[4 * q..pos + 1]) == Halves(data[4 * q..pos]) + [data[pos] / 2];
  }
}

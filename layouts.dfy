/**
 * The fixed pad-coordinate tables used to paint glyphs and to hit-test
 * presses, their derived boxes, and getBounding.
 */
module Layouts {
  import opened Util

  const PLAY_BUTTON_LAYOUT: seq<byte> := [11, 12, 21, 23, 31, 32]
  const PAUSE_BUTTON_LAYOUT: seq<byte> := [11, 13, 21, 23, 31, 33]
  const REPEAT_BUTTON_LAYOUT: seq<byte> := [12, 13, 21, 23, 31, 32]
  const AUTOPLAY_LAYOUT: seq<byte> := [11, 13, 21, 22, 23, 31, 32, 33]
  const SHUFFLE_LAYOUT: seq<byte> := [11, 12, 13, 21, 22, 23]
  const PLAY_ITEM_NEXT_LAYOUT: seq<byte> := [11, 21, 22, 31, 32, 33]
  const LARGE_LETTER_D_LAYOUT: seq<byte> :=
    [11, 12, 13, 14, 15, 16, 22, 27, 32, 38, 42, 48, 52, 58, 62, 68, 72, 77, 81, 82, 83, 84, 85, 86]
  const LARGE_LETTER_N: seq<byte> := [11, 14, 21, 23, 24, 31, 32, 34, 41, 44]
  const LARGE_LETTER_L: seq<byte> := [11, 12, 13, 21, 31, 41]
  const LETTER_P_LAYOUT: seq<byte> := [11, 21, 22, 23, 31, 32, 33]
  const PLAY_ITEM_LATER_LAYOUT: seq<byte> := [11, 12, 13, 21, 22, 31]
  const PLAY_PAUSE_BOX: seq<byte> := [11, 12, 13, 21, 22, 23, 31, 32, 33]
  const CENTER_BOX: seq<byte> := [44, 45, 54, 55]

  /** `Uint8Array.map(value => value + k)`: every element shifted, wrapping at 256. */
  function Offset(layout: seq<byte>, k: nat): (r: seq<byte>)
  {
    seq(|layout|, i requires 0 <= i < |layout| => (layout[i] + k) % 256)
  }

  const REPEAT_BOX: seq<byte> := Offset(PLAY_PAUSE_BOX, 5)
  const AUTOPLAY_BOX: seq<byte> := Offset(PLAY_PAUSE_BOX, 55)
  const SHUFFLE_BOX: seq<byte> := Offset(SHUFFLE_LAYOUT, 35)
  const LETTER_BOX: seq<byte> := Offset(PLAY_PAUSE_BOX, 50)

  /** The derived boxes, written out: no element wraps around. */
  lemma DerivedBoxes()
    ensures REPEAT_BOX == [16, 17, 18, 26, 27, 28, 36, 37, 38]
    ensures AUTOPLAY_BOX == [66, 67, 68, 76, 77, 78, 86, 87, 88]
    ensures SHUFFLE_BOX == [46, 47, 48, 56, 57, 58]
    ensures LETTER_BOX == [61, 62, 63, 71, 72, 73, 81, 82, 83]
  {
  }

  /** Row and column of a pad coordinate (`Math.floor(c * 0.1)` and `c % 10`). */
  function Row(c: byte): (r: int) { c / 10 }
  function Col(c: byte): (r: int) { c % 10 }

  /** `[minRow, minCol, maxRow, maxCol]`. */
  datatype Box = Box(minRow: int, minCol: int, maxRow: int, maxCol: int)

  predicate Encloses(b: Box, c: byte)
  {
    b.minRow <= Row(c) <= b.maxRow && b.minCol <= Col(c) <= b.maxCol
  }

  /** Every extreme of the box is reached by some coordinate of the layout. */
  predicate Tight(b: Box, layout: seq<byte>)
  {
    && (exists i :: 0 <= i < |layout| && Row(layout[i]) == b.minRow)
    && (exists i :: 0 <= i < |layout| && Col(layout[i]) == b.minCol)
    && (exists i :: 0 <= i < |layout| && Row(layout[i]) == b.maxRow)
    && (exists i :: 0 <= i < |layout| && Col(layout[i]) == b.maxCol)
  }

  /**
   * `getBounding`: the componentwise extrema of rows and columns. For an empty
   * layout JavaScript's Math.min/Math.max give +/-Infinity, which every loop over
   * the box treats as empty; that case is None here.
   */
  function Bounding(layout: seq<byte>): (b: Option<Box>)
    ensures b.None? <==> layout == []
    ensures b.Some? ==> forall i :: 0 <= i < |layout| ==> Encloses(b.value, layout[i])
    ensures b.Some? ==> b.value.minRow <= b.value.maxRow && b.value.minCol <= b.value.maxCol
    decreases |layout|
  {
    if layout == [] then None
    else
      var c := layout[0];
      match Bounding(layout[1..])
      case None => Some(Box(Row(c), Col(c), Row(c), Col(c)))
      case Some(rest) =>
        Some(Box(Min(Row(c), rest.minRow), Min(Col(c), rest.minCol),
                 Max(Row(c), rest.maxRow), Max(Col(c), rest.maxCol)))
  }

  /** The box is the smallest one: each of its four edges touches the layout. */
  lemma {:induction false} BoundingTight(layout: seq<byte>)
    requires layout != []
    ensures Tight(Bounding(layout).value, layout)
    decreases |layout|
  {
    var tail := layout[1..];
    var c := layout[0];
    if tail == [] {
      assert Row(layout[0]) == Row(c) && Col(layout[0]) == Col(c);
      return;
    }
    BoundingTight(tail);
    var rest := Bounding(tail).value;
    var i1 :| 0 <= i1 < |tail| && Row(tail[i1]) == rest.minRow;
    var i2 :| 0 <= i2 < |tail| && Col(tail[i2]) == rest.minCol;
    var i3 :| 0 <= i3 < |tail| && Row(tail[i3]) == rest.maxRow;
    var i4 :| 0 <= i4 < |tail| && Col(tail[i4]) == rest.maxCol;
    assert tail[i1] == layout[i1 + 1] && tail[i2] == layout[i2 + 1];
    assert tail[i3] == layout[i3 + 1] && tail[i4] == layout[i4 + 1];
    assert layout[0] == c;
  }

  /** The bounding box of the play glyph: pad 23 puts its right edge in column 3. */
  lemma PlayButtonBounding()
    ensures Bounding(PLAY_BUTTON_LAYOUT) == Some(Box(1, 1, 3, 3))
  {
    var p := PLAY_BUTTON_LAYOUT;
    assert Bounding(p[5..]) == Some(Box(3, 2, 3, 2));
    assert p[4..][1..] == p[5..];
    assert Bounding(p[4..]) == Some(Box(3, 1, 3, 2));
    assert p[3..][1..] == p[4..];
    assert Bounding(p[3..]) == Some(Box(2, 1, 3, 3));
    assert p[2..][1..] == p[3..];
    assert Bounding(p[2..]) == Some(Box(2, 1, 3, 3));
    assert p[1..][1..] == p[2..];
    assert Bounding(p[1..]) == Some(Box(1, 1, 3, 3));
    assert Bounding(p) == Some(Box(1, 1, 3, 3));
  }
}

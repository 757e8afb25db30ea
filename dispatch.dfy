/**
 * The pure decision rules of the MIDI dispatcher (`handle_midi`): which
 * control-change numbers do what, how a fresh NoteOn is routed by page and
 * channel, the per-page hit tests, the repeat/shuffle cycling, the volume
 * guards, the fader ramp, and `playPage`'s reading of the location URL.
 * The player calls themselves are left to the caller: the rules return the
 * command to perform.
 */
module Dispatch {
  import opened Util
  import opened Layouts
  import opened Midi
  import Cells

  // ------------------------------------------------------------------ control changes on channel 0

  datatype CcAction =
    | ToggleMute | CopySongLink | PlayPause | VolumeDownStep | VolumeUpStep | PreviousItem | NextItem
    | SelectPage(page: int)
    | ExitShift | EnterShift | DeleteModeOff | DeleteModeOn
    | QueueStored(slot: int) | DeleteStored(slot: int) | StoreCurrentPage(slot: int)

  /**
   * What a channel-0 control change at `number`/`velocity` triggers, in the
   * order the dispatcher performs them. `isShift` and `page` are the engine's
   * flags; the page a page-select sets is the one the side-button tests read.
   */
  function CcActions(number: int, velocity: int, isShift: bool, page: int): (r: seq<CcAction>)
  {
    var pressed := velocity == 127;
    var pageNow := if pressed && number - 100 > 0 then number - 100 else page;
    var shiftNow := if number == 90 && velocity == 0 then false else if number == 90 && pressed then true else isShift;
    (if pressed then
       (if number == 4 then [ToggleMute] else [])
       + (if number == 10 then [CopySongLink] else [])
       + (if number == 20 then [PlayPause] else [])
       + (if number == 70 then [VolumeDownStep] else [])
       + (if number == 80 then [VolumeUpStep] else [])
       + (if number == 91 then [PreviousItem] else [])
       + (if number == 92 then [NextItem] else [])
       + (if number - 100 > 0 then [SelectPage(number - 100)] else [])
     else [])
    + (if velocity == 0 && number == 90 then [ExitShift] else if pressed && number == 90 then [EnterShift] else [])
    + (if velocity == 0 && number == 60 then [DeleteModeOff] else if pressed && number == 60 then [DeleteModeOn] else [])
    + (if pressed && !shiftNow then
         (if number % 10 == 9 && pageNow == 1 then [QueueStored(number)] else [])
         + (if number % 10 == 9 && pageNow == 8 then [DeleteStored(number)] else [])
       else [])
    + (if pressed && shiftNow && number % 10 == 9 then [StoreCurrentPage(number)] else [])
  }

  /**
   * Only full presses (127) and releases (0) do anything; a release acts only
   * on the shift and delete-mode buttons; a press sets page `number - 100`
   * exactly when the number is above 100.
   */
  lemma CcActionsShape(number: byte, velocity: byte, isShift: bool, page: int)
    ensures velocity != 0 && velocity != 127 ==> CcActions(number, velocity, isShift, page) == []
    ensures velocity == 0 ==>
      CcActions(number, velocity, isShift, page) == (if number == 90 then [ExitShift] else if number == 60 then [DeleteModeOff] else [])
    ensures velocity == 127 && number > 100 ==> SelectPage(number - 100) in CcActions(number, velocity, isShift, page)
    ensures forall p :: SelectPage(p) in CcActions(number, velocity, isShift, page) ==> velocity == 127 && p == number - 100 && p > 0
  {
  }

  /** On the side buttons a press queues the stored item on page 1, deletes it on page 8, stores the page in shift mode. */
  lemma SideButtons(number: byte, isShift: bool, page: int)
    requires number % 10 == 9 && number < 100
    ensures CcActions(number, 127, isShift, page)
            == (if isShift then [StoreCurrentPage(number)]
                else if page == 1 then [QueueStored(number)]
                else if page == 8 then [DeleteStored(number)]
                else [])
  {
  }

  // ------------------------------------------------------------------ routing a NoteOn

  datatype Route = PageHandler(page: int) | LegacyCustom | Ignored

  /**
   * A NoteOn is handled only on an edge (`!wasOn`): on channel 0 by the
   * current page's handler (page 1 does nothing in shift mode), on channel 2
   * by the legacy custom-mode handler.
   */
  function RouteNote(note: MidiNote, page: int, isShift: bool): (r: Route)
  {
    if note.IsEdge() && note.action == Some(NoteOn) && note.body.VoiceBody? then
      if note.body.channel == Some(0) then
        if (page == 1 && !isShift) || page == 2 || page == 3 then PageHandler(page) else Ignored
      else if note.body.channel == Some(2) then LegacyCustom
      else Ignored
    else Ignored
  }

  /** Holding a pad does not retrigger: a repeated NoteOn, and the release after a press, are ignored. */
  lemma HeldAndReleasedIgnored(table: NoteTable, status: byte, number: byte, velocity: byte, page: int, isShift: bool)
    requires Classify(status) == Some(NoteOn) && velocity != 0
    ensures var press, release := [status, number, velocity], [status, number, 0];
      var t1 := NextTable(table, press);
      && RouteNote(Decode(t1, 0, "", press), page, isShift) == Ignored
      && RouteNote(Decode(t1, 0, "", release), page, isShift) == Ignored
  {
    SecondNoteOnWasOn(table, [status, number, velocity], [status, number, velocity]);
    SecondNoteOnWasOn(table, [status, number, velocity], [status, number, 0]);
  }

  /** A press on a key not held lands on channel 0's page handler for pages 2 and 3 and for page 1 outside shift mode. */
  lemma FreshPressRouted(table: NoteTable, number: byte, velocity: byte, page: int, isShift: bool)
    requires KeyOf([0x90, number, velocity]) !in table
    ensures RouteNote(Decode(table, 0, "", [0x90, number, velocity]), page, isShift)
            == (if (page == 1 && !isShift) || page == 2 || page == 3 then PageHandler(page) else Ignored)
  {
    assert Classify(0x90) == Some(NoteOn) && ChannelOf(0x90) == Some(0);
  }

  // ------------------------------------------------------------------ page 1

  /** `minVelocity`: softer presses do not trigger the glyph buttons. */
  const MIN_VELOCITY: int := 20

  datatype Page1Effect = TogglePlay | CycleRepeat | ToggleAutoplay | ToggleShuffle | TogglePlayNext
                       | StartRamp(target: int) | AbortRamp

  /** `Math.floor(number * 0.1) * 16`: the midi volume a fader-column pad asks for. */
  function FaderTarget(number: byte): (r: int)
  {
    (number / 10) * 16
  }

  /** The page-1 handler: the glyph hit tests, then the fader column (or the abort of a ramp in progress). */
  function Page1Press(number: byte, velocity: byte, faderMoving: bool): (r: seq<Page1Effect>)
  {
    var hard := velocity > MIN_VELOCITY;
    (if number in PLAY_PAUSE_BOX && hard then [TogglePlay] else [])
    + (if number in REPEAT_BOX && hard then [CycleRepeat] else [])
    + (if number in AUTOPLAY_BOX && hard then [ToggleAutoplay] else [])
    + (if number in SHUFFLE_BOX then [ToggleShuffle] else [])
    + (if number in LETTER_BOX && hard then [TogglePlayNext] else [])
    + [if number % 10 == 4 && !faderMoving then StartRamp(FaderTarget(number)) else AbortRamp]
  }

  /**
   * The glyph boxes do not overlap and avoid the fader column: every press
   * has one fader effect, last, and at most one glyph effect before it, and
   * a ramp never starts together with a glyph.
   */
  lemma Page1AtMostOneGlyph(number: byte, velocity: byte, faderMoving: bool)
    ensures var e := Page1Press(number, velocity, faderMoving);
      && 1 <= |e| <= 2
      && (e[|e| - 1] == AbortRamp || e[|e| - 1].StartRamp?)
      && (forall i :: 0 <= i < |e| - 1 ==> e[i] != AbortRamp && !e[i].StartRamp?)
      && (e[|e| - 1].StartRamp? ==> |e| == 1)
  {
    BoxRegions(number);
  }

  /** Where the five glyph boxes lie: columns 1..3 or 6..8, and disjoint row bands. */
  lemma BoxRegions(number: byte)
    ensures number in PLAY_PAUSE_BOX ==> 1 <= number % 10 <= 3 && number < 40
    ensures number in REPEAT_BOX ==> 6 <= number % 10 <= 8 && number < 40
    ensures number in AUTOPLAY_BOX ==> 6 <= number % 10 <= 8 && number > 60
    ensures number in SHUFFLE_BOX ==> 6 <= number % 10 <= 8 && 40 < number < 60
    ensures number in LETTER_BOX ==> 1 <= number % 10 <= 3 && number > 60
  {
    DerivedBoxes();
    LeftBands(number);
    RightBands(number);
  }

  lemma LeftBands(number: byte)
    ensures number in PLAY_PAUSE_BOX ==> 1 <= number % 10 <= 3 && number < 40
    ensures number in [61, 62, 63, 71, 72, 73, 81, 82, 83] ==> 1 <= number % 10 <= 3 && number > 60
  {
    BandOf(number, PLAY_PAUSE_BOX, 1, 3, 10, 40);
    BandOf(number, [61, 62, 63, 71, 72, 73, 81, 82, 83], 1, 3, 60, 90);
  }

  lemma RightBands(number: byte)
    ensures number in [16, 17, 18, 26, 27, 28, 36, 37, 38] ==> 6 <= number % 10 <= 8 && number < 40
    ensures number in [66, 67, 68, 76, 77, 78, 86, 87, 88] ==> 6 <= number % 10 <= 8 && number > 60
    ensures number in [46, 47, 48, 56, 57, 58] ==> 6 <= number % 10 <= 8 && 40 < number < 60
  {
    BandOf(number, [16, 17, 18, 26, 27, 28, 36, 37, 38], 6, 8, 10, 40);
    BandOf(number, [66, 67, 68, 76, 77, 78, 86, 87, 88], 6, 8, 60, 90);
    BandOf(number, [46, 47, 48, 56, 57, 58], 6, 8, 40, 60);
  }

  /** Membership in a box whose every pad lies in a column range and a number band. */
  lemma BandOf(number: byte, box: seq<byte>, lo: int, hi: int, below: int, above: int)
    requires forall i :: 0 <= i < |box| ==> lo <= box[i] % 10 <= hi && below < box[i] < above
    ensures number in box ==> lo <= number % 10 <= hi && below < number < above
  {
  }

  /** The shuffle glyph responds to any velocity; the other four need more than the minimum. */
  lemma SoftPressOnlyShuffles(number: byte, velocity: byte, faderMoving: bool)
    requires velocity <= MIN_VELOCITY
    ensures var e := Page1Press(number, velocity, faderMoving);
      forall i :: 0 <= i < |e| - 1 ==> e[i] == ToggleShuffle
  {
  }

  /**
   * Pressing the fader column at row r ramps the midi volume to 16r, which
   * the fader shows as r lit cells under a top cell at row r + 1 with no
   * extra brightness; the top row asks for full volume (128).
   */
  lemma FaderTargetShown(number: byte)
    requires 1 <= number / 10 <= 8 && number % 10 == 4
    ensures 16 <= FaderTarget(number) <= 128
    ensures Cells.FaderHeight(FaderTarget(number)) == number / 10 + 1
    ensures Cells.BarCount(Cells.FaderHeight(FaderTarget(number))) == number / 10
    ensures Cells.Brightness(FaderTarget(number)) == 0
    ensures FaderTarget(number) == 128 <==> number == 84
  {
    var r := number / 10;
    assert FaderTarget(number) == 16 * r;
    assert (16 * r) / 16 == r && (16 * r) % 16 == 0;
  }

  /**
   * The inclusive sequence of midi volumes a ramp steps through from
   * `current` to `target` (each is set as volume i / 128); empty when they
   * are already equal.
   */
  method RampSteps(current: int, target: int) returns (steps: seq<int>)
    ensures current < target ==> |steps| == target - current + 1
                                 && forall i :: 0 <= i < |steps| ==> steps[i] == current + i
    ensures target < current ==> |steps| == current - target + 1
                                 && forall i :: 0 <= i < |steps| ==> steps[i] == current - i
    ensures target == current ==> steps == []
    ensures |steps| > 0 ==> steps[0] == current && steps[|steps| - 1] == target
  {
    steps := [];
    if target > current {
      var i := current;
      while i <= target
        invariant current <= i <= target + 1
        invariant |steps| == i - current
        invariant forall j :: 0 <= j < |steps| ==> steps[j] == current + j
      {
        steps := steps + [i];
        i := i + 1;
      }
    } else if target < current {
      var i := current;
      while i >= target
        invariant target - 1 <= i <= current
        invariant |steps| == current - i
        invariant forall j :: 0 <= j < |steps| ==> steps[j] == current - j
      {
        steps := steps + [i];
        i := i - 1;
      }
    }
  }

  // ------------------------------------------------------------------ repeat, shuffle, volume

  /** `repeatMode`: 0 → 1 → 2 → 0. */
  function NextRepeatMode(mode: int): (r: int)
  {
    if mode != 2 then mode + 1 else 0
  }

  /** `shuffleMode`: 1 turns off, anything else turns on. */
  function NextShuffleMode(mode: int): (r: int)
  {
    if mode == 1 then 0 else 1
  }

  /** Repeat cycles through the three modes and is back after three presses; shuffle is back after two. */
  lemma ModeCycles(mode: int)
    ensures 0 <= mode <= 2 ==> 0 <= NextRepeatMode(mode) <= 2 && NextRepeatMode(mode) != mode
    ensures 0 <= mode <= 2 ==> NextRepeatMode(NextRepeatMode(NextRepeatMode(mode))) == mode
    ensures NextShuffleMode(mode) in {0, 1}
    ensures mode in {0, 1} ==> NextShuffleMode(NextShuffleMode(mode)) == mode && NextShuffleMode(mode) != mode
  {
  }

  /** The volume buttons: a step of 0.01, taken only when it stays strictly inside (0, 1). */
  function VolumeDown(volume: real): (r: real)
  {
    if volume - 0.01 > 0.0 then volume - 0.01 else volume
  }

  function VolumeUp(volume: real): (r: real)
  {
    if volume + 0.01 < 1.0 then volume + 0.01 else volume
  }

  function VolumeDownTimes(volume: real, n: nat): (r: real)
  {
    if n == 0 then volume else VolumeDown(VolumeDownTimes(volume, n - 1))
  }

  function VolumeUpTimes(volume: real, n: nat): (r: real)
  {
    if n == 0 then volume else VolumeUp(VolumeUpTimes(volume, n - 1))
  }

  /** However often the buttons are pressed, a volume in (0, 1) stays in (0, 1) and moves monotonically. */
  lemma {:induction false} VolumeStaysInside(volume: real, n: nat)
    requires 0.0 < volume < 1.0
    ensures 0.0 < VolumeDownTimes(volume, n) <= volume
    ensures volume <= VolumeUpTimes(volume, n) < 1.0
  {
    if n > 0 {
      VolumeStaysInside(volume, n - 1);
    }
  }

  // ------------------------------------------------------------------ pages 2 and 3, legacy channel 2

  datatype Command = Notify | TogglePlayback | Previous | Next | NoCommand

  /** Page 2: a soft press (10 < v < 40) shows the now-playing notification, otherwise a media key. */
  function Page2Press(number: byte, velocity: byte): (r: Command)
  {
    if 10 < velocity < 40 then Notify
    else if number in CENTER_BOX then TogglePlayback
    else if number % 10 <= 4 then Previous
    else if number % 10 >= 5 then Next
    else NoCommand
  }

  /** Outside the soft band and the centre box, the left half (columns 0..4) goes back and the right half forward. */
  lemma Page2Split(number: byte, velocity: byte)
    requires !(10 < velocity < 40) && number !in CENTER_BOX
    ensures Page2Press(number, velocity) == (if number % 10 <= 4 then Previous else Next)
    ensures Page2Press(number, velocity) != NoCommand
  {
  }

  /** The centre box is the middle two-by-two block. */
  lemma CenterBoxIsMiddle(number: byte)
    ensures number in CENTER_BOX <==> (number / 10 in {4, 5} && number % 10 in {4, 5})
  {
  }

  datatype SlotCommand = ShowStored | ClearSlot | PlayStoredNext | PlayStoredLater | StoreNowPlaying | NoSlotCommand

  /** Page 3, the favourite-song slots. */
  function Page3Press(stored: bool, velocity: byte, deleteMode: bool, playNext: bool, nowPlaying: bool): (r: SlotCommand)
  {
    if stored then
      if velocity < 50 && !deleteMode then ShowStored
      else if deleteMode then ClearSlot
      else if playNext then PlayStoredNext
      else PlayStoredLater
    else if nowPlaying && !deleteMode then StoreNowPlaying
    else NoSlotCommand
  }

  /** Delete mode never stores and clears only filled slots; outside it a hard press plays and a soft one shows. */
  lemma Page3Rules(stored: bool, velocity: byte, deleteMode: bool, playNext: bool, nowPlaying: bool)
    ensures var c := Page3Press(stored, velocity, deleteMode, playNext, nowPlaying);
      && (c == ClearSlot <==> stored && deleteMode)
      && (c == StoreNowPlaying <==> !stored && nowPlaying && !deleteMode)
      && (stored && !deleteMode ==> (c == ShowStored <==> velocity < 50))
      && (c in {PlayStoredNext, PlayStoredLater} ==> stored && !deleteMode && velocity >= 50 && (c == PlayStoredNext <==> playNext))
  {
  }

  /** The legacy custom-mode buttons on channel 2, above velocity 40. */
  function LegacyPress(number: byte, velocity: byte): (r: Command)
  {
    if number == 60 && velocity > 40 then Previous
    else if number == 61 && velocity > 40 then Next
    else if number == 62 && velocity > 40 then TogglePlayback
    else NoCommand
  }

  lemma LegacyRules(number: byte, velocity: byte)
    ensures LegacyPress(number, velocity) != NoCommand <==> 60 <= number <= 62 && velocity > 40
    ensures LegacyPress(number, velocity) != Notify
  {
  }

  // ------------------------------------------------------------------ playPage

  /** `String.prototype.split(c)` for a one-character separator. */
  function Split(s: string, c: char): (parts: seq<string>)
    ensures |parts| >= 1
    ensures forall i :: 0 <= i < |parts| ==> c !in parts[i]
    decreases |s|
  {
    if |s| == 0 then [""]
    else if s[0] == c then [""] + Split(s[1..], c)
    else
      var rest := Split(s[1..], c);
      [[s[0]] + rest[0]] + rest[1..]
  }

  function Join(parts: seq<string>, c: char): (r: string)
    requires |parts| >= 1
    decreases |parts|
  {
    if |parts| == 1 then parts[0] else parts[0] + [c] + Join(parts[1..], c)
  }

  /** Split and Join are inverse: the parts put back together give the string. */
  lemma {:induction false} JoinSplit(s: string, c: char)
    ensures Join(Split(s, c), c) == s
    decreases |s|
  {
    if |s| > 0 {
      JoinSplit(s[1..], c);
      var rest := Split(s[1..], c);
      if s[0] == c {
        var parts := [""] + rest;
        assert Split(s, c) == parts && parts[1..] == rest;
        assert Join(parts, c) == "" + [c] + Join(rest, c);
        assert s == [c] + s[1..];
      } else {
        var parts := [[s[0]] + rest[0]] + rest[1..];
        assert Split(s, c) == parts;
        if |rest| > 1 {
          assert parts[1..] == rest[1..];
          assert Join(parts, c) == [s[0]] + rest[0] + [c] + Join(rest[1..], c);
          assert Join(rest, c) == rest[0] + [c] + Join(rest[1..], c);
        } else {
          assert Join(parts, c) == [s[0]] + Join(rest, c);
        }
        assert s == [s[0]] + s[1..];
      }
    }
  }

  /** A string without the separator is one part. */
  lemma {:induction false} SplitNoSeparator(s: string, c: char)
    requires c !in s
    ensures Split(s, c) == [s]
    decreases |s|
  {
    if |s| > 0 {
      SplitNoSeparator(s[1..], c);
      assert s[0] != c;
      assert Split(s, c) == [[s[0]] + s[1..]];
      assert [s[0]] + s[1..] == s;
    }
  }

  /** Splitting at a separator splits the two sides independently. */
  lemma {:induction false} SplitConcat(a: string, c: char, b: string)
    ensures Split(a + [c] + b, c) == Split(a, c) + Split(b, c)
    decreases |a|
  {
    if |a| == 0 {
      assert a + [c] + b == [c] + b;
      assert ([c] + b)[1..] == b;
    } else {
      var s := a + [c] + b;
      assert s[0] == a[0] && s[1..] == a[1..] + [c] + b;
      SplitConcat(a[1..], c, b);
    }
  }

  datatype PlayRequest = Album(album: string) | Playlist(playlist: string)

  function Last(parts: seq<string>, back: nat): (r: Option<string>)
  {
    if back < |parts| then Some(parts[|parts| - 1 - back]) else None
  }

  /**
   * `playPage()` on the location URL: the id is the last path segment up to
   * any `?`; it names an album after an `albums` segment, a playlist after a
   * `playlist` segment, and an album when the segment before last but one is
   * `album`. Otherwise there is nothing to play (undefined).
   */
  function PlayPage(url: string): (r: Option<PlayRequest>)
    ensures r.Some? ==> var id := if r.value.Album? then r.value.album else r.value.playlist;
      '/' !in id && '?' !in id
  {
    PlayOfSlices(Split(url, '/'))
  }

  /** The decision of playPage on the path segments of the URL. */
  function PlayOfSlices(slices: seq<string>): (r: Option<PlayRequest>)
    requires |slices| >= 1 && '/' !in slices[|slices| - 1]
    ensures r.Some? ==> var id := if r.value.Album? then r.value.album else r.value.playlist;
      '/' !in id && '?' !in id
  {
    var id := Split(slices[|slices| - 1], '?')[0];
    assert '/' !in id by {
      if '/' in id {
        var k :| 0 <= k < |id| && id[k] == '/';
        JoinSplit(slices[|slices| - 1], '?');
        SplitPrefix(slices[|slices| - 1], '?', k);
      }
    }
    if Last(slices, 1) == Some("albums") then Some(Album(id))
    else if Last(slices, 1) == Some("playlist") then Some(Playlist(id))
    else if Last(slices, 2) == Some("album") then Some(Album(id))
    else None
  }

  /** The first part of a split is a prefix of the string. */
  lemma {:induction false} SplitPrefix(s: string, c: char, k: int)
    requires 0 <= k < |Split(s, c)[0]|
    ensures k < |s| && Split(s, c)[0][k] == s[k]
    decreases |s|
  {
    if |s| > 0 && s[0] != c && k > 0 {
      SplitPrefix(s[1..], c, k - 1);
    }
  }

  /** The id is the segment up to the query string. */
  lemma IdBeforeQuery(id: string, query: string)
    requires '?' !in id
    ensures Split(id + ['?'] + query, '?')[0] == id
  {
    SplitConcat(id, '?', query);
    SplitNoSeparator(id, '?');
  }

  /** Splitting off a last part that has no separator. */
  lemma SplitLast(a: string, c: char, b: string)
    requires c !in b
    ensures Split(a + [c] + b, c) == Split(a, c) + [b]
  {
    SplitConcat(a, c, b);
    SplitNoSeparator(b, c);
  }

  /** The path `base/seg/tail` ends in the segments `seg` and `tail`. */
  lemma SegmentPath(base: string, seg: string, tail: string)
    requires '/' !in seg && '/' !in tail
    ensures Split(base + ['/'] + seg + ['/'] + tail, '/') == Split(base, '/') + [seg] + [tail]
  {
    SplitLast(base + ['/'] + seg, '/', tail);
    SplitLast(base, '/', seg);
  }

  /** Segments ending in `albums`, then the tail. */
  lemma SlicesAlbums(front: seq<string>, tail: string)
    requires '/' !in tail
    ensures PlayOfSlices(front + ["albums"] + [tail]) == Some(Album(Split(tail, '?')[0]))
  {
    var slices := front + ["albums"] + [tail];
    assert slices[|slices| - 1] == tail && Last(slices, 1) == Some("albums");
  }

  /** Segments ending in `playlist`, then the tail. */
  lemma SlicesPlaylist(front: seq<string>, tail: string)
    requires '/' !in tail
    ensures PlayOfSlices(front + ["playlist"] + [tail]) == Some(Playlist(Split(tail, '?')[0]))
  {
    var slices := front + ["playlist"] + [tail];
    assert slices[|slices| - 1] == tail && Last(slices, 1) == Some("playlist");
    assert "playlist" != "albums";
  }

  /** Segments ending in `album`, a name that is neither keyword, then the tail. */
  lemma SlicesAlbumPath(front: seq<string>, name: string, tail: string)
    requires '/' !in tail && name != "albums" && name != "playlist"
    ensures PlayOfSlices(front + ["album"] + [name] + [tail]) == Some(Album(Split(tail, '?')[0]))
  {
    var slices := front + ["album"] + [name] + [tail];
    assert slices[|slices| - 1] == tail && Last(slices, 1) == Some(name) && Last(slices, 2) == Some("album");
  }

  /** `…/albums/<tail>` asks for the album named by the tail up to its query. */
  lemma PlayPageAlbums(base: string, tail: string)
    requires '/' !in tail
    ensures PlayPage(base + ['/'] + "albums" + ['/'] + tail) == Some(Album(Split(tail, '?')[0]))
  {
    SegmentPath(base, "albums", tail);
    SlicesAlbums(Split(base, '/'), tail);
  }

  /** `…/playlist/<tail>` asks for the playlist. */
  lemma PlayPagePlaylist(base: string, tail: string)
    requires '/' !in tail
    ensures PlayPage(base + ['/'] + "playlist" + ['/'] + tail) == Some(Playlist(Split(tail, '?')[0]))
  {
    SegmentPath(base, "playlist", tail);
    SlicesPlaylist(Split(base, '/'), tail);
  }

  /** `…/album/<name>/<tail>` asks for the album too. */
  lemma PlayPageAlbumPath(base: string, name: string, tail: string)
    requires '/' !in tail && '/' !in name && name != "albums" && name != "playlist"
    ensures PlayPage(base + ['/'] + "album" + ['/'] + name + ['/'] + tail) == Some(Album(Split(tail, '?')[0]))
  {
    SegmentPath(base + ['/'] + "album", name, tail);
    SplitLast(base, '/', "album");
    SlicesAlbumPath(Split(base, '/'), name, tail);
  }
}

# cider_launchpad engine, modelled in Dafny

This project models the core of the Cider plugin that drives a Novation
Launchpad Pro MK3 (`index.frontend.js`). The core has five parts:

- **Lighting-command encoder.** The four light-command kinds are static,
  flashing, pulsing and RGB. Each encodes as `[lightType, position] + payload`,
  and `copy` overrides the position only when its argument is truthy. A
  lighting command is the marker `[3]` followed by the specs, framed by the
  vendor header `[240, 0, 32, 41, 2, 14]` and the terminator `[247]`.
- **Layout geometry.** This covers the fixed glyph tables, the boxes derived
  from them, `getBounding`, and `drawLayout`. `drawLayout` clears the bounding
  rectangle row by row, then paints the glyph.
- **Incoming-MIDI decoder** (`MidiNote`, `LaunchpadSysExLayout`, `areEqual`).
  It classifies the status byte through its hexadecimal spelling and keeps a
  previous-state table keyed by channel and number. Edge detection (`wasOn`)
  comes from that table. The vendor-header check picks out the device's
  layout announcements, and `handle_daw` re-initialises the engine on them.
- **Page and pad engine** (class `Launchpad`):
  - the `page` and `deleteMode` setters;
  - `setPage` and `clearPads`;
  - the geometry of `setFader`;
  - the colour-wheel hue counter;
  - the pad walk of `RGBAToLaunchpad`;
  - `initDefaultPage`;
  - the shift press and release of `handle_midi`.
- **Dispatcher rules of `handle_midi`.** These cover:
  - the channel-0 control changes;
  - how a NoteOn is routed by edge, channel and page;
  - the page-1 hit tests, the repeat and shuffle cycling, the volume guards
    and the fader ramp;
  - the page-2 split, the page-3 slot rules and the legacy channel-2 buttons;
  - `playPage`'s reading of the location URL.

The output device is a ghost log of what is sent, in order. The render
routines `setDeleteLetter` and `setPlayNextIndicator` only read the engine's
own flags, and they are modelled through `drawLayout`. The other render
routines read the media player, the key-value store or the artwork canvas;
they are logged by name only. The external
key-value store is a `map` field, holding the keys this model writes.
Each state-changing method is proved against a function in `Cells` or
`Engine` that gives the exact message sequence. The lemmas beside those
functions prove what the messages mean: which pads they cover, in what order,
and how many. Where a decoder is the natural partner of an encoder, a
reference decoder is defined, and the round trip is proved in both
directions.

Modules, one per file:

| file | module |
|---|---|
| `util.dfy` | `Util` |
| `color_spec.dfy` | `ColorSpecs` |
| `sysex.dfy` | `Sysex` |
| `layouts.dfy` | `Layouts` |
| `cells.dfy` | `Cells` (reference definitions of every message array) |
| `launchpad.dfy` | `Engine` (class `Launchpad`) |
| `midi.dfy` | `Midi` (class `NoteStates`) |
| `dispatch.dfy` | `Dispatch` |

Where a plain reading of the code and what it does differ, the model follows
the code:

- **`getBounding` of the play glyph** `{11, 12, 21, 23, 31, 32}` is
  `[1, 1, 3, 3]`. Pad 23 puts the right edge in column 3, not column 2.
- **The volume buttons** step by 0.01, not by 1/128.
- **`_pageColors.get(page)`** yields `undefined` for every page but 1, and the
  code tests for `null`. So `setPage` receives `undefined`, and its default
  parameter `Static(101, 37)` takes over. Page 1's entry is the same colour, so
  the highlight is always `Static(101, 37)`.
- **A status byte below 16** has a one-digit hexadecimal spelling. So its
  action is read from the byte itself (`0x08` is NoteOff, `0x0F` is SysEx),
  and its channel is `NaN`, modelled as `None`.
- **`RGBAToLaunchpad` opens a new pad after every alpha byte**, including the
  last one. For an 8x8 image, the message therefore ends with an unfinished
  `3, 91` before `247`. This is modelled as written.
- **An empty layout** makes `Math.min`/`Math.max` return `±Infinity`, so the
  clear loop of `drawLayout` runs zero times. `Bounding` returns `None` for it.

## Model

| member | source | states |
|---|---|---|
| `ColorSpecs.LightType` | index.frontend.js:207-268 | the tag is 0, 1, 2, 3 exactly for Static, Flashing, Pulsing and RGB (each direction) |
| `ColorSpecs.ColorData` | index.frontend.js:217-267 | the payload has the fixed arity of the variant: 1, 2, 1, 3 bytes |
| `ColorSpecs.SpecOf` | index.frontend.js:194-196 | the spec built from a tag, position and payload encodes as `[tag, position] + payload` (inverse of `sysexMessage`) |
| `ColorSpecs.SpecOfSpecBytes` | index.frontend.js:194-196 | reading a spec's own tag, position and payload back gives the same spec |
| `ColorSpecs.WithPosition` | index.frontend.js:458 | assigning the position changes only the position: same tag and payload |
| `ColorSpecs.Copy` | index.frontend.js:198-204 | same variant and payload; the position is replaced when the argument is truthy (non-null, non-zero), and otherwise the clone equals the original |
| `ColorSpecs.FlattenLength` | index.frontend.js:285-289 | the concatenated encoding has length Σ(2 + arity) |
| `ColorSpecs.FlattenConcat` | index.frontend.js:285-289 | encoding a concatenation of spec lists is the concatenation of their encodings |
| `ColorSpecs.ParseFlatten` | index.frontend.js:285-289 | the concatenated encodings decode back to exactly the spec list (self-delimiting) |
| `ColorSpecs.FlattenParse` | index.frontend.js:285-289 | every byte string that decodes is the encoding of what it decodes to (the encoding is unique) |
| `Sysex.Unframe` | index.frontend.js:433-435 | removing header and terminator succeeds only on a framed message, and framing the result gives the message back |
| `Sysex.MakeSysexShape` | index.frontend.js:433-435 | the framed message is `[240, 0, 32, 41, 2, 14] + data + [247]`, 7 bytes longer, and unframes to `data` |
| `Sysex.EncodeLength` | index.frontend.js:281-297 | a lighting command has length 8 + Σ(2 + arity) |
| `Sysex.EncodeStaticExample` | index.frontend.js:348-349 | `Static(5, 10)` encodes to `[240, 0, 32, 41, 2, 14, 3, 0, 5, 10, 247]` |
| `Sysex.DecodeEncode` | index.frontend.js:276-298 | the reference decoder recovers the specs of any lighting command |
| `Sysex.EncodeDecode` | index.frontend.js:276-298 | any message the reference decoder accepts is the lighting command of its specs |
| `Layouts.DerivedBoxes` | index.frontend.js:832-835 | the four boxes built by `Uint8Array.map(v => v + k)` listed pad by pad, with no wrap-around at 256 |
| `Layouts.Bounding` | index.frontend.js:838-846 | `getBounding`: no box exactly for the empty layout; otherwise the box encloses every pad and is well-ordered |
| `Layouts.BoundingTight` | index.frontend.js:838-846 | all four edges of the box are reached by some pad (it is the componentwise min/max) |
| `Layouts.PlayButtonBounding` | index.frontend.js:820 | the play glyph's box is `[1, 1, 3, 3]` |
| `Cells.GridPosIncreasing` | index.frontend.js:483-487 | the grid part of `clearPads` visits pads in strictly increasing order, so each pad once |
| `Cells.GridCellsExact` | index.frontend.js:483-487 | a pad is in the grid part of `clearPads` exactly when it is in 0..89 outside columns 0 and 9 |
| `Cells.GridCountAt` | index.frontend.js:483-487 | the number of grid pads below a grid pad is that pad's index in the grid part |
| `Cells.GridCountStep` | index.frontend.js:483-487 | the scan's count of grid pads grows by one exactly at grid pads |
| `Cells.IndicatorsExact` | index.frontend.js:454-464 | for pages 1..8 the eight indicators 101..108 are each set once, with the highlight on 100 + page and palette 0 on the seven others |
| `Cells.RowCellsShape` | index.frontend.js:537-539 | one row of the clear phase: its length and each cell's pad, in column order |
| `Cells.RectCellsLength` | index.frontend.js:536-540 | the clear phase has (rows remaining) × (columns) cells |
| `Cells.RectCellsBlank` | index.frontend.js:538 | every cleared cell is static palette 0 |
| `Cells.RectCellsCover` | index.frontend.js:536-540 | every pad of the shifted rectangle is cleared |
| `Cells.ClearCoversStamp` | index.frontend.js:527-557 | the clear phase blanks every pad the stamp phase then paints |
| `Cells.ClearCellsCount` | index.frontend.js:536-540 | for a non-empty layout the clear phase has the box's area in cells |
| `Cells.Brightness` | index.frontend.js:660-663 | for m ≥ 0 the top cell's value is `(m mod 16) · 8`, so the clamp at 128 never fires; for every m it lies within ±120 |
| `Cells.FaderShape` | index.frontend.js:656-685 | for m in 0..128 the top row is 1..9; the array has 9 or 10 cells with the bar and 1 without, the bottom pad always last |
| `Cells.FaderRows` | index.frontend.js:659-675 | rows above the top are cleared to palette 0 from 8 down, rows below it get the bar colour from 1 up, and the top cell sits at row `floor(m/16) + 1` |
| `Cells.FaderButtonOnly` | index.frontend.js:677-685 | with shift on or another page shown, only the bottom pad is sent |
| `Cells.WheelCellsShape` | index.frontend.js:447-450 | one cell per position, in order, each with the wheel colour's variant and payload; a position of 0 keeps the template's own position |
| `Cells.HueCycle` | index.frontend.js:439-442 | after n ticks from hue h in 0..359 the hue is n steps further round the cycle 1..359 |
| `Cells.NextPadAt` | index.frontend.js:721-726 | one step of `lp_position` moves from pixel k's pad to pixel k + 1's, skipping columns 9 and 0 |
| `Cells.ImageMessageOfGrid` | index.frontend.js:715-733 | an 8x8 RGBA image paints 64 distinct grid pads above row 0 in increasing order, in 330 bytes ending `3, 91, 247` |
| `Cells.PixelPads` | index.frontend.js:717-726 | the 64 pixels of an 8x8 image land on distinct grid pads from 11 up, in increasing order |
| `Cells.PixelsLength` | index.frontend.js:719-730 | n whole pixels take 5n bytes |
| `Engine.PageReselect` | index.frontend.js:405-431 | re-selecting the current page re-sends the indicators and runs the page's routines again, without the clear |
| `Engine.PageChange` | index.frontend.js:415-425 | a change of page clears the grid and the side pads `4, 5, 19, …, 89` before running the page's routines |
| `Engine.PageShiftOrOutOfRange` | index.frontend.js:408-415 | in shift mode only the indicators are sent; for a value outside 1..8 nothing is sent |
| `Engine.Launchpad.constructor` | index.frontend.js:351-383 | page 1, shift, delete mode and play-next off, hue 0, nothing sent |
| `Engine.Launchpad.DeleteModeSetter` | index.frontend.js:389-399 | stores the flag and sends pad 60 in palette 5 (on) or 3 (off) |
| `Engine.Launchpad.SetPage` | index.frontend.js:454-464 | sends exactly the indicator array whose meaning `Cells.IndicatorsExact` states |
| `Engine.Launchpad.ClearPads` | index.frontend.js:481-493 | sends the 72 grid pads in `color`, then the extra pads in palette 0 |
| `Engine.Launchpad.PageSetter` | index.frontend.js:405-431 | stores the value whatever it is; sends what `PageOutputs` gives; persists `page` for 1..8 only |
| `Engine.Launchpad.ShowPage` | index.frontend.js:415-426 | outside shift mode: the clear of the grid and side pads on a change of page, then the page's routines in page-map order |
| `Engine.Launchpad.RunAll` | index.frontend.js:420-425 | calling the routines in order appends each routine's output after the previous ones |
| `Engine.Launchpad.SetDeleteLetter` | index.frontend.js:559-563 | outside shift mode on page 8, draws the large letter D in colour 5 (its cleared box, then a note-on per pad); otherwise sends nothing |
| `Engine.Launchpad.SetPlayNextIndicator` | index.frontend.js:592-600 | outside shift mode on page 1, draws the play-next or the play-later glyph, by `playNext`, five rows up in colour 67; otherwise sends nothing |
| `Engine.Launchpad.DrawLayout` | index.frontend.js:527-557 | sends the cleared bounding rectangle (of `altBounding` when given) and then the stamped glyph, or one note-on per pad |
| `Engine.Launchpad.Paint` | index.frontend.js:543-556 | one stamped message with a copy of the template per shifted pad, or `[0x90, pad, color]` per pad in layout order |
| `Engine.Launchpad.SetFader` | index.frontend.js:649-687 | sends the fader array of `Cells.FaderCells`, with the bar only when shift is off and the page is `onPage` |
| `Engine.Launchpad.ColorWheel` | index.frontend.js:437-452 | the hue advances (wrapping 359 to 1) and stays in range; one copy of the wheel colour per position is sent |
| `Engine.Launchpad.RgbaToLaunchpad` | index.frontend.js:715-733 | the returned bytes are `ImageMessage`: one RGB spec of halved channels per pixel, walking pads from 11, then the dangling pad and any partial pixel |
| `Engine.Launchpad.EnterShift` | index.frontend.js:1053-1058 | shift on; clears the grid and pad 4; then the slot colours and the artwork burst |
| `Engine.Launchpad.ExitShift` | index.frontend.js:1047-1052 | shift off; clears the grid and pad 4; re-selects the current page; then the slot colours |
| `Engine.Launchpad.InitDefaultPage` | index.frontend.js:499-509 | the seven page-1 routines, then page 1 selected and persisted, then delete mode off |
| `Engine.FaderBar` | index.frontend.js:659-675 | the loops of `setFader` build the cleared cells, the bar copies and the top cell |
| `Engine.ClearRect` | index.frontend.js:535-540 | the nested loops of `drawLayout` build the row-major clear array of the box |
| `Engine.Stamp` | index.frontend.js:544-549 | the `forEach` of `drawLayout` builds one positioned copy of the template per pad |
| `Engine.WalkIsImageBody` | index.frontend.js:719-730 | the byte-by-byte walk equals the closed form: whole pixels as RGB specs, then the open pad and the partial pixel |
| `Midi.Classify` | index.frontend.js:885-890 | 0xF8 is Clock; 0xF0–0xFF otherwise is SysEx; the high digit 8, 9, b, c, d gives NoteOff, NoteOn, CC, ProgChange, Aftertouch; each as an if-and-only-if, including the one-digit bytes and the unmapped digits |
| `Midi.ChannelOf` | index.frontend.js:909 | the channel is the low nibble, present exactly for status bytes of two hex digits |
| `Midi.LayoutOfByte` | index.frontend.js:857-861 | a layout name exists exactly for bytes 0..3 |
| `Midi.AreEqual` | index.frontend.js:938 | `areEqual` holds exactly when the sequences are equal |
| `Midi.NoteStates.constructor` | index.frontend.js:848 | the previous-state table starts empty |
| `Midi.NoteStates.Receive` | index.frontend.js:881-921 | the note is decoded against the table before the event; the table then records NoteOn/NoteOff (velocity 0 as NoteOff) |
| `Midi.WasOnIff` | index.frontend.js:930-934 | a NoteOn's `wasOn` holds exactly when its key's last state is NoteOn |
| `Midi.SecondNoteOnWasOn` | index.frontend.js:912-919 | after a nonzero NoteOn, a second NoteOn on the same key has `wasOn` true and is not an edge |
| `Midi.ReleaseRecordsOff` | index.frontend.js:913-916 | NoteOff, and NoteOn at velocity 0, record NoteOff for their key |
| `Midi.TableFrame` | index.frontend.js:912-919 | other messages leave the table alone; a note message changes only its own key |
| `Midi.PressReleasePress` | index.frontend.js:912-934 | press, release, press: the presses are edges, the release is not, and the table returns to its state after the first press |
| `Midi.TableAfterIsLastState` | index.frontend.js:912-919 | after any stream, the table holds for every key the state of that key's last note message |
| `Midi.LayoutEventIff` | index.frontend.js:892-906 | a layout event is recognised exactly for SysEx of header + five bytes starting with 0, and its layout and page are bytes 7 and 8 |
| `Midi.AnnouncementRoundTrip` | index.frontend.js:865-906 | a framed `[0, layout, page, x]` decodes as SysEx with no `wasOn`, a layout event carrying that layout and page |
| `Midi.DawReinit` | index.frontend.js:977-983 | `handle_daw` re-initialises exactly for an 11-byte SysEx message of header + `[0, 3, 7, x, y]` (Custom layout, page 7) |
| `Dispatch.CcActionsShape` | index.frontend.js:1001-1098 | only velocities 127 and 0 act; a release acts only on buttons 90 and 60; a press selects page `number - 100` exactly when that is positive |
| `Dispatch.SideButtons` | index.frontend.js:1065-1094 | a side-button press queues the slot on page 1, deletes it on page 8, stores the page in shift mode, and else does nothing |
| `Dispatch.HeldAndReleasedIgnored` | index.frontend.js:1102-1104 | a repeated NoteOn, and the release after a press, are routed nowhere |
| `Dispatch.FreshPressRouted` | index.frontend.js:1102-1109 | a fresh channel-0 press reaches the page handler for pages 2 and 3, and for page 1 outside shift mode |
| `Dispatch.Page1AtMostOneGlyph` | index.frontend.js:1106-1176 | a page-1 press triggers at most one glyph action, then exactly one fader action (ramp or abort), and never both a glyph and a ramp |
| `Dispatch.BoxRegions` | index.frontend.js:831-835 | the five hit boxes lie in disjoint bands of columns 1..3 or 6..8, away from the fader column 4 |
| `Dispatch.SoftPressOnlyShuffles` | index.frontend.js:1111-1140 | at velocity 20 or below only the shuffle box responds |
| `Dispatch.FaderTargetShown` | index.frontend.js:1144-1147 | a fader-column press at row r asks for volume 16r, shown by `setFader` as r bar cells under a top cell at row r + 1; only row 8 asks for 128 |
| `Dispatch.RampSteps` | index.frontend.js:1151-1170 | the ramp visits every value from current to target inclusive, one apart, and none when they are equal |
| `Dispatch.ModeCycles` | index.frontend.js:1124-1138 | repeat goes round 0 → 1 → 2 → 0; shuffle flips between 0 and 1 |
| `Dispatch.VolumeStaysInside` | index.frontend.js:1030-1035 | any number of steps keeps a volume in (0, 1) inside it, moving monotonically |
| `Dispatch.Page2Split` | index.frontend.js:1189-1205 | outside the soft band and the centre box, columns 0..4 go back and 5..9 forward |
| `Dispatch.CenterBoxIsMiddle` | index.frontend.js:836 | the centre box is rows 4..5 × columns 4..5 |
| `Dispatch.Page3Rules` | index.frontend.js:1209-1250 | delete mode clears only filled slots and never stores; outside it a soft press shows, a hard one plays next or later by `playNext`, and an empty slot stores what is playing |
| `Dispatch.LegacyRules` | index.frontend.js:1257-1273 | channel 2 acts only on pads 60..62 above velocity 40 |
| `Dispatch.Split` | index.frontend.js:802-803 | `split` gives at least one part and no part holds the separator |
| `Dispatch.JoinSplit` | index.frontend.js:802 | joining the parts with the separator gives the string back |
| `Dispatch.SplitConcat` | index.frontend.js:802 | splitting at a separator splits the two sides independently |
| `Dispatch.PlayPage` | index.frontend.js:801-815 | a returned album or playlist id contains neither `/` nor `?` |
| `Dispatch.IdBeforeQuery` | index.frontend.js:803 | the id is the last segment up to its query string |
| `Dispatch.PlayPageAlbums` | index.frontend.js:806-808 | `…/albums/<tail>` plays the album named by the tail |
| `Dispatch.PlayPagePlaylist` | index.frontend.js:809-811 | `…/playlist/<tail>` plays the playlist |
| `Dispatch.PlayPageAlbumPath` | index.frontend.js:812-814 | `…/album/<name>/<tail>` plays the album too |

## Left out

- Colour-space conversion (`colorsys`) is floating-point work. The top cell
  of `setFader` and the wheel colour of `colorWheel` are therefore
  parameters: `shade` and `wheel`.
- Engine.Launchpad.SetFader: takes the midi-equivalent integer `m`.
  - It does not model `Math.round(valueToCheck * 128)`.
  - It does not model the `null` default that reads the player's volume.
  - A bar copy whose position would be 0 keeps JavaScript's `null` in the
    source; that case needs a column of -10·v and is modelled as 0.
- Engine.Launchpad.SetPage: `setPage` assigns the position on the caller's
  colour object. The model computes the moved copy and does not model that
  aliasing, which leaves `_pageColors`' page-1 entry at position 101.
- Engine.Launchpad.PageSetter: the storage backends (`GM` and
  `localStorage`, with their asynchronous calls) are a `map` updated in
  place. Only the writes of `page` are modelled.
- Engine.Launchpad.ShowPage: some render routines are logged as
  `Rendered(name)` and not expanded, because they read state outside the
  model. The playback, repeat, autoplay and shuffle icons, `setFader` with
  its default and `drawProgress` read the media player. `setSongIndexColor`
  and `getFavSongPads` read the key-value store. `nowPlayingToMidiOut` reads
  the artwork canvas. `setDeleteLetter` and `setPlayNextIndicator` are
  expanded through `drawLayout`.
- Canvas and image work (`nowPlayingToMidiOut`, `imgToLaunchpadRGB`,
  `nowPlayingToRGB`) depends on DOM drawing and image loading. Only the walk
  of `RGBAToLaunchpad` over the pixel bytes is modelled.
- Timers (`bpm`, `setClock`, the beat flash and the colour-wheel interval)
  rely on real time. The constructor's `this.bpm = 60` is not modelled.
- Dispatch.RampSteps: only the inclusive step sequence is modelled. The
  `sleep` between steps and the `isFaderMoving`/`breakFader` interleaving
  across awaits are left out; `Page1Press` only reports whether a press
  starts a ramp or aborts one.
- Dispatch.VolumeStaysInside: uses exact reals. IEEE-754 rounding of the
  0.01 steps is not modelled.
- Player and OS calls are foreign calls. The dispatcher rules return the
  command to perform, and the calls themselves are not modelled. These are
  MusicKit play/pause/skip/queue/volume/mute, notifications,
  `app.copyToClipboard`, and the catalogue and library lookups.
- `playPage()` returning `undefined` makes `res.startPlaying = true` throw
  in the callers. That is visible in `Dispatch.PlayPage` as `None`; what
  follows it is not modelled.
- Device wiring is I/O plumbing and is not modelled. This covers Web MIDI
  device selection, `initProgrammer`, listener registration and the plugin
  loader in `index.js`.
- `handle_midi`'s local `isShift` copy and the unused ProgChange branch are
  not modelled; the local copy duplicates `launchpad.isShift`.
- A MIDI event with no data bytes makes `note.data[0].toString(16)` throw.
  `Decode` and `Receive` therefore require at least one byte.

/**
 * The incoming-MIDI decoder: status-byte classification, the previous-state
 * table keyed by channel and note number with its edge detection (`wasOn`),
 * and the vendor-header check that recognises a layout announcement.
 */
module Midi {
  import opened Util
  import Sysex

  /** The values of the `midiActions` table, plus `Clock` for 0xF8. */
  datatype Action = NoteOff | NoteOn | CC | ProgChange | Aftertouch | SysEx | Clock

  /**
   * The hex digit `functionHex[0]` looks up: the high nibble of the status
   * byte, or the byte itself when `toString(16)` has a single digit.
   */
  function LeadDigit(status: byte): (r: int)
  {
    if status < 16 then status else status / 16
  }

  /** `midiActions.get(digit)`. */
  function ActionOfDigit(d: int): (r: Option<Action>)
  {
    if d == 8 then Some(NoteOff)
    else if d == 9 then Some(NoteOn)
    else if d == 11 then Some(CC)
    else if d == 12 then Some(ProgChange)
    else if d == 13 then Some(Aftertouch)
    else if d == 15 then Some(SysEx)
    else None
  }

  /** The action tag of a status byte. */
  function Classify(status: byte): (a: Option<Action>)
    ensures a == Some(Clock) <==> status == 0xF8
    ensures a == Some(SysEx) <==> (0xF0 <= status <= 0xFF && status != 0xF8) || status == 0x0F
    ensures a == Some(NoteOn) <==> 0x90 <= status <= 0x9F || status == 0x09
    ensures a == Some(NoteOff) <==> 0x80 <= status <= 0x8F || status == 0x08
    ensures a == Some(CC) <==> 0xB0 <= status <= 0xBF || status == 0x0B
    ensures a == Some(ProgChange) <==> 0xC0 <= status <= 0xCF || status == 0x0C
    ensures a == Some(Aftertouch) <==> 0xD0 <= status <= 0xDF || status == 0x0D
    ensures a == None <==> status != 0xF8 && LeadDigit(status) in {0, 1, 2, 3, 4, 5, 6, 7, 10, 14}
  {
    if status == 0xF8 then Some(Clock) else ActionOfDigit(LeadDigit(status))
  }

  /** `parseInt(functionHex[1], 16)`: the low nibble; NaN (None) for a one-digit byte. */
  function ChannelOf(status: byte): (c: Option<int>)
    ensures c.Some? <==> status >= 16
    ensures c.Some? ==> 0 <= c.value < 16 && status == 16 * LeadDigit(status) + c.value
  {
    if status >= 16 then Some(status % 16) else None
  }

  /** `data[i]`, undefined past the end. */
  function At(data: seq<byte>, i: nat): (r: Option<byte>)
  {
    if i < |data| then Some(data[i]) else None
  }

  /** The `launchpadLayout` table. */
  datatype LayoutName = Session | FaderLayout | Chord | Custom

  function LayoutOfByte(b: int): (l: Option<LayoutName>)
    ensures l.Some? <==> 0 <= b <= 3
  {
    if b == 0 then Some(Session)
    else if b == 1 then Some(FaderLayout)
    else if b == 2 then Some(Chord)
    else if b == 3 then Some(Custom)
    else None
  }

  /** `LaunchpadSysExLayout`: a page message whose getters read bytes 1 and 2. */
  datatype SysExLayout = SysExLayout(message: seq<byte>)
  {
    function Layout(): (r: Option<LayoutName>)
    {
      match At(message, 1)
      case None => None
      case Some(b) => LayoutOfByte(b)
    }

    function Page(): (r: Option<byte>)
    {
      At(message, 2)
    }
  }

  /** The key `channelPair` builds: "channel,number", with NaN and undefined kept apart. */
  type Key = (Option<int>, Option<byte>)

  /** `midiNoteState`: the last NoteOn/NoteOff seen per key. */
  type NoteTable = map<Key, Action>

  /** What a MidiNote holds besides its common fields. */
  datatype Body =
    | SysExBody(header: Option<seq<byte>>, launchpadMessage: Option<seq<byte>>, layoutEvent: Option<SysExLayout>)
    | VoiceBody(channel: Option<int>, number: Option<byte>, velocity: Option<byte>, previousAction: Option<Action>)

  datatype MidiNote = MidiNote(timeStamp: int, targetName: string, action: Option<Action>, data: seq<byte>, body: Body)
  {
    /** `wasOn`: undefined for SysEx, otherwise whether the previous state equals the action. */
    function WasOn(): (r: Option<bool>)
    {
      match body
      case SysExBody(_, _, _) => None
      case VoiceBody(_, _, _, prev) => Some(prev == action)
    }

    /** `!note.wasOn`, the edge the dispatcher acts on. */
    predicate IsEdge()
    {
      WasOn() != Some(true)
    }
  }

  function KeyOf(data: seq<byte>): (r: Key)
    requires |data| > 0
  {
    (ChannelOf(data[0]), At(data, 1))
  }

  /** `areEqual(first, second)`: same length and the same element at every index. */
  function AreEqual(first: seq<int>, second: seq<int>): (r: bool)
    ensures r <==> first == second
  {
    if |first| != |second| then false
    else if |first| == 0 then true
    else first[0] == second[0] && AreEqual(first[1..], second[1..])
  }

  /** The SysEx branch of the MidiNote constructor. */
  function SysExBodyOf(data: seq<byte>): (r: Body)
  {
    var header := if |data| > 6 then Some(data[..6]) else None;
    if header.Some? && AreEqual(header.value, Sysex.HEADER) then
      var message := data[6..];
      SysExBody(header, Some(message),
                if message[0] == 0 && |message| == 5 then Some(SysExLayout(message)) else None)
    else SysExBody(header, None, None)
  }

  /** `new MidiNote(event)` against the table as it stands before the event. */
  function Decode(table: NoteTable, timeStamp: int, name: string, data: seq<byte>): (r: MidiNote)
    requires |data| > 0
  {
    var action := Classify(data[0]);
    if action == Some(SysEx) then MidiNote(timeStamp, name, action, data, SysExBodyOf(data))
    else
      var key := KeyOf(data);
      MidiNote(timeStamp, name, action, data,
               VoiceBody(key.0, key.1, At(data, 2), if key in table then Some(table[key]) else None))
  }

  /** The table after decoding `data`: only NoteOn/NoteOff are recorded, velocity 0 as NoteOff. */
  function NextTable(table: NoteTable, data: seq<byte>): (r: NoteTable)
    requires |data| > 0
  {
    var action := Classify(data[0]);
    if action == Some(NoteOn) || action == Some(NoteOff) then
      table[KeyOf(data) := if At(data, 2) == Some(0) then NoteOff else action.value]
    else table
  }

  /**
   * The decoder's state: the `midiNoteState` map, held here as a field rather
   * than a module global.
   */
  class NoteStates {
    var table: NoteTable

    constructor ()
      ensures table == map[]
    {
      table := map[];
    }

    /** The MidiNote constructor: reads the previous state, then records the new one. */
    method Receive(timeStamp: int, name: string, data: seq<byte>) returns (note: MidiNote)
      requires |data| > 0
      modifies this
      ensures note == Decode(old(table), timeStamp, name, data)
      ensures table == NextTable(old(table), data)
    {
      var action := Classify(data[0]);
      if action == Some(SysEx) {
        note := MidiNote(timeStamp, name, action, data, SysExBodyOf(data));
      } else {
        var channelPair := (ChannelOf(data[0]), At(data, 1));
        var velocity := At(data, 2);
        var previous: Option<Action> := None;
        if channelPair in table {
          previous := Some(table[channelPair]);
        }
        note := MidiNote(timeStamp, name, action, data, VoiceBody(channelPair.0, channelPair.1, velocity, previous));
        if action == Some(NoteOn) || action == Some(NoteOff) {
          if velocity == Some(0) {
            table := table[channelPair := NoteOff];
          } else {
            table := table[channelPair := action.value];
          }
        }
      }
    }
  }

  // ------------------------------------------------------------------ edge detection

  /** A NoteOn while the key is already on is not an edge; after NoteOff it is. */
  lemma WasOnIff(table: NoteTable, data: seq<byte>)
    requires |data| > 0 && Classify(data[0]) == Some(NoteOn)
    ensures Decode(table, 0, "", data).WasOn() == Some(KeyOf(data) in table && table[KeyOf(data)] == NoteOn)
  {
  }

  /** A second nonzero NoteOn on the same key, with no release between, has `wasOn` true. */
  lemma SecondNoteOnWasOn(table: NoteTable, first: seq<byte>, second: seq<byte>)
    requires |first| >= 3 && |second| > 0
    requires Classify(first[0]) == Some(NoteOn) && first[2] != 0
    requires Classify(second[0]) == Some(NoteOn) && KeyOf(second) == KeyOf(first)
    ensures Decode(NextTable(table, first), 0, "", second).WasOn() == Some(true)
    ensures !Decode(NextTable(table, first), 0, "", second).IsEdge()
  {
  }

  /** A release, whether NoteOff or NoteOn at velocity 0, records NoteOff for its key. */
  lemma ReleaseRecordsOff(table: NoteTable, data: seq<byte>)
    requires |data| >= 3 && (Classify(data[0]) == Some(NoteOff) || (Classify(data[0]) == Some(NoteOn) && data[2] == 0))
    ensures NextTable(table, data) == table[KeyOf(data) := NoteOff]
  {
  }

  /** Every other message leaves the table as it is; a note message changes only its own key. */
  lemma TableFrame(table: NoteTable, data: seq<byte>, k: Key)
    requires |data| > 0
    ensures Classify(data[0]) !in {Some(NoteOn), Some(NoteOff)} ==> NextTable(table, data) == table
    ensures k != KeyOf(data) ==> (k in NextTable(table, data) <==> k in table)
    ensures k != KeyOf(data) && k in table ==> NextTable(table, data)[k] == table[k]
  {
  }

  /**
   * Press, release (NoteOn at velocity 0), press on a key not yet seen: the
   * presses are edges and the release is not.
   */
  lemma PressReleasePress(table: NoteTable, status: byte, number: byte, velocity: byte)
    requires Classify(status) == Some(NoteOn) && velocity != 0
    requires KeyOf([status, number, velocity]) !in table
    ensures var press, release := [status, number, velocity], [status, number, 0];
      var t1 := NextTable(table, press);
      var t2 := NextTable(t1, release);
      && Decode(table, 0, "", press).WasOn() == Some(false)
      && Decode(t1, 0, "", release).WasOn() == Some(true)
      && Decode(t2, 0, "", press).WasOn() == Some(false)
      && NextTable(t2, press) == t1
  {
    var press, release := [status, number, velocity], [status, number, 0];
    assert KeyOf(release) == KeyOf(press);
  }

  // ------------------------------------------------------------------ the table over a stream

  /** The table after a stream of messages. */
  function TableAfter(table: NoteTable, stream: seq<seq<byte>>): (r: NoteTable)
    requires forall i :: 0 <= i < |stream| ==> |stream[i]| > 0
    decreases |stream|
  {
    if |stream| == 0 then table
    else TableAfter(NextTable(table, stream[0]), stream[1..])
  }

  predicate IsNoteMessage(data: seq<byte>)
  {
    |data| > 0 && Classify(data[0]) in {Some(NoteOn), Some(NoteOff)}
  }

  /** The state the last note message on key `k` leaves; `prior` when there is none. */
  function LastState(prior: Option<Action>, stream: seq<seq<byte>>, k: Key): (r: Option<Action>)
    requires forall i :: 0 <= i < |stream| ==> |stream[i]| > 0
    decreases |stream|
  {
    if |stream| == 0 then prior
    else
      var m := stream[|stream| - 1];
      if IsNoteMessage(m) && KeyOf(m) == k then
        Some(if At(m, 2) == Some(0) then NoteOff else Classify(m[0]).value)
      else LastState(prior, stream[..|stream| - 1], k)
  }

  /** The table records, for every key, exactly the state of its last note message. */
  lemma {:induction false} TableAfterIsLastState(table: NoteTable, stream: seq<seq<byte>>, k: Key)
    requires forall i :: 0 <= i < |stream| ==> |stream[i]| > 0
    ensures var t := TableAfter(table, stream);
      (if k in t then Some(t[k]) else None) == LastState(if k in table then Some(table[k]) else None, stream, k)
    decreases |stream|
  {
    if |stream| > 0 {
      var t1 := NextTable(table, stream[0]);
      TableAfterIsLastState(t1, stream[1..], k);
      LastStateCons(if k in table then Some(table[k]) else None, stream, k);
    }
  }

  /** Peeling the first message of the stream off LastState. */
  lemma {:induction false} LastStateCons(prior: Option<Action>, stream: seq<seq<byte>>, k: Key)
    requires |stream| > 0 && forall i :: 0 <= i < |stream| ==> |stream[i]| > 0
    ensures var t1 := NextTable(if prior.Some? then map[k := prior.value] else map[], stream[0]);
      LastState(prior, stream, k) == LastState(if k in t1 then Some(t1[k]) else None, stream[1..], k)
    decreases |stream|
  {
    var t1 := NextTable(if prior.Some? then map[k := prior.value] else map[], stream[0]);
    var p1 := if k in t1 then Some(t1[k]) else None;
    if |stream| == 1 {
      assert stream[1..] == [];
    } else {
      var m := stream[|stream| - 1];
      assert stream[1..][..|stream[1..]| - 1] == stream[..|stream| - 1][1..];
      if !(IsNoteMessage(m) && KeyOf(m) == k) {
        LastStateCons(prior, stream[..|stream| - 1], k);
      }
    }
  }

  // ------------------------------------------------------------------ layout announcements

  /** The decoder recognises a layout announcement exactly for header + five bytes starting with 0. */
  lemma LayoutEventIff(table: NoteTable, data: seq<byte>)
    requires |data| > 0
    ensures var note := Decode(table, 0, "", data);
      (note.body.SysExBody? && note.body.layoutEvent.Some?)
      <==> (Classify(data[0]) == Some(SysEx) && |data| == 11 && data[..6] == Sysex.HEADER && data[6] == 0)
    ensures var note := Decode(table, 0, "", data);
      note.body.SysExBody? && note.body.layoutEvent.Some? ==>
        note.body.layoutEvent.value.Layout() == LayoutOfByte(data[7])
        && note.body.layoutEvent.value.Page() == Some(data[8])
  {
  }

  /** A framed announcement `[0, layout, page, x]` from the device decodes to that layout and page. */
  lemma AnnouncementRoundTrip(table: NoteTable, layout: byte, page: byte, x: byte)
    requires layout <= 3
    ensures var msg := Sysex.MakeSysex([0, layout, page, x]);
      && |msg| == 11
      && var note := Decode(table, 0, "", msg);
      && note.action == Some(SysEx)
      && note.WasOn() == None
      && note.body.layoutEvent == Some(SysExLayout([0, layout, page, x, 247]))
      && note.body.layoutEvent.value.Layout().Some?
      && note.body.layoutEvent.value.Page() == Some(page)
  {
    var msg := Sysex.MakeSysex([0, layout, page, x]);
    assert msg == [240, 0, 32, 41, 2, 14, 0, layout, page, x, 247];
    assert msg[..6] == Sysex.HEADER;
    assert msg[6..] == [0, layout, page, x, 247];
  }

  /**
   * `handle_daw(message)`: the message is decoded (against the shared note
   * table) and the page engine is re-initialised when it is a layout
   * announcement of the Custom layout on page 7. On the raw bytes that is
   * exactly the vendor header followed by `[0, 3, 7, x, y]`.
   */
  function DawReinit(table: NoteTable, data: seq<byte>): (r: bool)
    requires |data| > 0
    ensures r <==> (Classify(data[0]) == Some(SysEx) && |data| == 11 && data[..6] == Sysex.HEADER
                    && data[6] == 0 && data[7] == 3 && data[8] == 7)
  {
    LayoutEventIff(table, data);
    var note := Decode(table, 0, "", data);
    match note.body
    case SysExBody(_, _, ev) => ev.Some? && ev.value.Layout() == Some(Custom) && ev.value.Page() == Some(7)
    case VoiceBody(_, _, _, _) => false
  }
}

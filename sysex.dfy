/**
 * Message framing: a lighting command is the colour marker `[3]` followed by
 * the concatenated spec encodings (LaunchpadColorSysexMessage), and every
 * outgoing SysEx is wrapped in the vendor header and the terminator
 * (Launchpad.makeSysexMessage).
 */
module Sysex {
  import opened Util
  import opened ColorSpecs

  /** `Launchpad.sysexHeader`, the Novation Launchpad Pro MK3 vendor header. */
  const HEADER: seq<int> := [240, 0, 32, 41, 2, 14]
  /** `Launchpad.sysexStop`. */
  const STOP: seq<int> := [247]
  /** `sysexBeginning` of a colour message. */
  const COLOR_MARKER: int := 3

  /** `LaunchpadColorSysexMessage.sysexMessage`: marker, then the specs. */
  function ColorMessage(specs: seq<ColorSpec>): (r: seq<int>)
  {
    [COLOR_MARKER] + Flatten(specs)
  }

  /** `makeSysexMessage(messageData)`. */
  function MakeSysex(data: seq<int>): (r: seq<int>)
  {
    HEADER + data + STOP
  }

  /** What the Launchpad sends for a list of specs. */
  function Encode(specs: seq<ColorSpec>): (r: seq<int>)
  {
    MakeSysex(ColorMessage(specs))
  }

  /** Removes header and terminator; None when the framing is absent. */
  function Unframe(msg: seq<int>): (r: Option<seq<int>>)
    ensures r.Some? ==> MakeSysex(r.value) == msg
  {
    if |msg| >= 7 && msg[..6] == HEADER && msg[|msg| - 1] == 247 then
      assert msg == msg[..6] + msg[6..|msg| - 1] + [msg[|msg| - 1]];
      Some(msg[6..|msg| - 1])
    else None
  }

  /** Reference decoder for a framed colour message. */
  function DecodeColorMessage(msg: seq<int>): (r: Option<seq<ColorSpec>>)
  {
    match Unframe(msg)
    case None => None
    case Some(body) =>
      if |body| >= 1 && body[0] == COLOR_MARKER then ParseSpecs(body[1..]) else None
  }

  /** The framed message starts with the header, ends with 247 and has 7 more bytes than its body. */
  lemma MakeSysexShape(data: seq<int>)
    ensures |MakeSysex(data)| == |data| + 7
    ensures MakeSysex(data)[..6] == HEADER && MakeSysex(data)[6..|data| + 6] == data
    ensures MakeSysex(data)[|data| + 6] == 247
    ensures Unframe(MakeSysex(data)) == Some(data)
  {
    var m := MakeSysex(data);
    assert m[..6] == HEADER;
    assert m[6..|m| - 1] == data;
  }

  /** Length of an encoded lighting command: 8 + the sum of 2 + arity. */
  lemma EncodeLength(specs: seq<ColorSpec>)
    ensures |Encode(specs)| == 8 + EncodedLength(specs)
  {
    FlattenLength(specs);
  }

  /** Worked example: one static spec at pad 5 with palette colour 10. */
  lemma EncodeStaticExample()
    ensures Encode([Static(5, 10)]) == [240, 0, 32, 41, 2, 14, 3, 0, 5, 10, 247]
  {
    assert Flatten([Static(5, 10)]) == [0, 5, 10];
  }

  /** Decoding an encoded lighting command yields its specs. */
  lemma DecodeEncode(specs: seq<ColorSpec>)
    ensures DecodeColorMessage(Encode(specs)) == Some(specs)
  {
    MakeSysexShape(ColorMessage(specs));
    assert ColorMessage(specs)[1..] == Flatten(specs);
    ParseFlatten(specs);
  }

  /** Every message that decodes is the encoding of what it decodes to. */
  lemma EncodeDecode(msg: seq<int>, specs: seq<ColorSpec>)
    requires DecodeColorMessage(msg) == Some(specs)
    ensures Encode(specs) == msg
  {
    var body := Unframe(msg).value;
    FlattenParse(body[1..], specs);
    assert body == [COLOR_MARKER] + body[1..];
  }
}

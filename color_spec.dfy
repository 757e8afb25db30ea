/**
 * The four kinds of pad light command (static, flashing, pulsing, RGB), their
 * byte encoding `[lightType, position] + colorData`, `copy` with a position
 * override, and the concatenation of several encodings.
 */
module ColorSpecs {
  import opened Util

  /** One pad light command. `position` is the pad coordinate row*10+col. */
  datatype ColorSpec =
    | Static(position: int, palette: int)
    | Flashing(position: int, paletteA: int, paletteB: int)
    | Pulsing(position: int, palette: int)
    | Rgb(position: int, r: int, g: int, b: int)

  /** Number of payload bytes after the tag and position, for each light-type tag. */
  function PayloadLength(tag: int): (r: nat)
  {
    if tag == 1 then 2 else if tag == 3 then 3 else 1
  }

  /** The fixed `lightType` tag of each variant. */
  function LightType(c: ColorSpec): (t: nat)
    ensures t < 4
    ensures t == 0 <==> c.Static?
    ensures t == 1 <==> c.Flashing?
    ensures t == 2 <==> c.Pulsing?
    ensures t == 3 <==> c.Rgb?
  {
    match c
    case Static(_, _) => 0
    case Flashing(_, _, _) => 1
    case Pulsing(_, _) => 2
    case Rgb(_, _, _, _) => 3
  }

  /** `colorData`: the payload, whose length is fixed by the variant's tag. */
  function ColorData(c: ColorSpec): (d: seq<int>)
    ensures |d| == PayloadLength(LightType(c))
  {
    match c
    case Static(_, p) => [p]
    case Flashing(_, a, b) => [a, b]
    case Pulsing(_, p) => [p]
    case Rgb(_, r, g, b) => [r, g, b]
  }

  /** `sysexMessage` of one spec. */
  function SpecBytes(c: ColorSpec): (r: seq<int>)
  {
    [LightType(c), c.position] + ColorData(c)
  }

  /** Builds the spec with a given tag, position and payload (the inverse of SpecBytes). */
  function SpecOf(tag: int, position: int, payload: seq<int>): (c: ColorSpec)
    requires 0 <= tag < 4 && |payload| == PayloadLength(tag)
    ensures SpecBytes(c) == [tag, position] + payload
  {
    if tag == 0 then Static(position, payload[0])
    else if tag == 1 then Flashing(position, payload[0], payload[1])
    else if tag == 2 then Pulsing(position, payload[0])
    else Rgb(position, payload[0], payload[1], payload[2])
  }

  lemma SpecOfSpecBytes(c: ColorSpec)
    ensures SpecOf(LightType(c), c.position, ColorData(c)) == c
  {
  }

  /** The spec with its position field assigned (`spec.position = p`). */
  function WithPosition(c: ColorSpec, p: int): (d: ColorSpec)
    ensures d.position == p
    ensures LightType(d) == LightType(c) && ColorData(d) == ColorData(c)
  {
    c.(position := p)
  }

  /**
   * `copy(position)`: a clone of the same variant and payload; the position is
   * replaced only when the argument is truthy, so `copy()` (None, JavaScript
   * null) and `copy(0)` keep the original position.
   */
  function Copy(c: ColorSpec, p: Option<int>): (d: ColorSpec)
    ensures LightType(d) == LightType(c) && ColorData(d) == ColorData(c)
    ensures p.Some? && p.value != 0 ==> d.position == p.value
    ensures p.None? || p.value == 0 ==> d == c
  {
    if p.Some? && p.value != 0 then WithPosition(c, p.value) else c
  }

  /** The set of pads a list of specs addresses. */
  function Positions(specs: seq<ColorSpec>): (r: set<int>)
  {
    set i | 0 <= i < |specs| :: specs[i].position
  }

  /** `colorSpecArray`: the encodings of the specs, concatenated in order. */
  function Flatten(specs: seq<ColorSpec>): (r: seq<int>)
  {
    if specs == [] then [] else SpecBytes(specs[0]) + Flatten(specs[1..])
  }

  /** The sum, over the specs, of 2 + the payload length of each. */
  function EncodedLength(specs: seq<ColorSpec>): (r: nat)
  {
    if specs == [] then 0 else 2 + PayloadLength(LightType(specs[0])) + EncodedLength(specs[1..])
  }

  lemma {:induction false} FlattenLength(specs: seq<ColorSpec>)
    ensures |Flatten(specs)| == EncodedLength(specs)
  {
    if specs != [] {
      FlattenLength(specs[1..]);
    }
  }

  lemma {:induction false} FlattenConcat(a: seq<ColorSpec>, b: seq<ColorSpec>)
    ensures Flatten(a + b) == Flatten(a) + Flatten(b)
  {
    if a == [] {
      assert a + b == b;
    } else {
      assert (a + b)[1..] == a[1..] + b;
      FlattenConcat(a[1..], b);
    }
  }

  /**
   * Reads a concatenation of spec encodings back. A reference decoder, not part
   * of the source: it shows that the encoding is self-delimiting.
   */
  function ParseSpecs(bytes: seq<int>): (r: Option<seq<ColorSpec>>)
    decreases |bytes|
  {
    if bytes == [] then Some([])
    else if |bytes| < 2 || !(0 <= bytes[0] < 4) || |bytes| < 2 + PayloadLength(bytes[0]) then None
    else
      var n := 2 + PayloadLength(bytes[0]);
      match ParseSpecs(bytes[n..])
      case None => None
      case Some(rest) => Some([SpecOf(bytes[0], bytes[1], bytes[2..n])] + rest)
  }

  /** Decoding the concatenated encodings gives back exactly the specs. */
  lemma {:induction false} ParseFlatten(specs: seq<ColorSpec>)
    ensures ParseSpecs(Flatten(specs)) == Some(specs)
  {
    if specs != [] {
      var c := specs[0];
      var bytes := Flatten(specs);
      var n := 2 + PayloadLength(LightType(c));
      assert bytes == SpecBytes(c) + Flatten(specs[1..]);
      assert bytes[..n] == SpecBytes(c);
      assert bytes[n..] == Flatten(specs[1..]);
      assert bytes[2..n] == ColorData(c);
      SpecOfSpecBytes(c);
      ParseFlatten(specs[1..]);
      assert [c] + specs[1..] == specs;
    }
  }

  /** Whatever decodes was produced by Flatten: the encoding of a spec list is unique. */
  lemma {:induction false} FlattenParse(bytes: seq<int>, specs: seq<ColorSpec>)
    requires ParseSpecs(bytes) == Some(specs)
    ensures Flatten(specs) == bytes
    decreases |bytes|
  {
    if bytes != [] {
      var n := 2 + PayloadLength(bytes[0]);
      var rest :| ParseSpecs(bytes[n..]) == Some(rest);
      assert specs == [SpecOf(bytes[0], bytes[1], bytes[2..n])] + rest;
      assert specs[1..] == rest;
      FlattenParse(bytes[n..], rest);
      assert bytes == [bytes[0], bytes[1]] + bytes[2..n] + bytes[n..];
    }
  }
}

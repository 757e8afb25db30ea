/** Small shared vocabulary: MIDI bytes, optional values, min and max. */
module Util {

  /** One MIDI data or status byte, as the Web MIDI API and Uint8Array deliver it. */
  type byte = x: int | 0 <= x < 256

  /** A value that may be absent (JavaScript `undefined`, `null` or a missing map key). */
  datatype Option<T> = None | Some(value: T)

  function Min(a: int, b: int): (r: int) { if a <= b then a else b }

  function Max(a: int, b: int): (r: int) { if a >= b then a else b }

  /** Concatenation regroups freely. */
  lemma ConcatAssoc<T>(a: seq<T>, b: seq<T>, c: seq<T>)
    ensures a + b + c == a + (b + c)
  {
  }
}

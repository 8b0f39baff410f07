/** Byte strings, and the few facts about sequences that several modules use. */
module Bytes {

  type byte = b: int | 0 <= b < 256

  const LF: byte := 10
  const CR: byte := 13
  const SPACE: byte := 32

  datatype Option<+T> = None | Some(value: T)

  function Min(a: int, b: int): int {
    if a < b then a else b
  }

  function Max(a: int, b: int): int {
    if a < b then b else a
  }

  /** The concatenation of a list of byte strings. */
  function Flatten(parts: seq<seq<byte>>): seq<byte> {
    if parts == [] then [] else parts[0] + Flatten(parts[1..])
  }
}

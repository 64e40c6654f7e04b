/** What all modules share. */
module Basics {
  type byte = b: int | 0 <= b < 256

  datatype Option<+T> = None | Some(value: T)

  const MAX_INT64: int := 0x7FFF_FFFF_FFFF_FFFF
  const MIN_INT64: int := -0x8000_0000_0000_0000

  /** The buffer of a transfer. */
  const CHUNK: nat := 0x10_0000

  /** How many bytes a transfer writes between two checkpoints. */
  const CHECKPOINT_BYTES: nat := 0x80_0000

  predicate HexChar(c: char) {
    '0' <= c <= '9' || 'a' <= c <= 'f'
  }

  predicate AllHex(s: string) {
    forall i :: 0 <= i < |s| ==> HexChar(s[i])
  }

  /** `ValidHubCommit`. */
  predicate ValidCommit(s: string) {
    (|s| == 40 || |s| == 64) && AllHex(s)
  }

  function Min(a: int, b: int): int {
    if a <= b then a else b
  }
}

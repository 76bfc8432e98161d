/** Bytes and byte strings, shared by every component. */
module Bytes {
  type byte = x: int | 0 <= x < 256

  type Data = seq<byte>

  function Min(a: int, b: int): int {
    if a <= b then a else b
  }

  /** The part of `file` a direct read of `len` bytes at `off` would give. */
  function Slice(file: Data, off: nat, len: nat): Data {
    if off >= |file| then [] else file[off..Min(off + len, |file|)]
  }
}

/** Byte strings and the option type shared by every module. */
module Bytes {

  type Byte = x: int | 0 <= x < 256

  type Bytes = seq<Byte>

  /** A party as a chain names it: an address, a key hash, or a public key. */
  type Party = Bytes

  /** A hash function. Nothing but determinism is assumed of it. */
  type Hash = Bytes -> Bytes

  /** One more than the largest signed 64-bit integer. */
  const INT64: int := 0x8000_0000_0000_0000

  /** The low 64 bits of a number, read as a signed integer. */
  function Int64(i: int): int {
    (i + INT64) % (2 * INT64) - INT64
  }

  datatype Option<+T> = None | Some(value: T)

  lemma Assoc<T>(a: seq<T>, b: seq<T>, c: seq<T>)
    ensures a + (b + c) == a + b + c
  {
  }
}

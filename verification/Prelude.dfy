/** Shared vocabulary: optional values and the width of the source's unsigned integers. */
module Prelude {

  datatype Option<+T> = None | Some(value: T)

  /** The number of values of a `uint32_t`. */
  const TWO_32 := 0x1_0000_0000

  /** The number of values of a `uint16_t`. */
  const TWO_16 := 0x1_0000

  type U32 = x: int | 0 <= x < TWO_32

  /** Hashes, keys and signatures are byte strings of a fixed length. They are read as big-endian
      numbers, so `<` on them is the byte-wise order that the source compares them with. */
  type Hash = nat
  type Key = nat
  type Signature = nat
}

/** Basic vocabulary shared by the store, the controller and the dispatcher:
    window identifiers, keyboard group indices and the C integer conversions
    the group goes through on its way from an XKB event into the store. */
module Types {

  /** An X window identifier (an XID). Opaque to the model: only equality matters. */
  type WindowId = nat

  /** Number of values an `unsigned char` can hold. */
  const ByteRange: int := 256

  /** Number of values a `uint32_t` can hold. */
  const Word32Range: int := 0x1_0000_0000

  /** A keyboard group index as it travels through the library: every group that
      reaches the store passes through an `unsigned char`, so it lies in 0..255. */
  type Group = g: int | 0 <= g < ByteRange

  datatype Option<+T> = None | Some(value: T)

  /** C conversion of an integer to `uint32_t`: reduction modulo 2^32. */
  function ToU32(x: int): (r: int)
    ensures 0 <= r < Word32Range
    ensures 0 <= x < Word32Range ==> r == x
    ensures (x - r) % Word32Range == 0
  {
    x % Word32Range
  }

  /** C conversion of an integer to `unsigned char`: reduction modulo 2^8. */
  function ToU8(x: int): (r: Group)
    ensures 0 <= x < ByteRange ==> r == x
    ensures (x - r) % ByteRange == 0
  {
    x % ByteRange
  }

  /** Narrowing to 32 bits first and then to 8 bits gives the same byte as
      narrowing to 8 bits directly, for every integer (negative ones included). */
  lemma NarrowThroughU32(x: int)
    ensures ToU8(ToU32(x)) == ToU8(x)
  {
  }
}

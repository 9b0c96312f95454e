/** The one fact about casting between unbounded integers and 8-bit vectors that the byte encodings need. */
module ByteCast {
  /** A number below 256 survives a trip through an 8-bit vector. */
  lemma ByteOfSmall(b: nat)
    requires b < 256
    ensures (b as bv8) as int == b
  {
  }

  /** An 8-bit vector survives a trip through the integers. */
  lemma SmallOfByte(x: bv8)
    ensures x as int < 256 && (x as int) as bv8 == x
  {
  }
}

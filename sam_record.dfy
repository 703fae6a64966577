/** The alignment record both tools read, and the SAM FLAG bits they test
    (FLAG field, section 1.4 of the SAM format specification). Only the
    fields the two tools look at are kept. */
module SamRecord {

  /** The 16-bit FLAG field. */
  type Flag = bv16

  const READ_PAIRED: Flag := 0x1
  const READ_MAPPED_PROPER_PAIR: Flag := 0x2
  const READ_UNMAPPED: Flag := 0x4
  const MATE_UNMAPPED: Flag := 0x8
  const READ_REVERSE_STRAND: Flag := 0x10
  const MATE_REVERSE_STRAND: Flag := 0x20
  const READ_FIRST_IN_PAIR: Flag := 0x40
  const READ_SECOND_IN_PAIR: Flag := 0x80
  const READ_SECONDARY_ALIGNMENT: Flag := 0x100
  const READ_FAILED_QUALITY_CHECKS: Flag := 0x200
  const READ_PCR_OPTICAL_DUPLICATE: Flag := 0x400
  const READ_SUPPLEMENTARY: Flag := 0x800

  const INT32_MAX: int := 0x7fff_ffff
  /** 2^64: the modulus of the C `uint64_t` arithmetic the tools use. */
  const U64: int := 0x1_0000_0000_0000_0000

  type u64 = x: int | 0 <= x < U64
  type i32 = x: int | -INT32_MAX - 1 <= x <= INT32_MAX

  /** The value a C `int` takes when it is converted to `uint64_t`
      (the usual arithmetic conversions of a mixed comparison): the one
      value in the unsigned range that is congruent to `v` modulo 2^64. */
  function AsU64(v: int): (u: u64)
    requires -U64 <= v < U64
    ensures (u - v) % U64 == 0
  {
    if v >= 0 then v else v + U64
  }

  function Abs(v: int): nat {
    if v < 0 then -v else v
  }

  /** One alignment record: reference id (`tid`, -1 for none), mate
      reference id (`mtid`), 0-based position (`pos`, -1 for none), signed
      template length (`isize`, TLEN), mapping quality and flag bits. */
  datatype Record = Record(tid: int, mtid: int, pos: int, isize: int, qual: int, flag: Flag)

  predicate HasFlag(r: Record, bit: Flag) {
    r.flag & bit != 0
  }
}

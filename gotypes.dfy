/** Go's fixed-width integer types, bytes and time values as the model sees them.

    A Go `string` is a sequence of bytes; it is modelled as a Dafny `string`
    whose characters stand for those bytes, so `len(s)` is `|s|`. */
module GoTypes {

  newtype byte = x: int | 0 <= x < 0x100

  newtype int8 = x: int | -0x80 <= x < 0x80
  newtype int16 = x: int | -0x8000 <= x < 0x8000
  newtype int32 = x: int | -0x8000_0000 <= x < 0x8000_0000
  newtype int64 = x: int | -0x8000_0000_0000_0000 <= x < 0x8000_0000_0000_0000

  newtype uint8 = x: int | 0 <= x < 0x100
  newtype uint16 = x: int | 0 <= x < 0x1_0000
  newtype uint32 = x: int | 0 <= x < 0x1_0000_0000
  newtype uint64 = x: int | 0 <= x < 0x1_0000_0000_0000_0000

  /** `strconv.IntSize`: the model fixes the platform word to 64 bits. */
  const IntSize: nat := 64

  /** Go's `int` and `uint` on a 64-bit platform. */
  newtype goint = x: int | -0x8000_0000_0000_0000 <= x < 0x8000_0000_0000_0000
  newtype gouint = x: int | 0 <= x < 0x1_0000_0000_0000_0000

  const MaxUint32: uint32 := 0xFFFF_FFFF

  /** Go's `string(bytes)`: each byte becomes one character of the string. */
  function Text(bs: seq<byte>): (s: string)
    ensures |s| == |bs|
    ensures forall i :: 0 <= i < |bs| ==> s[i] as int == bs[i] as int
  {
    seq(|bs|, i requires 0 <= i < |bs| => (bs[i] as int) as char)
  }

  /** A `time.Time`, as nanoseconds since the Unix epoch in UTC. */
  type Instant = int

  /** A `time.Duration` in nanoseconds. */
  type Duration = int

  const Second: Duration := 1_000_000_000
  const Minute: Duration := 60 * Second
  const Hour: Duration := 60 * Minute
}

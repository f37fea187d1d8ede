/** Time stamps and durations in microseconds. */
module MediaTime {
  const SECOND := 1000000

  /** The stamp that stands for "no stamp": an ordinary number, below every other. */
  const NOPTS := -0x8000_0000_0000_0000
}

/** The machines that are modelled, where nothing else is said. */
module Machine {
  /** Unsigned longs have 64 bits and are below. */
  const ULONG: nat := 0x1_0000_0000_0000_0000
}

/** Bounds that several modules share. */
module Limits {
  const MAX_U32: nat := 0xFFFF_FFFF

  /** Samples of one chunk: 25 ms at 16 kHz. */
  const SAMPLES_PER_CHUNK: nat := 400
}

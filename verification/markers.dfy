/** Marker codes of ITU-T T.81 (ISO/IEC 10918-1), Table B.1, that the
    restart resynchronisation distinguishes. A marker code here is the
    byte that follows 0xFF in the stream. */
module Markers {

  /** Start of frame, baseline DCT: the lowest structural marker code. */
  const SOF0: int := 0xC0

  /** Restart markers RST0 .. RST7, eight consecutive codes used cyclically. */
  const RST0: int := 0xD0
  const RST7: int := 0xD7

  /** End of image: a valid marker that is not a restart marker. */
  const EOI: int := 0xD9

  predicate IsRestart(marker: int)
  {
    RST0 <= marker <= RST7
  }
}

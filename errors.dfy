/** The exceptions TBitmap raises, as values. */
module Errors {

  datatype Error =
    | PixmapEmpty                               // "Operation failed, pixmap not allocated error"
    | FailedAllocateMemory                      // "Failed to allocate memory for pixmap error"
    | InvalidPixelFormat                        // "Failed to allocate pixmap, invalid pixelformat error"
    | InvalidDimension                          // "Failed to allocate pixmap, invalid dimension error"
    | FailedRelease                             // "Failed to release pixmap, native error"
    | InvalidXYPos                              // "Invalid X/Y position for byte-offset error"
    | InvalidRowForScanline(low: int, high: int) // "Invalid scanline row, expected {0}..{1}"

  /** A call that returns nothing either completes or throws. */
  datatype Outcome = Pass | Fail(error: Error)

  /** A call that returns a value either returns it or throws. */
  datatype Result<T> = Ok(value: T) | Err(error: Error)
}

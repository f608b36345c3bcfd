/** Failures of the KITTI filename resolution, in place of the exceptions and
    process exits of the original code. */
module Outcomes {

  datatype Error =
    /** `loadList` could not open the file (the original catches OSError and exits). */
    | MissingFile(path: string)
    /** The cache file does not parse as a table of image and depth columns. */
    | CorruptFile(path: string)
    /** A path has too few segments for the key indices (IndexError in the original). */
    | SegmentOutOfRange(path: string)
    /** `saveList` was called with a number of positional arguments it does not take (TypeError). */
    | SaveListArity(given: nat)

  datatype Result<T> = Ok(value: T) | Err(error: Error)
}

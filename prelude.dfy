/** Small shared vocabulary: Java's nullable references, calls that may throw
    an IOException, and the bytes that flow through the streams. */
module Prelude {

  /** A Java reference that may be null. */
  datatype Option<+T> = None | Some(value: T)

  /** The outcome of a Java call that either returns a value or throws an IOException. */
  datatype Io<+T> = Ok(value: T) | IoError

  /** One octet of a stream. */
  newtype byte = x: int | 0 <= x < 256
}

/** Small value types shared by the models: optional values, results, and
    the "fatal" outcome that stands for a Go panic. */
module Wrappers {

  datatype Option<+T> = None | Some(value: T)

  datatype Result<+R, +E> = Success(value: R) | Failure(error: E)

  /** What a Go function that may panic produces: a value, or a panic with
      its message. A panic is not an error a caller can handle. */
  datatype Fatal<+T> = Value(value: T) | Panic(message: string)
}

/** Bytes as Go's []byte holds them, and the two control bytes the line
    decoder looks for. */
module Bytes {

  newtype byte = b: int | 0 <= b < 256

  /** '\n' */
  const NL: byte := 10
  /** '\r' */
  const CR: byte := 13

  /** The bytes of a string whose characters are all below 256 (Go's
      []byte("...") on an ASCII or Latin-1 literal). */
  function FromString(s: string): (r: seq<byte>)
    requires forall i | 0 <= i < |s| :: s[i] as int < 256
    ensures |r| == |s|
    ensures forall i | 0 <= i < |s| :: r[i] as int == s[i] as int
  {
    seq(|s|, i requires 0 <= i < |s| => (s[i] as int) as byte)
  }

  /** n copies of the byte b. */
  function Repeat(b: byte, n: nat): (r: seq<byte>)
    ensures |r| == n
    ensures forall i | 0 <= i < n :: r[i] == b
  {
    seq(n, _ => b)
  }
}

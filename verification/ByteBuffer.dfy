// Byte strings in the source's character buffers.
module ByteBuffer {

  type Byte = b: int | 0 <= b < 256

  // The string in a buffer: up to its first zero byte.
  ghost predicate Holds(a: seq<Byte>, s: seq<Byte>)
  {
    |s| < |a| && a[..|s|] == s && a[|s|] == 0 && 0 !in s
  }
}

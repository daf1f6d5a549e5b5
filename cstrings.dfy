/**
 * The C string helpers the client copies names and paths with. A buffer of
 * `size` characters keeps at most `size - 1` of them before its terminator.
 */
module CStrings {

  /** A string held in one of the client's `char` buffers. */
  type Name = seq<char>

  /** `str_copy(dst, src, size)`: at most `size - 1` characters of `s`. */
  function StrCopy<T>(s: seq<T>, size: nat): (r: seq<T>)
    requires size >= 1
    ensures |r| < size && |r| <= |s| && r == s[..|r|]
    ensures |s| < size ==> r == s
    ensures |s| >= size ==> |r| == size - 1
  {
    if |s| < size then s else s[..size - 1]
  }

  /** `str_append(dst, src, size)` onto a buffer that already holds `dst`. */
  function StrAppend<T>(dst: seq<T>, s: seq<T>, size: nat): (r: seq<T>)
    requires |dst| < size
    ensures |dst| <= |r| < size && |r| <= |dst + s| && r == (dst + s)[..|r|]
    ensures |dst| + |s| < size ==> r == dst + s
    ensures |dst| + |s| >= size ==> |r| == size - 1
  {
    dst + s[..if |s| < size - 1 - |dst| then |s| else size - 1 - |dst|]
  }
}

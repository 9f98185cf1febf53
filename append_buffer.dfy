/**
 * The append buffer (struct abuf): a heap block of exactly `len` bytes that
 * abAppend grows by reallocating and copying.
 */
module AppendBuffers {

  class AppendBuffer {
    var b: array<char>
    var len: int
    /** The bytes collected so far. */
    ghost var contents: seq<char>

    ghost predicate Valid()
      reads this, b
    {
      len == b.Length && b[..] == contents
    }

    ghost function Contents(): seq<char>
      reads this
    {
      contents
    }

    /** ABUF_INIT: no bytes. */
    constructor ()
      ensures Valid() && Contents() == []
    {
      b := new char[0];
      len := 0;
      contents := [];
    }

    /**
     * abAppend: appends the first `n` bytes of `s`. Whether realloc found
     * memory is the parameter `reallocOk`; when it did not, the buffer is
     * left exactly as it was.
     */
    method Append(s: seq<char>, n: int, reallocOk: bool)
      requires Valid() && 0 <= n <= |s|
      modifies this
      ensures Valid()
      ensures reallocOk ==> len == old(len) + n && Contents() == old(Contents()) + s[..n]
      ensures !reallocOk ==> b == old(b) && len == old(len) && Contents() == old(Contents())
    {
      if !reallocOk {
        return;
      }
      var grown := new char[len + n];
      forall i | 0 <= i < len {
        grown[i] := b[i];
      }
      forall i | 0 <= i < n {
        grown[len + i] := s[i];
      }
      assert grown[..] == b[..] + s[..n];
      b := grown;
      len := len + n;
      contents := contents + s[..n];
    }
  }
}

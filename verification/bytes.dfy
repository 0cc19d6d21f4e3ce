/** Bytes, C strings and the small sequence helpers the server model is built from. */
module Bytes {

  newtype byte = b: int | 0 <= b < 0x100

  const Nul: byte := 0
  const Space: byte := 0x20  // ' '
  const Comma: byte := 0x2C  // ','
  const Dash: byte := 0x2D   // '-'

  /** `strlen` from position `i`: the index of the first NUL at or after `i`, or the end of the
      buffer when there is none. */
  function StrlenFrom(s: seq<byte>, i: nat): (n: nat)
    requires i <= |s|
    ensures i <= n <= |s|
    ensures n < |s| ==> s[n] == Nul
    ensures forall j :: i <= j < n ==> s[j] != Nul
    decreases |s| - i
  {
    if i == |s| || s[i] == Nul then i else StrlenFrom(s, i + 1)
  }

  /** What `strlen` sees in a NUL-terminated buffer: the bytes before the first NUL
      (the whole buffer when it holds none). */
  function CStr(s: seq<byte>): (r: seq<byte>)
    ensures r <= s
    ensures Nul !in r
    ensures |r| < |s| ==> s[|r|] == Nul
  {
    s[..StrlenFrom(s, 0)]
  }

  /** `n` space bytes, as `memset(p, ' ', n)` writes them. */
  function Spaces(n: nat): (r: seq<byte>)
    ensures |r| == n
    ensures forall i :: 0 <= i < n ==> r[i] == Space
  {
    seq(n, _ => Space)
  }

}

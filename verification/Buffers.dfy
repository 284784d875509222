/** Filling buffers of a size computed in advance. */
module Buffers {

  /** memcpy to position p; the position behind the copy. */
  method Put<T>(buf: array<T>, p: nat, data: seq<T>) returns (q: nat)
    requires p + |data| <= buf.Length
    modifies buf
    ensures q == p + |data| && buf[..q] == old(buf[..p]) + data
  {
    var i := 0;
    while i < |data|
      invariant 0 <= i <= |data|
      invariant buf[..p + i] == old(buf[..p]) + data[..i]
    {
      buf[p + i] := data[i];
      i := i + 1;
    }
    q := p + |data|;
    assert data[..i] == data;
  }
}

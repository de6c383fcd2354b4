/** What several modules share: optional values, bytes and byte buffers. */
module Basics {

  datatype Option<+T> = None | Some(value: T)

  newtype byte = x: int | 0 <= x < 256

  ghost predicate Cleared(a: array<byte>)
    reads a
  {
    forall k :: 0 <= k < a.Length ==> a[k] == 0
  }

  method ZeroBytes(a: array<byte>)
    modifies a
    ensures Cleared(a)
  {
    for i := 0 to a.Length
      invariant forall k :: 0 <= k < i ==> a[k] == 0
    {
      a[i] := 0;
    }
  }

  /** Extends what the buffer holds up to `from`, and leaves the rest alone. */
  method Copy(a: array<byte>, from: nat, bytes: seq<byte>)
    requires from + |bytes| <= a.Length
    modifies a
    ensures a[..from + |bytes|] == old(a[..from]) + bytes
    ensures forall k :: from + |bytes| <= k < a.Length ==> a[k] == old(a[k])
  {
    for i := 0 to |bytes|
      invariant a[..from + i] == old(a[..from]) + bytes[..i]
      invariant forall k :: from + i <= k < a.Length ==> a[k] == old(a[k])
    {
      a[from + i] := bytes[i];
    }
  }
}

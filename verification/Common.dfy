/** What several modules share. */
module Common {

  datatype Option<T> = None | Some(value: T)

  type Byte = b: nat | b < 256

  function Min(a: int, b: int): int { if a < b then a else b }

  function Max(a: int, b: int): int { if a < b then b else a }

  /** A number above all of a finite set. */
  ghost function Fresh(used: set<nat>): (n: nat)
    ensures forall m :: m in used ==> m < n
  {
    if used == {} then 0
    else
      var k :| k in used;
      var n := Fresh(used - {k});
      assert forall m :: m in used ==> m == k || m in used - {k};
      if k < n then n else k + 1
  }

  /** `Uint8Array.set` */
  method CopyInto(buffer: array<Byte>, data: seq<Byte>, at: nat)
    requires at + |data| <= buffer.Length
    modifies buffer
    ensures buffer[..at + |data|] == old(buffer[..at]) + data
  {
    for j := 0 to |data|
      invariant buffer[..at + j] == old(buffer[..at]) + data[..j]
    {
      buffer[at + j] := data[j];
      assert buffer[..at + j + 1] == buffer[..at + j] + [data[j]];
    }
  }
}

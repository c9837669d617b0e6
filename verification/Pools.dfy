/** Buffers that are handed round and used again. */
module Pools {
  import opened Bytes

  /** sync.Pool: buffers of one size, all zero while they are in it. */
  class Pool {
    const size: nat
    var free: set<array<byte>>

    constructor (size: nat)
      ensures Valid() && this.size == size && free == {}
    {
      this.size := size;
      free := {};
    }

    ghost predicate Valid()
      reads this, free
    {
      forall b :: b in free ==> b.Length == size && AllZero(b[..])
    }

    /** A pooled buffer or a new one: all zero, and no longer the pool's. */
    method Get() returns (b: array<byte>)
      requires Valid()
      modifies this`free
      ensures Valid() && b !in free && b.Length == size && AllZero(b[..])
      ensures (b in old(free) && free == old(free) - {b}) || (fresh(b) && free == old(free))
    {
      var reuse: bool := *;
      if reuse && free != {} {
        b :| b in free;
        free := free - {b};
      } else {
        b := new byte[size](_ => 0);
      }
    }

    method Put(b: array<byte>)
      requires Valid() && b !in free && b.Length == size && AllZero(b[..])
      modifies this`free
      ensures Valid() && free == old(free) + {b}
    {
      free := free + {b};
    }
  }

  /** for n := range buf[:k] { buf[n] = 0 }, where the rest is zero already. */
  method Clear(buf: array<byte>, k: nat)
    requires k <= buf.Length && AllZero(buf[k..])
    modifies buf
    ensures AllZero(buf[..])
  {
    for n := 0 to k
      invariant AllZero(buf[..n]) && AllZero(buf[k..])
    {
      buf[n] := 0;
    }
    assert forall i :: k <= i < buf.Length ==> buf[i] == buf[k..][i - k];
    assert forall i :: 0 <= i < k ==> buf[i] == buf[..k][i];
  }
}

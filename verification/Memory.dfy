/** The C allocator and its memory routines, as far as the buffers use them.
    A pointer is a number, `NULL` is zero, and the block behind it is an array.  `Ledger`
    records which pointers are live; the specifications are written over it.  `realloc`
    always moves its block: that is the hostile case for anybody who holds the old pointer. */
module Memory {
  newtype byte = x: int | 0 <= x < 256

  type Ptr = nat
  const NULL: Ptr := 0

  datatype Ledger = Ledger(live: set<Ptr>, next: Ptr) {
    ghost predicate Valid() {
      NULL < next && forall p | p in live :: NULL < p < next
    }

    // The pointer handed out is `next`.
    function Alloc(): Ledger {
      Ledger(live + {next}, next + 1)
    }

    function Free(p: Ptr): Ledger {
      Ledger(live - {p}, next)
    }
  }

  class Heap {
    var ledger: Ledger

    constructor ()
      ensures ledger == Ledger({}, 1)
    {
      ledger := Ledger({}, 1);
    }

    method Malloc(size: nat) returns (p: Ptr, a: array<byte>)
      modifies this
      ensures p == old(ledger).next && ledger == old(ledger).Alloc()
      ensures fresh(a) && a.Length == size
    {
      p, ledger := ledger.next, ledger.Alloc();
      a := new byte[size];
    }

    method Free(p: Ptr)
      requires p in ledger.live
      modifies this
      ensures ledger == old(ledger).Free(p)
    {
      ledger := ledger.Free(p);
    }

    method Realloc(p: Ptr, a: array<byte>, size: nat) returns (q: Ptr, b: array<byte>)
      requires p in ledger.live && a.Length <= size
      modifies this
      ensures q == old(ledger).next && ledger == old(ledger).Free(p).Alloc()
      ensures fresh(b) && b.Length == size && b[..a.Length] == a[..]
    {
      Free(p);
      q, b := Malloc(size);
      Memcpy(b, 0, a[..]);
    }

    static method Memcpy(a: array<byte>, at: nat, src: seq<byte>)
      requires at + |src| <= a.Length
      modifies a
      ensures a[..at + |src|] == old(a[..at]) + src
      ensures a[at + |src|..] == old(a[at + |src|..])
    {
      ghost var was := a[..];
      for i := 0 to |src|
        invariant a[..] == was[..at] + src[..i] + was[at + i..]
      {
        a[at + i] := src[i];
      }
    }

    // Slides `len` bytes that start at `from` down to the front of the block.
    static method Memmove(a: array<byte>, from: nat, len: nat)
      requires from + len <= a.Length
      modifies a
      ensures a[..len] == old(a[from..from + len])
    {
      for i := 0 to len
        invariant forall k | 0 <= k < i :: a[k] == old(a[from + k])
        invariant forall k | i <= k < a.Length :: a[k] == old(a[k])
      {
        a[i] := a[from + i];
      }
    }
  }
}

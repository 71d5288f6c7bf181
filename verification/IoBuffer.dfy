/** The growable byte buffer.  `Buf` is what a buffer amounts to: the block it owns, its
    capacity, its growth unit, and the bytes it holds.  The class works on heap blocks the
    way the library does, and each method is tied to a function on `Buf` and `Ledger`. */
module IoBuffers {
  import opened Memory

  datatype Buf = Buf(raw: Ptr, capacity: nat, block: nat, data: seq<byte>) {
    ghost predicate Valid() {
      && |data| <= capacity
      && (raw == NULL ==> this == NO_BUF)
    }

    // No growth is needed for `n` more bytes.
    predicate Fits(n: nat) {
      |data| + n <= capacity
    }

    // Exactly the pushes that return; see `PushReturnsIff`.
    predicate CanPush(n: nat) {
      Fits(n) || 0 < block
    }
  }

  const NO_BUF := Buf(NULL, 0, 0, [])

  // The pointer the buffer owns, if any.
  function Own(b: Buf): set<Ptr> {
    if b.raw == NULL then {} else {b.raw}
  }

  // The first size beyond `need` that is reached from `capacity` in steps of `block`.
  function Grown(capacity: nat, block: nat, need: nat): (size: nat)
    requires 0 < block && capacity < need
  {
    capacity + ((need - capacity) / block + 1) * block
  }

  function Pushed(l: Ledger, b: Buf, bytes: seq<byte>): (Ledger, Buf)
    requires b.CanPush(|bytes|)
  {
    if b.Fits(|bytes|) then
      (l, b.(data := b.data + bytes))
    else
      (l.Free(b.raw).Alloc(),
       Buf(l.next, Grown(b.capacity, b.block, |b.data| + |bytes|), b.block, b.data + bytes))
  }

  function Popped(b: Buf, n: nat): Buf {
    if n <= |b.data| then b.(data := b.data[n..]) else b
  }

  function Assigned(l: Ledger, b: Buf, size: nat): (Ledger, Buf) {
    ((if b.raw == NULL then l else l.Free(b.raw)).Alloc(), Buf(l.next, size, size, []))
  }

  function Destroyed(l: Ledger, b: Buf): (Ledger, Buf) {
    if b.raw == NULL then (l, b) else (l.Free(b.raw), NO_BUF)
  }

  // --- Growth -----------------------------------------------------------------------

  lemma MulStep(a: int, b: int, m: nat)
    ensures a < b ==> (a + 1) * m <= b * m
  {
    if a < b {
      assert b * m == (a + 1) * m + (b - a - 1) * m;
    }
  }

  lemma QuotientUnique(x: nat, block: nat, q: nat)
    requires 0 < block && q * block <= x < (q + 1) * block
    ensures x / block == q
  {
    var p := x / block;
    assert x == p * block + x % block;
    MulStep(p, q, block);
    MulStep(q, p, block);
  }

  // The size after `k` turns of the inner loop.
  function Rung(capacity: nat, block: nat, k: nat): nat {
    if k == 0 then capacity else Rung(capacity, block, k - 1) + block
  }

  lemma {:induction false} RungIs(capacity: nat, block: nat, k: nat)
    ensures Rung(capacity, block, k) == capacity + k * block
  {
    if k != 0 {
      RungIs(capacity, block, k - 1);
      assert k * block == (k - 1) * block + block;
    }
  }

  // The inner loop stops exactly at `Grown`.
  lemma GrownIsLeast(capacity: nat, block: nat, need: nat, k: nat)
    requires 0 < block && capacity < need && 1 <= k
    requires Rung(capacity, block, k - 1) <= need < Rung(capacity, block, k)
    ensures Rung(capacity, block, k) == Grown(capacity, block, need)
  {
    RungIs(capacity, block, k);
    RungIs(capacity, block, k - 1);
    QuotientUnique(need - capacity, block, k - 1);
  }

  lemma GrownReaches(capacity: nat, block: nat, need: nat)
    requires 0 < block && capacity < need
    ensures need < Grown(capacity, block, need)
  {
    var q := (need - capacity) / block;
    assert (q + 1) * block == q * block + block;
    assert need - capacity == q * block + (need - capacity) % block;
  }

  // A capacity that is a multiple of the unit grows to the next multiple beyond `need`,
  // and overshoots by at most one unit.
  lemma GrowthFormula(capacity: nat, block: nat, need: nat)
    requires 0 < block && capacity < need && capacity % block == 0
    ensures Grown(capacity, block, need) == (need / block + 1) * block
    ensures need < Grown(capacity, block, need) <= need + block
    ensures Grown(capacity, block, need) % block == 0
  {
    var c, q := capacity / block, need / block;
    assert capacity == c * block && q * block <= need < (q + 1) * block by {
      assert need == q * block + need % block;
    }
    MulStep(q, c, block);
    assert (q - c) * block == q * block - c * block;
    QuotientUnique(need - capacity, block, q - c);
    assert (q - c + 1) * block == (q + 1) * block - c * block;
    QuotientUnique((q + 1) * block, block, q + 1);
  }

  // The two nested loops, one test or assignment at a time.
  datatype Growth = Outer(capacity: nat) | Inner(capacity: nat, newSize: nat) | Done(capacity: nat)

  function GrowthStep(g: Growth, block: nat, need: nat): Growth {
    match g
    case Outer(c) => if need > c then Inner(c, c + block) else Done(c)
    case Inner(c, s) => if need >= s then Inner(c, s + block) else Outer(s)
    case Done(c) => g
  }

  function GrowthAfter(g: Growth, block: nat, need: nat, steps: nat): Growth
    decreases steps
  {
    if steps == 0 then g else GrowthAfter(GrowthStep(g, block, need), block, need, steps - 1)
  }

  // With a unit of zero the inner loop never leaves the size it started from.
  lemma {:induction false} GrowthDiverges(g: Growth, need: nat, steps: nat)
    requires g.Outer? || (g.Inner? && g.newSize == g.capacity)
    requires g.capacity < need
    ensures !GrowthAfter(g, 0, need, steps).Done?
    decreases steps
  {
    if steps != 0 {
      GrowthDiverges(GrowthStep(g, 0, need), need, steps - 1);
    }
  }

  lemma {:induction false} GrowthConverges(capacity: nat, block: nat, need: nat, k: nat) returns (steps: nat)
    requires 0 < block && capacity < need && 1 <= k
    requires Rung(capacity, block, k - 1) <= need
    ensures GrowthAfter(Inner(capacity, Rung(capacity, block, k)), block, need, steps)
         == Done(Grown(capacity, block, need))
    decreases need - Rung(capacity, block, k)
  {
    var g := Inner(capacity, Rung(capacity, block, k));
    if need < Rung(capacity, block, k) {
      GrownIsLeast(capacity, block, need, k);
      steps := 2;
      assert GrowthAfter(g, block, need, 2) == GrowthAfter(GrowthStep(g, block, need), block, need, 1);
    } else {
      var rest := GrowthConverges(capacity, block, need, k + 1);
      steps := rest + 1;
    }
  }

  // The loops of pushing `n` bytes, after the given number of tests and assignments.
  function PushLoops(b: Buf, n: nat, steps: nat): Growth {
    GrowthAfter(Outer(b.capacity), b.block, |b.data| + n, steps)
  }

  // A push returns exactly when there is room already or the growth unit is positive, and
  // then the loops have stopped at the size `Pushed` states.
  lemma PushReturnsIff(b: Buf, n: nat)
    ensures (exists steps: nat :: PushLoops(b, n, steps).Done?) <==> b.CanPush(n)
    ensures b.CanPush(n) ==>
              exists steps: nat ::
                PushLoops(b, n, steps)
                == Done(if b.Fits(n) then b.capacity else Grown(b.capacity, b.block, |b.data| + n))
  {
    var g, need := Outer(b.capacity), |b.data| + n;
    if b.Fits(n) {
      assert PushLoops(b, n, 1) == GrowthStep(g, b.block, need);
    } else if 0 < b.block {
      assert Rung(b.capacity, b.block, 1) == Rung(b.capacity, b.block, 0) + b.block;
      var steps := GrowthConverges(b.capacity, b.block, need, 1);
      assert PushLoops(b, n, steps + 1) == Done(Grown(b.capacity, b.block, need));
    } else {
      forall steps: nat ensures !PushLoops(b, n, steps).Done? {
        GrowthDiverges(g, need, steps);
      }
    }
  }

  // --- Runs -------------------------------------------------------------------------

  datatype BufOp = Put(bytes: seq<byte>) | Take(n: nat)

  function BufStep(l: Ledger, b: Buf, op: BufOp): (Ledger, Buf)
    requires 0 < b.block
  {
    match op
    case Put(bytes) => Pushed(l, b, bytes)
    case Take(n) => (l, Popped(b, n))
  }

  function BufRun(l: Ledger, b: Buf, ops: seq<BufOp>): (r: (Ledger, Buf))
    requires 0 < b.block
    ensures r.1.block == b.block
    decreases ops
  {
    if ops == [] then (l, b) else
    var (l', b') := BufStep(l, b, ops[0]);
    BufRun(l', b', ops[1..])
  }

  // The most bytes the buffer ever holds during the run.
  function Peak(l: Ledger, b: Buf, ops: seq<BufOp>): (m: nat)
    requires 0 < b.block
    decreases ops
  {
    if ops == [] then |b.data| else
    var (l', b') := BufStep(l, b, ops[0]);
    var rest := Peak(l', b', ops[1..]);
    if |b.data| <= rest then rest else |b.data|
  }

  lemma PushKeeps(l: Ledger, b: Buf, bytes: seq<byte>)
    requires l.Valid() && b.Valid() && Own(b) <= l.live && b.CanPush(|bytes|)
    ensures var (l', b') := Pushed(l, b, bytes);
      && l'.Valid() && b'.Valid() && b'.data == b.data + bytes
      && b'.block == b.block && b.capacity <= b'.capacity
      && l'.live - Own(b') == l.live - Own(b) && Own(b') <= l'.live
      && (bytes != [] ==> b'.raw != NULL)
      && (b.Fits(|bytes|) ==> b'.raw == b.raw && l' == l)
  {
    if !b.Fits(|bytes|) {
      GrownReaches(b.capacity, b.block, |b.data| + |bytes|);
    }
  }

  // Over any run of pushes and pops the capacity stays a multiple of the unit and at most
  // one unit above the peak content.
  lemma {:induction false} RunBoundsCapacity(l: Ledger, b: Buf, ops: seq<BufOp>)
    requires 0 < b.block && b.capacity % b.block == 0 && |b.data| <= b.capacity
    requires b.capacity <= Peak(l, b, ops) + b.block
    ensures var b' := BufRun(l, b, ops).1;
      && |b'.data| <= b'.capacity && b'.capacity % b.block == 0
      && b.capacity <= b'.capacity <= Peak(l, b, ops) + b.block
    decreases ops
  {
    if ops != [] {
      var (l', b') := BufStep(l, b, ops[0]);
      PeakAtLeast(l', b', ops[1..]);
      if ops[0].Put? && !b.Fits(|ops[0].bytes|) {
        GrowthFormula(b.capacity, b.block, |b.data| + |ops[0].bytes|);
        RunBoundsCapacity(l', b', ops[1..]);
      } else if b'.capacity <= Peak(l', b', ops[1..]) + b.block {
        RunBoundsCapacity(l', b', ops[1..]);
      } else {
        RunStaysSmall(l', b', ops[1..]);
      }
    }
  }

  lemma {:induction false} PeakAtLeast(l: Ledger, b: Buf, ops: seq<BufOp>)
    requires 0 < b.block
    ensures |b.data| <= Peak(l, b, ops)
  {
  }

  // A run that never comes near the capacity does not change it.
  lemma {:induction false} RunStaysSmall(l: Ledger, b: Buf, ops: seq<BufOp>)
    requires 0 < b.block && Peak(l, b, ops) <= b.capacity
    ensures |BufRun(l, b, ops).1.data| <= b.capacity && BufRun(l, b, ops).1.capacity == b.capacity
    decreases ops
  {
    if ops != [] {
      var (l', b') := BufStep(l, b, ops[0]);
      PeakAtLeast(l', b', ops[1..]);
      RunStaysSmall(l', b', ops[1..]);
    }
  }

  // From its first allocation on, a buffer is never more than one unit larger than the most
  // it ever had to hold.
  lemma CapacityBound(l: Ledger, size: nat, ops: seq<BufOp>)
    requires 0 < size
    ensures var (l0, b0) := Assigned(l, NO_BUF, size);
      var b := BufRun(l0, b0, ops).1;
      && |b.data| <= b.capacity && b.capacity % size == 0
      && size <= b.capacity <= Peak(l0, b0, ops) + size
  {
    var (l0, b0) := Assigned(l, NO_BUF, size);
    assert size == 1 * size;
    QuotientUnique(size, size, 1);
    RunBoundsCapacity(l0, b0, ops);
  }

  // --- The class ----------------------------------------------------------------------

  class IoBuffer {
    const heap: Heap
    var rawPointer: Ptr          // the number of raw_buffer, and
    var rawBuffer: array?<byte>  // the block it points to
    var bufferSize: nat
    var blockSize: nat
    var bufferOffset: nat
    ghost var view: Buf

    ghost predicate Valid()
      reads this, rawBuffer
    {
      && bufferOffset <= bufferSize
      && (rawBuffer == null <==> rawPointer == NULL)
      && (rawBuffer == null ==> bufferSize == blockSize == bufferOffset == 0)
      && (rawBuffer != null ==> rawBuffer.Length == bufferSize)
      && view == Buf(rawPointer, bufferSize, blockSize,
                     if rawBuffer == null then [] else rawBuffer[..bufferOffset])
    }

    // The block is the old one or a new one.
    twostate predicate Fresher()
      reads this
    {
      rawBuffer == null || rawBuffer == old(rawBuffer) || fresh(rawBuffer)
    }

    constructor (heap: Heap)
      ensures this.heap == heap && Valid() && view == NO_BUF && rawBuffer == null
    {
      this.heap := heap;
      rawPointer, rawBuffer := NULL, null;
      bufferSize, blockSize, bufferOffset := 0, 0, 0;
      view := NO_BUF;
    }

    // Move assignment: `this` does not free what it had.
    method MoveFrom(other: IoBuffer)
      requires Valid() && other.Valid() && other != this
      modifies this, other
      ensures Valid() && view == old(other.view) && rawBuffer == old(other.rawBuffer)
      ensures other.Valid() && other.view == NO_BUF && other.rawBuffer == null
    {
      rawPointer, rawBuffer, bufferSize := other.rawPointer, other.rawBuffer, other.bufferSize;
      bufferOffset, blockSize := other.bufferOffset, other.blockSize;
      other.rawPointer, other.rawBuffer := NULL, null;
      other.bufferOffset, other.bufferSize, other.blockSize := 0, 0, 0;
      view, other.view := other.view, NO_BUF;
    }

    method Assign(size: nat)
      requires Valid() && Own(view) <= heap.ledger.live && heap.ledger.next != NULL
      modifies this, heap
      ensures Valid() && Fresher()
      ensures (heap.ledger, view) == Assigned(old(heap.ledger), old(view), size)
    {
      if rawBuffer != null {
        heap.Free(rawPointer);
      }
      rawPointer, rawBuffer := heap.Malloc(size);
      bufferSize, blockSize := size, size;
      bufferOffset := 0;
      view := Assigned(old(heap.ledger), view, size).1;
    }

    method Destroy()
      requires Valid() && Own(view) <= heap.ledger.live
      modifies this, heap
      ensures Valid() && rawBuffer == null
      ensures (heap.ledger, view) == Destroyed(old(heap.ledger), old(view))
    {
      if rawBuffer != null {
        heap.Free(rawPointer);
        rawPointer, rawBuffer := NULL, null;
        bufferOffset, bufferSize, blockSize := 0, 0, 0;
        view := NO_BUF;
      }
    }

    // Copies the first `size` bytes to the front of `buf` without removing them.
    method Read(buf: array<byte>, size: nat) returns (ok: bool)
      requires Valid() && buf != rawBuffer
      requires size <= bufferOffset ==> size <= buf.Length
      modifies buf
      ensures ok == (size <= |view.data|)
      ensures buf[..] == if ok then view.data[..size] + old(buf[size..]) else old(buf[..])
    {
      if size > bufferOffset {
        return false;
      }
      if rawBuffer != null {
        Heap.Memcpy(buf, 0, rawBuffer[..size]);
        assert buf[..] == buf[..size] + buf[size..];
      }
      return true;
    }

    method Pop(size: nat)
      requires Valid()
      modifies this, rawBuffer
      ensures Valid() && rawBuffer == old(rawBuffer)
      ensures view == Popped(old(view), size)
    {
      if bufferOffset >= size {
        if rawBuffer != null {
          Heap.Memmove(rawBuffer, size, bufferOffset - size);
        }
        bufferOffset := bufferOffset - size;
        view := Popped(view, size);
      }
    }

    // The inner loop of a push: the next size beyond what is needed.
    method NextSize(need: nat) returns (newSize: nat)
      requires 0 < blockSize && bufferSize < need
      ensures newSize == Grown(bufferSize, blockSize, need)
    {
      newSize := bufferSize + blockSize;
      ghost var k := 1;
      assert Rung(bufferSize, blockSize, 1) == Rung(bufferSize, blockSize, 0) + blockSize;
      while need >= newSize
        invariant 1 <= k && newSize == Rung(bufferSize, blockSize, k)
        invariant Rung(bufferSize, blockSize, k - 1) <= need
        decreases need - newSize
      {
        newSize := newSize + blockSize;
        k := k + 1;
      }
      GrownIsLeast(bufferSize, blockSize, need, k);
    }

    method Push(buf: seq<byte>)
      requires Valid() && Own(view) <= heap.ledger.live && heap.ledger.next != NULL
      requires view.CanPush(|buf|)
      modifies this, rawBuffer, heap
      ensures Valid() && Fresher()
      ensures old(view).Fits(|buf|) ==> rawBuffer == old(rawBuffer)
      ensures (heap.ledger, view) == Pushed(old(heap.ledger), old(view), buf)
    {
      ghost var need, grown := bufferOffset + |buf|, false;
      while bufferOffset + |buf| > bufferSize  // turns at most once
        modifies this, heap
        invariant Valid() && Fresher() && need == bufferOffset + |buf|
        invariant !grown ==> unchanged(this) && unchanged(heap)
        invariant grown ==>
                    && old(bufferSize) < need < bufferSize
                    && heap.ledger == old(heap.ledger).Free(old(rawPointer)).Alloc()
                    && view == old(view).(raw := old(heap.ledger).next,
                                              capacity := Grown(old(bufferSize), old(blockSize), need))
        decreases !grown
      {
        var newSize := NextSize(bufferOffset + |buf|);
        GrownReaches(bufferSize, blockSize, need);
        OnOverflow(newSize);
        grown := true;
      }
      if rawBuffer != null {
        assert rawBuffer[..bufferOffset] == old(view).data;
        Heap.Memcpy(rawBuffer, bufferOffset, buf);
      }
      bufferOffset := bufferOffset + |buf|;
      view := view.(data := view.data + buf);
    }

    method OnOverflow(newSize: nat)
      requires Valid() && rawBuffer != null && rawPointer in heap.ledger.live
      requires bufferSize <= newSize && heap.ledger.next != NULL
      modifies this, heap
      ensures Valid() && fresh(rawBuffer)
      ensures heap.ledger == old(heap.ledger).Free(old(rawPointer)).Alloc()
      ensures view == old(view).(raw := old(heap.ledger).next, capacity := newSize)
    {
      ghost var was := rawBuffer[..];
      rawPointer, rawBuffer := heap.Realloc(rawPointer, rawBuffer, newSize);
      assert rawBuffer[..bufferOffset] == was[..bufferOffset];
      bufferSize := newSize;
      view := view.(raw := rawPointer, capacity := newSize);
    }
  }
}

/** The double buffer.  New bytes go to `main` only while that does not move its block;
    otherwise they wait in `sub`, which `Elevated` turns into the next `main`.  Seen from
    outside the two are one byte queue, `Fifo`. */
module IoDoubleBuffers {
  import opened Memory
  import opened B = IoBuffers

  datatype Dbl = Dbl(main: Buf, sub: Buf) {
    predicate IsEmpty() {
      main.data == [] && sub.data == []
    }

    // Exactly the pushes that return: the buffer chosen for the bytes can take them.
    predicate CanPush(n: nat) {
      if sub.data != [] then sub.CanPush(n)
      else if main.data == [] then main.CanPush(n)
      else main.Fits(n) || sub.capacity == 0 || sub.CanPush(n)
    }
  }

  const NO_DBL := Dbl(NO_BUF, NO_BUF)

  // The bytes still queued, oldest first.
  function Fifo(d: Dbl): seq<byte> {
    d.main.data + d.sub.data
  }

  function Owns(d: Dbl): set<Ptr> {
    Own(d.main) + Own(d.sub)
  }

  function SubSize(d: Dbl, n: nat): nat {
    if n * 2 < d.main.capacity then d.main.capacity else n * 2
  }

  function Queued(l: Ledger, d: Dbl, bytes: seq<byte>): (Ledger, Dbl)
    requires d.CanPush(|bytes|)
  {
    if d.sub.data != [] then
      var (l', s) := Pushed(l, d.sub, bytes); (l', d.(sub := s))
    else if d.main.data == [] || d.main.Fits(|bytes|) then
      var (l', m) := Pushed(l, d.main, bytes); (l', d.(main := m))
    else if d.sub.capacity == 0 then
      var (l0, s0) := Assigned(l, d.sub, SubSize(d, |bytes|));
      var (l', s) := Pushed(l0, s0, bytes); (l', d.(sub := s))
    else
      var (l', s) := Pushed(l, d.sub, bytes); (l', d.(sub := s))
  }

  function Unqueued(d: Dbl, n: nat): Dbl {
    d.(main := Popped(d.main, n))
  }

  function Elevated(l: Ledger, d: Dbl): (Ledger, Dbl) {
    if d.main.data == [] && d.sub.data != [] then
      (Destroyed(l, d.main).0, Dbl(d.sub, NO_BUF))
    else
      (l, d)
  }

  function AssignedMain(l: Ledger, d: Dbl, size: nat): (Ledger, Dbl) {
    var (l', m) := Assigned(l, d.main, size); (l', d.(main := m))
  }

  function DestroyedBoth(l: Ledger, d: Dbl): (Ledger, Dbl) {
    var (l0, m) := Destroyed(l, d.main);
    var (l', s) := Destroyed(l0, d.sub);
    (l', Dbl(m, s))
  }

  // The two buffers own live, distinct blocks.
  ghost predicate Holds(l: Ledger, d: Dbl) {
    && l.Valid() && d.main.Valid() && d.sub.Valid()
    && Owns(d) <= l.live
    && (d.main.raw != NULL ==> d.main.raw != d.sub.raw)
  }

  // The standing invariant between the one `assign` and `destroy`.
  ghost predicate Ready(l: Ledger, d: Dbl) {
    && Holds(l, d)
    && 0 < d.main.block
    && (d.sub == NO_BUF
        || (d.sub.data != [] && 0 < d.sub.block && d.main.capacity <= d.sub.capacity))
  }

  lemma PushStep(l: Ledger, d: Dbl, bytes: seq<byte>)
    requires Ready(l, d)
    ensures d.CanPush(|bytes|)
    ensures var (l', d') := Queued(l, d, bytes);
      && Ready(l', d') && Fifo(d') == Fifo(d) + bytes
      && d.main.capacity <= d'.main.capacity
      && l'.live - Owns(d') == l.live - Owns(d)
  {
    if d.sub.data != [] {
      PushKeeps(l, d.sub, bytes);
    } else if d.main.data == [] || d.main.Fits(|bytes|) {
      PushKeeps(l, d.main, bytes);
    } else {
      var (l0, s0) := Assigned(l, d.sub, SubSize(d, |bytes|));
      PushKeeps(l0, s0, bytes);
    }
  }

  // A push never moves or rewrites bytes that main already holds.
  lemma PushSparesMain(l: Ledger, d: Dbl, bytes: seq<byte>)
    requires Ready(l, d) && d.main.data != []
    ensures d.CanPush(|bytes|)
    ensures var d' := Queued(l, d, bytes).1;
      && d'.main.raw == d.main.raw && d'.main.capacity == d.main.capacity
      && d.main.data <= d'.main.data
  {
    PushStep(l, d, bytes);
  }

  // A push that fits stays in main and allocates nothing.
  lemma FitStays(l: Ledger, d: Dbl, bytes: seq<byte>)
    requires d.sub.data == [] && d.main.Fits(|bytes|)
    ensures Queued(l, d, bytes) == (l, d.(main := d.main.(data := d.main.data + bytes)))
  {
  }

  // A push that spills into sub allocates exactly one block: the smallest that is no smaller
  // than main's and has room for as many bytes again.
  lemma SpillHasRoom(l: Ledger, d: Dbl, bytes: seq<byte>)
    requires Ready(l, d) && d.sub == NO_BUF && d.main.data != [] && !d.main.Fits(|bytes|)
    ensures d.CanPush(|bytes|)
    ensures var (l', d') := Queued(l, d, bytes);
      && l' == l.Alloc() && d'.main == d.main && d'.sub.raw == l.next && d'.sub.data == bytes
      && d'.main.capacity <= d'.sub.capacity && d'.sub.Fits(|bytes|) && d'.sub.block == d'.sub.capacity
      && (d'.sub.capacity == d.main.capacity || d'.sub.capacity == 2 * |bytes|)
  {
    var (l0, s0) := Assigned(l, d.sub, SubSize(d, |bytes|));
    assert [] + bytes == bytes;
  }

  lemma PopStep(l: Ledger, d: Dbl, n: nat)
    requires Ready(l, d)
    ensures var d' := Unqueued(d, n);
      && Ready(l, d') && d'.main.capacity == d.main.capacity
      && Fifo(d) == (if n <= |d.main.data| then d.main.data[..n] else []) + Fifo(d')
  {
  }

  lemma ElevateStep(l: Ledger, d: Dbl)
    requires Ready(l, d)
    ensures var (l', d') := Elevated(l, d);
      && Ready(l', d') && Fifo(d') == Fifo(d)
      && d.main.capacity <= d'.main.capacity
      && l'.live - Owns(d') == l.live - Owns(d)
      && (d'.main.data == [] ==> d'.sub.data == [])
  {
  }

  // --- Runs -------------------------------------------------------------------------

  datatype Op =
    | DoPush(bytes: seq<byte>)
    | DoPop(n: nat)
    | DoElevate
    | DoAssign(size: nat)
    | DoDestroy

  predicate Returns(d: Dbl, op: Op) {
    op.DoPush? ==> d.CanPush(|op.bytes|)
  }

  function Apply(l: Ledger, d: Dbl, op: Op): (Ledger, Dbl)
    requires Returns(d, op)
  {
    match op
    case DoPush(bytes) => Queued(l, d, bytes)
    case DoPop(n) => (l, Unqueued(d, n))
    case DoElevate => Elevated(l, d)
    case DoAssign(size) => AssignedMain(l, d, size)
    case DoDestroy => DestroyedBoth(l, d)
  }

  predicate AllReturn(l: Ledger, d: Dbl, ops: seq<Op>)
    decreases ops
  {
    ops == [] ||
    (Returns(d, ops[0]) && var (l', d') := Apply(l, d, ops[0]); AllReturn(l', d', ops[1..]))
  }

  function Run(l: Ledger, d: Dbl, ops: seq<Op>): (Ledger, Dbl)
    requires AllReturn(l, d, ops)
    decreases ops
  {
    if ops == [] then (l, d) else
    var (l', d') := Apply(l, d, ops[0]); Run(l', d', ops[1..])
  }

  predicate QueueOp(op: Op) {
    op.DoPush? || op.DoPop? || op.DoElevate?
  }

  // What a run of queue operations put in, and what it took out.
  function PutIn(ops: seq<Op>): seq<byte> {
    if ops == [] then [] else
    (if ops[0].DoPush? then ops[0].bytes else []) + PutIn(ops[1..])
  }

  function TakenOut(l: Ledger, d: Dbl, ops: seq<Op>): seq<byte>
    requires AllReturn(l, d, ops)
    decreases ops
  {
    if ops == [] then [] else
    var (l', d') := Apply(l, d, ops[0]);
    (if ops[0].DoPop? && ops[0].n <= |d.main.data| then d.main.data[..ops[0].n] else [])
    + TakenOut(l', d', ops[1..])
  }

  // Once assigned, any run of pushes, pops and elevations returns and behaves as one byte
  // queue; the capacity of main never shrinks.
  lemma {:induction false} RunIsQueue(l: Ledger, d: Dbl, ops: seq<Op>)
    requires Ready(l, d) && forall op | op in ops :: QueueOp(op)
    ensures AllReturn(l, d, ops)
    ensures var (l', d') := Run(l, d, ops);
      && Ready(l', d')
      && d.main.capacity <= d'.main.capacity
      && TakenOut(l, d, ops) + Fifo(d') == Fifo(d) + PutIn(ops)
    decreases ops
  {
    if ops != [] {
      var op := ops[0];
      assert QueueOp(op);
      match op {
        case DoPush(bytes) => PushStep(l, d, bytes);
        case DoPop(n) => PopStep(l, d, n);
        case _ => ElevateStep(l, d);
      }
      var (l', d') := Apply(l, d, op);
      RunIsQueue(l', d', ops[1..]);
      var (l'', d'') := Run(l', d', ops[1..]);
      Rejoin(if op.DoPop? && op.n <= |d.main.data| then d.main.data[..op.n] else [],
             TakenOut(l', d', ops[1..]), Fifo(d''), Fifo(d'), PutIn(ops[1..]), Fifo(d),
             if op.DoPush? then op.bytes else []);
    }
  }

  // The most bytes queued at any moment of the run.
  function Peak(l: Ledger, d: Dbl, ops: seq<Op>): (m: nat)
    requires AllReturn(l, d, ops)
    ensures |Fifo(d)| <= m
    decreases ops
  {
    if ops == [] then |Fifo(d)| else
    var (l', d') := Apply(l, d, ops[0]);
    var rest := Peak(l', d', ops[1..]);
    if |Fifo(d)| <= rest then rest else |Fifo(d)|
  }

  // Both buffers are within the limit, and no growth unit is larger than its buffer.
  predicate Within(d: Dbl, limit: nat) {
    && d.main.block <= d.main.capacity <= limit
    && d.sub.block <= d.sub.capacity <= limit
  }

  // Growth overshoots by at most a unit.
  lemma GrowthWithin(capacity: nat, block: nat, need: nat)
    requires 0 < block <= capacity < need
    ensures Grown(capacity, block, need) <= 2 * need
  {
    var q := (need - capacity) / block;
    assert q * block <= need - capacity;
    assert (q + 1) * block == q * block + block;
  }

  lemma PushWithin(l: Ledger, d: Dbl, bytes: seq<byte>, limit: nat)
    requires Ready(l, d) && d.CanPush(|bytes|) && Within(d, limit)
    requires 2 * |Fifo(Queued(l, d, bytes).1)| <= limit
    ensures Within(Queued(l, d, bytes).1, limit)
  {
    PushStep(l, d, bytes);
    var n := |bytes|;
    if d.sub.data != [] {
      if !d.sub.Fits(n) { GrowthWithin(d.sub.capacity, d.sub.block, |d.sub.data| + n); }
    } else if d.main.data == [] && !d.main.Fits(n) {
      GrowthWithin(d.main.capacity, d.main.block, |d.main.data| + n);
    }
  }

  // Over every run of queue operations neither block is ever larger than the larger of the first
  // one and twice the most that was ever queued.
  lemma {:induction false} RunBoundsBlocks(l: Ledger, d: Dbl, ops: seq<Op>, limit: nat)
    requires Ready(l, d) && Within(d, limit)
    requires AllReturn(l, d, ops) && forall op | op in ops :: QueueOp(op)
    requires 2 * Peak(l, d, ops) <= limit
    ensures Within(Run(l, d, ops).1, limit)
    decreases ops
  {
    if ops != [] {
      var op := ops[0];
      assert QueueOp(op);
      var (l', d') := Apply(l, d, op);
      match op {
        case DoPush(bytes) => PushStep(l, d, bytes); PushWithin(l, d, bytes, limit);
        case DoPop(n) => PopStep(l, d, n);
        case _ => ElevateStep(l, d);
      }
      RunBoundsBlocks(l', d', ops[1..], limit);
    }
  }

  // From the assignment on, a queue keeps no block of more than its first size or twice its peak.
  lemma QueueBound(l: Ledger, size: nat, ops: seq<Op>)
    requires l.Valid() && 0 < size && forall op | op in ops :: QueueOp(op)
    ensures var (l0, d0) := AssignedMain(l, NO_DBL, size);
      && AllReturn(l0, d0, ops)
      && var d, peak := Run(l0, d0, ops).1, Peak(l0, d0, ops);
         var limit := if size <= 2 * peak then 2 * peak else size;
         d.main.capacity <= limit && d.sub.capacity <= limit
  {
    var (l0, d0) := AssignedMain(l, NO_DBL, size);
    RunIsQueue(l0, d0, ops);
    var peak := Peak(l0, d0, ops);
    RunBoundsBlocks(l0, d0, ops, if size <= 2 * peak then 2 * peak else size);
  }

  // One step in front of a run that is already accounted for.
  lemma Rejoin(gone: seq<byte>, later: seq<byte>, left: seq<byte>, mid: seq<byte>,
               put: seq<byte>, fifo: seq<byte>, added: seq<byte>)
    requires later + left == mid + put && gone + mid == fifo + added
    ensures (gone + later) + left == fifo + (added + put)
  {
    assert (gone + later) + left == gone + (later + left);
    assert gone + (mid + put) == (gone + mid) + put;
    assert (fifo + added) + put == fifo + (added + put);
  }

  lemma HoldsStep(l: Ledger, d: Dbl, op: Op)
    requires Holds(l, d) && Returns(d, op)
    ensures var (l', d') := Apply(l, d, op);
      Holds(l', d') && l'.live - Owns(d') == l.live - Owns(d)
  {
    if op.DoPush? {
      if d.sub.data != [] {
        PushKeeps(l, d.sub, op.bytes);
      } else if d.main.data == [] || d.main.Fits(|op.bytes|) {
        PushKeeps(l, d.main, op.bytes);
      } else if d.sub.capacity == 0 {
        var (l0, s0) := Assigned(l, d.sub, SubSize(d, |op.bytes|));
        PushKeeps(l0, s0, op.bytes);
      } else {
        PushKeeps(l, d.sub, op.bytes);
      }
    }
  }

  // Over any run whatever, starting from a default-constructed double buffer, the blocks
  // allocated and not freed are exactly the ones main and sub still own.
  lemma {:induction false} RunConservesBlocks(l: Ledger, d: Dbl, ops: seq<Op>)
    requires Holds(l, d) && AllReturn(l, d, ops)
    ensures var (l', d') := Run(l, d, ops);
      && Holds(l', d')
      && l'.live - Owns(d') == l.live - Owns(d)
    ensures d == NO_DBL ==> Run(l, d, ops).0.live == l.live + Owns(Run(l, d, ops).1)
    decreases ops
  {
    if ops != [] {
      HoldsStep(l, d, ops[0]);
      var (l', d') := Apply(l, d, ops[0]);
      RunConservesBlocks(l', d', ops[1..]);
    }
    var (l'', d'') := Run(l, d, ops);
    assert l''.live == (l''.live - Owns(d'')) + Owns(d'');
  }

  // --- The class ----------------------------------------------------------------------

  class IoDoubleBuffer {
    const heap: Heap
    const mainBuffer: IoBuffer
    const subBuffer: IoBuffer

    ghost predicate Valid()
      reads mainBuffer, subBuffer, mainBuffer.rawBuffer, subBuffer.rawBuffer
    {
      && mainBuffer != subBuffer
      && mainBuffer.heap == heap && subBuffer.heap == heap
      && mainBuffer.Valid() && subBuffer.Valid()
      && (mainBuffer.rawBuffer != null ==> mainBuffer.rawBuffer != subBuffer.rawBuffer)
    }

    ghost function View(): Dbl
      reads mainBuffer, subBuffer
    {
      Dbl(mainBuffer.view, subBuffer.view)
    }

    // Every block now in use was in use before, or is new.
    twostate predicate Fresher()
      reads mainBuffer, subBuffer
    {
      && (mainBuffer.Fresher() || mainBuffer.rawBuffer == old(subBuffer.rawBuffer))
      && subBuffer.Fresher()
    }

    constructor (heap: Heap)
      ensures this.heap == heap && Valid() && View() == NO_DBL
      ensures mainBuffer.rawBuffer == null && subBuffer.rawBuffer == null
      ensures fresh(mainBuffer) && fresh(subBuffer)
    {
      this.heap := heap;
      mainBuffer := new IoBuffer(heap);
      subBuffer := new IoBuffer(heap);
    }

    method Assign(size: nat)
      requires Valid() && Holds(heap.ledger, View())
      modifies mainBuffer, heap
      ensures Valid() && Fresher()
      ensures (heap.ledger, View()) == AssignedMain(old(heap.ledger), old(View()), size)
    {
      mainBuffer.Assign(size);
    }

    method Destroy()
      requires Valid() && Holds(heap.ledger, View())
      modifies mainBuffer, subBuffer, heap
      ensures Valid() && Fresher()
      ensures (heap.ledger, View()) == DestroyedBoth(old(heap.ledger), old(View()))
    {
      mainBuffer.Destroy();
      subBuffer.Destroy();
    }

    method Pop(size: nat)
      requires Valid()
      modifies mainBuffer, mainBuffer.rawBuffer
      ensures Valid() && mainBuffer.rawBuffer == old(mainBuffer.rawBuffer)
      ensures View() == Unqueued(old(View()), size)
    {
      mainBuffer.Pop(size);
    }

    // While main holds bytes, its block stays where it is.
    method Push(buf: seq<byte>)
      requires Valid() && Holds(heap.ledger, View()) && View().CanPush(|buf|)
      modifies mainBuffer, subBuffer, heap, mainBuffer.rawBuffer, subBuffer.rawBuffer
      ensures Valid() && Fresher()
      ensures old(View()).main.data != [] ==> mainBuffer.rawBuffer == old(mainBuffer.rawBuffer)
      ensures (heap.ledger, View()) == Queued(old(heap.ledger), old(View()), buf)
    {
      if subBuffer.bufferOffset != 0 {
        subBuffer.Push(buf);
      } else if mainBuffer.bufferOffset == 0 {
        mainBuffer.Push(buf);
      } else if mainBuffer.bufferOffset + |buf| > mainBuffer.bufferSize {
        if subBuffer.bufferSize == 0 {
          subBuffer.Assign(if |buf| * 2 < mainBuffer.bufferSize then mainBuffer.bufferSize else |buf| * 2);
        }
        subBuffer.Push(buf);
      } else {
        mainBuffer.Push(buf);
      }
    }

    method Elevate()
      requires Valid() && Holds(heap.ledger, View())
      modifies mainBuffer, subBuffer, heap
      ensures Valid() && Fresher()
      ensures (heap.ledger, View()) == Elevated(old(heap.ledger), old(View()))
    {
      if mainBuffer.bufferOffset == 0 && subBuffer.bufferOffset != 0 {
        mainBuffer.Destroy();
        mainBuffer.MoveFrom(subBuffer);
      }
    }
  }
}

/** The receive chain of one Linux socket.  A read completion is handled in three stages, so
    that the kernel can act between them: copy out of the bind buffer, submit the next read,
    run the receive callback. */
module Receiver {
  import opened Memory
  import opened IoBuffers
  import opened IoServices
  import opened TcpSockets
  import opened Lists
  import IoDoubleBuffers

  // `open`: the descriptor was there when the read was submitted.  Otherwise it reads from
  // descriptor 0.  `len`: how much of the bind buffer it may fill.
  datatype ReadCtx = ReadCtx(ring: nat, open: bool, len: nat, res: Option<int>)

  // Where the thread of a ring stands in `io_received`, and what it has yet to submit.
  datatype Stage = Copy(n: nat) | Resubmit(requests: seq<Request>) | Callback

  // The reads into the bind buffer among some requests.
  function Reads(rs: seq<Request>, ring: nat, open: bool): seq<ReadCtx> {
    if rs == [] then []
    else
      (if rs[0].kind == Read && rs[0].base == Bind then [ReadCtx(ring, open, rs[0].len, None)] else [])
      + Reads(rs[1..], ring, open)
  }

  // `home`: the ring the first read was submitted to.  `touched`: the rings whose threads
  // have changed recv_buffer.  `got`: bytes received from the peer; `alien`: bytes that came
  // from descriptor 0; `popped`: bytes consumed;
  // `pieces`: what each copy brought into recv_buffer.
  datatype Recv = Recv(
    sock: Sock, bind: seq<byte>, chain: seq<ReadCtx>, busy: map<nat, Stage>,
    rings: seq<nat>, home: nat, touched: set<nat>,
    got: seq<byte>, alien: seq<byte>, popped: seq<byte>, pieces: seq<seq<byte>>)

  datatype Step =
    | Fill(i: nat, bytes: seq<byte>)   // the kernel completes read i with bytes
    | EndRead(i: nat, res: int)        // ... or with end of stream or an error
    | Dispatch(i: nat)                 // the read's ring thread picks the completion up
    | DoCopy(ring: nat)
    | DoSubmit(ring: nat)
    | AppPop(ring: nat, n: nat)        // the callback consumes from recv_buffer
    | Return(ring: nat)
    | ZeroFd                           // a shutdown handler zeroes the descriptor
    | Elsewhere(l: Ledger)             // other buffers allocate and free

  lemma OneRead(len: nat, ring: nat, open: bool)
    ensures Reads([Request(Read, Bind, len)], ring, open) == [ReadCtx(ring, open, len, None)]
  {
    assert Reads([], ring, open) == [];
  }

  predicate At(s: Recv, ring: nat, stage: Stage) {
    ring in s.busy && s.busy[ring] == stage
  }

  ghost predicate Enabled(s: Recv, step: Step) {
    match step
    case Fill(i, bytes) =>
      i < |s.chain| && s.chain[i].res == None && 1 <= |bytes| <= s.chain[i].len && |bytes| <= |s.bind|
    case EndRead(i, res) => i < |s.chain| && s.chain[i].res == None && res <= 0
    case Dispatch(i) => i < |s.chain| && s.chain[i].res.Some? && s.chain[i].ring !in s.busy
    case DoCopy(ring) =>
      ring in s.busy && s.busy[ring].Copy? && s.busy[ring].n <= |s.bind| && s.sock.recv.CanPush(s.busy[ring].n)
    case DoSubmit(ring) => ring in s.busy && s.busy[ring].Resubmit?
    case AppPop(ring, _) => At(s, ring, Callback)
    case Return(ring) => At(s, ring, Callback)
    case ZeroFd => true
    case Elsewhere(l) => l.Valid() && Own(s.sock.recv) <= l.live && s.sock.l.next <= l.next
  }

  ghost function Apply(s: Recv, step: Step): Recv
    requires Enabled(s, step)
  {
    match step
    case Fill(i, bytes) =>
      var t := s.(bind := bytes + s.bind[|bytes|..], chain := s.chain[i := s.chain[i].(res := Some(|bytes|))]);
      if s.chain[i].open then t.(got := s.got + bytes) else t.(alien := s.alien + bytes)
    case EndRead(i, res) => s.(chain := s.chain[i := s.chain[i].(res := Some(res))])
    case Dispatch(i) =>
      var c := s.chain[i];
      var t := s.(chain := s.chain[..i] + s.chain[i + 1..]);
      if 0 < c.res.value then t.(busy := t.busy[c.ring := Copy(c.res.value)])
      else
        var (sock, rs) := Dispatched(t.sock, Read, c.res.value, []);
        t.(sock := sock, touched := t.touched + {c.ring}, chain := t.chain + Reads(rs, c.ring, t.sock.open))
    case DoCopy(ring) =>
      var (sock, rs) := Received(s.sock, s.bind[..s.busy[ring].n]);
      s.(sock := sock, touched := s.touched + {ring},
         busy := s.busy[ring := Resubmit(rs)], pieces := s.pieces + [s.bind[..s.busy[ring].n]])
    case DoSubmit(ring) =>
      s.(chain := s.chain + Reads(s.busy[ring].requests, Route(s.rings, RingThread(ring)), s.sock.open),
         busy := s.busy[ring := Callback])
    case AppPop(ring, n) =>
      var recv := s.sock.recv;
      s.(sock := s.sock.(recv := Popped(recv, n)), touched := s.touched + {ring},
         popped := s.popped + if n <= |recv.data| then recv.data[..n] else [])
    case Return(ring) => s.(busy := s.busy - {ring})
    case ZeroFd => s.(sock := Dispatched(s.sock, Shutdown, 0, []).0)
    case Elsewhere(l) => s.(sock := s.sock.(l := l))
  }

  ghost predicate Legal(s: Recv, steps: seq<Step>)
    decreases steps
  {
    steps == [] || (Enabled(s, steps[0]) && Legal(Apply(s, steps[0]), steps[1..]))
  }

  ghost function Exec(s: Recv, steps: seq<Step>): Recv
    requires Legal(s, steps)
    decreases steps
  {
    if steps == [] then s else Exec(Apply(s, steps[0]), steps[1..])
  }

  // A socket activated by `caller`: an accept handler on a ring, or a thread that connects.
  function Started(l: Ledger, bind: seq<byte>, rings: seq<nat>, caller: Caller): Recv
    requires Routable(rings, caller)
  {
    var ring := Route(rings, caller);
    var (sock, rs) := Activated(Sock(l, IoDoubleBuffers.NO_DBL, NO_BUF, false, false, true, 0, 0));
    Recv(sock, bind, Reads(rs, ring, true), map[], rings, ring, {}, [], [], [], [])
  }

  // Bytes the kernel left in the bind buffer that are not in recv_buffer yet.
  function Unhandled(s: Recv): nat {
    if |s.chain| == 1 then
      if s.chain[0].res.Some? && 0 < s.chain[0].res.value then s.chain[0].res.value else 0
    else if s.home in s.busy && s.busy[s.home].Copy? then s.busy[s.home].n
    else 0
  }

  // The chain has one link: a read in flight on the home ring, or a handler there that has
  // yet to submit it.  Only the home thread is ever inside `io_received`.
  predicate Chain(s: Recv) {
    || (|s.chain| == 1 && s.chain[0].ring == s.home && (s.busy == map[] || s.busy == map[s.home := Callback]))
    || (s.chain == [] && s.home in s.busy && !s.busy[s.home].Callback? && s.busy == map[s.home := s.busy[s.home]])
  }

  // Every read, submitted or yet to be, is one for the whole bind buffer.
  predicate Whole(s: Recv) {
    && (forall c | c in s.chain :: c.len == DATA_BUFFER_SIZE)
    && (forall ring | ring in s.busy && s.busy[ring].Resubmit? ::
          s.busy[ring].requests == [Request(Read, Bind, DATA_BUFFER_SIZE)])
  }

  // Reads in flight, and reads that a handler has yet to submit.
  function Outstanding(s: Recv): nat {
    |s.chain| + (if s.home in s.busy && !s.busy[s.home].Callback? then 1 else 0)
  }

  ghost predicate Inv(s: Recv) {
    && s.touched <= {s.home}
    && if s.sock.connected then
         && |s.bind| == DATA_BUFFER_SIZE && Unhandled(s) <= |s.bind|
         && s.sock.l.Valid() && s.sock.recv.Valid() && Own(s.sock.recv) <= s.sock.l.live
         && 0 < s.sock.recv.block
         && Chain(s) && Whole(s)
         && Flat(s.pieces) == s.popped + s.sock.recv.data
         && s.got + s.alien == Flat(s.pieces) + s.bind[..Unhandled(s)]
         && (s.sock.open ==> s.alien == [] && forall c | c in s.chain :: c.open)
         && (forall c | c in s.chain :: c.open ==> s.alien == [])
       else
         && s.chain == [] && s.busy == map[] && s.sock.recv == NO_BUF
         && s.popped <= Flat(s.pieces) && s.got + s.alien == Flat(s.pieces)
  }

  lemma StartedInv(l: Ledger, bind: seq<byte>, rings: seq<nat>, caller: Caller)
    requires l.Valid() && |bind| == DATA_BUFFER_SIZE && Routable(rings, caller)
    ensures var s := Started(l, bind, rings, caller);
      Inv(s) && s.home == Route(rings, caller) && s.sock.connected && s.busy == map[]
  {
    OneRead(DATA_BUFFER_SIZE, Route(rings, caller), true);
    assert bind[..0] == [];
  }

  lemma FillKeeps(s: Recv, i: nat, bytes: seq<byte>)
    requires Inv(s) && Enabled(s, Fill(i, bytes))
    ensures Unhandled(s) == 0 && Inv(Apply(s, Fill(i, bytes)))
  {
    var t := Apply(s, Fill(i, bytes));
    assert t.bind[..|bytes|] == bytes && s.bind[..0] == [];
    assert s.chain[i] in s.chain;
    if s.chain[i].open {
      assert s.got + s.alien == s.got && t.got + t.alien == s.got + bytes;
    } else {
      Assoc(s.got, s.alien, bytes);
    }
    assert t.got + t.alien == Flat(t.pieces) + t.bind[..|bytes|] by {
      assert Flat(s.pieces) + [] == Flat(s.pieces);
    }
  }

  lemma DispatchKeeps(s: Recv, i: nat)
    requires Inv(s) && Enabled(s, Dispatch(i))
    ensures Inv(Apply(s, Dispatch(i)))
  {
    assert s.chain[..0] + s.chain[1..] == [];
    assert s.bind[..0] == [] && Flat(s.pieces) + [] == Flat(s.pieces);
  }

  lemma CopyKeeps(s: Recv, ring: nat)
    requires Inv(s) && ring in s.busy && s.busy[ring].Copy?
    ensures Enabled(s, DoCopy(ring)) && ring == s.home && Inv(Apply(s, DoCopy(ring)))
  {
    var bytes := s.bind[..s.busy[ring].n];
    PushKeeps(s.sock.l, s.sock.recv, bytes);
    var t := Apply(s, DoCopy(ring));
    assert t.bind[..0] == [];
    FlatSnoc(s.pieces, bytes);
    Assoc(s.popped, s.sock.recv.data, bytes);
  }

  lemma PopKeeps(s: Recv, ring: nat, n: nat)
    requires Inv(s) && Enabled(s, AppPop(ring, n))
    ensures Inv(Apply(s, AppPop(ring, n)))
  {
    var recv := s.sock.recv;
    if n <= |recv.data| {
      assert recv.data == recv.data[..n] + recv.data[n..];
      assert s.popped + recv.data == (s.popped + recv.data[..n]) + recv.data[n..];
    }
  }

  lemma StepKeeps(s: Recv, step: Step)
    requires Inv(s) && Enabled(s, step)
    ensures Inv(Apply(s, step)) && Apply(s, step).home == s.home
  {
    match step {
      case Fill(i, bytes) => FillKeeps(s, i, bytes);
      case Dispatch(i) => DispatchKeeps(s, i);
      case DoCopy(ring) => CopyKeeps(s, ring);
      case AppPop(ring, n) => PopKeeps(s, ring, n);
      case DoSubmit(ring) => OneRead(DATA_BUFFER_SIZE, s.home, s.sock.open);
      case _ =>
    }
  }

  lemma {:induction false} RunKeeps(s: Recv, steps: seq<Step>)
    requires Inv(s) && Legal(s, steps)
    ensures Inv(Exec(s, steps)) && Exec(s, steps).home == s.home
    decreases steps
  {
    if steps != [] {
      StepKeeps(s, steps[0]);
      RunKeeps(Apply(s, steps[0]), steps[1..]);
    }
  }

  // The kernel fills a read that was submitted without the descriptor.
  predicate Foreign(s: Recv, step: Step) {
    step.Fill? && step.i < |s.chain| && !s.chain[step.i].open
  }

  ghost predicate AnyForeign(s: Recv, steps: seq<Step>)
    requires Legal(s, steps)
    decreases steps
  {
    steps != [] && (Foreign(s, steps[0]) || AnyForeign(Apply(s, steps[0]), steps[1..]))
  }

  lemma {:induction false} AlienIff(s: Recv, steps: seq<Step>)
    requires Legal(s, steps)
    ensures Exec(s, steps).alien == [] <==> s.alien == [] && !AnyForeign(s, steps)
    decreases steps
  {
    if steps != [] {
      AlienIff(Apply(s, steps[0]), steps[1..]);
    }
  }

  // Receive integrity and ring affinity.  Until the chain ends, every byte received is
  // consumed, in recv_buffer, or still in the bind buffer, in that order; from then on what was
  // consumed is a prefix of what was received.  Until then exactly one read, for the whole bind
  // buffer, is in flight or about to be submitted, and afterwards none;
  // all reads and all changes to recv_buffer belong to the ring of the first read; no copy ever
  // hangs.  All bytes are the peer's exactly if no read submitted without the descriptor was
  // filled, and while the descriptor is there none was.
  lemma ReceiveIntegrity(l: Ledger, bind: seq<byte>, rings: seq<nat>, caller: Caller, steps: seq<Step>)
    requires l.Valid() && |bind| == DATA_BUFFER_SIZE && Routable(rings, caller)
    requires Legal(Started(l, bind, rings, caller), steps)
    ensures var s := Exec(Started(l, bind, rings, caller), steps);
      && Unhandled(s) <= |s.bind|
      && (s.sock.connected ==>
            && Flat(s.pieces) == s.popped + s.sock.recv.data
            && s.got + s.alien == Flat(s.pieces) + s.bind[..Unhandled(s)])
      && (!s.sock.connected ==> s.popped <= Flat(s.pieces) && s.got + s.alien == Flat(s.pieces))
      && (s.alien == [] <==> !AnyForeign(Started(l, bind, rings, caller), steps))
      && (s.sock.connected && s.sock.open ==> s.alien == [])
      && Outstanding(s) == (if s.sock.connected then 1 else 0)
      && (forall c | c in s.chain :: c.ring == Route(rings, caller) && c.len == DATA_BUFFER_SIZE)
      && s.touched <= {Route(rings, caller)} && s.busy.Keys <= {Route(rings, caller)}
      && (forall ring | ring in s.busy && s.busy[ring].Copy? :: s.sock.recv.CanPush(s.busy[ring].n))
  {
    var s0 := Started(l, bind, rings, caller);
    StartedInv(l, bind, rings, caller);
    RunKeeps(s0, steps);
    AlienIff(s0, steps);
    var s := Exec(s0, steps);
    forall ring | ring in s.busy && s.busy[ring].Copy? ensures s.sock.recv.CanPush(s.busy[ring].n) {
      CopyKeeps(s, ring);
    }
  }

  // The kernel writes into the bind buffer only when nothing in it is waiting.
  lemma BindIsCopiedFirst(s: Recv, i: nat, bytes: seq<byte>)
    requires Inv(s) && Enabled(s, Fill(i, bytes))
    ensures Unhandled(s) == 0 && (s.sock.connected ==> s.got + s.alien == s.popped + s.sock.recv.data)
  {
    FillKeeps(s, i, bytes);
    assert s.bind[..0] == [];
  }

  // A socket that is down stays down.
  lemma StaysDown(s: Recv, step: Step)
    requires Enabled(s, step) && !s.sock.connected
    ensures !Apply(s, step).sock.connected
  {
  }

  // A callback under way ends with its own return alone, and pops are its own.
  lemma CallbackStays(s: Recv, step: Step, ring: nat)
    requires Inv(s) && At(s, ring, Callback) && Enabled(s, step) && step != Return(ring)
    ensures At(Apply(s, step), ring, Callback)
  {
  }

  // Only the handling of a completion ends the chain, on the home ring.
  lemma EndsByDispatch(s: Recv, step: Step)
    requires Inv(s) && Enabled(s, step) && s.sock.connected && !Apply(s, step).sock.connected
    ensures step.Dispatch? && s.chain[step.i].ring == s.home
  {
  }

  // After io_shutdown the receive side is at rest: no push can reach the freed buffer.
  lemma EndedIsQuiet(s: Recv, step: Step)
    requires Inv(s) && !s.sock.connected && Enabled(s, step)
    ensures step.Elsewhere? || step.ZeroFd?
  {
  }
}

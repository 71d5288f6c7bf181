/** The send pipeline of one Linux socket as a step system.  User threads check and then
    append, the kernel transfers from memory and completes, a ring thread handles the
    completion, anybody closes, and the read chain may hang up at any moment.  A run is any
    sequence of enabled steps. */
module Sender {
  import opened Memory
  import opened IoBuffers
  import opened IoDoubleBuffers
  import opened IoServices
  import opened TcpSockets
  import opened Lists

  // A write context from submission until it is handled; `res` is set by the kernel.  `open`:
  // the descriptor was there when the write was submitted.  Otherwise it went to descriptor 0.
  datatype Flight = Flight(base: Place, len: nat, open: bool, res: Option<int>)

  // Where the handler of a shutdown completion stands: it has found the field set; it has
  // copied it, which may be too late (`found` false: the copy is 0); it has zeroed it and will
  // close its copy.
  datatype Closer = Tested | Copied(found: bool) | Zeroed(found: bool)

  // `ready`: sends that passed the unlocked checks and wait for the lock.
  // `shutdowns`: the rings of the shutdown contexts in flight; `asked`: all ever submitted.
  // `closers`: the rings whose threads are inside a shutdown handler; `closes` and
  // `strayCloses`: calls of close on the socket's descriptor and on descriptor 0.
  // `delivered`: bytes taken for the peer; `strayed`: bytes that went to descriptor 0.
  // `starts`: sends that found the queue empty and filled it.
  datatype Sys = Sys(
    sock: Sock, ready: seq<seq<byte>>, writes: seq<Flight>,
    shutdowns: seq<nat>, closers: map<nat, Closer>, asked: nat, closes: nat, strayCloses: nat,
    accepted: seq<byte>, delivered: seq<byte>, strayed: seq<byte>,
    starts: nat, failures: nat)

  datatype Step =
    | Check(bytes: seq<byte>)                       // a send tests the flags
    | Append(i: nat)                                // ... and later enters its locked part
    | Transfer(i: nat, n: nat, junk: seq<byte>)     // the kernel moves n bytes of write i
    | Fail(i: nat, res: int)                        // the kernel fails write i
    | Handle(i: nat, ring: nat)                     // a ring thread handles write i
    | CloseBy(how: CloseType, ring: nat)            // its shutdown, if any, goes to that ring
    | TestFd(k: nat)                                // shutdown k is handled: the field is tested
    | CopyFd(ring: nat)                             // ... copied
    | ZeroFd(ring: nat)                             // ... zeroed
    | CloseFd(ring: nat)                            // ... and the copy closed
    | Hangup                                        // the read chain ends: io_shutdown
    | Elsewhere(l: Ledger, recv: Buf)               // other buffers allocate and free

  // What the kernel finds behind a view: bytes only if the block is live and holds as many.
  function Peek(s: Sock, base: Place, n: nat): Option<seq<byte>> {
    if !base.Block? || base.at !in s.l.live then None
    else if base.at == s.send.main.raw && n <= |s.send.main.data| then Some(s.send.main.data[..n])
    else if base.at == s.send.sub.raw && n <= |s.send.sub.data| then Some(s.send.sub.data[..n])
    else None
  }

  // A call submits at most one request.  A write takes the descriptor as it is now, a shutdown
  // goes to the given ring.
  function Submit(s: Sys, rs: seq<Request>, ring: nat): Sys
    requires |rs| <= 1
  {
    if rs == [] then s
    else if rs[0].kind == Write then
      s.(writes := s.writes + [Flight(rs[0].base, rs[0].len, s.sock.open, None)])
    else if rs[0].kind == Shutdown then
      s.(shutdowns := s.shutdowns + [ring], asked := s.asked + 1)
    else s
  }

  function Without<T>(xs: seq<T>, i: nat): seq<T>
    requires i < |xs|
  {
    xs[..i] + xs[i + 1..]
  }

  ghost predicate Enabled(s: Sys, step: Step) {
    match step
    case Check(_) => true
    case Append(i) => i < |s.ready| && s.sock.send.CanPush(|s.ready[i]|)
    case Transfer(i, n, junk) =>
      i < |s.writes| && s.writes[i].res == None && 1 <= n <= s.writes[i].len && |junk| == n
    case Fail(i, res) => i < |s.writes| && s.writes[i].res == None && res <= 0
    case Handle(i, ring) => i < |s.writes| && s.writes[i].res.Some? && ring !in s.closers
    case CloseBy(_, _) => true
    case TestFd(k) => k < |s.shutdowns| && s.shutdowns[k] !in s.closers
    case CopyFd(ring) => ring in s.closers && s.closers[ring] == Tested
    case ZeroFd(ring) => ring in s.closers && s.closers[ring].Copied?
    case CloseFd(ring) => ring in s.closers && s.closers[ring].Zeroed?
    case Hangup => s.sock.connected
    case Elsewhere(l, _) => l.Valid() && Owns(s.sock.send) <= l.live && s.sock.l.next <= l.next
  }

  ghost function Apply(s: Sys, step: Step): Sys
    requires Enabled(s, step)
  {
    match step
    case Check(bytes) => if Admits(s.sock) then s.(ready := s.ready + [bytes]) else s
    case Append(i) => Appended(s, i)
    case Transfer(i, n, junk) =>
      var seen := Peek(s.sock, s.writes[i].base, n);
      var bytes := if seen.Some? then seen.value else junk;
      var t := s.(writes := s.writes[i := s.writes[i].(res := Some(n))]);
      if s.writes[i].open then t.(delivered := s.delivered + bytes) else t.(strayed := s.strayed + bytes)
    case Fail(i, res) => s.(writes := s.writes[i := s.writes[i].(res := Some(res))])
    case Handle(i, ring) => Handled(s, i, ring)
    case CloseBy(how, ring) =>
      var (sock, rs) := Closing(s.sock, how);
      Submit(s.(sock := sock), rs, ring)
    case TestFd(k) =>
      var ring := s.shutdowns[k];
      s.(shutdowns := Without(s.shutdowns, k), closers := if s.sock.open then s.closers[ring := Tested] else s.closers)
    case CopyFd(ring) => s.(closers := s.closers[ring := Copied(s.sock.open)])
    case ZeroFd(ring) =>
      s.(sock := Dispatched(s.sock, Shutdown, 0, []).0, closers := s.closers[ring := Zeroed(s.closers[ring].found)])
    case CloseFd(ring) =>
      var t := s.(closers := s.closers - {ring});
      if s.closers[ring].found then t.(closes := s.closes + 1) else t.(strayCloses := s.strayCloses + 1)
    case Hangup => s.(sock := Dispatched(s.sock, Read, 0, []).0)
    case Elsewhere(l, recv) => s.(sock := s.sock.(l := l, recv := recv))
  }

  function Appended(s: Sys, i: nat): Sys
    requires i < |s.ready| && s.sock.send.CanPush(|s.ready[i]|)
  {
    var bytes := s.ready[i];
    var (sock, rs) := Sent(s.sock, bytes);
    Submit(s.(sock := sock, ready := Without(s.ready, i), accepted := s.accepted + bytes,
              starts := s.starts + if s.sock.send.IsEmpty() && bytes != [] then 1 else 0), rs, 0)
  }

  function Handled(s: Sys, i: nat, ring: nat): Sys
    requires i < |s.writes| && s.writes[i].res.Some?
  {
    var w := s.writes[i];
    var (sock, rs) := Dispatched(s.sock, Write, w.res.value, []);
    Submit(s.(sock := sock, writes := Without(s.writes, i),
              failures := s.failures + if 0 < w.len && w.res.value <= 0 then 1 else 0), rs, ring)
  }

  ghost predicate Legal(s: Sys, steps: seq<Step>)
    decreases steps
  {
    steps == [] || (Enabled(s, steps[0]) && Legal(Apply(s, steps[0]), steps[1..]))
  }

  ghost function Exec(s: Sys, steps: seq<Step>): Sys
    requires Legal(s, steps)
    decreases steps
  {
    if steps == [] then s else Exec(Apply(s, steps[0]), steps[1..])
  }

  // A socket just activated, on a heap where anything may be allocated.
  function Started(l: Ledger): Sys {
    Sys(Activated(Sock(l, NO_DBL, NO_BUF, false, false, true, 0, 0)).0, [], [], [], map[], 0, 0, 0, [], [], [], 0, 0)
  }

  // --- The invariant ------------------------------------------------------------------

  // The writes that carry bytes.  A send of no bytes submits one that does not.
  function Big(ws: seq<Flight>): seq<Flight> {
    if ws == [] then []
    else (if 0 < ws[0].len then [ws[0]] else []) + Big(ws[1..])
  }

  // How much of main the kernel has taken but `io_sent` has not yet popped.
  function Flown(big: seq<Flight>): nat {
    if big != [] && big[0].res.Some? && 0 < big[0].res.value then big[0].res.value else 0
  }

  predicate Sending(d: Dbl, w: Flight) {
    && w.base == Block(d.main.raw)
    && 1 <= w.len <= |d.main.data|
    && (w.res.Some? ==> w.res.value <= w.len)
  }

  // One write in flight while there is data, none while there is not; none after a failure.
  predicate SingleWrite(d: Dbl, big: seq<Flight>, failures: nat) {
    if Fifo(d) == [] then big == [] && failures == 0
    else if failures == 0 then |big| == 1 && Sending(d, big[0])
    else big == []
  }

  // What was accepted is what the kernel took, then what is queued and not yet taken.
  predicate Flow(d: Dbl, big: seq<Flight>, failures: nat, accepted: seq<byte>, taken: seq<byte>) {
    && SingleWrite(d, big, failures)
    && (d.main.data == [] ==> d.sub.data == [])
    && Flown(big) <= |d.main.data|
    && accepted == taken + Fifo(d)[Flown(big)..]
  }

  // All the kernel took: first for the peer, then, once the descriptor is gone, astray.
  function Taken(s: Sys): seq<byte> {
    s.delivered + s.strayed
  }

  // While the descriptor is there nothing strays; while a write that has it is in flight,
  // nothing has strayed yet.
  predicate Straight(open: bool, big: seq<Flight>, strayed: seq<byte>) {
    && (open ==> strayed == [])
    && (big != [] && open ==> big[0].open)
    && (big != [] && big[0].open ==> strayed == [])
    && (big != [] && !big[0].open ==> Flown(big) <= |strayed|)
  }

  predicate EmptyWritesFail(ws: seq<Flight>) {
    forall i | 0 <= i < |ws| :: ws[i].len == 0 && ws[i].res.Some? ==> ws[i].res.value <= 0
  }

  // Starts of busy periods minus ends: 1 exactly while data is pending.
  predicate Events(s: Sys) {
    s.starts == s.sock.completions + (if Fifo(s.sock.send) == [] then 0 else 1)
  }

  ghost predicate Inv(s: Sys) {
    && IoDoubleBuffers.Ready(s.sock.l, s.sock.send)
    && Flow(s.sock.send, Big(s.writes), s.failures, s.accepted, Taken(s))
    && Straight(s.sock.open, Big(s.writes), s.strayed)
    && EmptyWritesFail(s.writes)
    && Events(s)
  }

  // --- Steps on the queue and its one write ---------------------------------------------

  // The write that goes out when the queue has data, as a list.
  function Next(d: Dbl, open: bool): seq<Flight> {
    if d.IsEmpty() then [] else [Flight(Block(d.main.raw), |d.main.data|, open, None)]
  }

  // Appending to an empty queue starts a write; to any other it does not touch the one
  // in flight.
  lemma FlowStart(d: Dbl, failures: nat, accepted: seq<byte>, taken: seq<byte>, big: seq<Flight>,
                  d': Dbl, bytes: seq<byte>, open: bool)
    requires Flow(d, big, failures, accepted, taken)
    requires d.IsEmpty() && d'.sub == d.sub && d'.main.data == bytes
    ensures Flow(d', if bytes == [] then [] else [Flight(Block(d'.main.raw), |bytes|, open, None)],
                 failures, accepted + bytes, taken)
  {
    assert Fifo(d') == bytes && Fifo(d')[0..] == bytes;
    assert big == [] && Fifo(d)[0..] == [];
  }

  lemma FlowJoin(d: Dbl, failures: nat, accepted: seq<byte>, taken: seq<byte>, big: seq<Flight>,
                 d': Dbl, bytes: seq<byte>)
    requires Flow(d, big, failures, accepted, taken)
    requires !d.IsEmpty() && d'.main.raw == d.main.raw && d.main.data <= d'.main.data
    requires Fifo(d') == Fifo(d) + bytes
    ensures Flow(d', big, failures, accepted + bytes, taken)
  {
    assert Fifo(d')[Flown(big)..] == Fifo(d)[Flown(big)..] + bytes;
  }

  lemma FlowTransfer(d: Dbl, w: Flight, n: nat, accepted: seq<byte>, taken: seq<byte>)
    requires Flow(d, [w], 0, accepted, taken) && w.res == None && 1 <= n <= w.len
    ensures Flow(d, [w.(res := Some(n))], 0, accepted, taken + d.main.data[..n])
  {
    assert Fifo(d)[0..] == d.main.data[..n] + Fifo(d)[n..];
  }

  // The completion of n bytes: they leave the queue, and what is left goes out next.
  lemma FlowSent(l: Ledger, d: Dbl, w: Flight, accepted: seq<byte>, taken: seq<byte>, open: bool)
    requires IoDoubleBuffers.Ready(l, d) && Flow(d, [w], 0, accepted, taken)
    requires w.res.Some? && 0 < w.res.value
    ensures var d' := Elevated(l, Unqueued(d, w.res.value)).1;
      && Flow(d', Next(d', open),
              0, accepted, taken)
      && w.res.value <= |Fifo(d)| && Fifo(d') == Fifo(d)[w.res.value..]
  {
    var n: nat := w.res.value;
    var d0 := Unqueued(d, n);
    PopStep(l, d, n);
    ElevateStep(l, d0);
    var d' := Elevated(l, d0).1;
    assert Fifo(d') == Fifo(d)[n..];
    assert Fifo(d')[0..] == Fifo(d');
  }

  // --- Lists of writes ------------------------------------------------------------------

  lemma {:induction false} BigConcat(a: seq<Flight>, b: seq<Flight>)
    ensures Big(a + b) == Big(a) + Big(b)
  {
    if a == [] {
      assert a + b == b;
    } else {
      assert (a + b)[1..] == a[1..] + b;
      BigConcat(a[1..], b);
    }
  }

  lemma BigOne(w: Flight)
    ensures Big([w]) == if 0 < w.len then [w] else []
  {
  }

  lemma BigSplit(ws: seq<Flight>, i: nat)
    requires i < |ws|
    ensures Big(ws) == Big(ws[..i]) + Big([ws[i]]) + Big(ws[i + 1..])
  {
    BigUpdate(ws, i, ws[i]);
    assert ws[i := ws[i]] == ws;
  }

  lemma BigUpdate(ws: seq<Flight>, i: nat, w: Flight)
    requires i < |ws|
    ensures Big(ws[i := w]) == Big(ws[..i]) + Big([w]) + Big(ws[i + 1..])
  {
    assert ws[i := w] == ws[..i] + [w] + ws[i + 1..];
    BigConcat(ws[..i] + [w], ws[i + 1..]);
    BigConcat(ws[..i], [w]);
  }

  // The result of write i comes in, or it is handled: what the big ones then are.
  lemma BigAt(ws: seq<Flight>, i: nat, res: Option<int>)
    requires i < |ws| && |Big(ws)| <= 1
    ensures 0 < ws[i].len ==>
              && Big(ws) == [ws[i]] && Big(Without(ws, i)) == []
              && Big(ws[i := ws[i].(res := res)]) == [ws[i].(res := res)]
    ensures ws[i].len == 0 ==>
              Big(Without(ws, i)) == Big(ws) && Big(ws[i := ws[i].(res := res)]) == Big(ws)
  {
    BigSplit(ws, i);
    BigConcat(ws[..i], ws[i + 1..]);
    BigUpdate(ws, i, ws[i].(res := res));
    BigOne(ws[i]);
    BigOne(ws[i].(res := res));
  }

  lemma BigSubmit(ws: seq<Flight>, w: Flight)
    ensures Big(ws + [w]) == Big(ws) + if 0 < w.len then [w] else []
  {
    BigConcat(ws, [w]);
    BigOne(w);
  }

  lemma EmptyWithout(ws: seq<Flight>, i: nat, more: seq<Flight>)
    requires i < |ws| && EmptyWritesFail(ws) && EmptyWritesFail(more)
    ensures EmptyWritesFail(Without(ws, i) + more)
  {
    var out := Without(ws, i) + more;
    forall k | 0 <= k < |out| && out[k].len == 0 && out[k].res.Some? ensures out[k].res.value <= 0 {
      if k < i {
        assert out[k] == ws[k];
      } else if k < |ws| - 1 {
        assert out[k] == ws[k + 1];
      } else {
        assert out[k] == more[k - (|ws| - 1)];
      }
    }
  }

  // --- Steps on the system --------------------------------------------------------------

  lemma AppendedIs(s: Sys, i: nat)
    requires i < |s.ready| && s.sock.send.CanPush(|s.ready[i]|)
    ensures var bytes, d := s.ready[i], s.sock.send;
      var (l', d') := Queued(s.sock.l, d, bytes);
      Appended(s, i)
      == s.(sock := s.sock.(l := l', send := d'), ready := Without(s.ready, i),
            accepted := s.accepted + bytes,
            starts := s.starts + (if d.IsEmpty() && bytes != [] then 1 else 0),
            writes := if d.IsEmpty() then s.writes + [Flight(Block(d'.main.raw), |d'.main.data|, s.sock.open, None)]
                      else s.writes)
  {
  }

  lemma AppendKeeps(s: Sys, i: nat)
    requires Inv(s) && i < |s.ready|
    ensures s.sock.send.CanPush(|s.ready[i]|)
    ensures Inv(Appended(s, i))
  {
    var bytes, d := s.ready[i], s.sock.send;
    PushStep(s.sock.l, d, bytes);
    AppendedIs(s, i);
    var d' := Queued(s.sock.l, d, bytes).1;
    if d.IsEmpty() {
      FlowStart(d, s.failures, s.accepted, Taken(s), Big(s.writes), d', bytes, s.sock.open);
      BigSubmit(s.writes, Flight(Block(d'.main.raw), |bytes|, s.sock.open, None));
    } else {
      PushSparesMain(s.sock.l, d, bytes);
      FlowJoin(d, s.failures, s.accepted, Taken(s), Big(s.writes), d', bytes);
    }
  }

  // What the kernel finds behind the view of the one write that carries bytes.
  lemma TransferSees(s: Sys, i: nat, n: nat)
    requires Inv(s) && i < |s.writes| && s.writes[i].res == None && 1 <= n <= s.writes[i].len
    ensures Big(s.writes) == [s.writes[i]] && s.failures == 0
    ensures Big(s.writes[i := s.writes[i].(res := Some(n))]) == [s.writes[i].(res := Some(n))]
    ensures n <= |s.sock.send.main.data| && Peek(s.sock, s.writes[i].base, n) == Some(s.sock.send.main.data[..n])
  {
    BigAt(s.writes, i, Some(n));
    assert s.sock.send.main.raw in Owns(s.sock.send);
  }

  lemma TransferKeeps(s: Sys, i: nat, n: nat, junk: seq<byte>)
    requires Inv(s) && Enabled(s, Transfer(i, n, junk))
    ensures Inv(Apply(s, Transfer(i, n, junk)))
    ensures n <= |s.sock.send.main.data| && Peek(s.sock, s.writes[i].base, n) == Some(s.sock.send.main.data[..n])
  {
    TransferSees(s, i, n);
    FlowTransfer(s.sock.send, s.writes[i], n, s.accepted, Taken(s));
    var t, bytes := Apply(s, Transfer(i, n, junk)), s.sock.send.main.data[..n];
    assert Taken(t) == Taken(s) + bytes by {
      Assoc(s.delivered, s.strayed, bytes);
      if s.writes[i].open { assert s.strayed == []; }
    }
  }

  lemma FailKeeps(s: Sys, i: nat, res: int)
    requires Inv(s) && Enabled(s, Fail(i, res))
    ensures Inv(Apply(s, Fail(i, res)))
  {
    BigAt(s.writes, i, Some(res));
  }

  lemma HandledError(s: Sys, i: nat, ring: nat)
    requires Enabled(s, Handle(i, ring)) && s.writes[i].res.value <= 0
    ensures Handled(s, i, ring)
         == s.(sock := s.sock.(errors := s.sock.errors + 1), writes := Without(s.writes, i),
               failures := s.failures + if 0 < s.writes[i].len then 1 else 0)
  {
  }

  lemma HandleErrorKeeps(s: Sys, i: nat, ring: nat)
    requires Inv(s) && Enabled(s, Handle(i, ring)) && s.writes[i].res.value <= 0
    ensures Inv(Handled(s, i, ring))
  {
    HandledError(s, i, ring);
    BigAt(s.writes, i, None);
    EmptyWithout(s.writes, i, []);
    assert Without(s.writes, i) + [] == Without(s.writes, i);
  }

  lemma HandledSent(s: Sys, i: nat, ring: nat)
    requires Enabled(s, Handle(i, ring)) && 0 < s.writes[i].res.value
    ensures var (l', d') := Elevated(s.sock.l, Unqueued(s.sock.send, s.writes[i].res.value));
      var t := Handled(s, i, ring);
      && t.sock.l == l' && t.sock.send == d' && t.failures == s.failures && t.starts == s.starts
      && t.accepted == s.accepted && t.delivered == s.delivered && t.ready == s.ready
      && t.writes == Without(s.writes, i) + Next(d', s.sock.open)
      && t.sock.completions == s.sock.completions + (if d'.IsEmpty() then 1 else 0)
      && t.sock.graceful == s.sock.graceful && t.sock.connected == s.sock.connected && t.sock.open == s.sock.open
      && t.asked == s.asked + (if d'.IsEmpty() && s.sock.graceful then 1 else 0)
      && t.shutdowns == s.shutdowns + (if d'.IsEmpty() && s.sock.graceful then [ring] else [])
      && t.closers == s.closers && t.closes == s.closes && t.strayCloses == s.strayCloses && t.strayed == s.strayed
  {
  }

  // After a completion the writes that carry bytes are the next one, if there is one.
  lemma NextIsBig(ws: seq<Flight>, i: nat, d: Dbl, open: bool)
    requires i < |ws| && |Big(ws)| <= 1 && 0 < ws[i].len && EmptyWritesFail(ws)
    requires d.main.data == [] ==> d.sub.data == []
    ensures Big(Without(ws, i) + Next(d, open)) == Next(d, open) && EmptyWritesFail(Without(ws, i) + Next(d, open))
    ensures Big(ws) == [ws[i]]
  {
    BigAt(ws, i, None);
    EmptyWithout(ws, i, Next(d, open));
    BigConcat(Without(ws, i), Next(d, open));
    if !d.IsEmpty() {
      BigOne(Next(d, open)[0]);
    }
  }

  lemma HandleSentKeeps(s: Sys, i: nat, ring: nat)
    requires Inv(s) && Enabled(s, Handle(i, ring)) && 0 < s.writes[i].res.value
    ensures Inv(Handled(s, i, ring))
    ensures Big(s.writes) == [s.writes[i]] && s.failures == 0
  {
    var d, n: nat := s.sock.send, s.writes[i].res.value;
    var d' := Elevated(s.sock.l, Unqueued(d, n)).1;
    PopStep(s.sock.l, d, n);
    ElevateStep(s.sock.l, Unqueued(d, n));
    NextIsBig(s.writes, i, d', s.sock.open);
    FlowSent(s.sock.l, d, s.writes[i], s.accepted, Taken(s), s.sock.open);
    HandledSent(s, i, ring);
    var t := Handled(s, i, ring);
    assert t.sock.send == d' && Big(t.writes) == Next(d', s.sock.open) && Taken(t) == Taken(s);
    assert Flow(d', Big(t.writes), t.failures, t.accepted, Taken(t));
  }

  // --- All runs -------------------------------------------------------------------------

  // Steps that leave the queue and its writes alone.
  predicate Passive(step: Step) {
    || step.Check? || step.CloseBy? || step.Elsewhere?
    || step.TestFd? || step.CopyFd? || step.ZeroFd? || step.CloseFd?
  }

  lemma PassiveIs(s: Sys, step: Step)
    requires Enabled(s, step) && Passive(step)
    ensures var t := Apply(s, step);
      && t.sock.send == s.sock.send && t.writes == s.writes && t.failures == s.failures
      && t.accepted == s.accepted && t.delivered == s.delivered && t.strayed == s.strayed
      && (t.sock.open ==> s.sock.open)
      && t.starts == s.starts && t.sock.completions == s.sock.completions
      && t.sock.connected == s.sock.connected && s.asked <= t.asked
      && (s.sock.graceful ==> t.sock.graceful && t.ready == s.ready)
      && (t.sock.l == s.sock.l || (t.sock.l.Valid() && Owns(s.sock.send) <= t.sock.l.live))
  {
  }

  lemma PassiveKeeps(s: Sys, step: Step)
    requires Inv(s) && Enabled(s, step) && Passive(step)
    ensures Inv(Apply(s, step))
    ensures s.sock.send.main.raw != NULL && s.sock.send.main.raw in Apply(s, step).sock.l.live
    ensures Apply(s, step).sock.connected == s.sock.connected
  {
    PassiveIs(s, step);
    assert s.sock.send.main.raw in Owns(s.sock.send);
  }

  // What the locked part of a send and the handling of a write leave alone.
  lemma LockedIs(s: Sys, step: Step)
    requires Enabled(s, step) && (step.Append? || step.Handle?)
    ensures var t := Apply(s, step);
      && t.delivered == s.delivered && t.strayed == s.strayed
      && t.sock.open == s.sock.open && t.sock.connected == s.sock.connected && t.sock.graceful == s.sock.graceful
      && t.closers == s.closers && t.closes == s.closes && t.strayCloses == s.strayCloses
      && (t.shutdowns == s.shutdowns || (step.Handle? && t.shutdowns == s.shutdowns + [step.ring]))
  {
    match step {
      case Append(i) => AppendedIs(s, i);
      case Handle(i, ring) =>
        if s.writes[i].res.value <= 0 { HandledError(s, i, ring); } else { HandledSent(s, i, ring); }
    }
  }

  lemma StepKeeps(s: Sys, step: Step)
    requires Inv(s) && Enabled(s, step) && Apply(s, step).sock.connected
    ensures Inv(Apply(s, step)) && s.sock.connected
  {
    match step {
      case Append(i) => AppendKeeps(s, i); LockedIs(s, step);
      case Transfer(i, n, junk) => TransferKeeps(s, i, n, junk);
      case Fail(i, res) => FailKeeps(s, i, res);
      case Handle(i, ring) =>
        LockedIs(s, step);
        if s.writes[i].res.value <= 0 { HandleErrorKeeps(s, i, ring); } else { HandleSentKeeps(s, i, ring); }
      case Hangup =>
      case _ => PassiveKeeps(s, step);
    }
  }

  lemma {:induction false} StaysConnected(s: Sys, steps: seq<Step>)
    requires Legal(s, steps) && Exec(s, steps).sock.connected
    ensures s.sock.connected
    decreases steps
  {
    if steps != [] {
      StaysConnected(Apply(s, steps[0]), steps[1..]);
    }
  }

  lemma {:induction false} RunKeeps(s: Sys, steps: seq<Step>)
    requires Inv(s) && Legal(s, steps) && Exec(s, steps).sock.connected
    ensures Inv(Exec(s, steps))
    decreases steps
  {
    if steps != [] {
      StaysConnected(Apply(s, steps[0]), steps[1..]);
      StepKeeps(s, steps[0]);
      RunKeeps(Apply(s, steps[0]), steps[1..]);
    }
  }

  lemma StartedInv(l: Ledger)
    requires l.Valid()
    ensures Inv(Started(l)) && Started(l).sock.connected
  {
  }

  // --- Bytes that stray -----------------------------------------------------------------

  // The kernel transfers for a write that was submitted without the descriptor.
  predicate Stray(s: Sys, step: Step) {
    step.Transfer? && step.i < |s.writes| && !s.writes[step.i].open
  }

  ghost predicate Strays(s: Sys, steps: seq<Step>)
    requires Legal(s, steps)
    decreases steps
  {
    steps != [] && (Stray(s, steps[0]) || Strays(Apply(s, steps[0]), steps[1..]))
  }

  lemma HandleAccepts(s: Sys, step: Step)
    requires Enabled(s, step) && step.Handle?
    ensures var t := Apply(s, step);
      && t.accepted == s.accepted && t.ready == s.ready
      && t.sock.graceful == s.sock.graceful && t.sock.connected == s.sock.connected
      && (s.writes[step.i].res.value <= 0 ==> t.sock.send == s.sock.send)
  {
    if s.writes[step.i].res.value <= 0 {
      HandledError(s, step.i, step.ring);
    } else {
      HandledSent(s, step.i, step.ring);
    }
  }

  lemma StrayStep(s: Sys, step: Step)
    requires Enabled(s, step)
    ensures Apply(s, step).strayed == [] <==> s.strayed == [] && !Stray(s, step)
    ensures s.delivered <= Apply(s, step).delivered
  {
    if step.Append? || step.Handle? {
      LockedIs(s, step);
    }
  }

  lemma {:induction false} StrayedIff(s: Sys, steps: seq<Step>)
    requires Legal(s, steps)
    ensures Exec(s, steps).strayed == [] <==> s.strayed == [] && !Strays(s, steps)
    ensures s.delivered <= Exec(s, steps).delivered
    decreases steps
  {
    if steps != [] {
      StrayStep(s, steps[0]);
      StrayedIff(Apply(s, steps[0]), steps[1..]);
      var t, u := Apply(s, steps[0]), Exec(s, steps);
      assert s.delivered == t.delivered[..|s.delivered|] == u.delivered[..|t.delivered|][..|s.delivered|];
    }
  }

  // Stream integrity.  However sends, partial transfers, failures, completions and closes
  // interleave, the peer has received a prefix of what was accepted, in order.  What else the
  // kernel took went astray, and the rest is exactly what the two buffers hold.  Nothing is
  // missing between the two, so that the peer's bytes and the buffers make up the stream,
  // exactly if no write submitted without the descriptor transferred anything; until the
  // descriptor is gone there is no such write.  There is one write in flight while data is
  // pending, and it lies within main.
  lemma StreamIntegrity(l: Ledger, steps: seq<Step>)
    requires l.Valid() && Legal(Started(l), steps) && Exec(Started(l), steps).sock.connected
    ensures var s := Exec(Started(l), steps);
      var d := s.sock.send;
      && s.delivered <= s.accepted && Flown(Big(s.writes)) <= |Fifo(d)|
      && s.accepted == s.delivered + s.strayed + Fifo(d)[Flown(Big(s.writes))..]
      && (s.accepted == s.delivered + Fifo(d)[Flown(Big(s.writes))..] <==> !Strays(Started(l), steps))
      && (s.sock.open ==> !Strays(Started(l), steps))
      && SingleWrite(d, Big(s.writes), s.failures)
      && s.starts == s.sock.completions + (if Fifo(d) == [] then 0 else 1)
  {
    StartedInv(l);
    RunKeeps(Started(l), steps);
    StrayedIff(Started(l), steps);
    var s := Exec(Started(l), steps);
    Whole(s.accepted, s.delivered, s.strayed, Fifo(s.sock.send)[Flown(Big(s.writes))..]);
  }

  lemma Whole(all: seq<byte>, a: seq<byte>, b: seq<byte>, c: seq<byte>)
    requires all == a + b + c
    ensures a <= all && (all == a + c <==> b == [])
  {
    assert |all| == |a| + |b| + |c|;
    assert b == [] ==> a + b == a;
  }

  // After the descriptor was zeroed, and until the read chain ends, a socket still accepts.
  // The bytes of this send go to descriptor 0, the callback fires, and the peer has nothing.
  lemma SendAfterClose(l: Ledger, b: byte, ring: nat) returns (steps: seq<Step>)
    requires l.Valid()
    ensures Legal(Started(l), steps)
    ensures var s := Exec(Started(l), steps);
      s.sock.connected && s.sock.completions == 1 && s.accepted == s.strayed == [b] && s.delivered == []
  {
    var s := Started(l);
    steps := [CloseBy(Graceful, ring), TestFd(0), CopyFd(ring), ZeroFd(ring)];
    StartedInv(l);
    CloseIdle(s, ring);
    var more := SendStrays(Exec(s, steps), b, ring + 1);
    Join(s, steps, more);
    steps := steps + more;
  }

  // A graceful close of an idle socket, and the handling of its shutdown up to the zeroing.
  lemma CloseIdle(s: Sys, ring: nat)
    requires s.sock.open && s.sock.send.IsEmpty() && s.shutdowns == [] && s.closers == map[]
    ensures var steps := [CloseBy(Graceful, ring), TestFd(0), CopyFd(ring), ZeroFd(ring)];
      && Legal(s, steps)
      && Exec(s, steps) == s.(sock := s.sock.(open := false), asked := s.asked + 1,
                              closers := map[ring := Zeroed(true)])
  {
    var s1 := Apply(s, CloseBy(Graceful, ring));
    assert s1.shutdowns == [ring];
    var s2 := Apply(s1, TestFd(0));
    assert s2.shutdowns == [] && s2.closers == map[ring := Tested];
    var s3 := Apply(s2, CopyFd(ring));
    assert s3.closers == map[ring := Copied(true)];
    var s4 := Apply(s3, ZeroFd(ring));
    assert s4.closers == map[ring := Zeroed(true)];
    LegalFour(s, [CloseBy(Graceful, ring), TestFd(0), CopyFd(ring), ZeroFd(ring)], s1, s2, s3, s4);
  }

  lemma LegalFour(s0: Sys, steps: seq<Step>, s1: Sys, s2: Sys, s3: Sys, s4: Sys)
    requires |steps| == 4
    requires Enabled(s0, steps[0]) && s1 == Apply(s0, steps[0])
    requires Enabled(s1, steps[1]) && s2 == Apply(s1, steps[1])
    requires Enabled(s2, steps[2]) && s3 == Apply(s2, steps[2])
    requires Enabled(s3, steps[3]) && s4 == Apply(s3, steps[3])
    ensures Legal(s0, steps) && Exec(s0, steps) == s4
  {
    var r1 := steps[1..];
    var r2 := r1[1..];
    var r3 := r2[1..];
    assert r3[1..] == [];
    assert Legal(s3, r3) && Exec(s3, r3) == s4;
    assert Legal(s2, r2) && Exec(s2, r2) == s4;
    assert Legal(s1, r1) && Exec(s1, r1) == s4;
  }

  lemma {:induction false} Join(s: Sys, a: seq<Step>, b: seq<Step>)
    requires Legal(s, a) && Legal(Exec(s, a), b)
    ensures Legal(s, a + b) && Exec(s, a + b) == Exec(Exec(s, a), b)
    decreases a
  {
    if a == [] {
      assert a + b == b;
    } else {
      assert (a + b)[1..] == a[1..] + b;
      Join(Apply(s, a[0]), a[1..], b);
    }
  }

  // A socket whose descriptor is gone, with nothing under way.
  ghost predicate IdleClosed(s: Sys) {
    && Inv(s) && s.sock.connected && !s.sock.open && !s.sock.graceful
    && s.ready == [] && s.writes == [] && s.sock.send.IsEmpty() && s.failures == 0
  }

  // One byte is queued, and its write was submitted without the descriptor.
  ghost predicate OneStray(s: Sys, b: byte) {
    && Inv(s) && s.sock.connected && !s.sock.graceful && s.sock.send.main.data == [b] && s.sock.send.sub.data == []
    && |s.writes| == 1 && s.writes[0] == Flight(Block(s.sock.send.main.raw), 1, false, None)
  }

  lemma StraySent(s: Sys, b: byte)
    requires IdleClosed(s)
    ensures Enabled(s, Check([b])) && Enabled(Apply(s, Check([b])), Append(0))
    ensures var t := Apply(Apply(s, Check([b])), Append(0));
      && OneStray(t, b) && t.accepted == s.accepted + [b] && t.delivered == s.delivered && t.strayed == s.strayed
      && t.sock.completions == s.sock.completions && t.closers == s.closers
  {
    var s1 := Apply(s, Check([b]));
    PassiveKeeps(s, Check([b]));
    AppendKeeps(s1, 0);
    AppendedIs(s1, 0);
    PushStep(s1.sock.l, s1.sock.send, [b]);
  }

  lemma StrayTaken(s: Sys, b: byte, ring: nat)
    requires OneStray(s, b) && ring !in s.closers
    ensures Enabled(s, Transfer(0, 1, [b])) && Enabled(Apply(s, Transfer(0, 1, [b])), Handle(0, ring))
    ensures var t := Apply(Apply(s, Transfer(0, 1, [b])), Handle(0, ring));
      && t.sock.connected && t.sock.completions == s.sock.completions + 1
      && t.accepted == s.accepted && t.strayed == s.strayed + [b] && t.delivered == s.delivered
  {
    TransferSees(s, 0, 1);
    HandledSent(Apply(s, Transfer(0, 1, [b])), 0, ring);
  }

  lemma SendStrays(s: Sys, b: byte, ring: nat) returns (steps: seq<Step>)
    requires IdleClosed(s) && ring !in s.closers
    ensures Legal(s, steps)
    ensures var t := Exec(s, steps);
      && t.sock.connected && t.sock.completions == s.sock.completions + 1
      && t.accepted == s.accepted + [b] && t.strayed == s.strayed + [b] && t.delivered == s.delivered
  {
    steps := [Check([b]), Append(0), Transfer(0, 1, [b]), Handle(0, ring)];
    StraySent(s, b);
    var s1 := Apply(s, Check([b]));
    var s2 := Apply(s1, Append(0));
    StrayTaken(s2, b, ring);
    var s3 := Apply(s2, Transfer(0, 1, [b]));
    LegalFour(s, steps, s1, s2, s3, Apply(s3, Handle(0, ring)));
  }

  // --- Memory the kernel is reading -----------------------------------------------------

  ghost predicate HandlesBig(s: Sys, step: Step) {
    step.Handle? && step.i < |s.writes| && 0 < s.writes[step.i].len
  }

  ghost predicate NoneHandlesBig(s: Sys, steps: seq<Step>)
    requires Legal(s, steps)
    decreases steps
  {
    steps == [] || (!HandlesBig(s, steps[0]) && NoneHandlesBig(Apply(s, steps[0]), steps[1..]))
  }

  // The view of the write in flight still shows the same bytes of the same live block.
  ghost predicate SameView(s: Sys, t: Sys) {
    && |Big(s.writes)| == 1 == |Big(t.writes)|
    && var w, v := Big(s.writes)[0], Big(t.writes)[0];
      && v.base == w.base == Block(s.sock.send.main.raw) && v.len == w.len
      && t.sock.send.main.raw == s.sock.send.main.raw && s.sock.send.main.raw in t.sock.l.live
      && w.len <= |s.sock.send.main.data|
      && Peek(t.sock, w.base, w.len) == Peek(s.sock, w.base, w.len) == Some(s.sock.send.main.data[..w.len])
  }

  // What `SameView` needs once the one big write is known.
  lemma ViewKept(s: Sys, t: Sys, w: Flight, v: Flight)
    requires Inv(s) && Inv(t) && Big(s.writes) == [w] && Big(t.writes) == [v]
    requires v.base == w.base && v.len == w.len
    requires t.sock.send.main.raw == s.sock.send.main.raw
    requires s.sock.send.main.data <= t.sock.send.main.data
    ensures SameView(s, t)
  {
    assert s.sock.send.main.raw in Owns(s.sock.send) && t.sock.send.main.raw in Owns(t.sock.send);
    assert t.sock.send.main.data[..w.len] == s.sock.send.main.data[..w.len];
  }

  lemma StableStep(s: Sys, step: Step)
    requires Inv(s) && |Big(s.writes)| == 1 && Enabled(s, step)
    requires Apply(s, step).sock.connected && !HandlesBig(s, step)
    ensures SameView(s, Apply(s, step)) && Inv(Apply(s, step))
  {
    StepKeeps(s, step);
    var w, t := Big(s.writes)[0], Apply(s, step);
    StableQueue(s, step);
    StableWrite(s, step);
    ViewKept(s, t, w, Big(t.writes)[0]);
  }

  lemma StableQueue(s: Sys, step: Step)
    requires Inv(s) && |Big(s.writes)| == 1 && Enabled(s, step)
    requires Apply(s, step).sock.connected && !HandlesBig(s, step)
    ensures Apply(s, step).sock.send.main.raw == s.sock.send.main.raw
    ensures s.sock.send.main.data <= Apply(s, step).sock.send.main.data
  {
    match step {
      case Append(i) =>
        AppendedIs(s, i);
        PushSparesMain(s.sock.l, s.sock.send, s.ready[i]);
      case Handle(i, ring) => HandlesSmall(s, i, ring);
      case Transfer(_, _, _) =>
      case Fail(_, _) =>
      case Hangup =>
      case _ => PassiveIs(s, step);
    }
  }

  lemma StableWrite(s: Sys, step: Step)
    requires Inv(s) && |Big(s.writes)| == 1 && Enabled(s, step)
    requires Apply(s, step).sock.connected && !HandlesBig(s, step)
    ensures var bs, bt := Big(s.writes), Big(Apply(s, step).writes);
      |bt| == 1 && bt[0].base == bs[0].base && bt[0].len == bs[0].len
  {
    match step {
      case Append(i) => AppendedIs(s, i);
      case Transfer(i, n, junk) => BigAt(s.writes, i, Some(n));
      case Fail(i, res) => BigAt(s.writes, i, Some(res));
      case Handle(i, ring) => HandlesSmall(s, i, ring);
      case Hangup =>
      case _ => PassiveIs(s, step);
    }
  }

  lemma HandlesSmall(s: Sys, i: nat, ring: nat)
    requires Inv(s) && |Big(s.writes)| == 1 && Enabled(s, Handle(i, ring)) && s.writes[i].len == 0
    ensures Handled(s, i, ring).sock.send == s.sock.send && Big(Handled(s, i, ring).writes) == Big(s.writes)
  {
    HandledError(s, i, ring);
    BigAt(s.writes, i, None);
  }

  // From the moment a write is submitted until its completion is handled, main's block is
  // neither moved nor freed and the bytes the kernel was shown do not change.
  lemma {:induction false} InFlightMemoryStable(s: Sys, steps: seq<Step>)
    requires Inv(s) && |Big(s.writes)| == 1 && Legal(s, steps)
    requires Exec(s, steps).sock.connected && NoneHandlesBig(s, steps)
    ensures SameView(s, Exec(s, steps))
    decreases steps
  {
    if steps != [] {
      var t := Apply(s, steps[0]);
      StaysConnected(t, steps[1..]);
      StableStep(s, steps[0]);
      InFlightMemoryStable(t, steps[1..]);
    } else {
      ViewKept(s, s, Big(s.writes)[0], Big(s.writes)[0]);
    }
  }

  // --- Closing --------------------------------------------------------------------------

  // The kernel took everything that was accepted and no byte is in flight; the peer has
  // everything exactly if nothing strayed.
  ghost predicate Drained(t: Sys) {
    && Taken(t) == t.accepted && Fifo(t.sock.send) == [] && Big(t.writes) == []
    && (t.delivered == t.accepted <==> t.strayed == [])
  }

  lemma EmptyIsDrained(t: Sys)
    requires Inv(t) && Fifo(t.sock.send) == []
    ensures Drained(t) && (t.sock.open ==> t.delivered == t.accepted)
  {
    assert Fifo(t.sock.send)[0..] == [];
    assert t.strayed == [] ==> t.delivered + t.strayed == t.delivered;
    assert |Taken(t)| == |t.delivered| + |t.strayed|;
  }

  // Whenever a graceful close submits its shutdown, at once or when the queue drains, nothing
  // is pending, and while the descriptor is there the peer has everything.
  lemma GracefulShutdownIsDrained(s: Sys, step: Step)
    requires Inv(s) && Enabled(s, step) && ((step.CloseBy? && step.how == Graceful) || step.Handle?)
    requires Apply(s, step).sock.connected && s.asked < Apply(s, step).asked
    ensures var t := Apply(s, step); Drained(t) && (s.sock.open ==> t.delivered == t.accepted)
  {
    StepKeeps(s, step);
    if step.Handle? {
      if s.writes[step.i].res.value <= 0 { HandledError(s, step.i, step.ring); } else { HandledSent(s, step.i, step.ring); }
    }
    EmptyIsDrained(Apply(s, step));
  }

  // The callback is called from one place alone.
  lemma Completes(s: Sys, step: Step)
    requires Enabled(s, step) && s.sock.completions < Apply(s, step).sock.completions
    ensures step.Handle? && Fifo(Apply(s, step).sock.send) == []
  {
    match step {
      case Append(i) => AppendedIs(s, i);
      case Handle(i, ring) =>
        if s.writes[i].res.value <= 0 { HandledError(s, i, ring); } else { HandledSent(s, i, ring); }
      case _ =>
    }
  }

  // The send-complete callback fires at the same points.
  lemma CallbackIsDrained(s: Sys, step: Step)
    requires Inv(s) && Enabled(s, step) && Apply(s, step).sock.connected
    requires s.sock.completions < Apply(s, step).sock.completions
    ensures var t := Apply(s, step); Drained(t) && (s.sock.open ==> t.delivered == t.accepted)
  {
    StepKeeps(s, step);
    Completes(s, step);
    LockedIs(s, step);
    EmptyIsDrained(Apply(s, step));
  }

  function Total(xs: seq<seq<byte>>): nat {
    if xs == [] then 0 else |xs[0]| + Total(xs[1..])
  }

  lemma {:induction false} TotalConcat(a: seq<seq<byte>>, b: seq<seq<byte>>)
    ensures Total(a + b) == Total(a) + Total(b)
  {
    if a == [] {
      assert a + b == b;
    } else {
      assert (a + b)[1..] == a[1..] + b;
      TotalConcat(a[1..], b);
    }
  }

  lemma TotalWithout(xs: seq<seq<byte>>, i: nat)
    requires i < |xs|
    ensures Total(xs) == Total(Without(xs, i)) + |xs[i]|
  {
    assert xs == xs[..i] + ([xs[i]] + xs[i + 1..]);
    TotalConcat(xs[..i], [xs[i]] + xs[i + 1..]);
    TotalConcat([xs[i]], xs[i + 1..]);
    TotalConcat(xs[..i], xs[i + 1..]);
  }

  // Bytes still to go out: queued, or in sends that passed the checks before the close.
  function Measure(s: Sys): nat {
    |Fifo(s.sock.send)| + Total(s.ready)
  }

  // Successful completions handled in a run.
  ghost predicate Sends(s: Sys, step: Step) {
    step.Handle? && step.i < |s.writes| && s.writes[step.i].res.Some? && 0 < s.writes[step.i].res.value
  }

  ghost function Sents(s: Sys, steps: seq<Step>): nat
    requires Legal(s, steps)
    decreases steps
  {
    if steps == [] then 0
    else (if Sends(s, steps[0]) then 1 else 0) + Sents(Apply(s, steps[0]), steps[1..])
  }

  // The shutdown has been submitted, or there is still data and less of it to go.
  ghost predicate Drains(s: Sys, t: Sys, sent: nat) {
    && t.sock.graceful && s.asked <= t.asked
    && (s.asked < t.asked || (Fifo(t.sock.send) != [] && Measure(t) + sent <= Measure(s)))
  }

  lemma DrainAppend(s: Sys, i: nat)
    requires Inv(s) && s.sock.graceful && Fifo(s.sock.send) != [] && Enabled(s, Append(i))
    ensures Drains(s, Appended(s, i), 0)
  {
    AppendedIs(s, i);
    PushStep(s.sock.l, s.sock.send, s.ready[i]);
    TotalWithout(s.ready, i);
  }

  lemma DrainSent(s: Sys, i: nat, ring: nat)
    requires Inv(s) && s.sock.graceful && Fifo(s.sock.send) != []
    requires Enabled(s, Handle(i, ring)) && 0 < s.writes[i].res.value
    ensures Drains(s, Handled(s, i, ring), 1)
  {
    HandledSent(s, i, ring);
    HandleSentKeeps(s, i, ring);
    FlowSent(s.sock.l, s.sock.send, s.writes[i], s.accepted, Taken(s), s.sock.open);
  }

  lemma DrainPassive(s: Sys, step: Step)
    requires Inv(s) && s.sock.graceful && Fifo(s.sock.send) != [] && Enabled(s, step) && Passive(step)
    ensures Drains(s, Apply(s, step), 0)
  {
    PassiveIs(s, step);
  }

  // What the kernel does leaves the socket alone.
  lemma KernelIs(s: Sys, step: Step)
    requires Enabled(s, step) && (step.Transfer? || step.Fail?)
    ensures var t := Apply(s, step);
      t.sock == s.sock && t.ready == s.ready && t.asked == s.asked && t.failures == s.failures
  {
  }

  lemma DrainHandle(s: Sys, i: nat, ring: nat)
    requires Inv(s) && s.sock.graceful && Fifo(s.sock.send) != [] && Enabled(s, Handle(i, ring))
    ensures Drains(s, Handled(s, i, ring), if 0 < s.writes[i].res.value then 1 else 0)
  {
    if s.writes[i].res.value <= 0 { HandledError(s, i, ring); } else { DrainSent(s, i, ring); }
  }

  lemma DrainStep(s: Sys, step: Step)
    requires Inv(s) && s.sock.graceful && Fifo(s.sock.send) != [] && Enabled(s, step)
    requires Apply(s, step).sock.connected
    ensures Drains(s, Apply(s, step), if Sends(s, step) then 1 else 0)
  {
    match step {
      case Append(i) => DrainAppend(s, i);
      case Transfer(_, _, _) => KernelIs(s, step);
      case Fail(_, _) => KernelIs(s, step);
      case Handle(i, ring) => DrainHandle(s, i, ring);
      case Hangup =>
      case _ => DrainPassive(s, step);
    }
  }

  // The step submits a shutdown, nothing is pending, and while the descriptor is there the
  // peer has everything.
  ghost predicate ShutsDownDrained(s: Sys, step: Step)
    requires Enabled(s, step)
  {
    var t := Apply(s, step);
    s.asked < t.asked && Drained(t) && (s.sock.open ==> t.delivered == t.accepted)
  }

  ghost predicate EverShutsDownDrained(s: Sys, steps: seq<Step>)
    requires Legal(s, steps)
    decreases steps
  {
    steps != [] && (ShutsDownDrained(s, steps[0]) || EverShutsDownDrained(Apply(s, steps[0]), steps[1..]))
  }

  predicate Forced(steps: seq<Step>) {
    exists i :: 0 <= i < |steps| && steps[i].CloseBy? && steps[i].how == Force
  }

  // A graceful close with data pending submits its shutdown, with nothing pending any more,
  // within as many successful completions as there are bytes to go, whatever else happens in
  // between except a forced close.
  lemma {:induction false} GracefulCloseFinishes(s: Sys, steps: seq<Step>)
    requires Inv(s) && s.sock.graceful && Fifo(s.sock.send) != []
    requires Legal(s, steps) && Exec(s, steps).sock.connected
    requires Measure(s) <= Sents(s, steps)
    ensures Forced(steps) || EverShutsDownDrained(s, steps)
    decreases steps
  {
    var step, t := steps[0], Apply(s, steps[0]);
    StaysConnected(t, steps[1..]);
    DrainStep(s, step);
    StepKeeps(s, step);
    if step.CloseBy? && step.how == Force {
      assert steps[0].CloseBy?;
    } else if s.asked < t.asked {
      if step.Append? { AppendedIs(s, step.i); }
      GracefulShutdownIsDrained(s, step);
    } else {
      GracefulCloseFinishes(t, steps[1..]);
      assert forall i | 0 <= i < |steps| - 1 :: steps[1..][i] == steps[i + 1];
    }
  }

  // After a failed write no write that carries bytes is ever submitted again, so that nothing
  // drains, no callback fires, and no completion submits the shutdown: it never goes out
  // unless somebody forces a close.
  lemma StalledHandle(s: Sys, i: nat, ring: nat)
    requires Inv(s) && 0 < s.failures && Enabled(s, Handle(i, ring))
    ensures var t := Handled(s, i, ring);
      t.sock == s.sock.(errors := s.sock.errors + 1) && t.asked == s.asked && t.failures == s.failures
  {
    BigAt(s.writes, i, None);
    HandledError(s, i, ring);
  }

  lemma StalledStep(s: Sys, step: Step)
    requires Inv(s) && 0 < s.failures && Enabled(s, step) && Apply(s, step).sock.connected
    ensures var t := Apply(s, step);
      && 0 < t.failures && Fifo(s.sock.send) <= Fifo(t.sock.send) && t.sock.completions == s.sock.completions
      && (s.asked < t.asked ==> step.CloseBy? && step.how == Force)
  {
    match step {
      case Append(i) =>
        AppendedIs(s, i);
        PushStep(s.sock.l, s.sock.send, s.ready[i]);
      case Transfer(_, _, _) => KernelIs(s, step);
      case Fail(_, _) => KernelIs(s, step);
      case Handle(i, ring) => StalledHandle(s, i, ring);
      case Hangup =>
      case _ => PassiveIs(s, step);
    }
  }

  lemma {:induction false} FailureStalls(s: Sys, steps: seq<Step>)
    requires Inv(s) && 0 < s.failures && Legal(s, steps) && Exec(s, steps).sock.connected
    ensures var t := Exec(s, steps);
      && Fifo(s.sock.send) <= Fifo(t.sock.send) && Big(t.writes) == [] && t.sock.completions == s.sock.completions
      && (s.asked < t.asked ==> Forced(steps))
    decreases steps
  {
    if steps != [] {
      var t := Apply(s, steps[0]);
      StaysConnected(t, steps[1..]);
      StalledStep(s, steps[0]);
      StepKeeps(s, steps[0]);
      FailureStalls(t, steps[1..]);
      Grown(Fifo(s.sock.send), Fifo(t.sock.send), Fifo(Exec(s, steps).sock.send));
      assert forall i | 0 <= i < |steps| - 1 :: steps[1..][i] == steps[i + 1];
    }
  }

  lemma Grown(a: seq<byte>, b: seq<byte>, c: seq<byte>)
    requires a <= b <= c
    ensures a <= c
  {
    assert a == b[..|a|] == c[..|b|][..|a|];
  }

  lemma AdmitsStep(s: Sys, step: Step)
    requires s.sock.graceful && Enabled(s, step)
    ensures var t := Apply(s, step);
      t.sock.graceful && |t.accepted| + Total(t.ready) == |s.accepted| + Total(s.ready)
  {
    match step {
      case Append(i) =>
        AppendedIs(s, i);
        TotalWithout(s.ready, i);
      case Handle(_, _) => HandleAccepts(s, step);
      case _ =>
    }
  }

  // Once the flag is up no run accepts a byte that had not passed the checks before.
  lemma {:induction false} GracefulAdmitsNothing(s: Sys, steps: seq<Step>)
    requires s.sock.graceful && Legal(s, steps)
    ensures Exec(s, steps).sock.graceful
    ensures |Exec(s, steps).accepted| + Total(Exec(s, steps).ready) == |s.accepted| + Total(s.ready)
    decreases steps
  {
    if steps != [] {
      AdmitsStep(s, steps[0]);
      GracefulAdmitsNothing(Apply(s, steps[0]), steps[1..]);
    }
  }

  // A graceful close stops later sends exactly when data was pending: on an idle socket it
  // submits the shutdown but leaves the flag down.
  lemma GracefulCloseRefusesIff(s: Sys, ring: nat)
    requires s.sock.connected && !s.sock.graceful
    ensures var t := Apply(s, CloseBy(Graceful, ring));
      && (!Admits(t.sock) <==> Fifo(s.sock.send) != [])
      && (t.asked == s.asked <==> Fifo(s.sock.send) != [])
  {
  }

  // --- Hanging up -----------------------------------------------------------------------

  // io_shutdown frees both buffers: a view still in flight shows nothing any more, and a
  // send that already passed its checks returns exactly if it carries no bytes.
  lemma HangupEndsViews(s: Sys, n: nat)
    requires Inv(s) && s.sock.connected
    ensures var t := Apply(s, Hangup);
      && t.sock.send == NO_DBL && !t.sock.connected
      && (t.sock.send.CanPush(n) <==> n == 0)
      && (|Big(s.writes)| == 1 ==> Peek(t.sock, Big(s.writes)[0].base, Big(s.writes)[0].len) == None)
  {
  }

  // Up to the hang-up the invariant holds, from then on the buffers are gone.
  lemma EndedStep(s: Sys, step: Step)
    requires (s.sock.connected && Inv(s)) || (!s.sock.connected && s.sock.send == NO_DBL)
    requires Enabled(s, step)
    ensures var t := Apply(s, step); (t.sock.connected && Inv(t)) || (!t.sock.connected && t.sock.send == NO_DBL)
  {
    if Apply(s, step).sock.connected {
      StepKeeps(s, step);
    } else if s.sock.connected {
      HangsUp(s, step);
    } else {
      FinalStep(s, step);
    }
  }

  // The hang-up is the only step that takes a socket down.
  lemma HangsUp(s: Sys, step: Step)
    requires Inv(s) && s.sock.connected && Enabled(s, step) && !Apply(s, step).sock.connected
    ensures step == Hangup && Apply(s, step).sock.send == NO_DBL
  {
    if step.Append? || step.Handle? {
      LockedIs(s, step);
    }
  }

  lemma {:induction false} EndedOrInv(s: Sys, steps: seq<Step>)
    requires (s.sock.connected && Inv(s)) || (!s.sock.connected && s.sock.send == NO_DBL)
    requires Legal(s, steps)
    ensures var t := Exec(s, steps); (t.sock.connected && Inv(t)) || (!t.sock.connected && t.sock.send == NO_DBL)
    decreases steps
  {
    if steps != [] {
      EndedStep(s, steps[0]);
      EndedOrInv(Apply(s, steps[0]), steps[1..]);
    }
  }

  lemma FinalStep(s: Sys, step: Step)
    requires !s.sock.connected && s.sock.send == NO_DBL && Enabled(s, step)
    ensures var t := Apply(s, step); t.accepted == s.accepted && !t.sock.connected && t.sock.send == NO_DBL
  {
    match step {
      case Append(i) => AppendedIs(s, i);
      case Handle(i, ring) =>
        HandleAccepts(s, step);
        if 0 < s.writes[i].res.value { HandledSent(s, i, ring); }
      case _ =>
    }
  }

  // After that no run accepts another byte.
  lemma {:induction false} HangupIsFinal(s: Sys, steps: seq<Step>)
    requires !s.sock.connected && s.sock.send == NO_DBL && Legal(s, steps)
    ensures Exec(s, steps).accepted == s.accepted && !Exec(s, steps).sock.connected
    decreases steps
  {
    if steps != [] {
      FinalStep(s, steps[0]);
      HangupIsFinal(Apply(s, steps[0]), steps[1..]);
    }
  }
}

/** The Windows form of the sender: the front of main is copied into a registered bind
    buffer, at most one buffer's worth at a time, and the kernel reads the copy. */
module WinSender {
  import opened Memory
  import opened IoBuffers
  import opened IoDoubleBuffers
  import opened IoServices
  import opened TcpSockets
  import F = FifoSender

  datatype WinSock = WinSock(
    l: Ledger, send: Dbl, bind: seq<byte>,
    connected: bool, graceful: bool, open: bool, completions: nat)

  // submit_sending: the new bind buffer, and the length submitted.
  function Loaded(s: WinSock): (WinSock, nat)
    requires |s.bind| == DATA_BUFFER_SIZE
  {
    var data := s.send.main.data;
    var size := if |data| < DATA_BUFFER_SIZE then |data| else DATA_BUFFER_SIZE;
    (s.(bind := data[..size] + s.bind[size..]), size)
  }

  // The locked part of a send; the lengths are the submitted ones.
  function WinSent(s: WinSock, bytes: seq<byte>): (WinSock, seq<nat>)
    requires |s.bind| == DATA_BUFFER_SIZE && s.send.CanPush(|bytes|)
  {
    var (l', d) := Queued(s.l, s.send, bytes);
    var t := s.(l := l', send := d);
    if s.send.IsEmpty() then var (u, n) := Loaded(t); (u, [n]) else (t, [])
  }

  // The end of io_sent: the next write, or the end of a busy period; a drained graceful socket
  // is closed on the spot.
  function WinContinued(s: WinSock): (WinSock, seq<nat>)
    requires |s.bind| == DATA_BUFFER_SIZE
  {
    if !s.send.IsEmpty() then var (t, n) := Loaded(s); (t, [n])
    else (s.(completions := s.completions + 1, open := s.open && !s.graceful), [])
  }

  // io_sent.
  function WinAcked(s: WinSock, n: nat): (WinSock, seq<nat>)
    requires |s.bind| == DATA_BUFFER_SIZE
  {
    var (l', d) := Elevated(s.l, Unqueued(s.send, n));
    WinContinued(s.(l := l', send := d))
  }

  // The tests a send makes before it takes the lock.
  predicate WinAdmits(s: WinSock) {
    !s.graceful && s.connected
  }

  function WinClosing(s: WinSock, how: CloseType): WinSock {
    if how == Graceful && !s.send.IsEmpty() then s.(graceful := true) else s.(open := false)
  }

  // --- The step system ------------------------------------------------------------------

  datatype Flight = Flight(len: nat, res: Option<nat>)

  datatype Win = Win(sock: WinSock, writes: seq<Flight>, accepted: seq<byte>, delivered: seq<byte>)

  datatype Step =
    | Append(bytes: seq<byte>)       // the locked part of a send that passed its checks
    | Complete(i: nat, n: nat)       // the kernel reads n bytes of the bind buffer for write i
    | Handle(i: nat)
    | CloseBy(how: CloseType)
    | Hangup
    | Elsewhere(l: Ledger)

  function Submit(s: Win, lens: seq<nat>): Win {
    if lens == [] then s else s.(writes := s.writes + [Flight(lens[0], None)])
  }

  ghost predicate Enabled(s: Win, step: Step) {
    && |s.sock.bind| == DATA_BUFFER_SIZE
    && match step
       case Append(bytes) => s.sock.send.CanPush(|bytes|)
       case Complete(i, n) =>
         i < |s.writes| && s.writes[i].res == None && n <= s.writes[i].len && n <= DATA_BUFFER_SIZE
       case Handle(i) => i < |s.writes| && s.writes[i].res.Some?
       case CloseBy(_) => true
       case Hangup => true
       case Elsewhere(l) => l.Valid() && Owns(s.sock.send) <= l.live && s.sock.l.next <= l.next
  }

  ghost function Apply(s: Win, step: Step): Win
    requires Enabled(s, step)
  {
    match step
    case Append(bytes) =>
      var (sock, lens) := WinSent(s.sock, bytes);
      Submit(s.(sock := sock, accepted := s.accepted + bytes), lens)
    case Complete(i, n) =>
      s.(writes := s.writes[i := s.writes[i].(res := Some(n))],
         delivered := s.delivered + s.sock.bind[..n])
    case Handle(i) =>
      var (sock, lens) := WinAcked(s.sock, s.writes[i].res.value);
      Submit(s.(sock := sock, writes := s.writes[..i] + s.writes[i + 1..]), lens)
    case CloseBy(how) => s.(sock := WinClosing(s.sock, how))
    case Hangup => s.(sock := s.sock.(connected := false, open := false))
    case Elsewhere(l) => s.(sock := s.sock.(l := l))
  }

  ghost predicate Legal(s: Win, steps: seq<Step>)
    decreases steps
  {
    steps == [] || (Enabled(s, steps[0]) && Legal(Apply(s, steps[0]), steps[1..]))
  }

  ghost function Exec(s: Win, steps: seq<Step>): Win
    requires Legal(s, steps)
    decreases steps
  {
    if steps == [] then s else Exec(Apply(s, steps[0]), steps[1..])
  }

  function Started(l: Ledger, bind: seq<byte>): Win {
    var (l', d) := AssignedMain(l, NO_DBL, DATA_BUFFER_SIZE);
    Win(WinSock(l', d, bind, true, false, true, 0), [], [], [])
  }

  // --- The invariant --------------------------------------------------------------------

  function Flown(s: Win): nat {
    if s.writes != [] && s.writes[0].res.Some? then s.writes[0].res.value else 0
  }

  // One write in flight exactly while there is data, and the bind buffer shows its bytes.
  predicate SingleWrite(s: Win) {
    if Fifo(s.sock.send) == [] then s.writes == []
    else
      && |s.writes| == 1
      && var w, main := s.writes[0], s.sock.send.main.data;
        && 1 <= w.len <= |main| && w.len <= DATA_BUFFER_SIZE == |s.sock.bind|
        && s.sock.bind[..w.len] == main[..w.len]
        && (w.res.Some? ==> w.res.value <= w.len)
  }

  ghost predicate Inv(s: Win) {
    && |s.sock.bind| == DATA_BUFFER_SIZE
    && IoDoubleBuffers.Ready(s.sock.l, s.sock.send)
    && (s.sock.send.main.data == [] ==> s.sock.send.sub.data == [])
    && SingleWrite(s)
    && Flown(s) <= |s.delivered|
    && s.accepted == s.delivered + Fifo(s.sock.send)[Flown(s)..]
  }

  function View(s: Win): F.Abs {
    F.Abs(s.accepted, s.delivered,
          if |Fifo(s.sock.send)| <= |s.accepted| then |s.accepted| - |Fifo(s.sock.send)| else 0,
          if s.writes == [] then None else Some(s.writes[0].len))
  }

  // Some data, or a queue that already has a write under way.
  predicate Harmless(s: Win, step: Step) {
    step.Append? ==> step.bytes != [] || !s.sock.send.IsEmpty()
  }

  // What a write loaded from queue d looks like.
  lemma LoadedShows(s: WinSock)
    requires |s.bind| == DATA_BUFFER_SIZE && s.send.main.data != []
    ensures var (t, n) := Loaded(s);
      && t == s.(bind := t.bind) && |t.bind| == DATA_BUFFER_SIZE
      && 1 <= n <= |s.send.main.data| && n <= DATA_BUFFER_SIZE
      && t.bind[..n] == s.send.main.data[..n]
  {
  }

  // What the first send of a busy period comes to.
  lemma StartIs(s: Win, bytes: seq<byte>)
    requires Inv(s) && bytes != [] && s.sock.send.IsEmpty()
    ensures Enabled(s, Append(bytes))
    ensures var t := Apply(s, Append(bytes));
      && t.accepted == s.accepted + bytes && t.delivered == s.delivered
      && |t.sock.bind| == DATA_BUFFER_SIZE && IoDoubleBuffers.Ready(t.sock.l, t.sock.send)
      && t.sock.send.main.data == bytes && t.sock.send.sub.data == []
      && |t.writes| == 1 && t.writes[0].res == None
      && 1 <= t.writes[0].len <= |bytes| && t.writes[0].len <= DATA_BUFFER_SIZE
      && t.sock.bind[..t.writes[0].len] == bytes[..t.writes[0].len]
  {
    var d := s.sock.send;
    PushStep(s.sock.l, d, bytes);
    var (l', d') := Queued(s.sock.l, d, bytes);
    assert d'.main.data == bytes;
    LoadedShows(s.sock.(l := l', send := d'));
  }

  // The state after it, for a queue that was drained.
  lemma StartKeeps(s: Win, t: Win, bytes: seq<byte>)
    requires Inv(s) && bytes != [] && s.sock.send.IsEmpty()
    requires t.accepted == s.accepted + bytes && t.delivered == s.delivered
    requires |t.sock.bind| == DATA_BUFFER_SIZE && IoDoubleBuffers.Ready(t.sock.l, t.sock.send)
    requires t.sock.send.main.data == bytes && t.sock.send.sub.data == []
    requires |t.writes| == 1 && t.writes[0].res == None
    requires 1 <= t.writes[0].len <= |bytes| && t.writes[0].len <= DATA_BUFFER_SIZE
    requires t.sock.bind[..t.writes[0].len] == bytes[..t.writes[0].len]
    ensures Inv(t) && F.Accepts(View(s), View(t))
  {
    assert Fifo(s.sock.send)[0..] == [];
    assert Fifo(t.sock.send) == bytes && Fifo(t.sock.send)[0..] == bytes;
  }

  lemma AppendStarts(s: Win, bytes: seq<byte>)
    requires Inv(s) && bytes != [] && s.sock.send.IsEmpty()
    ensures Enabled(s, Append(bytes))
    ensures var t := Apply(s, Append(bytes)); Inv(t) && F.Accepts(View(s), View(t))
  {
    StartIs(s, bytes);
    StartKeeps(s, Apply(s, Append(bytes)), bytes);
  }

  // What a send that finds data queued comes to ...
  lemma JoinIs(s: Win, bytes: seq<byte>)
    requires Inv(s) && !s.sock.send.IsEmpty()
    ensures Enabled(s, Append(bytes))
    ensures var t := Apply(s, Append(bytes));
      var d, d' := s.sock.send, t.sock.send;
      && t.accepted == s.accepted + bytes && t.delivered == s.delivered && t.writes == s.writes
      && t.sock.bind == s.sock.bind && IoDoubleBuffers.Ready(t.sock.l, d')
      && Fifo(d') == Fifo(d) + bytes && d.main.data <= d'.main.data && d.main.data != []
  {
    PushStep(s.sock.l, s.sock.send, bytes);
    PushSparesMain(s.sock.l, s.sock.send, bytes);
  }

  // ... and what is then in flight.
  lemma JoinKeeps(s: Win, t: Win, bytes: seq<byte>)
    requires Inv(s) && s.sock.send.main.data != []
    requires t.accepted == s.accepted + bytes && t.delivered == s.delivered && t.writes == s.writes
    requires t.sock.bind == s.sock.bind && IoDoubleBuffers.Ready(t.sock.l, t.sock.send)
    requires Fifo(t.sock.send) == Fifo(s.sock.send) + bytes && s.sock.send.main.data <= t.sock.send.main.data
    ensures Inv(t) && F.Accepts(View(s), View(t))
  {
    var d, d', w := s.sock.send, t.sock.send, s.writes[0];
    assert d'.main.data[..w.len] == d.main.data[..w.len];
    assert Fifo(d')[Flown(s)..] == Fifo(d)[Flown(s)..] + bytes;
  }

  lemma AppendJoins(s: Win, bytes: seq<byte>)
    requires Inv(s) && !s.sock.send.IsEmpty()
    ensures Enabled(s, Append(bytes))
    ensures var t := Apply(s, Append(bytes)); Inv(t) && F.Accepts(View(s), View(t))
  {
    JoinIs(s, bytes);
    JoinKeeps(s, Apply(s, Append(bytes)), bytes);
  }

  lemma CompleteKeeps(s: Win, i: nat, n: nat)
    requires Inv(s) && Enabled(s, Complete(i, n))
    ensures Inv(Apply(s, Complete(i, n)))
    ensures s.sock.bind[..n] == Fifo(s.sock.send)[..n] && s.accepted == s.delivered + Fifo(s.sock.send)
  {
    var d, w := s.sock.send, s.writes[0];
    assert s.sock.bind[..n] == s.sock.bind[..w.len][..n] == d.main.data[..w.len][..n] == d.main.data[..n];
    assert Fifo(d)[..n] == d.main.data[..n];
    assert Fifo(d)[0..] == Fifo(d) == Fifo(d)[..n] + Fifo(d)[n..];
  }

  lemma CompleteRefines(s: Win, i: nat, n: nat)
    requires Inv(s) && Enabled(s, Complete(i, n))
    ensures F.Next(View(s), View(Apply(s, Complete(i, n))))
  {
    CompleteKeeps(s, i, n);
    if n != 0 {
      assert s.accepted[|s.delivered|..|s.delivered| + n] == Fifo(s.sock.send)[..n];
      assert F.Transfers(View(s), View(Apply(s, Complete(i, n))));
    }
  }

  lemma HandledIs(s: Win, i: nat)
    requires Inv(s) && Enabled(s, Handle(i))
    ensures i == 0 && |s.writes| == 1
    ensures var d := s.sock.send;
      var d' := Elevated(s.sock.l, Unqueued(d, s.writes[0].res.value)).1;
      var t := Apply(s, Handle(i));
      && Fifo(d') == Fifo(d)[Flown(s)..] && t.sock.send == d'
      && IoDoubleBuffers.Ready(t.sock.l, d') && (d'.main.data == [] ==> d'.sub.data == [])
      && t.accepted == s.accepted && t.delivered == s.delivered
      && |t.sock.bind| == DATA_BUFFER_SIZE
      && (d'.IsEmpty() ==> t.writes == [])
      && (!d'.IsEmpty() ==>
            && t.sock.open == s.sock.open
            && |t.writes| == 1 && t.writes[0].res == None
            && 1 <= t.writes[0].len <= |d'.main.data| && t.writes[0].len <= DATA_BUFFER_SIZE
            && t.sock.bind[..t.writes[0].len] == d'.main.data[..t.writes[0].len])
  {
    var d, n := s.sock.send, s.writes[0].res.value;
    PopStep(s.sock.l, d, n);
    ElevateStep(s.sock.l, Unqueued(d, n));
    var (l', d') := Elevated(s.sock.l, Unqueued(d, n));
    assert s.writes[..0] + s.writes[1..] == [];
    if !d'.IsEmpty() {
      LoadedShows(s.sock.(l := l', send := d'));
    }
  }

  lemma HandleRefines(s: Win, i: nat)
    requires Inv(s) && Enabled(s, Handle(i))
    ensures var t := Apply(s, Handle(i)); Inv(t) && F.Acks(View(s), View(t))
    ensures var t := Apply(s, Handle(i)); s.sock.open && !t.sock.open ==> t.delivered == t.accepted
  {
    HandledIs(s, i);
    var t := Apply(s, Handle(i));
    assert Fifo(t.sock.send)[0..] == Fifo(t.sock.send);
  }

  lemma PassiveRefines(s: Win, step: Step)
    requires Inv(s) && Enabled(s, step) && (step.CloseBy? || step.Hangup? || step.Elsewhere?)
    ensures Inv(Apply(s, step)) && View(Apply(s, step)) == View(s)
    ensures s.sock.open && !Apply(s, step).sock.open && step == CloseBy(Graceful) ==> s.delivered == s.accepted
  {
  }

  // Every harmless step of the Windows sender is a step of the FIFO sender, or none, and a
  // graceful close that closes the socket does so with everything delivered.
  lemma WinRefines(s: Win, step: Step)
    requires Inv(s) && Enabled(s, step) && Harmless(s, step)
    ensures Inv(Apply(s, step)) && F.Next(View(s), View(Apply(s, step)))
    ensures s.sock.open && !Apply(s, step).sock.open && (step == CloseBy(Graceful) || step.Handle?)
            ==> Apply(s, step).delivered == Apply(s, step).accepted
  {
    match step {
      case Append(bytes) =>
        if s.sock.send.IsEmpty() { AppendStarts(s, bytes); } else { AppendJoins(s, bytes); }
      case Complete(i, n) =>
        CompleteKeeps(s, i, n);
        CompleteRefines(s, i, n);
      case Handle(i) => HandleRefines(s, i);
      case _ => PassiveRefines(s, step);
    }
  }

  ghost predicate AllHarmless(s: Win, steps: seq<Step>)
    requires Legal(s, steps)
    decreases steps
  {
    steps == [] || (Harmless(s, steps[0]) && AllHarmless(Apply(s, steps[0]), steps[1..]))
  }

  // What a run shows: its starting state and the state after every step.
  ghost function Trace(s: Win, steps: seq<Step>): (run: seq<F.Abs>)
    requires Legal(s, steps)
    ensures |run| == |steps| + 1 && run[0] == View(s)
    decreases steps
  {
    [View(s)] + if steps == [] then [] else Trace(Apply(s, steps[0]), steps[1..])
  }

  lemma {:induction false} TraceAt(s: Win, steps: seq<Step>, i: nat)
    requires Legal(s, steps) && i <= |steps|
    ensures Legal(s, steps[..i]) && Trace(s, steps)[i] == View(Exec(s, steps[..i]))
    decreases steps
  {
    if i != 0 {
      TraceAt(Apply(s, steps[0]), steps[1..], i - 1);
      assert steps[..i][1..] == steps[1..][..i - 1];
    }
  }

  // Every run without sends of nothing on an idle queue shows a behaviour of the FIFO sender,
  // state by state.
  lemma WinRunsAreBehaviours(l: Ledger, bind: seq<byte>, steps: seq<Step>)
    requires l.Valid() && |bind| == DATA_BUFFER_SIZE
    requires Legal(Started(l, bind), steps) && AllHarmless(Started(l, bind), steps)
    ensures F.Behaviour(Trace(Started(l, bind), steps))
  {
    TraceSteps(Started(l, bind), steps);
  }

  lemma {:induction false} TraceSteps(s: Win, steps: seq<Step>)
    requires Inv(s) && Legal(s, steps) && AllHarmless(s, steps)
    ensures F.Steps(Trace(s, steps))
    decreases steps
  {
    if steps != [] {
      WinRefines(s, steps[0]);
      TraceSteps(Apply(s, steps[0]), steps[1..]);
      F.StepBefore(View(s), Trace(Apply(s, steps[0]), steps[1..]));
    }
  }

  // --- Closing --------------------------------------------------------------------------

  // A graceful close with data pending refuses all later sends and leaves the socket open; one
  // of an idle socket, and any forced close, closes it at once and refuses nothing.
  lemma CloseRefusesIff(s: Win, how: CloseType)
    requires WinAdmits(s.sock) && s.sock.open && Enabled(s, CloseBy(how))
    ensures var t := Apply(s, CloseBy(how));
      && (!WinAdmits(t.sock) <==> how == Graceful && Fifo(s.sock.send) != [])
      && (t.sock.open <==> how == Graceful && Fifo(s.sock.send) != [])
      && t.sock.send == s.sock.send && t.writes == s.writes
  {
  }

  // Once the flag is up it stays up, so that no send is admitted any more.
  lemma {:induction false} RefusesForEver(s: Win, steps: seq<Step>)
    requires !WinAdmits(s.sock) && Legal(s, steps)
    ensures !WinAdmits(Exec(s, steps).sock)
    decreases steps
  {
    if steps != [] {
      FlagsStay(s, steps[0]);
      RefusesForEver(Apply(s, steps[0]), steps[1..]);
    }
  }

  // No step lowers the flag or takes a socket up again, and none but a hang-up takes one down.
  lemma FlagsStay(s: Win, step: Step)
    requires Enabled(s, step)
    ensures var t := Apply(s, step);
      && (s.sock.graceful ==> t.sock.graceful)
      && t.sock.connected == (s.sock.connected && step != Hangup)
  {
  }

  // A socket just activated admits sends; once it has hung up it never does.
  lemma HangupRefuses(l: Ledger, bind: seq<byte>, steps: seq<Step>)
    requires l.Valid() && |bind| == DATA_BUFFER_SIZE && Legal(Started(l, bind), steps)
    ensures WinAdmits(Started(l, bind).sock)
    ensures Hangup in steps ==> !WinAdmits(Exec(Started(l, bind), steps).sock)
  {
    if Hangup in steps {
      HungUp(Started(l, bind), steps);
    }
  }

  lemma {:induction false} HungUp(s: Win, steps: seq<Step>)
    requires Legal(s, steps) && (Hangup in steps || !s.sock.connected)
    ensures !Exec(s, steps).sock.connected
    decreases steps
  {
    if steps != [] {
      FlagsStay(s, steps[0]);
      HungUp(Apply(s, steps[0]), steps[1..]);
    }
  }

  // Completions that brought bytes, handled in a run; bytes that join the queue in it.
  predicate Sends(s: Win, step: Step) {
    step.Handle? && step.i < |s.writes| && s.writes[step.i].res.Some? && 0 < s.writes[step.i].res.value
  }

  ghost function Sents(s: Win, steps: seq<Step>): nat
    requires Legal(s, steps)
    decreases steps
  {
    if steps == [] then 0
    else (if Sends(s, steps[0]) then 1 else 0) + Sents(Apply(s, steps[0]), steps[1..])
  }

  function Joins(steps: seq<Step>): nat {
    if steps == [] then 0 else (if steps[0].Append? then |steps[0].bytes| else 0) + Joins(steps[1..])
  }

  predicate Forced(steps: seq<Step>) {
    CloseBy(Force) in steps
  }

  // The step closes the socket, with everything delivered and no write in flight.
  ghost predicate ClosesDrained(s: Win, step: Step)
    requires Enabled(s, step)
  {
    var t := Apply(s, step);
    s.sock.open && !t.sock.open && t.delivered == t.accepted && Fifo(t.sock.send) == [] && t.writes == []
  }

  ghost predicate EverClosesDrained(s: Win, steps: seq<Step>)
    requires Legal(s, steps)
    decreases steps
  {
    steps != [] && (ClosesDrained(s, steps[0]) || EverClosesDrained(Apply(s, steps[0]), steps[1..]))
  }

  // The handling of a completion pops what it brought; when that drains a graceful socket, it
  // closes it, and otherwise the socket stays open.
  lemma HandleDrains(s: Win, i: nat)
    requires Inv(s) && Enabled(s, Handle(i)) && s.sock.graceful && s.sock.open
    ensures var t := Apply(s, Handle(i));
      if Fifo(t.sock.send) == [] then ClosesDrained(s, Handle(i))
      else t.sock.open && |Fifo(t.sock.send)| + (if Sends(s, Handle(i)) then 1 else 0) <= |Fifo(s.sock.send)|
  {
    HandledIs(s, i);
    HandleRefines(s, i);
  }

  lemma AppendDrains(s: Win, bytes: seq<byte>)
    requires Inv(s) && Enabled(s, Append(bytes)) && Fifo(s.sock.send) != []
    ensures var t := Apply(s, Append(bytes));
      t.sock.open == s.sock.open && |Fifo(t.sock.send)| == |Fifo(s.sock.send)| + |bytes|
  {
    PushStep(s.sock.l, s.sock.send, bytes);
  }

  lemma DrainStep(s: Win, step: Step)
    requires Inv(s) && Enabled(s, step) && s.sock.graceful && s.sock.open && Fifo(s.sock.send) != []
    requires step != Hangup && step != CloseBy(Force)
    ensures var t := Apply(s, step);
      || ClosesDrained(s, step)
      || (t.sock.open && t.sock.graceful && Fifo(t.sock.send) != []
          && |Fifo(t.sock.send)| + (if Sends(s, step) then 1 else 0)
             <= |Fifo(s.sock.send)| + (if step.Append? then |step.bytes| else 0))
  {
    FlagsStay(s, step);
    match step {
      case Append(bytes) => AppendDrains(s, bytes);
      case Handle(i) => HandleDrains(s, i);
      case _ =>
    }
  }

  // From there, within as many completions with bytes as there are bytes pending, or that sends
  // already past their tests still add, the socket is closed with everything delivered,
  // whatever else happens in between except a forced close or a hang-up.
  lemma {:induction false} GracefulCloseFinishes(s: Win, steps: seq<Step>)
    requires Inv(s) && s.sock.graceful && s.sock.open && Fifo(s.sock.send) != [] && Legal(s, steps)
    requires |Fifo(s.sock.send)| + Joins(steps) <= Sents(s, steps)
    ensures Forced(steps) || Hangup in steps || EverClosesDrained(s, steps)
    decreases steps
  {
    var step := steps[0];
    if step != CloseBy(Force) && step != Hangup && !ClosesDrained(s, step) {
      DrainStep(s, step);
      WinRefines(s, step);
      GracefulCloseFinishes(Apply(s, step), steps[1..]);
    }
  }

  // The callback is called exactly when a completion is handled and leaves nothing queued, and
  // that is the only way other than a close or a hang-up for the socket to be closed.
  lemma CompletesIff(s: Win, step: Step)
    requires Enabled(s, step)
    ensures var t := Apply(s, step);
      && t.sock.completions == s.sock.completions + (if step.Handle? && Fifo(t.sock.send) == [] then 1 else 0)
      && (step.Handle? ==> (t.sock.open <==> s.sock.open && !(s.sock.graceful && Fifo(t.sock.send) == [])))
  {
  }

  // Whenever a write is submitted, it shows the front of main, as much of it as the bind buffer
  // holds.
  lemma SubmitsFullWindow(s: Win, step: Step)
    requires Inv(s) && Enabled(s, step) && Harmless(s, step)
    requires Apply(s, step).writes != [] && (s.writes == [] || step.Handle?)
    ensures var t := Apply(s, step);
      var w, main := t.writes[0], t.sock.send.main.data;
      && |t.writes| == 1 && w.res == None
      && w.len == (if |main| < 65536 then |main| else 65536)
      && t.sock.bind[..w.len] == main[..w.len]
  {
    if step.Handle? {
      HandledIs(s, step.i);
    } else if step.Append? {
      PushStep(s.sock.l, s.sock.send, step.bytes);
    }
  }

  // --- Sends of no bytes ----------------------------------------------------------------

  // Every harmless continuation keeps the stream.
  ghost predicate StaysStream(s: Win) {
    forall steps | Legal(s, steps) && AllHarmless(s, steps) ::
      Exec(s, steps).delivered <= Exec(s, steps).accepted
  }

  lemma {:induction false} RunKeeps(s: Win, steps: seq<Step>)
    requires Inv(s) && Legal(s, steps) && AllHarmless(s, steps)
    ensures Inv(Exec(s, steps))
    decreases steps
  {
    if steps != [] {
      WinRefines(s, steps[0]);
      RunKeeps(Apply(s, steps[0]), steps[1..]);
    }
  }

  // An idle queue on which the given writes are in flight.
  ghost predicate IdleWith(t: Win, writes: seq<Flight>) {
    && |t.sock.bind| == DATA_BUFFER_SIZE && IoDoubleBuffers.Ready(t.sock.l, t.sock.send)
    && t.sock.send.IsEmpty() && t.writes == writes
  }

  // The queue holds the one byte b, and so does the front of the bind buffer.
  ghost predicate OneByte(t: Win, b: byte, writes: seq<Flight>) {
    && |t.sock.bind| == DATA_BUFFER_SIZE && t.sock.bind[..1] == [b]
    && t.sock.send.main.data == [b] && t.sock.send.sub.data == []
    && t.writes == writes
  }

  lemma EmptySend(s: Win)
    requires Inv(s) && s.sock.send.IsEmpty() && Enabled(s, Append([]))
    ensures var t := Apply(s, Append([]));
      IdleWith(t, [Flight(0, None)]) && t.accepted == t.delivered == s.delivered
  {
    PushStep(s.sock.l, s.sock.send, []);
    assert Fifo(s.sock.send)[0..] == [];
  }

  lemma NextSend(t: Win, b: byte)
    requires IdleWith(t, [Flight(0, None)])
    ensures Enabled(t, Append([b]))
    ensures var u := Apply(t, Append([b]));
      && OneByte(u, b, [Flight(0, None), Flight(1, None)])
      && u.accepted == t.accepted + [b] && u.delivered == t.delivered
  {
    PushStep(t.sock.l, t.sock.send, [b]);
    var (l', d') := Queued(t.sock.l, t.sock.send, [b]);
    LoadedShows(t.sock.(l := l', send := d'));
  }

  lemma EmptyHandled(t: Win, b: byte)
    requires OneByte(t, b, [Flight(0, Some(0)), Flight(1, None)])
    ensures var u := Apply(t, Handle(0));
      && OneByte(u, b, [Flight(1, None), Flight(1, None)])
      && u.accepted == t.accepted && u.delivered == t.delivered
  {
    assert t.sock.send.main.data[0..] == [b];
    assert t.writes[..0] + t.writes[1..] == [Flight(1, None)];
    LoadedShows(t.sock);
    assert Unqueued(t.sock.send, 0) == t.sock.send;
  }

  lemma ByteDelivered(t: Win, b: byte, writes: seq<Flight>, i: nat)
    requires OneByte(t, b, writes) && i < |writes| && writes[i] == Flight(1, None)
    ensures Enabled(t, Complete(i, 1))
    ensures var u := Apply(t, Complete(i, 1));
      && OneByte(u, b, writes[i := Flight(1, Some(1))])
      && u.accepted == t.accepted && u.delivered == t.delivered + [b]
  {
  }

  // A send of no bytes on an idle socket puts an empty write in flight.  The next send finds
  // the queue still empty and submits its own; when the empty one is handled, the queue has
  // data, so that data is submitted, and delivered, a second time.
  lemma EmptySendDuplicates(s: Win, b: byte) returns (steps: seq<Step>)
    requires Inv(s) && s.sock.send.IsEmpty() && Enabled(s, Append([]))
    ensures var t := Apply(s, Append([]));
      && Legal(t, steps) && AllHarmless(t, steps)
      && Exec(t, steps).accepted == s.delivered + [b] && Exec(t, steps).delivered == s.delivered + [b] + [b]
  {
    EmptySend(s);
    var t := Apply(s, Append([]));
    steps := DuplicatingRun(t, b);
  }

  lemma DuplicatingRun(t: Win, b: byte) returns (steps: seq<Step>)
    requires IdleWith(t, [Flight(0, None)])
    ensures Legal(t, steps) && AllHarmless(t, steps)
    ensures Exec(t, steps).accepted == t.accepted + [b] && Exec(t, steps).delivered == t.delivered + [b] + [b]
  {
    steps := [Append([b]), Complete(0, 0), Handle(0), Complete(0, 1), Complete(1, 1)];
    NextSend(t, b);
    var t1 := Apply(t, Append([b]));
    var t2 := Apply(t1, Complete(0, 0));
    assert t2.delivered == t1.delivered + [] == t1.delivered;
    EmptyHandled(t2, b);
    var t3 := Apply(t2, Handle(0));
    ByteDelivered(t3, b, [Flight(1, None), Flight(1, None)], 0);
    var t4 := Apply(t3, Complete(0, 1));
    ByteDelivered(t4, b, [Flight(1, Some(1)), Flight(1, None)], 1);
    var t5 := Apply(t4, Complete(1, 1));
    RunOfFive(t, steps, t1, t2, t3, t4, t5);
  }

  lemma RunOfFive(t: Win, steps: seq<Step>, t1: Win, t2: Win, t3: Win, t4: Win, t5: Win)
    requires |steps| == 5
    requires Enabled(t, steps[0]) && t1 == Apply(t, steps[0]) && Harmless(t, steps[0])
    requires Enabled(t1, steps[1]) && t2 == Apply(t1, steps[1]) && Harmless(t1, steps[1])
    requires Enabled(t2, steps[2]) && t3 == Apply(t2, steps[2]) && Harmless(t2, steps[2])
    requires Enabled(t3, steps[3]) && t4 == Apply(t3, steps[3]) && Harmless(t3, steps[3])
    requires Enabled(t4, steps[4]) && t5 == Apply(t4, steps[4]) && Harmless(t4, steps[4])
    ensures Legal(t, steps) && AllHarmless(t, steps) && Exec(t, steps) == t5
  {
    var r1, r2 := steps[1..], steps[1..][1..];
    var r3, r4 := r2[1..], r2[1..][1..];
    assert r4[1..] == [];
    assert Legal(t4, r4) && AllHarmless(t4, r4) && Exec(t4, r4) == t5;
    assert Legal(t3, r3) && AllHarmless(t3, r3) && Exec(t3, r3) == t5;
    assert Legal(t2, r2) && AllHarmless(t2, r2) && Exec(t2, r2) == t5;
    assert Legal(t1, r1) && AllHarmless(t1, r1) && Exec(t1, r1) == t5;
  }

  // Exactly the sends after which the stream is safe: those with data, or with a write
  // already under way.
  lemma SendSafeIff(s: Win, bytes: seq<byte>)
    requires Inv(s) && Enabled(s, Append(bytes))
    ensures StaysStream(Apply(s, Append(bytes))) <==> bytes != [] || !s.sock.send.IsEmpty()
  {
    var t := Apply(s, Append(bytes));
    if bytes != [] || !s.sock.send.IsEmpty() {
      WinRefines(s, Append(bytes));
      forall steps | Legal(t, steps) && AllHarmless(t, steps)
        ensures Exec(t, steps).delivered <= Exec(t, steps).accepted
      {
        RunKeeps(t, steps);
      }
    } else {
      var steps := EmptySendDuplicates(s, 0);
    }
  }

  // --- The class ------------------------------------------------------------------------

  class WinSocket {
    const heap: Heap
    const sendBuffer: IoDoubleBuffer
    const sendBindBuffer: array<byte>
    var requestQueue: seq<nat>
    var connectedFlag: bool
    var shutdownGracefully: bool
    var handlerOpen: bool
    var completions: nat

    ghost predicate Valid()
      reads this, heap, sendBuffer.mainBuffer, sendBuffer.subBuffer, sendBindBuffer
      reads sendBuffer.mainBuffer.rawBuffer, sendBuffer.subBuffer.rawBuffer
    {
      && sendBuffer.heap == heap && sendBuffer.Valid() && Holds(heap.ledger, sendBuffer.View())
      && sendBindBuffer.Length == DATA_BUFFER_SIZE
      && sendBindBuffer != sendBuffer.mainBuffer.rawBuffer && sendBindBuffer != sendBuffer.subBuffer.rawBuffer
    }

    ghost function View(): WinSock
      reads this, heap, sendBuffer.mainBuffer, sendBuffer.subBuffer, sendBindBuffer
    {
      WinSock(heap.ledger, sendBuffer.View(), sendBindBuffer[..],
              connectedFlag, shutdownGracefully, handlerOpen, completions)
    }

    constructor (heap: Heap)
      requires heap.ledger.Valid()
      ensures Valid() && this.heap == heap && requestQueue == []
      ensures View().send == NO_DBL && !View().connected && !View().graceful && View().open
    {
      this.heap := heap;
      sendBuffer := new IoDoubleBuffer(heap);
      sendBindBuffer := new byte[DATA_BUFFER_SIZE];
      requestQueue := [];
      connectedFlag, shutdownGracefully, handlerOpen, completions := false, false, true, 0;
    }

    // Copies the front of main into the bind buffer.
    method LoadBind(size: nat)
      requires Valid() && size <= |View().send.main.data| && size <= DATA_BUFFER_SIZE
      modifies sendBindBuffer
      ensures sendBindBuffer[..] == old(View()).send.main.data[..size] + old(sendBindBuffer[size..])
    {
      var main := sendBuffer.mainBuffer;
      if main.rawBuffer != null {
        assert main.rawBuffer[..size] == main.view.data[..size];
        Heap.Memcpy(sendBindBuffer, 0, main.rawBuffer[..size]);
        assert sendBindBuffer[..] == sendBindBuffer[..size] + sendBindBuffer[size..];
      }
    }

    method SubmitSending()
      requires Valid()
      modifies `requestQueue, sendBindBuffer
      ensures Valid()
      ensures View() == Loaded(old(View())).0
      ensures requestQueue == old(requestQueue) + [Loaded(old(View())).1]
    {
      var main := sendBuffer.mainBuffer;
      var size := if main.bufferOffset < DATA_BUFFER_SIZE then main.bufferOffset else DATA_BUFFER_SIZE;
      LoadBind(size);
      requestQueue := requestQueue + [size];
    }

    method Send(bytes: seq<byte>) returns (ok: bool)
      requires Valid()
      requires WinAdmits(View()) ==> sendBuffer.View().CanPush(|bytes|)
      modifies `requestQueue, sendBindBuffer, sendBuffer.mainBuffer, sendBuffer.subBuffer, heap
      modifies sendBuffer.mainBuffer.rawBuffer, sendBuffer.subBuffer.rawBuffer
      ensures Valid() && ok == WinAdmits(old(View()))
      ensures !ok ==> View() == old(View()) && requestQueue == old(requestQueue)
      ensures ok ==>
        var (s, lens) := WinSent(old(View()), bytes);
        View() == s && requestQueue == old(requestQueue) + lens
    {
      if shutdownGracefully { return false; }
      if !connectedFlag { return false; }
      HoldsStep(heap.ledger, sendBuffer.View(), DoPush(bytes));
      if sendBuffer.mainBuffer.bufferOffset == 0 && sendBuffer.subBuffer.bufferOffset == 0 {
        sendBuffer.Push(bytes);
        SubmitSending();
      } else {
        sendBuffer.Push(bytes);
      }
      return true;
    }

    method DrainSend(bytesTransferred: nat)
      requires Valid()
      modifies sendBuffer.mainBuffer, sendBuffer.subBuffer, heap, sendBuffer.mainBuffer.rawBuffer
      ensures Valid()
      ensures var (l, d) := Elevated(old(View()).l, Unqueued(old(View()).send, bytesTransferred));
        View() == old(View()).(l := l, send := d)
    {
      HoldsStep(heap.ledger, sendBuffer.View(), DoPop(bytesTransferred));
      sendBuffer.Pop(bytesTransferred);
      HoldsStep(heap.ledger, sendBuffer.View(), DoElevate);
      sendBuffer.Elevate();
    }

    method ContinueSending()
      requires Valid()
      modifies this, sendBindBuffer
      ensures Valid()
      ensures var (s, lens) := WinContinued(old(View()));
        View() == s && requestQueue == old(requestQueue) + lens
    {
      if sendBuffer.mainBuffer.bufferOffset != 0 || sendBuffer.subBuffer.bufferOffset != 0 {
        SubmitSending();
      } else {
        completions := completions + 1;
        if shutdownGracefully {
          handlerOpen := false;
        }
      }
    }

    method IoSent(bytesTransferred: nat)
      requires Valid()
      modifies this, sendBindBuffer, sendBuffer.mainBuffer, sendBuffer.subBuffer, heap
      modifies sendBuffer.mainBuffer.rawBuffer
      ensures Valid()
      ensures var (s, lens) := WinAcked(old(View()), bytesTransferred);
        View() == s && requestQueue == old(requestQueue) + lens
    {
      DrainSend(bytesTransferred);
      ContinueSending();
    }

    method Close(how: CloseType)
      requires Valid()
      modifies `shutdownGracefully, `handlerOpen
      ensures Valid() && View() == WinClosing(old(View()), how)
    {
      if how == Graceful {
        if sendBuffer.mainBuffer.bufferOffset == 0 && sendBuffer.subBuffer.bufferOffset == 0 {
          handlerOpen := false;
        } else {
          shutdownGracefully := true;
        }
      } else {
        handlerOpen := false;
      }
    }
  }
}

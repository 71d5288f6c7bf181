/** Who calls `send`.  A send tests the flags without the lock and enters its locked part later;
    io_shutdown, on the thread of the ring that serves the socket's reads, destroys the buffers
    without the lock.  Whether a send can be caught between the two depends on the thread that
    calls it. */
module SendCallers {
  import opened Memory
  import opened IoBuffers
  import opened IoServices
  import IoDoubleBuffers
  import TcpSockets
  import S = Sender

  // `home`: the ring of the socket's reads.  `inside`: the threads that are inside a send, in
  // the order of the sender's `ready`.
  datatype Calls = Calls(sys: S.Sys, home: nat, inside: seq<Caller>)

  datatype Step =
    | Enter(bytes: seq<byte>, caller: Caller)  // a thread calls send and passes or fails the tests
    | Go(i: nat)                               // ... and its locked part runs
    | Other(step: S.Step)

  // The ring whose thread takes the step, if one does.
  function Thread(c: Calls, step: S.Step): Option<nat> {
    match step
    case Hangup => Some(c.home)
    case Handle(_, ring) => Some(ring)
    case TestFd(k) => if k < |c.sys.shutdowns| then Some(c.sys.shutdowns[k]) else None
    case CopyFd(ring) => Some(ring)
    case ZeroFd(ring) => Some(ring)
    case CloseFd(ring) => Some(ring)
    case _ => None
  }

  // A thread that is inside a send does nothing else.
  ghost predicate Enabled(c: Calls, step: Step) {
    match step
    case Enter(bytes, caller) => caller !in c.inside
    case Go(i) => i < |c.inside| && S.Enabled(c.sys, S.Append(i))
    case Other(st) =>
      && S.Enabled(c.sys, st) && !st.Check? && !st.Append?
      && (Thread(c, st).Some? ==> RingThread(Thread(c, st).value) !in c.inside)
  }

  ghost function Apply(c: Calls, step: Step): Calls
    requires Enabled(c, step)
  {
    match step
    case Enter(bytes, caller) =>
      Calls(S.Apply(c.sys, S.Check(bytes)), c.home,
            if TcpSockets.Admits(c.sys.sock) then c.inside + [caller] else c.inside)
    case Go(i) => Calls(S.Apply(c.sys, S.Append(i)), c.home, S.Without(c.inside, i))
    case Other(st) => c.(sys := S.Apply(c.sys, st))
  }

  ghost predicate Legal(c: Calls, steps: seq<Step>)
    decreases steps
  {
    steps == [] || (Enabled(c, steps[0]) && Legal(Apply(c, steps[0]), steps[1..]))
  }

  ghost function Exec(c: Calls, steps: seq<Step>): Calls
    requires Legal(c, steps)
    decreases steps
  {
    if steps == [] then c else Exec(Apply(c, steps[0]), steps[1..])
  }

  function Started(l: Ledger, home: nat): Calls {
    Calls(S.Started(l), home, [])
  }

  // --- The home thread is never caught ----------------------------------------------------

  ghost predicate Inv(c: Calls) {
    && |c.inside| == |c.sys.ready|
    && (RingThread(c.home) in c.inside ==> c.sys.sock.connected)
    && (if c.sys.sock.connected then S.Inv(c.sys) else c.sys.sock.send == IoDoubleBuffers.NO_DBL)
  }

  // The sender's step behind a step.
  function Behind(step: Step): S.Step {
    match step
    case Enter(bytes, _) => S.Check(bytes)
    case Go(i) => S.Append(i)
    case Other(st) => st
  }

  // Only the two parts of a send change who is waiting, and only a hang-up takes the socket
  // down.
  lemma WaitingIs(c: Calls, step: Step)
    requires Inv(c) && Enabled(c, step)
    ensures var d := Apply(c, step);
      && |d.inside| == |d.sys.ready|
      && (d.sys.sock.connected == c.sys.sock.connected || step == Other(S.Hangup))
  {
    match step {
      case Enter(_, _) =>
      case Go(i) => S.AppendedIs(c.sys, i);
      case Other(st) =>
        if st.Handle? { S.HandleAccepts(c.sys, st); }
    }
  }

  lemma StepKeeps(c: Calls, step: Step)
    requires Inv(c) && Enabled(c, step)
    ensures Inv(Apply(c, step)) && Apply(c, step).home == c.home
  {
    WaitingIs(c, step);
    S.EndedStep(c.sys, Behind(step));
    var d := Apply(c, step);
    if step.Go? && RingThread(c.home) in d.inside {
      assert RingThread(c.home) in c.inside;
    }
  }

  lemma {:induction false} RunKeeps(c: Calls, steps: seq<Step>)
    requires Inv(c) && Legal(c, steps)
    ensures Inv(Exec(c, steps)) && Exec(c, steps).home == c.home
    decreases steps
  {
    if steps != [] {
      StepKeeps(c, steps[0]);
      RunKeeps(Apply(c, steps[0]), steps[1..]);
    }
  }

  // A send that waits with bytes to push, and whose push would not return.
  ghost predicate Caught(c: Calls, i: nat) {
    i < |c.inside| == |c.sys.ready| && c.sys.ready[i] != [] && !Enabled(c, Go(i))
  }

  lemma CaughtIff(c: Calls, i: nat)
    requires Inv(c) && i < |c.inside|
    ensures Caught(c, i) <==> !c.sys.sock.connected && c.sys.ready[i] != []
  {
    if c.sys.sock.connected {
      IoDoubleBuffers.PushStep(c.sys.sock.l, c.sys.sock.send, c.sys.ready[i]);
    }
  }

  // --- Any other thread can be --------------------------------------------------------------

  // In some run a send of this caller is caught.
  ghost predicate CanBeCaught(l: Ledger, home: nat, caller: Caller) {
    exists steps: seq<Step>, i: nat ::
      Legal(Started(l, home), steps) && Caught(Exec(Started(l, home), steps), i)
      && Exec(Started(l, home), steps).inside[i] == caller
  }

  // The read chain ends while another thread is between the tests and the push.
  lemma CaughtRun(l: Ledger, home: nat, caller: Caller, b: byte)
    requires l.Valid() && caller != RingThread(home)
    ensures var steps := [Enter([b], caller), Other(S.Hangup)];
      && Legal(Started(l, home), steps)
      && Caught(Exec(Started(l, home), steps), 0) && Exec(Started(l, home), steps).inside == [caller]
  {
    var c := Started(l, home);
    S.StartedInv(l);
    var c1 := Apply(c, Enter([b], caller));
    StepKeeps(c, Enter([b], caller));
    assert c1.inside == [caller] && c1.sys.ready == [[b]];
    var c2 := Apply(c1, Other(S.Hangup));
    StepKeeps(c1, Other(S.Hangup));
    CaughtIff(c2, 0);
    var rest := [Other(S.Hangup)];
    assert [Enter([b], caller), Other(S.Hangup)][1..] == rest && rest[1..] == [];
    assert Legal(c1, rest) && Exec(c1, rest) == c2;
  }

  // A send is safe from being caught exactly if it is called on the thread of the ring that
  // serves the socket's reads.
  lemma CaughtUnlessHome(l: Ledger, home: nat, caller: Caller)
    requires l.Valid()
    ensures CanBeCaught(l, home, caller) <==> caller != RingThread(home)
  {
    S.StartedInv(l);
    forall steps, i: nat | Legal(Started(l, home), steps) && Caught(Exec(Started(l, home), steps), i)
      ensures Exec(Started(l, home), steps).inside[i] != RingThread(home)
    {
      RunKeeps(Started(l, home), steps);
      CaughtIff(Exec(Started(l, home), steps), i);
    }
    if caller != RingThread(home) {
      CaughtRun(l, home, caller, 0);
    }
  }

  // The thread waits in a send with bytes, k-th in line.
  predicate Waits(c: Calls, k: nat, caller: Caller) {
    k < |c.inside| == |c.sys.ready| && c.inside[k] == caller && c.sys.ready[k] != []
  }

  lemma WaitsOn(c: Calls, step: Step, k: nat, caller: Caller) returns (k': nat)
    requires Inv(c) && !c.sys.sock.connected && Enabled(c, step) && Waits(c, k, caller)
    ensures Waits(Apply(c, step), k', caller) && !Apply(c, step).sys.sock.connected
  {
    k' := k;
    WaitingIs(c, step);
    match step {
      case Go(i) =>
        CaughtIff(c, k);
        S.AppendedIs(c.sys, i);
        if i < k { k' := k - 1; }
      case Enter(_, _) =>
      case Other(st) => if st.Handle? { S.HandleAccepts(c.sys, st); }
    }
  }

  // A caught send stays caught: whatever happens, its thread never gets out of it.
  lemma {:induction false} CaughtForEver(c: Calls, steps: seq<Step>, k: nat, caller: Caller)
    requires Inv(c) && !c.sys.sock.connected && Legal(c, steps) && Waits(c, k, caller)
    ensures caller in Exec(c, steps).inside
    decreases steps
  {
    if steps != [] {
      StepKeeps(c, steps[0]);
      var k' := WaitsOn(c, steps[0], k, caller);
      CaughtForEver(Apply(c, steps[0]), steps[1..], k', caller);
    }
  }
}

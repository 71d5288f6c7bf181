/** The Linux sender implements the FIFO sender. */
module LinuxRefinement {
  import opened Memory
  import opened IoDoubleBuffers
  import opened IoServices
  import opened Sender
  import F = FifoSender

  // What the peer sees: `delivered` is what was taken for it.
  function View(s: Sys): F.Abs {
    F.Abs(s.accepted, s.delivered,
          if |Fifo(s.sock.send)| <= |s.accepted| then |s.accepted| - |Fifo(s.sock.send)| else 0,
          if Big(s.writes) == [] then None else Some(Big(s.writes)[0].len))
  }

  // Nothing was popped that had not been accepted.
  ghost predicate Related(s: Sys) {
    Inv(s) && |Fifo(s.sock.send)| <= |s.accepted|
  }

  ghost predicate Refines(s: Sys, t: Sys) {
    F.Next(View(s), View(t)) && |Fifo(t.sock.send)| <= |t.accepted|
  }

  // A completion is handled whose bytes went to descriptor 0.
  predicate AcksStray(s: Sys, step: Step) {
    && step.Handle? && step.i < |s.writes|
    && !s.writes[step.i].open && s.writes[step.i].res.Some? && 0 < s.writes[step.i].res.value
  }

  lemma AppendRefines(s: Sys, i: nat)
    requires Related(s) && i < |s.ready|
    ensures s.sock.send.CanPush(|s.ready[i]|) && Refines(s, Appended(s, i))
  {
    AppendKeeps(s, i);
    AppendedIs(s, i);
    PushStep(s.sock.l, s.sock.send, s.ready[i]);
    if Fifo(s.sock.send) != [] {
      PushSparesMain(s.sock.l, s.sock.send, s.ready[i]);
    }
    assert F.Accepts(View(s), View(Appended(s, i)));
  }

  lemma TransferRefines(s: Sys, i: nat, n: nat, junk: seq<byte>)
    requires Related(s) && Sender.Enabled(s, Transfer(i, n, junk))
    ensures Refines(s, Sender.Apply(s, Transfer(i, n, junk)))
  {
    TransferSees(s, i, n);
    var t := Sender.Apply(s, Transfer(i, n, junk));
    if s.writes[i].open {
      assert s.strayed == [] && Taken(s) == s.delivered;
      assert Fifo(s.sock.send)[0..] == Fifo(s.sock.send);
      assert F.Transfers(View(s), View(t));
    } else {
      assert View(t) == View(s);
    }
  }

  lemma FailRefines(s: Sys, i: nat, res: int)
    requires Related(s) && Sender.Enabled(s, Fail(i, res))
    ensures Refines(s, Sender.Apply(s, Fail(i, res)))
  {
    BigAt(s.writes, i, Some(res));
  }

  lemma HandleErrorRefines(s: Sys, i: nat, ring: nat)
    requires Related(s) && F.Good(View(s))
    requires Sender.Enabled(s, Handle(i, ring)) && s.writes[i].res.value <= 0
    ensures Refines(s, Handled(s, i, ring))
  {
    BigAt(s.writes, i, None);
    HandledError(s, i, ring);
    if 0 < s.writes[i].len {
      assert |Taken(s)| == |s.delivered| + |s.strayed| == View(s).acked;
      assert F.Stalls(View(s), View(Handled(s, i, ring)));
    }
  }

  lemma HandleSentRefinesIff(s: Sys, i: nat, ring: nat)
    requires Related(s) && F.Good(View(s))
    requires Sender.Enabled(s, Handle(i, ring)) && 0 < s.writes[i].res.value
    ensures Refines(s, Handled(s, i, ring)) <==> s.writes[i].open
    ensures |Fifo(Handled(s, i, ring).sock.send)| <= |s.accepted|
  {
    BigAt(s.writes, i, None);
    HandledSent(s, i, ring);
    HandleSentKeeps(s, i, ring);
    FlowSent(s.sock.l, s.sock.send, s.writes[i], s.accepted, Taken(s), s.sock.open);
    var t := Handled(s, i, ring);
    assert |Taken(s)| == |s.delivered| + |s.strayed|;
    if s.writes[i].open {
      assert F.Acks(View(s), View(t));
    } else {
      assert View(t).delivered == View(s).delivered && View(t).acked == View(s).acked + s.writes[i].res.value;
    }
  }

  lemma PassiveRefines(s: Sys, step: Step)
    requires Related(s) && Sender.Enabled(s, step) && Passive(step)
    ensures Refines(s, Sender.Apply(s, step))
  {
    PassiveIs(s, step);
  }

  lemma HandleRefinesIff(s: Sys, i: nat, ring: nat)
    requires Related(s) && F.Good(View(s)) && Sender.Enabled(s, Handle(i, ring))
    ensures Refines(s, Handled(s, i, ring)) <==> !AcksStray(s, Handle(i, ring))
    ensures |Fifo(Handled(s, i, ring).sock.send)| <= |Handled(s, i, ring).accepted|
  {
    HandleAccepts(s, Handle(i, ring));
    if s.writes[i].res.value <= 0 {
      HandleErrorRefines(s, i, ring);
    } else {
      HandleSentRefinesIff(s, i, ring);
    }
  }

  // A step of the Linux sender is, for the peer, a step of the FIFO sender or none, exactly
  // unless it acknowledges bytes that went to descriptor 0.
  lemma LinuxRefines(s: Sys, step: Step)
    requires Related(s) && F.Good(View(s))
    requires Sender.Enabled(s, step) && Sender.Apply(s, step).sock.connected
    ensures Related(Sender.Apply(s, step))
    ensures Refines(s, Sender.Apply(s, step)) <==> !AcksStray(s, step)
  {
    StepKeeps(s, step);
    match step {
      case Append(i) => AppendRefines(s, i);
      case Transfer(i, n, junk) => TransferRefines(s, i, n, junk);
      case Fail(i, res) => FailRefines(s, i, res);
      case Handle(i, ring) => HandleRefinesIff(s, i, ring);
      case Hangup =>
      case _ => PassiveRefines(s, step);
    }
  }

  ghost predicate AcksStrays(s: Sys, steps: seq<Step>)
    requires Legal(s, steps)
    decreases steps
  {
    steps != [] && (AcksStray(s, steps[0]) || AcksStrays(Sender.Apply(s, steps[0]), steps[1..]))
  }

  // What a run shows: its starting state and the state after every step.
  ghost function Trace(s: Sys, steps: seq<Step>): (run: seq<F.Abs>)
    requires Legal(s, steps)
    ensures |run| == |steps| + 1 && run[0] == View(s)
    decreases steps
  {
    [View(s)] + if steps == [] then [] else Trace(Sender.Apply(s, steps[0]), steps[1..])
  }

  lemma {:induction false} TraceAt(s: Sys, steps: seq<Step>, i: nat)
    requires Legal(s, steps) && i <= |steps|
    ensures Legal(s, steps[..i]) && Trace(s, steps)[i] == View(Exec(s, steps[..i]))
    decreases steps
  {
    if i != 0 {
      TraceAt(Sender.Apply(s, steps[0]), steps[1..], i - 1);
      assert steps[..i][1..] == steps[1..][..i - 1];
    }
  }

  // What the peer of the Linux sender sees, state by state up to the hang-up, is a behaviour of
  // the FIFO sender exactly if no bytes that went to descriptor 0 were acknowledged.
  lemma LinuxRunsAreBehaviours(l: Ledger, steps: seq<Step>)
    requires l.Valid() && Legal(Started(l), steps) && Exec(Started(l), steps).sock.connected
    ensures F.Behaviour(Trace(Started(l), steps)) <==> !AcksStrays(Started(l), steps)
    ensures AcksStrays(Started(l), steps) ==> Strays(Started(l), steps)
  {
    StartedInv(l);
    TraceSteps(Started(l), steps);
    AckedStrayed(Started(l), steps);
  }

  lemma {:induction false} TraceSteps(s: Sys, steps: seq<Step>)
    requires Related(s) && F.Good(View(s)) && Legal(s, steps) && Exec(s, steps).sock.connected
    ensures F.Steps(Trace(s, steps)) <==> !AcksStrays(s, steps)
    decreases steps
  {
    if steps != [] {
      var t := Sender.Apply(s, steps[0]);
      StaysConnected(t, steps[1..]);
      LinuxRefines(s, steps[0]);
      F.StepBefore(View(s), Trace(t, steps[1..]));
      if !AcksStray(s, steps[0]) {
        F.NextKeepsGood(View(s), View(t));
        TraceSteps(t, steps[1..]);
      }
    }
  }

  // What is acknowledged was transferred before.
  predicate TransfersOpen(ws: seq<Flight>) {
    forall i | 0 <= i < |ws| :: ws[i].res.Some? && 0 < ws[i].res.value ==> ws[i].open
  }

  lemma OpenStep(s: Sys, step: Step)
    requires TransfersOpen(s.writes) && Sender.Enabled(s, step) && !Stray(s, step)
    ensures TransfersOpen(Sender.Apply(s, step).writes) && !AcksStray(s, step)
  {
    var t := Sender.Apply(s, step);
    match step {
      case Append(i) => AppendedIs(s, i);
      case Handle(i, ring) =>
        if s.writes[i].res.value <= 0 { HandledError(s, i, ring); } else { HandledSent(s, i, ring); }
        forall k | 0 <= k < |t.writes| && t.writes[k].res.Some? && 0 < t.writes[k].res.value ensures t.writes[k].open {
          assert k < i ==> t.writes[k] == s.writes[k];
          assert i <= k < |s.writes| - 1 ==> t.writes[k] == s.writes[k + 1];
        }
      case _ =>
    }
  }

  lemma {:induction false} AckedOnlyOpen(s: Sys, steps: seq<Step>)
    requires TransfersOpen(s.writes) && Legal(s, steps) && !Strays(s, steps)
    ensures !AcksStrays(s, steps)
    decreases steps
  {
    if steps != [] {
      OpenStep(s, steps[0]);
      AckedOnlyOpen(Sender.Apply(s, steps[0]), steps[1..]);
    }
  }

  lemma AckedStrayed(s: Sys, steps: seq<Step>)
    requires TransfersOpen(s.writes) && Legal(s, steps)
    ensures AcksStrays(s, steps) ==> Strays(s, steps)
  {
    if !Strays(s, steps) {
      AckedOnlyOpen(s, steps);
    }
  }

  // Bytes once delivered to the peer stay delivered, from any moment of any run to any later
  // one.
  lemma {:induction false} DeliveredStays(s: Sys, steps: seq<Step>, i: nat, j: nat)
    requires Legal(s, steps) && i <= j <= |steps|
    ensures Legal(s, steps[..i]) && Legal(s, steps[..j])
    ensures Exec(s, steps[..i]).delivered <= Exec(s, steps[..j]).delivered
    decreases steps
  {
    TraceAt(s, steps, i);
    TraceAt(s, steps, j);
    if i == 0 {
      StrayedIff(s, steps[..j]);
    } else {
      DeliveredStays(Sender.Apply(s, steps[0]), steps[1..], i - 1, j - 1);
      assert steps[..i][1..] == steps[1..][..i - 1] && steps[..j][1..] == steps[1..][..j - 1];
    }
  }
}

/** What a stream sender is for, without buffers: bytes accepted in order, delivered in order,
    acknowledged after delivery, with at most one window of them in the kernel's hands. */
module FifoSender {
  import opened Memory
  import opened IoServices

  datatype Abs = Abs(accepted: seq<byte>, delivered: seq<byte>, acked: nat, window: Option<nat>)

  predicate Good(a: Abs) {
    && a.delivered <= a.accepted
    && a.acked <= |a.delivered|
    && match a.window
       case None => |a.delivered| == a.acked
       case Some(w) => 1 <= w && |a.delivered| <= a.acked + w <= |a.accepted|
  }

  // A window offered over the bytes not yet acknowledged.
  predicate Offers(accepted: seq<byte>, acked: nat, window: Option<nat>) {
    if acked == |accepted| then window == None
    else window.Some? && 1 <= window.value && acked + window.value <= |accepted|
  }

  predicate Accepts(a: Abs, b: Abs) {
    && a.accepted <= b.accepted
    && b.delivered == a.delivered && b.acked == a.acked
    && if a.acked == |a.accepted| then Offers(b.accepted, b.acked, b.window) else b.window == a.window
  }

  predicate Transfers(a: Abs, b: Abs) {
    && a.window.Some? && |a.delivered| == a.acked
    && |a.delivered| < |b.delivered| <= a.acked + a.window.value <= |a.accepted|
    && b.delivered == a.delivered + a.accepted[a.acked..|b.delivered|]
    && b == a.(delivered := b.delivered)
  }

  predicate Acks(a: Abs, b: Abs) {
    && a.window.Some?
    && b.accepted == a.accepted && b.delivered == a.delivered && b.acked == |a.delivered|
    && Offers(b.accepted, b.acked, b.window)
  }

  // A failed write takes its window back and offers none.
  predicate Stalls(a: Abs, b: Abs) {
    a.window.Some? && |a.delivered| == a.acked && b == a.(window := None)
  }

  predicate Next(a: Abs, b: Abs) {
    a == b || Accepts(a, b) || Transfers(a, b) || Acks(a, b) || Stalls(a, b)
  }

  const IDLE := Abs([], [], 0, None)

  predicate StepAt(run: seq<Abs>, i: nat)
    requires 0 < i < |run|
  {
    Next(run[i - 1], run[i])
  }

  ghost predicate Steps(run: seq<Abs>) {
    forall i | 0 < i < |run| :: StepAt(run, i)
  }

  ghost predicate Behaviour(run: seq<Abs>) {
    run != [] && run[0] == IDLE && Steps(run)
  }

  predicate Grows(run: seq<Abs>, i: nat)
    requires 0 < i < |run|
  {
    run[i - 1].delivered <= run[i].delivered
  }

  // In every behaviour the delivered bytes are a prefix of the accepted ones, at most one
  // window runs ahead of the acknowledgements, and bytes once delivered stay delivered.
  lemma {:induction false} BehavioursAreStreams(run: seq<Abs>)
    requires Behaviour(run)
    ensures forall i | 0 <= i < |run| :: Good(run[i])
    ensures forall i | 0 < i < |run| :: Grows(run, i)
  {
    var last := |run| - 1;
    if last != 0 {
      var front := run[..last];
      forall i | 0 < i < |front| ensures StepAt(front, i) {
        assert StepAt(run, i);
      }
      BehavioursAreStreams(front);
      assert Good(front[last - 1]);
      assert StepAt(run, last);
      forall i | 0 <= i < |run| ensures Good(run[i]) {
        if i < last { assert run[i] == front[i]; }
      }
      forall i | 0 < i < |run| ensures Grows(run, i) {
        if i < last { assert Grows(front, i); }
      }
    }
  }

  lemma StepBefore(a: Abs, run: seq<Abs>)
    requires run != []
    ensures Steps([a] + run) <==> Next(a, run[0]) && Steps(run)
  {
    var longer := [a] + run;
    assert forall i | 0 < i < |run| :: StepAt(run, i) == StepAt(longer, i + 1);
    assert forall i | 1 < i < |longer| :: StepAt(longer, i) == StepAt(run, i - 1);
    assert StepAt(longer, 1) == Next(a, run[0]);
    if Steps(longer) {
      forall i | 0 < i < |run| ensures StepAt(run, i) {
        assert StepAt(longer, i + 1);
      }
      assert StepAt(longer, 1);
    }
  }

  lemma NextKeepsGood(a: Abs, b: Abs)
    requires Good(a) && Next(a, b)
    ensures Good(b) && a.delivered <= b.delivered
  {
  }
}

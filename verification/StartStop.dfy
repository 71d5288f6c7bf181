/** Starting and stopping the ring threads.  `run` starts the threads and waits until the
    running counter reaches their number; `stop` posts one empty message to every ring. */
module StartStop {
  import opened IoServices

  // `Counted`: in its completion loop.  `Left`: out of the loop, counter not yet lowered.
  datatype Phase = Starting | Registered | Counted | Left | Done

  // Thread t owns ring t.  `rings` is io_array, `posted` the rings with a stop message.
  datatype Threads = Threads(
    phases: seq<Phase>, rings: seq<nat>, running: int, posted: set<nat>, stopped: bool)

  datatype Step =
    | Register(t: nat)   // io_array.push_back, under the lock
    | CountUp(t: nat)    // running_io++
    | Stop               // after run has returned: a message per ring, then io_array.clear
    | Leave(t: nat)      // the loop takes its message
    | CountDown(t: nat)  // running_io--, and the thread ends

  predicate In(s: Threads, t: nat, p: Phase) {
    t < |s.phases| && s.phases[t] == p
  }

  // The wait loop of `run` is over.
  predicate RunReturned(s: Threads) {
    |s.phases| <= s.running
  }

  predicate Enabled(s: Threads, step: Step) {
    match step
    case Register(t) => In(s, t, Starting)
    case CountUp(t) => In(s, t, Registered)
    case Stop => !s.stopped && RunReturned(s)
    case Leave(t) => In(s, t, Counted) && t in s.posted
    case CountDown(t) => In(s, t, Left)
  }

  function Apply(s: Threads, step: Step): Threads
    requires Enabled(s, step)
  {
    match step
    case Register(t) => s.(phases := s.phases[t := Registered], rings := s.rings + [t])
    case CountUp(t) => s.(phases := s.phases[t := Counted], running := s.running + 1)
    case Stop => s.(posted := (set t | t in s.rings), rings := [], stopped := true)
    case Leave(t) => s.(phases := s.phases[t := Left], posted := s.posted - {t})
    case CountDown(t) => s.(phases := s.phases[t := Done], running := s.running - 1)
  }

  predicate Legal(s: Threads, steps: seq<Step>)
    decreases steps
  {
    steps == [] || (Enabled(s, steps[0]) && Legal(Apply(s, steps[0]), steps[1..]))
  }

  function Exec(s: Threads, steps: seq<Step>): Threads
    requires Legal(s, steps)
    decreases steps
  {
    if steps == [] then s else Exec(Apply(s, steps[0]), steps[1..])
  }

  function Launched(concurrency: nat): Threads {
    Threads(seq(concurrency, _ => Starting), [], 0, {}, false)
  }

  // Threads that are counted in `running`, and threads that have registered a ring.
  function Running(ps: seq<Phase>): nat {
    if ps == [] then 0 else (if ps[0] == Counted || ps[0] == Left then 1 else 0) + Running(ps[1..])
  }

  function Known(ps: seq<Phase>): nat {
    if ps == [] then 0 else (if ps[0] == Starting then 0 else 1) + Known(ps[1..])
  }

  lemma {:induction false} CountsUpdate(ps: seq<Phase>, t: nat, p: Phase)
    requires t < |ps|
    ensures Running(ps[t := p]) == Running(ps)
      + (if p == Counted || p == Left then 1 else 0) - (if ps[t] == Counted || ps[t] == Left then 1 else 0)
    ensures Known(ps[t := p]) == Known(ps) + (if p == Starting then 0 else 1) - (if ps[t] == Starting then 0 else 1)
  {
    if t == 0 {
      assert ps[0 := p][1..] == ps[1..];
    } else {
      assert ps[t := p][1..] == ps[1..][t - 1 := p];
      CountsUpdate(ps[1..], t - 1, p);
    }
  }

  lemma {:induction false} CountsBound(ps: seq<Phase>)
    ensures Running(ps) <= Known(ps) <= |ps|
    ensures Running(ps) == |ps| ==> forall t | 0 <= t < |ps| :: ps[t] == Counted || ps[t] == Left
    ensures (forall t | 0 <= t < |ps| :: ps[t] == Done) ==> Running(ps) == 0
  {
    if ps != [] {
      CountsBound(ps[1..]);
      forall t | 0 < t < |ps| ensures ps[t] == ps[1..][t - 1] {}
      if forall t | 0 <= t < |ps| :: ps[t] == Done {
        assert forall t | 0 <= t < |ps[1..]| :: ps[1..][t] == ps[t + 1];
      }
    }
  }

  ghost predicate Inv(s: Threads) {
    && s.running == Running(s.phases)
    && (!s.stopped ==>
          && s.posted == {} && |s.rings| == Known(s.phases)
          && (forall t | 0 <= t < |s.phases| :: s.phases[t] == Starting || t in s.rings)
          && (forall t | t in s.rings :: t < |s.phases|)
          && (forall t | 0 <= t < |s.phases| :: s.phases[t] != Left && s.phases[t] != Done))
    && (s.stopped ==>
          && s.rings == []
          && (forall t | 0 <= t < |s.phases| :: s.phases[t] != Starting && s.phases[t] != Registered)
          && (forall t: nat :: t in s.posted <==> In(s, t, Counted)))
  }

  lemma StopKeeps(s: Threads)
    requires Inv(s) && Enabled(s, Stop)
    ensures Inv(Apply(s, Stop)) && |s.rings| == |s.phases|
  {
    CountsBound(s.phases);
    var u := Apply(s, Stop);
    forall t: nat ensures t in u.posted <==> In(u, t, Counted) {
      if t < |s.phases| { assert s.phases[t] == Starting || t in s.rings; }
    }
  }

  lemma StepKeeps(s: Threads, step: Step)
    requires Inv(s) && Enabled(s, step)
    ensures Inv(Apply(s, step)) && |Apply(s, step).phases| == |s.phases|
  {
    match step {
      case Register(t) => CountsUpdate(s.phases, t, Registered);
      case CountUp(t) => CountsUpdate(s.phases, t, Counted);
      case Stop => StopKeeps(s);
      case Leave(t) => CountsUpdate(s.phases, t, Left);
      case CountDown(t) => CountsUpdate(s.phases, t, Done);
    }
  }

  lemma {:induction false} RunKeeps(s: Threads, steps: seq<Step>)
    requires Inv(s) && Legal(s, steps)
    ensures Inv(Exec(s, steps)) && |Exec(s, steps).phases| == |s.phases|
    decreases steps
  {
    if steps != [] {
      StepKeeps(s, steps[0]);
      RunKeeps(Apply(s, steps[0]), steps[1..]);
    }
  }

  lemma {:induction false} NoneCounted(n: nat)
    ensures Running(seq(n, _ => Starting)) == 0 && Known(seq(n, _ => Starting)) == 0
  {
    if n != 0 {
      assert seq(n, _ => Starting)[1..] == seq(n - 1, _ => Starting);
      NoneCounted(n - 1);
    }
  }

  // Over every interleaving: before a stop the counter never exceeds the registered rings,
  // so once `run` has returned there is one ring per thread and every index `submit` may
  // draw is in range.  After a stop, the threads still in their loop are exactly those with
  // a message waiting, and when all have ended the counter is back at zero.
  lemma StartAndStop(concurrency: nat, steps: seq<Step>)
    requires Legal(Launched(concurrency), steps)
    ensures var s := Exec(Launched(concurrency), steps);
      && (!s.stopped ==> s.running <= |s.rings| <= concurrency)
      && (!s.stopped && RunReturned(s) ==>
            |s.rings| == concurrency
            && forall pick: nat | pick < concurrency :: Routable(s.rings, OtherThread(pick)))
      && (s.stopped ==> forall t: nat :: t in s.posted <==> In(s, t, Counted))
      && ((forall t | 0 <= t < |s.phases| :: s.phases[t] == Done) ==> s.running == 0)
  {
    NoneCounted(concurrency);
    RunKeeps(Launched(concurrency), steps);
    CountsBound(Exec(Launched(concurrency), steps).phases);
  }

  // --- After a stop -----------------------------------------------------------------------

  predicate AllDone(s: Threads) {
    forall t | 0 <= t < |s.phases| :: s.phases[t] == Done
  }

  function ToGo(p: Phase): nat {
    match p
    case Done => 0
    case Left => 1
    case _ => 2
  }

  // Steps until every thread has ended.
  function Remaining(ps: seq<Phase>): nat {
    if ps == [] then 0 else ToGo(ps[0]) + Remaining(ps[1..])
  }

  lemma {:induction false} RemainingUpdate(ps: seq<Phase>, t: nat, p: Phase)
    requires t < |ps|
    ensures Remaining(ps[t := p]) == Remaining(ps) + ToGo(p) - ToGo(ps[t])
  {
    if t == 0 {
      assert ps[0 := p][1..] == ps[1..];
    } else {
      assert ps[t := p][1..] == ps[1..][t - 1 := p];
      RemainingUpdate(ps[1..], t - 1, p);
    }
  }

  lemma {:induction false} RemainingBound(ps: seq<Phase>)
    ensures Remaining(ps) <= 2 * |ps|
    ensures Remaining(ps) == 0 <==> forall t | 0 <= t < |ps| :: ps[t] == Done
  {
    if ps != [] {
      RemainingBound(ps[1..]);
      assert forall t | 0 < t < |ps| :: ps[t] == ps[1..][t - 1];
      assert forall t | 0 <= t < |ps[1..]| :: ps[1..][t] == ps[t + 1];
    }
  }

  lemma {:induction false} StoppedCounts(s: Threads, steps: seq<Step>)
    requires Inv(s) && s.stopped && Legal(s, steps)
    ensures Exec(s, steps).stopped
    ensures |steps| + Remaining(Exec(s, steps).phases) == Remaining(s.phases)
    decreases steps
  {
    if steps != [] {
      StepKeeps(s, steps[0]);
      match steps[0] {
        case Leave(t) => RemainingUpdate(s.phases, t, Left);
        case CountDown(t) => RemainingUpdate(s.phases, t, Done);
        case _ =>
      }
      StoppedCounts(Apply(s, steps[0]), steps[1..]);
    }
  }

  // After a stop every loop exits: until all threads have ended, whatever order they ran in,
  // one of them can go on, and a run that goes on has ended them all after at most two steps
  // for each.
  lemma StopCompletes(concurrency: nat, before: seq<Step>, after: seq<Step>) returns (next: Step)
    requires Legal(Launched(concurrency), before)
    requires Exec(Launched(concurrency), before).stopped && Legal(Exec(Launched(concurrency), before), after)
    ensures var s := Exec(Exec(Launched(concurrency), before), after);
      && |after| <= 2 * concurrency
      && (AllDone(s) || Enabled(s, next))
      && (|after| == 2 * concurrency ==> AllDone(s) && s.running == 0)
  {
    NoneCounted(concurrency);
    RunKeeps(Launched(concurrency), before);
    var stopped := Exec(Launched(concurrency), before);
    RunKeeps(stopped, after);
    StoppedCounts(stopped, after);
    var s := Exec(stopped, after);
    RemainingBound(stopped.phases);
    RemainingBound(s.phases);
    CountsBound(s.phases);
    next := Stop;
    if !AllDone(s) {
      var t :| 0 <= t < |s.phases| && s.phases[t] != Done;
      next := if s.phases[t] == Left then CountDown(t) else Leave(t);
      assert In(s, t, Counted) ==> t in s.posted;
    }
  }
}

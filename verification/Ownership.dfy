/** Who owns a context: the pool, the kernel, or a handler, over every run of the service.  The
    steps are the functions that the service's methods are proved equal to. */
module Ownership {
  import opened IoServices

  // `kernel`: contexts submitted and not completed; `handlers`: completed and not returned.
  // `issued`: the request and handler each context was last given, and `at` the ring it went
  // to.  `entered`: every context that was ever put into the pool, in order; `taken` of them
  // have been handed out.  `reaped` and `returned` count completions and contexts put back.
  datatype Owners = Owners(
    service: Service, kernel: set<nat>, handlers: set<nat>,
    issued: map<nat, (Request, nat)>, at: map<nat, nat>, entered: seq<nat>, taken: nat,
    initial: nat, peak: nat, reaped: nat, returned: nat)

  datatype Step =
    | Issue(request: Request, handler: nat, caller: Caller)  // allocate_context, fill in, submit
    | Reap(id: nat)                                          // a completion is taken off its ring
    | Finish(id: nat)                                        // deallocate_context, after the handler

  predicate Enabled(s: Owners, step: Step) {
    match step
    case Issue(_, _, caller) => Routable(s.service.rings, caller)
    case Reap(id) => id in s.kernel
    case Finish(id) => id in s.handlers
  }

  function Outstanding(s: Owners): nat {
    |s.kernel| + |s.handlers|
  }

  function Max(a: nat, b: nat): nat {
    if a < b then b else a
  }

  // The latest submission.
  function Latest(v: Service): (nat, nat) {
    if v.sent == [] then (0, 0) else v.sent[|v.sent| - 1]
  }

  function Apply(s: Owners, step: Step): Owners
    requires Enabled(s, step)
  {
    match step
    case Issue(request, handler, caller) =>
      var w := Issued(s.service, request, handler, caller);
      var (ring, id) := Latest(w);
      var kernel := s.kernel + {id};
      s.(service := w, kernel := kernel,
         issued := s.issued[id := (request, handler)], at := s.at[id := ring],
         taken := if s.taken < |s.entered| then s.taken + 1 else s.taken,
         peak := Max(s.peak, |kernel| + |s.handlers|))
    case Reap(id) =>
      s.(kernel := s.kernel - {id}, handlers := s.handlers + {id}, reaped := s.reaped + 1)
    case Finish(id) =>
      s.(service := Reclaimed(s.service, id), handlers := s.handlers - {id},
         entered := s.entered + [id], returned := s.returned + 1)
  }

  predicate Legal(s: Owners, steps: seq<Step>)
    decreases steps
  {
    steps == [] || (Enabled(s, steps[0]) && Legal(Apply(s, steps[0]), steps[1..]))
  }

  function Exec(s: Owners, steps: seq<Step>): Owners
    requires Legal(s, steps)
    decreases steps
  {
    if steps == [] then s else Exec(Apply(s, steps[0]), steps[1..])
  }

  // A service as it is made, and its rings once the threads have registered them.
  function Started(initial: nat, rings: seq<nat>): Owners {
    Owners(Service(FreshPool(initial), Blank(initial), rings, []), {}, {}, map[], map[],
           seq(initial, i => i), 0, initial, 0, 0, 0)
  }

  ghost predicate Distinct(free: seq<nat>) {
    forall i, j | 0 <= i < j < |free| :: free[i] != free[j]
  }

  // Every context ever created is in exactly one of the three places.
  ghost predicate OneOwner(s: Owners) {
    && Distinct(s.service.pool.free)
    && s.kernel !! s.handlers
    && (forall id | id in s.service.pool.free :: id !in s.kernel && id !in s.handlers)
    && (forall id: nat :: id < s.service.pool.created
                          <==> id in s.service.pool.free || id in s.kernel || id in s.handlers)
  }

  // The context is out, with the request and the handler it was issued with.
  predicate Carries(s: Owners, id: nat) {
    id in s.service.contexts && id in s.issued && id in s.at
    && s.service.contexts[id] == Context(s.issued[id].0, Some(s.issued[id].1))
  }

  // The context is back: no handler, no view, and the kind it last had.
  predicate Rests(s: Owners, id: nat) {
    && id in s.service.contexts && Cleared(s.service.contexts[id])
    && (id in s.issued ==> s.service.contexts[id].request.kind == s.issued[id].0.kind)
  }

  ghost predicate Filled(s: Owners) {
    && (forall id | id in s.service.pool.free :: Rests(s, id))
    && (forall id | id in s.kernel || id in s.handlers :: Carries(s, id))
    && (forall id | id in s.issued :: id < s.service.pool.created)
  }

  // The pool hands contexts out in the order in which they came in.
  predicate Queued(s: Owners) {
    s.taken <= |s.entered| && s.service.pool.free == s.entered[s.taken..]
  }

  ghost predicate Counted(s: Owners) {
    && |s.service.pool.free| + Outstanding(s) == s.service.pool.created == Max(s.initial, s.peak)
    && s.reaped == s.returned + |s.handlers|
    && |s.entered| == s.initial + s.returned
  }

  ghost predicate Sound(s: Owners) {
    OneOwner(s) && Filled(s) && Counted(s) && Queued(s) && Outstanding(s) <= s.peak
  }

  // What issuing does: the front of the pool, or a new context, goes to the kernel.
  lemma IssueIs(s: Owners, request: Request, handler: nat, caller: Caller)
    requires Sound(s) && Enabled(s, Issue(request, handler, caller))
    ensures var t := Apply(s, Issue(request, handler, caller));
      var v, w := s.service, t.service;
      var id := if s.taken < |s.entered| then s.entered[s.taken] else v.pool.created;
      && id !in s.kernel && id !in s.handlers && t.kernel == s.kernel + {id} && t.handlers == s.handlers
      && t.issued == s.issued[id := (request, handler)] && t.at == s.at[id := Route(v.rings, caller)]
      && w.contexts == v.contexts[id := Context(request, Some(handler))]
      && w.rings == v.rings && |w.sent| == |v.sent| + 1 && Queued(t)
      && w.pool.created == (if s.taken < |s.entered| then v.pool.created else v.pool.created + 1)
      && (s.taken < |s.entered| ==> v.pool.free == [id] + w.pool.free)
      && (s.taken == |s.entered| ==> v.pool.free == w.pool.free == [])
  {
    var pool := s.service.pool;
    assert s.taken < |s.entered| ==> pool.free == [s.entered[s.taken]] + s.entered[s.taken + 1..];
    assert pool.Head() in s.kernel || pool.Head() in s.handlers ==> pool.free == [];
  }

  lemma FrontOff(free: seq<nat>, id: nat, rest: seq<nat>)
    requires Distinct(free) && free == [id] + rest
    ensures Distinct(rest) && forall x :: x in rest <==> x in free && x != id
  {
    assert forall i | 0 <= i < |rest| :: rest[i] == free[i + 1] && free[0] != free[i + 1];
    assert forall i | 0 < i < |free| :: free[i] == rest[i - 1];
  }

  lemma IssueOneOwner(s: Owners, request: Request, handler: nat, caller: Caller)
    requires Sound(s) && Enabled(s, Issue(request, handler, caller))
    ensures OneOwner(Apply(s, Issue(request, handler, caller)))
  {
    var t := Apply(s, Issue(request, handler, caller));
    IssueIs(s, request, handler, caller);
    if s.taken < |s.entered| {
      FrontOff(s.service.pool.free, s.entered[s.taken], t.service.pool.free);
    }
  }

  lemma IssueFilled(s: Owners, request: Request, handler: nat, caller: Caller)
    requires Sound(s) && Enabled(s, Issue(request, handler, caller))
    ensures Filled(Apply(s, Issue(request, handler, caller)))
  {
    var t := Apply(s, Issue(request, handler, caller));
    IssueIs(s, request, handler, caller);
    IssueOneOwner(s, request, handler, caller);
    forall x | x in t.service.pool.free ensures Rests(t, x) {
      assert x in s.service.pool.free && Rests(s, x) && x !in t.kernel;
    }
    forall x | x in t.kernel || x in t.handlers ensures Carries(t, x) {
      assert x in s.kernel || x in s.handlers ==> Carries(s, x);
    }
  }

  lemma IssueSound(s: Owners, request: Request, handler: nat, caller: Caller)
    requires Sound(s) && Enabled(s, Issue(request, handler, caller))
    ensures Sound(Apply(s, Issue(request, handler, caller)))
  {
    IssueIs(s, request, handler, caller);
    IssueOneOwner(s, request, handler, caller);
    IssueFilled(s, request, handler, caller);
  }

  lemma ReapSound(s: Owners, id: nat)
    requires Sound(s) && id in s.kernel
    ensures Sound(Apply(s, Reap(id)))
  {
    var t := Apply(s, Reap(id));
    assert OneOwner(t);
    forall x | x in t.service.pool.free ensures Rests(t, x) {
      assert Rests(s, x);
    }
    forall x | x in t.kernel || x in t.handlers ensures Carries(t, x) {
      assert Carries(s, x);
    }
  }

  lemma FinishSound(s: Owners, id: nat)
    requires Sound(s) && id in s.handlers
    ensures Sound(Apply(s, Finish(id)))
  {
    var t := Apply(s, Finish(id));
    assert Carries(s, id);
    assert forall x :: x in t.service.pool.free <==> x in s.service.pool.free || x == id;
    assert OneOwner(t);
    assert t.entered[t.taken..] == s.entered[s.taken..] + [id];
    forall x | x in t.service.pool.free ensures Rests(t, x) {
      if x != id { assert Rests(s, x); }
    }
    forall x | x in t.kernel || x in t.handlers ensures Carries(t, x) {
      assert Carries(s, x);
    }
  }

  lemma StepSound(s: Owners, step: Step)
    requires Sound(s) && Enabled(s, step)
    ensures Sound(Apply(s, step)) && Apply(s, step).initial == s.initial
    ensures Apply(s, step).peak == Max(s.peak, Outstanding(Apply(s, step)))
    ensures Apply(s, step).service.rings == s.service.rings
    ensures |Apply(s, step).service.sent| == |s.service.sent| + (if step.Issue? then 1 else 0)
  {
    match step {
      case Issue(request, handler, caller) =>
        IssueSound(s, request, handler, caller);
        IssueIs(s, request, handler, caller);
      case Reap(id) => ReapSound(s, id);
      case Finish(id) => FinishSound(s, id);
    }
  }

  lemma StartedSound(initial: nat, rings: seq<nat>)
    ensures Sound(Started(initial, rings))
  {
    var s := Started(initial, rings);
    forall x: nat | x < initial ensures x in s.service.pool.free {
      assert s.service.pool.free[x] == x;
    }
    assert forall x | x in s.service.pool.free :: x < initial;
    forall x | x in s.service.pool.free ensures Rests(s, x) {
      assert x in Blank(initial);
    }
  }

  function Issues(steps: seq<Step>): nat {
    if steps == [] then 0 else (if steps[0].Issue? then 1 else 0) + Issues(steps[1..])
  }

  // The highest number outstanding at any moment of the run.
  function PeakOf(s: Owners, steps: seq<Step>): nat
    requires Legal(s, steps)
    decreases steps
  {
    if steps == [] then Outstanding(s) else Max(Outstanding(s), PeakOf(Apply(s, steps[0]), steps[1..]))
  }

  // From a fresh service, over every order of submissions, completions and returns: each
  // context has exactly one owner.  One that is out carries the request and the handler it was
  // issued with; one that is back is blank but for its kind.  The pool hands out the context
  // that came in first; every request is submitted once, and each completion gives its context
  // back once.  No more contexts exist than the larger of the initial size and the highest
  // number ever outstanding together.
  lemma {:induction false} OwnershipHolds(initial: nat, rings: seq<nat>, steps: seq<Step>)
    requires Legal(Started(initial, rings), steps)
    ensures var s := Exec(Started(initial, rings), steps);
      && OneOwner(s) && s.reaped == s.returned + |s.handlers|
      && (forall id | id in s.kernel || id in s.handlers :: Carries(s, id))
      && (forall id | id in s.service.pool.free :: Rests(s, id))
      && Queued(s) && |s.entered| == initial + s.returned
      && |s.service.sent| == Issues(steps)
      && s.service.pool.created == Max(initial, PeakOf(Started(initial, rings), steps))
  {
    StartedSound(initial, rings);
    ExecSound(Started(initial, rings), steps);
    ExecPeak(Started(initial, rings), steps);
  }

  lemma {:induction false} ExecSound(s: Owners, steps: seq<Step>)
    requires Sound(s) && Legal(s, steps)
    ensures Sound(Exec(s, steps))
    ensures Exec(s, steps).initial == s.initial
    ensures |Exec(s, steps).service.sent| == |s.service.sent| + Issues(steps)
    decreases steps
  {
    if steps != [] {
      StepSound(s, steps[0]);
      ExecSound(Apply(s, steps[0]), steps[1..]);
    }
  }

  lemma {:induction false} ExecPeak(s: Owners, steps: seq<Step>)
    requires Sound(s) && Legal(s, steps)
    ensures Exec(s, steps).peak == Max(s.peak, PeakOf(s, steps))
    decreases steps
  {
    assert Outstanding(s) <= s.peak;
    if steps != [] {
      var t := Apply(s, steps[0]);
      StepSound(s, steps[0]);
      ExecPeak(t, steps[1..]);
      assert PeakOf(s, steps) == Max(Outstanding(s), PeakOf(t, steps[1..]));
      PeakAtLeast(t, steps[1..]);
    }
  }

  lemma PeakAtLeast(s: Owners, steps: seq<Step>)
    requires Legal(s, steps)
    ensures Outstanding(s) <= PeakOf(s, steps)
  {
  }

  // Whoever submits, the request goes to one ring: its own for the thread of a ring, and for
  // any other thread the one drawn, so that each registered ring can be drawn, and no other.
  lemma RouteIsOwn(rings: seq<nat>, caller: Caller)
    requires Routable(rings, caller)
    ensures caller.RingThread? ==> Route(rings, caller) == caller.ring
    ensures caller.OtherThread? ==> Route(rings, caller) in rings
    ensures forall ring | ring in rings ::
              exists pick: nat :: Routable(rings, OtherThread(pick)) && Route(rings, OtherThread(pick)) == ring
  {
    forall ring | ring in rings
      ensures exists pick: nat :: Routable(rings, OtherThread(pick)) && Route(rings, OtherThread(pick)) == ring
    {
      var pick: nat :| pick < |rings| && rings[pick] == ring;
      assert Route(rings, OtherThread(pick)) == ring;
    }
  }

  // --- Several requests of one call -----------------------------------------------------

  function IssueAll(s: Owners, rs: seq<Request>, handler: nat, caller: Caller): (t: Owners)
    requires Routable(s.service.rings, caller)
    ensures t.service.rings == s.service.rings
    decreases rs
  {
    if rs == [] then s else IssueAll(Apply(s, Issue(rs[0], handler, caller)), rs[1..], handler, caller)
  }

  // What the methods of the sockets do to the service, context by context.
  lemma {:induction false} IssueAllIs(s: Owners, rs: seq<Request>, handler: nat, caller: Caller)
    requires Sound(s) && Routable(s.service.rings, caller)
    ensures var t := IssueAll(s, rs, handler, caller);
      && Sound(t) && t.service == IssuedAll(s.service, rs, handler, caller)
      && t.handlers == s.handlers && s.kernel <= t.kernel
    decreases rs
  {
    if rs != [] {
      IssueSound(s, rs[0], handler, caller);
      IssueIs(s, rs[0], handler, caller);
      IssueAllIs(Apply(s, Issue(rs[0], handler, caller)), rs[1..], handler, caller);
    }
  }
}

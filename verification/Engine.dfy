/** The engine as a whole: any number of sockets on one heap and one service.  Threads activate
    sockets, send and close; the kernel completes requests; ring threads handle completions and
    put the contexts back.  The steps are the functions to which the methods of `IoService` and
    `TcpSocket` are proved equal. */
module Engines {
  import opened Memory
  import opened IoBuffers
  import opened IoDoubleBuffers
  import opened IoServices
  import opened TcpSockets
  import O = Ownership

  // `homes`: the ring a socket's first read went to.  `results`: what completions brought;
  // `handled`: contexts whose handler is done and which are not back yet.
  datatype Engine = Engine(
    own: O.Owners, heap: Ledger, socks: map<nat, Sock>, homes: map<nat, nat>,
    results: map<nat, int>, handled: set<nat>)

  datatype Step =
    | Open(id: nat, open: bool, caller: Caller)              // a new socket is activated
    | Send(id: nat, bytes: seq<byte>, caller: Caller)        // the locked part of a send
    | Close(id: nat, how: CloseType, caller: Caller)
    | Consume(id: nat, n: nat)                               // a receive callback pops
    | Reap(ctx: nat, res: int)                               // a request completes
    | Handle(ctx: nat, bound: seq<byte>)                     // its handler runs
    | Finish(ctx: nat)                                       // its context goes back

  // A socket on the heap as it is now.
  function Here(e: Engine, id: nat): Sock
    requires id in e.socks
  {
    e.socks[id].(l := e.heap)
  }

  function Blank(heap: Ledger, open: bool): Sock {
    Sock(heap, NO_DBL, NO_BUF, false, false, open, 0, 0)
  }

  // The completion can be handed to its socket.
  predicate CanHandle(e: Engine, ctx: nat, bound: seq<byte>) {
    && ctx in e.own.handlers && ctx in e.results && ctx in e.own.at
    && ctx in e.own.service.contexts
    && var c := e.own.service.contexts[ctx];
      && c.handler.Some? && c.handler.value in e.socks
      && (c.request.kind == Read && 0 < e.results[ctx] ==>
            e.results[ctx] <= |bound| && e.socks[c.handler.value].recv.CanPush(e.results[ctx]))
  }

  predicate Enabled(e: Engine, step: Step) {
    var rings := e.own.service.rings;
    match step
    case Open(id, _, caller) => id !in e.socks && Routable(rings, caller)
    case Send(id, bytes, caller) => id in e.socks && Routable(rings, caller) && e.socks[id].send.CanPush(|bytes|)
    case Close(id, _, caller) => id in e.socks && Routable(rings, caller)
    case Consume(id, _) => id in e.socks
    case Reap(ctx, res) =>
      && ctx in e.own.kernel && ctx in e.own.service.contexts
      && (e.own.service.contexts[ctx].request.kind == Read ==> res <= e.own.service.contexts[ctx].request.len)
    case Handle(ctx, bound) => ctx !in e.handled && CanHandle(e, ctx, bound)
    case Finish(ctx) => ctx in e.handled && ctx in e.own.handlers
  }

  // The new socket, before it is activated.
  function Made(e: Engine, id: nat, open: bool, caller: Caller): Engine
    requires Routable(e.own.service.rings, caller)
  {
    e.(socks := e.socks[id := Blank(e.heap, open)], homes := e.homes[id := Route(e.own.service.rings, caller)])
  }

  // A call on a socket leaves it in a new state and issues requests.
  function Called(e: Engine, id: nat, r: (Sock, seq<Request>), caller: Caller): Engine
    requires Routable(e.own.service.rings, caller)
  {
    e.(own := O.IssueAll(e.own, r.1, id, caller), heap := r.0.l, socks := e.socks[id := r.0])
  }

  // What the loop does with the completion of ctx: the new state and the requests.
  function Outcome(e: Engine, ctx: nat, bound: seq<byte>): (Sock, seq<Request>)
    requires CanHandle(e, ctx, bound)
  {
    var c := e.own.service.contexts[ctx];
    Dispatched(Here(e, c.handler.value), c.request.kind, e.results[ctx], bound)
  }

  function Apply(e: Engine, step: Step): Engine
    requires Enabled(e, step)
  {
    match step
    case Open(id, open, caller) =>
      Called(Made(e, id, open, caller), id, Activated(Blank(e.heap, open)), caller)
    case Send(id, bytes, caller) => Called(e, id, Sent(Here(e, id), bytes), caller)
    case Close(id, how, caller) => Called(e, id, Closing(Here(e, id), how), caller)
    case Consume(id, n) => e.(socks := e.socks[id := e.socks[id].(l := e.heap, recv := Popped(e.socks[id].recv, n))])
    case Reap(ctx, res) => e.(own := O.Apply(e.own, O.Reap(ctx)), results := e.results[ctx := res])
    case Handle(ctx, bound) =>
      Called(e.(handled := e.handled + {ctx}), e.own.service.contexts[ctx].handler.value,
             Outcome(e, ctx, bound), RingThread(e.own.at[ctx]))
    case Finish(ctx) => e.(own := O.Apply(e.own, O.Finish(ctx)), handled := e.handled - {ctx})
  }

  predicate Legal(e: Engine, steps: seq<Step>)
    decreases steps
  {
    steps == [] || (Enabled(e, steps[0]) && Legal(Apply(e, steps[0]), steps[1..]))
  }

  function Exec(e: Engine, steps: seq<Step>): Engine
    requires Legal(e, steps)
    decreases steps
  {
    if steps == [] then e else Exec(Apply(e, steps[0]), steps[1..])
  }

  // A service with its rings, on a fresh heap, and no sockets yet.
  function Started(initial: nat, rings: seq<nat>): Engine {
    Engine(O.Started(initial, rings), Ledger({}, 1), map[], map[], map[], {})
  }

  // --- Reads ----------------------------------------------------------------------------

  // The context is out, not handled, and carries a read of this socket.
  predicate Reading(o: O.Owners, handled: set<nat>, id: nat, ctx: nat) {
    && (ctx in o.kernel || ctx in o.handlers) && ctx !in handled
    && ctx in o.issued && o.issued[ctx].0.kind == Read && o.issued[ctx].1 == id
  }

  function Pending(o: O.Owners, handled: set<nat>, id: nat): set<nat> {
    set ctx | ctx in o.kernel + o.handlers && Reading(o, handled, id, ctx)
  }

  // It is one for the whole bind buffer, on the given ring.
  predicate ReadsAt(o: O.Owners, ctx: nat, home: nat) {
    ctx in o.issued && o.issued[ctx].0 == Request(Read, Bind, 65536) && ctx in o.at && o.at[ctx] == home
  }

  // Of a socket that is up exactly one read is out, of any other none.
  ghost predicate OneRead(o: O.Owners, handled: set<nat>, id: nat, up: bool, home: nat) {
    && |Pending(o, handled, id)| == (if up then 1 else 0)
    && forall ctx | ctx in Pending(o, handled, id) :: ReadsAt(o, ctx, home)
  }

  ghost predicate ReadInv(e: Engine) {
    forall id | id in e.socks ::
      id in e.homes && OneRead(e.own, e.handled, id, e.socks[id].connected, e.homes[id])
  }

  // The socket an issued context belongs to is there.
  predicate Addressed(o: O.Owners, socks: set<nat>, ctx: nat) {
    ctx in o.issued && o.issued[ctx].1 in socks
  }

  // Everything that is out belongs to a socket, and a completed read brought no more than it
  // asked for.
  ghost predicate OwnInv(e: Engine) {
    && O.Sound(e.own) && e.handled <= e.own.handlers
    && (forall ctx | ctx in e.own.kernel || ctx in e.own.handlers :: Addressed(e.own, e.socks.Keys, ctx))
    && (forall ctx | ctx in e.own.handlers && ctx !in e.handled ::
          ctx in e.results && (e.own.issued[ctx].0.kind == Read ==> e.results[ctx] <= e.own.issued[ctx].0.len))
  }

  // A context that was not out goes out with request r for socket h.
  lemma OneMorePending(o: O.Owners, t: O.Owners, handled: set<nat>, ctx: nat, r: Request, h: nat, id: nat)
    requires ctx !in o.kernel && ctx !in o.handlers && ctx !in handled
    requires t.kernel == o.kernel + {ctx} && t.handlers == o.handlers && t.issued == o.issued[ctx := (r, h)]
    ensures Pending(t, handled, id) == Pending(o, handled, id) + (if r.kind == Read && h == id then {ctx} else {})
    ensures ctx !in Pending(o, handled, id)
  {
  }

  lemma IssueOneReadFrom(o: O.Owners, t: O.Owners, handled: set<nat>, ctx: nat, r: Request, h: nat, ring: nat,
                         id: nat, up: bool, home: nat)
    requires ctx !in o.kernel && ctx !in o.handlers && ctx !in handled
    requires t.kernel == o.kernel + {ctx} && t.handlers == o.handlers
    requires t.issued == o.issued[ctx := (r, h)] && t.at == o.at[ctx := ring]
    requires OneRead(o, handled, id, up, home)
    requires r.kind == Read && h == id ==> !up && r == Request(Read, Bind, 65536) && ring == home
    ensures OneRead(t, handled, id, up || (r.kind == Read && h == id), home)
  {
    OneMorePending(o, t, handled, ctx, r, h, id);
    forall x | x in Pending(t, handled, id) ensures ReadsAt(t, x, home) {
      if x != ctx {
        assert x in Pending(o, handled, id) && ReadsAt(o, x, home);
      }
    }
  }

  // Issuing one request adds one pending read to the socket it is for, if it is a read.
  lemma IssueOneRead(o: O.Owners, handled: set<nat>, r: Request, h: nat, caller: Caller, id: nat, up: bool, home: nat)
    requires O.Sound(o) && handled <= o.handlers && Routable(o.service.rings, caller)
    requires OneRead(o, handled, id, up, home)
    requires r.kind == Read && h == id ==> !up && r == Request(Read, Bind, 65536) && Route(o.service.rings, caller) == home
    ensures OneRead(O.Apply(o, O.Issue(r, h, caller)), handled, id, up || (r.kind == Read && h == id), home)
  {
    O.IssueIs(o, r, h, caller);
    IssueOneReadFrom(o, O.Apply(o, O.Issue(r, h, caller)), handled,
                     if o.taken < |o.entered| then o.entered[o.taken] else o.service.pool.created,
                     r, h, Route(o.service.rings, caller), id, up, home);
  }

  predicate IsRead(rs: seq<Request>) {
    rs != [] && rs[0].kind == Read
  }

  // The same for the at most one request of a call.
  lemma CallOneRead(o: O.Owners, handled: set<nat>, rs: seq<Request>, h: nat, caller: Caller, id: nat, up: bool, home: nat)
    requires O.Sound(o) && handled <= o.handlers && Routable(o.service.rings, caller) && |rs| <= 1
    requires OneRead(o, handled, id, up, home)
    requires IsRead(rs) && h == id ==> !up && rs == [Request(Read, Bind, 65536)] && Route(o.service.rings, caller) == home
    ensures OneRead(O.IssueAll(o, rs, h, caller), handled, id, up || (IsRead(rs) && h == id), home)
  {
    if rs != [] {
      IssueOneRead(o, handled, rs[0], h, caller, id, up, home);
      assert rs[1..] == [];
    }
  }

  // A handler is done: its context is no longer pending.
  lemma MarkOneRead(o: O.Owners, handled: set<nat>, ctx: nat, id: nat, up: bool, home: nat)
    requires ctx in o.handlers && ctx !in handled && OneRead(o, handled, id, up, home)
    ensures Reading(o, handled, id, ctx) ==> up && ReadsAt(o, ctx, home)
    ensures OneRead(o, handled + {ctx}, id, up && !Reading(o, handled, id, ctx), home)
  {
    var was, now := Pending(o, handled, id), Pending(o, handled + {ctx}, id);
    if Reading(o, handled, id, ctx) {
      assert ctx in was && now == was - {ctx};
    } else {
      assert now == was;
    }
  }

  lemma ReapOneRead(o: O.Owners, handled: set<nat>, ctx: nat, id: nat, up: bool, home: nat)
    requires ctx in o.kernel && OneRead(o, handled, id, up, home)
    ensures OneRead(O.Apply(o, O.Reap(ctx)), handled, id, up, home)
  {
    assert Pending(O.Apply(o, O.Reap(ctx)), handled, id) == Pending(o, handled, id);
    forall x | x in Pending(o, handled, id) ensures ReadsAt(O.Apply(o, O.Reap(ctx)), x, home) {
      assert ReadsAt(o, x, home);
    }
  }

  lemma FinishOneRead(o: O.Owners, handled: set<nat>, ctx: nat, id: nat, up: bool, home: nat)
    requires ctx in o.handlers && ctx in handled && o.kernel !! o.handlers && OneRead(o, handled, id, up, home)
    ensures OneRead(O.Apply(o, O.Finish(ctx)), handled - {ctx}, id, up, home)
  {
    assert Pending(O.Apply(o, O.Finish(ctx)), handled - {ctx}, id) == Pending(o, handled, id);
    forall x | x in Pending(o, handled, id) ensures ReadsAt(O.Apply(o, O.Finish(ctx)), x, home) {
      assert ReadsAt(o, x, home);
    }
  }

  // --- Steps and contexts -----------------------------------------------------------------

  lemma CallOwn(o: O.Owners, socks: set<nat>, rs: seq<Request>, h: nat, caller: Caller)
    requires O.Sound(o) && Routable(o.service.rings, caller) && |rs| <= 1 && h in socks
    requires forall ctx | ctx in o.kernel || ctx in o.handlers :: Addressed(o, socks, ctx)
    ensures var t := O.IssueAll(o, rs, h, caller);
      && O.Sound(t) && t.handlers == o.handlers
      && (forall ctx | ctx in t.kernel || ctx in t.handlers :: Addressed(t, socks, ctx))
      && (forall ctx | ctx in t.handlers :: t.issued[ctx] == o.issued[ctx])
  {
    if rs != [] {
      O.IssueIs(o, rs[0], h, caller);
      O.IssueSound(o, rs[0], h, caller);
      assert rs[1..] == [];
      var t := O.Apply(o, O.Issue(rs[0], h, caller));
      forall ctx | ctx in t.kernel || ctx in t.handlers ensures Addressed(t, socks, ctx) {
        assert ctx in o.kernel || ctx in o.handlers ==> Addressed(o, socks, ctx);
      }
    }
  }

  // --- Steps and memory -------------------------------------------------------------------

  // What each socket owns.
  function Shares(socks: map<nat, Sock>): map<nat, set<Ptr>> {
    map id | id in socks :: SockOwns(socks[id])
  }

  function Union(shares: map<nat, set<Ptr>>): set<Ptr> {
    set id, p | id in shares && p in shares[id] :: p
  }

  ghost predicate Separate(shares: map<nat, set<Ptr>>) {
    forall i, j | i in shares && j in shares && i != j :: shares[i] !! shares[j]
  }

  // A socket owns live, distinct blocks, and while it is up its receive buffer can grow.
  ghost predicate SockOk(heap: Ledger, s: Sock) {
    OwnsAll(heap, s.send, s.recv) && (s.connected ==> 0 < s.recv.block)
  }

  // No two sockets share a block, and no block is live that none of them owns.
  ghost predicate MemInv(heap: Ledger, socks: map<nat, Sock>) {
    && heap.Valid()
    && (forall id | id in socks :: SockOk(heap, socks[id]))
    && Separate(Shares(socks)) && heap.live == Union(Shares(socks))
  }

  // One share changes, to something apart from the others.
  lemma ShareChanges(shares: map<nat, set<Ptr>>, id: nat, now: set<Ptr>)
    requires Separate(shares) && forall i | i in shares && i != id :: shares[i] !! now
    ensures Separate(shares[id := now])
    ensures Union(shares[id := now]) == Union(shares) - (if id in shares then shares[id] else {}) + now
  {
    var t, was := shares[id := now], if id in shares then shares[id] else {};
    forall p | p in Union(t) ensures p in Union(shares) - was + now {
      var i :| i in t && p in t[i];
      if i != id && id in shares { assert shares[i] !! shares[id]; }
    }
    forall p | p in Union(shares) - was + now ensures p in Union(t) {
      if p in now {
        assert id in t && p in t[id];
      } else {
        var i :| i in shares && p in shares[i];
        assert i in t && p in t[i];
      }
    }
  }

  lemma SharesAre(socks: map<nat, Sock>, id: nat, t: Sock)
    ensures Shares(socks[id := t]) == Shares(socks)[id := SockOwns(t)]
  {
    assert Shares(socks[id := t]).Keys == Shares(socks)[id := SockOwns(t)].Keys;
  }

  lemma SharesFrom(socks: map<nat, Sock>, id: nat, t: Sock, live: set<Ptr>)
    requires Separate(Shares(socks))
    requires forall i | i in socks && i != id :: Shares(socks)[i] !! SockOwns(t)
    requires live == Union(Shares(socks)) - (if id in socks then Shares(socks)[id] else {}) + SockOwns(t)
    ensures Separate(Shares(socks[id := t])) && live == Union(Shares(socks[id := t]))
  {
    SharesAre(socks, id, t);
    ShareChanges(Shares(socks), id, SockOwns(t));
  }

  // What the state of one socket comes to when everybody else is as they should be.
  lemma MemFrom(heap: Ledger, socks: map<nat, Sock>, id: nat, t: Sock, heap': Ledger)
    requires MemInv(heap, socks) && heap'.Valid() && SockOk(heap', t)
    requires forall i | i in socks && i != id :: SockOk(heap', socks[i]) && Shares(socks)[i] !! SockOwns(t)
    requires heap'.live == heap.live - (if id in socks then Shares(socks)[id] else {}) + SockOwns(t)
    ensures MemInv(heap', socks[id := t])
  {
    SharesFrom(socks, id, t, heap'.live);
  }

  lemma BlankMem(heap: Ledger, socks: map<nat, Sock>, id: nat, open: bool)
    requires MemInv(heap, socks) && id !in socks
    ensures MemInv(heap, socks[id := Blank(heap, open)])
  {
    assert SockOk(heap, Blank(heap, open)) && SockOwns(Blank(heap, open)) == {};
    MemFrom(heap, socks, id, Blank(heap, open), heap);
  }

  // One socket works on the heap and leaves everybody else's blocks alone.
  lemma CallMem(heap: Ledger, socks: map<nat, Sock>, id: nat, t: Sock)
    requires MemInv(heap, socks) && id in socks && OnlyOwn(socks[id].(l := heap), t)
    requires t.connected ==> 0 < t.recv.block
    ensures MemInv(t.l, socks[id := t])
  {
    forall i | i in socks && i != id ensures SockOk(t.l, socks[i]) && SockOwns(socks[i]) !! SockOwns(t) {
      OtherOk(heap, socks, id, t, i);
    }
    LiveIs(heap, socks[id].(l := heap), t, heap.live);
    MemFrom(heap, socks, id, t, t.l);
  }

  lemma OtherOk(heap: Ledger, socks: map<nat, Sock>, id: nat, t: Sock, i: nat)
    requires MemInv(heap, socks) && id in socks && OnlyOwn(socks[id].(l := heap), t) && i in socks && i != id
    ensures SockOk(t.l, socks[i]) && SockOwns(socks[i]) !! SockOwns(t)
  {
    assert SockOk(heap, socks[i]) && Shares(socks)[i] !! Shares(socks)[id];
    OthersOwn(socks[i].(l := heap), socks[id].(l := heap), t);
  }

  lemma LiveIs(heap: Ledger, s: Sock, t: Sock, all: set<Ptr>)
    requires OnlyOwn(s, t) && s.l == heap && heap.live == all
    ensures t.l.Valid() && t.l.live == all - SockOwns(s) + SockOwns(t)
  {
    assert SockOwns(t) <= t.l.live;
    assert t.l.live == (t.l.live - SockOwns(t)) + SockOwns(t);
  }

  // --- All runs -------------------------------------------------------------------------

  // Reads as they should be, if socket `id` counted as up or not.
  ghost predicate ReadsBut(e: Engine, id: nat, up: bool) {
    forall i | i in e.socks ::
      i in e.homes && OneRead(e.own, e.handled, i, if i == id then up else e.socks[i].connected, e.homes[i])
  }

  // A call keeps the invariant if it submits a read exactly when it leaves its socket one short.
  lemma CallReads(e: Engine, id: nat, r: (Sock, seq<Request>), caller: Caller, up: bool)
    requires O.Sound(e.own) && e.handled <= e.own.handlers && id in e.socks
    requires Routable(e.own.service.rings, caller) && |r.1| <= 1 && ReadsBut(e, id, up)
    requires IsRead(r.1) ==>
               !up && r.1 == [Request(Read, Bind, 65536)] && Route(e.own.service.rings, caller) == e.homes[id]
    requires r.0.connected == (up || IsRead(r.1))
    ensures ReadInv(Called(e, id, r, caller))
  {
    var t := Called(e, id, r, caller);
    forall i | i in t.socks ensures i in t.homes && OneRead(t.own, t.handled, i, t.socks[i].connected, t.homes[i]) {
      CallOneRead(e.own, e.handled, r.1, id, caller, i, if i == id then up else e.socks[i].connected, e.homes[i]);
    }
  }

  lemma CallContexts(e: Engine, id: nat, r: (Sock, seq<Request>), caller: Caller)
    requires OwnInv(e) && id in e.socks && Routable(e.own.service.rings, caller) && |r.1| <= 1
    ensures OwnInv(Called(e, id, r, caller))
  {
    CallOwn(e.own, e.socks.Keys, r.1, id, caller);
    assert Called(e, id, r, caller).socks.Keys == e.socks.Keys;
  }

  lemma NewcomerReads(e: Engine, id: nat, f: Engine)
    requires OwnInv(e) && ReadInv(e) && id !in e.socks
    requires f.own == e.own && f.handled == e.handled && f.results == e.results
    requires f.socks.Keys == e.socks.Keys + {id} && id in f.homes
    requires forall i | i in e.socks :: f.socks[i] == e.socks[i] && (i in e.homes ==> i in f.homes && f.homes[i] == e.homes[i])
    ensures OwnInv(f) && ReadsBut(f, id, false)
  {
    forall ctx ensures ctx !in Pending(e.own, e.handled, id) {
      assert ctx in e.own.kernel || ctx in e.own.handlers ==> Addressed(e.own, e.socks.Keys, ctx);
    }
    assert Pending(e.own, e.handled, id) == {};
    forall ctx | ctx in f.own.kernel || ctx in f.own.handlers ensures Addressed(f.own, f.socks.Keys, ctx) {
      assert Addressed(e.own, e.socks.Keys, ctx);
    }
  }

  lemma OpenReads(e: Engine, step: Step)
    requires OwnInv(e) && ReadInv(e) && Enabled(e, step) && step.Open?
    ensures OwnInv(Apply(e, step)) && ReadInv(Apply(e, step))
  {
    var s := Blank(e.heap, step.open);
    var f := Made(e, step.id, step.open, step.caller);
    NewcomerReads(e, step.id, f);
    NobodyElseReads(s, [], Force);
    CallContexts(f, step.id, Activated(s), step.caller);
    CallReads(f, step.id, Activated(s), step.caller, false);
  }

  lemma SendReads(e: Engine, step: Step)
    requires OwnInv(e) && ReadInv(e) && Enabled(e, step) && step.Send?
    ensures OwnInv(Apply(e, step)) && ReadInv(Apply(e, step))
  {
    var s := Here(e, step.id);
    NobodyElseReads(s, step.bytes, Force);
    CallContexts(e, step.id, Sent(s, step.bytes), step.caller);
    CallReads(e, step.id, Sent(s, step.bytes), step.caller, s.connected);
  }

  lemma CloseReads(e: Engine, step: Step)
    requires OwnInv(e) && ReadInv(e) && Enabled(e, step) && step.Close?
    ensures OwnInv(Apply(e, step)) && ReadInv(Apply(e, step))
  {
    var s := Here(e, step.id);
    NobodyElseReads(s, [], step.how);
    CallContexts(e, step.id, Closing(s, step.how), step.caller);
    CallReads(e, step.id, Closing(s, step.how), step.caller, s.connected);
  }

  // The context about to be handled says whose it is and what for.
  lemma Addressee(e: Engine, ctx: nat)
    requires OwnInv(e) && ctx in e.own.handlers
    ensures ctx in e.own.issued && ctx in e.own.at && ctx in e.own.service.contexts
    ensures e.own.service.contexts[ctx] == Context(e.own.issued[ctx].0, Some(e.own.issued[ctx].1))
    ensures e.own.issued[ctx].1 in e.socks
  {
    assert O.Carries(e.own, ctx) && Addressed(e.own, e.socks.Keys, ctx);
  }

  // With its context marked, the socket counts as up unless the context was its read.
  lemma MarkReads(e: Engine, ctx: nat)
    requires OwnInv(e) && ReadInv(e) && ctx in e.own.handlers && ctx !in e.handled
    ensures ctx in e.own.issued && ctx in e.own.at && e.own.issued[ctx].1 in e.socks
    ensures var (r, id) := e.own.issued[ctx];
      && ReadsBut(e.(handled := e.handled + {ctx}), id, e.socks[id].connected && r.kind != Read)
      && id in e.homes && (r.kind == Read ==> e.socks[id].connected && ReadsAt(e.own, ctx, e.homes[id]))
  {
    Addressee(e, ctx);
    forall i | i in e.socks
      ensures i in e.homes
      ensures (Reading(e.own, e.handled, i, ctx) ==> e.socks[i].connected && ReadsAt(e.own, ctx, e.homes[i]))
      ensures OneRead(e.own, e.handled + {ctx}, i,
                      e.socks[i].connected && !Reading(e.own, e.handled, i, ctx), e.homes[i])
    {
      MarkOneRead(e.own, e.handled, ctx, i, e.socks[i].connected, e.homes[i]);
    }
  }

  // What a completion asks for, and how it leaves its socket.
  lemma OutcomeIs(e: Engine, ctx: nat, bound: seq<byte>)
    requires OwnInv(e) && CanHandle(e, ctx, bound)
    ensures var (r, id) := e.own.issued[ctx];
      var (t, rs) := Outcome(e, ctx, bound);
      && e.own.service.contexts[ctx].handler == Some(id) && |rs| <= 1
      && (IsRead(rs) <==> r.kind == Read && 0 < e.results[ctx])
      && (IsRead(rs) ==> rs == [Request(Read, Bind, 65536)])
      && t.connected == (e.socks[id].connected && !(r.kind == Read && e.results[ctx] <= 0))
  {
    Addressee(e, ctx);
    var (r, id) := e.own.issued[ctx];
    ReadsGoOn(Here(e, id), r.kind, e.results[ctx], bound);
    DispatchedIs(Here(e, id), r.kind, e.results[ctx], bound);
  }

  lemma HandleReads(e: Engine, step: Step)
    requires OwnInv(e) && ReadInv(e) && Enabled(e, step) && step.Handle?
    ensures OwnInv(Apply(e, step)) && ReadInv(Apply(e, step))
  {
    var ctx := step.ctx;
    Addressee(e, ctx);
    MarkReads(e, ctx);
    OutcomeIs(e, ctx, step.bound);
    var (request, id) := e.own.issued[ctx];
    var f, r := e.(handled := e.handled + {ctx}), Outcome(e, ctx, step.bound);
    CallContexts(f, id, r, RingThread(e.own.at[ctx]));
    CallReads(f, id, r, RingThread(e.own.at[ctx]), e.socks[id].connected && request.kind != Read);
  }

  lemma ReapContexts(e: Engine, ctx: nat, res: int)
    requires OwnInv(e) && Enabled(e, Reap(ctx, res))
    ensures OwnInv(Apply(e, Reap(ctx, res)))
  {
    var t := Apply(e, Reap(ctx, res));
    O.ReapSound(e.own, ctx);
    assert O.Carries(e.own, ctx);
    forall x | x in t.own.kernel || x in t.own.handlers ensures Addressed(t.own, t.socks.Keys, x) {
      assert Addressed(e.own, e.socks.Keys, x);
    }
  }

  lemma ReapReads(e: Engine, step: Step)
    requires OwnInv(e) && ReadInv(e) && Enabled(e, step) && step.Reap?
    ensures OwnInv(Apply(e, step)) && ReadInv(Apply(e, step))
  {
    var t := Apply(e, step);
    ReapContexts(e, step.ctx, step.res);
    forall i | i in t.socks ensures i in t.homes && OneRead(t.own, t.handled, i, t.socks[i].connected, t.homes[i]) {
      ReapOneRead(e.own, e.handled, step.ctx, i, e.socks[i].connected, e.homes[i]);
    }
  }

  lemma FinishContexts(e: Engine, ctx: nat)
    requires OwnInv(e) && Enabled(e, Finish(ctx))
    ensures OwnInv(Apply(e, Finish(ctx)))
  {
    var t := Apply(e, Finish(ctx));
    O.FinishSound(e.own, ctx);
    forall x | x in t.own.kernel || x in t.own.handlers ensures Addressed(t.own, t.socks.Keys, x) {
      assert Addressed(e.own, e.socks.Keys, x);
    }
  }

  lemma FinishReads(e: Engine, step: Step)
    requires OwnInv(e) && ReadInv(e) && Enabled(e, step) && step.Finish?
    ensures OwnInv(Apply(e, step)) && ReadInv(Apply(e, step))
  {
    var t := Apply(e, step);
    FinishContexts(e, step.ctx);
    forall i | i in t.socks ensures i in t.homes && OneRead(t.own, t.handled, i, t.socks[i].connected, t.homes[i]) {
      FinishOneRead(e.own, e.handled, step.ctx, i, e.socks[i].connected, e.homes[i]);
    }
  }

  lemma ConsumeReads(e: Engine, step: Step)
    requires OwnInv(e) && ReadInv(e) && Enabled(e, step) && step.Consume?
    ensures OwnInv(Apply(e, step)) && ReadInv(Apply(e, step))
  {
    assert Apply(e, step).socks.Keys == e.socks.Keys;
  }

  lemma StepReads(e: Engine, step: Step)
    requires OwnInv(e) && ReadInv(e) && Enabled(e, step)
    ensures OwnInv(Apply(e, step)) && ReadInv(Apply(e, step))
  {
    match step {
      case Open(_, _, _) => OpenReads(e, step);
      case Send(_, _, _) => SendReads(e, step);
      case Close(_, _, _) => CloseReads(e, step);
      case Consume(_, _) => ConsumeReads(e, step);
      case Reap(_, _) => ReapReads(e, step);
      case Handle(_, _) => HandleReads(e, step);
      case Finish(_) => FinishReads(e, step);
    }
  }

  // What a call makes of a socket that is as it should be.
  lemma DispatchMem(s: Sock, kind: Kind, res: int, bound: seq<byte>)
    requires SockOk(s.l, s) && (kind == Read && 0 < res ==> res <= |bound| && s.recv.CanPush(res))
    ensures var t := Dispatched(s, kind, res, bound).0; OnlyOwn(s, t) && (t.connected ==> 0 < t.recv.block)
  {
    DispatchOwns(s, kind, res, bound);
    DispatchedIs(s, kind, res, bound);
    if kind == Read && 0 < res {
      PushKeeps(s.l, s.recv, bound[..res]);
    }
  }


  lemma BlankOwns(heap: Ledger, open: bool)
    requires heap.Valid()
    ensures var s := Blank(heap, open); OnlyOwn(s, Activated(s).0) && 0 < Activated(s).0.recv.block
  {
    ActivateOwns(Blank(heap, open));
    ActivatedIs(Blank(heap, open));
  }

  lemma OpenMem(e: Engine, id: nat, open: bool, caller: Caller)
    requires MemInv(e.heap, e.socks) && Enabled(e, Open(id, open, caller))
    ensures var t := Apply(e, Open(id, open, caller)); MemInv(t.heap, t.socks)
  {
    var s := Blank(e.heap, open);
    BlankMem(e.heap, e.socks, id, open);
    BlankOwns(e.heap, open);
    CallMem(e.heap, e.socks[id := s], id, Activated(s).0);
  }

  lemma SendMem(e: Engine, id: nat, bytes: seq<byte>, caller: Caller)
    requires MemInv(e.heap, e.socks) && Enabled(e, Send(id, bytes, caller))
    ensures var t := Apply(e, Send(id, bytes, caller)); MemInv(t.heap, t.socks)
  {
    assert SockOk(e.heap, e.socks[id]);
    SendOwns(Here(e, id), DoPush(bytes));
    CallMem(e.heap, e.socks, id, Sent(Here(e, id), bytes).0);
  }

  lemma ClosingOwns(s: Sock, how: CloseType)
    requires SockOk(s.l, s)
    ensures var t := Closing(s, how).0; OnlyOwn(s, t) && (t.connected ==> 0 < t.recv.block)
  {
    ClosingIs(s, how);
  }

  lemma CloseMem(e: Engine, id: nat, how: CloseType, caller: Caller)
    requires MemInv(e.heap, e.socks) && Enabled(e, Close(id, how, caller))
    ensures var t := Apply(e, Close(id, how, caller)); MemInv(t.heap, t.socks)
  {
    assert SockOk(e.heap, e.socks[id]);
    ClosingOwns(Here(e, id), how);
    CallMem(e.heap, e.socks, id, Closing(Here(e, id), how).0);
  }

  lemma ConsumeMem(e: Engine, id: nat, n: nat)
    requires MemInv(e.heap, e.socks) && Enabled(e, Consume(id, n))
    ensures var t := Apply(e, Consume(id, n)); MemInv(t.heap, t.socks)
  {
    assert SockOk(e.heap, e.socks[id]);
    CallMem(e.heap, e.socks, id, Here(e, id).(recv := Popped(e.socks[id].recv, n)));
  }

  lemma HandleMem(e: Engine, ctx: nat, bound: seq<byte>)
    requires MemInv(e.heap, e.socks) && Enabled(e, Handle(ctx, bound))
    ensures var t := Apply(e, Handle(ctx, bound)); MemInv(t.heap, t.socks)
  {
    var c := e.own.service.contexts[ctx];
    assert SockOk(e.heap, e.socks[c.handler.value]);
    DispatchMem(Here(e, c.handler.value), c.request.kind, e.results[ctx], bound);
    CallMem(e.heap, e.socks, c.handler.value, Outcome(e, ctx, bound).0);
  }

  lemma StepMem(e: Engine, step: Step)
    requires MemInv(e.heap, e.socks) && Enabled(e, step)
    ensures MemInv(Apply(e, step).heap, Apply(e, step).socks)
  {
    match step {
      case Open(id, open, caller) => OpenMem(e, id, open, caller);
      case Send(id, bytes, caller) => SendMem(e, id, bytes, caller);
      case Close(id, how, caller) => CloseMem(e, id, how, caller);
      case Consume(id, n) => ConsumeMem(e, id, n);
      case Handle(ctx, bound) => HandleMem(e, ctx, bound);
      case _ =>
    }
  }

  ghost predicate Inv(e: Engine) {
    OwnInv(e) && ReadInv(e) && MemInv(e.heap, e.socks)
  }

  lemma {:induction false} RunKeeps(e: Engine, steps: seq<Step>)
    requires Inv(e) && Legal(e, steps)
    ensures Inv(Exec(e, steps))
    decreases steps
  {
    if steps != [] {
      StepReads(e, steps[0]);
      StepMem(e, steps[0]);
      RunKeeps(Apply(e, steps[0]), steps[1..]);
    }
  }

  lemma StartedInv(initial: nat, rings: seq<nat>)
    ensures Inv(Started(initial, rings))
  {
    O.StartedSound(initial, rings);
    assert Shares(map[]) == map[];
  }

  // A completion can always be handed to its socket.
  lemma Handles(e: Engine, ctx: nat, bound: seq<byte>)
    requires Inv(e) && ctx in e.own.handlers && ctx !in e.handled && |bound| == DATA_BUFFER_SIZE
    ensures CanHandle(e, ctx, bound)
  {
    Addressee(e, ctx);
    MarkReads(e, ctx);
    assert SockOk(e.heap, e.socks[e.own.issued[ctx].1]);
  }

  // In every run of the engine every socket that is up has exactly one read out, for the whole
  // bind buffer and on the ring of its first one, and a socket that is down has none.  Every
  // completion can be handled: none reaches a receive buffer that is gone.  Every context has
  // one owner and carries what it was issued with.  No two sockets ever share memory, and the
  // live blocks are exactly those the sockets own.
  lemma EngineRuns(initial: nat, rings: seq<nat>, steps: seq<Step>)
    requires Legal(Started(initial, rings), steps)
    ensures var e := Exec(Started(initial, rings), steps);
      && (forall id | id in e.socks ::
            id in e.homes && OneRead(e.own, e.handled, id, e.socks[id].connected, e.homes[id]))
      && (forall ctx, bound: seq<byte> |
            ctx in e.own.handlers && ctx !in e.handled && |bound| == DATA_BUFFER_SIZE :: CanHandle(e, ctx, bound))
      && O.OneOwner(e.own) && (forall ctx | ctx in e.own.kernel || ctx in e.own.handlers :: O.Carries(e.own, ctx))
      && Separate(Shares(e.socks)) && e.heap.live == Union(Shares(e.socks))
  {
    StartedInv(initial, rings);
    RunKeeps(Started(initial, rings), steps);
    var e := Exec(Started(initial, rings), steps);
    forall ctx, bound: seq<byte> | ctx in e.own.handlers && ctx !in e.handled && |bound| == DATA_BUFFER_SIZE
      ensures CanHandle(e, ctx, bound)
    {
      Handles(e, ctx, bound);
    }
  }

  // --- The methods ------------------------------------------------------------------------

  // The steps of the engine do to the service what the contracts of the methods say: a call of
  // `OnActive`, `Send` or `Close` ...
  lemma CallsAreMethods(e: Engine, step: Step)
    requires Inv(e) && Enabled(e, step) && (step.Open? || step.Send? || step.Close?)
    ensures var t := Apply(e, step);
      var v, w := e.own.service, t.own.service;
      match step
      case Open(id, open, caller) =>
        (t.socks[id], w) == (Activated(Blank(e.heap, open)).0, IssuedAll(v, Activated(Blank(e.heap, open)).1, id, caller))
      case Send(id, bytes, caller) =>
        (t.socks[id], w) == (Sent(Here(e, id), bytes).0, IssuedAll(v, Sent(Here(e, id), bytes).1, id, caller))
      case Close(id, how, caller) =>
        (t.socks[id], w) == (Closing(Here(e, id), how).0, IssuedAll(v, Closing(Here(e, id), how).1, id, caller))
      case _ => true
  {
    match step {
      case Open(id, open, caller) => O.IssueAllIs(e.own, Activated(Blank(e.heap, open)).1, id, caller);
      case Send(id, bytes, caller) => O.IssueAllIs(e.own, Sent(Here(e, id), bytes).1, id, caller);
      case Close(id, how, caller) => O.IssueAllIs(e.own, Closing(Here(e, id), how).1, id, caller);
      case _ =>
    }
  }

  // ... and the handling of a completion, which is `Handle`: its socket is the one the context
  // was issued for ...
  lemma OutcomeIsDispatched(e: Engine, ctx: nat, bound: seq<byte>)
    requires OwnInv(e) && CanHandle(e, ctx, bound)
    ensures var (r, id) := e.own.issued[ctx];
      && e.own.service.contexts[ctx].handler == Some(id)
      && (r.kind == Read && 0 < e.results[ctx] ==> e.results[ctx] <= |bound| && Here(e, id).recv.CanPush(e.results[ctx]))
      && Outcome(e, ctx, bound) == Dispatched(Here(e, id), r.kind, e.results[ctx], bound)
  {
    Addressee(e, ctx);
  }

  // ... and its thread that of the ring the request went to.  `Dispatch` then reclaims the
  // context, which is the step `Finish`.
  lemma HandlingIsMethod(e: Engine, ctx: nat, bound: seq<byte>)
    requires OwnInv(e) && Enabled(e, Handle(ctx, bound))
    ensures var t := Apply(e, Handle(ctx, bound));
      var (s, rs) := Outcome(e, ctx, bound);
      var id := e.own.service.contexts[ctx].handler.value;
      && t.socks[id] == s && t.heap == s.l && Enabled(t, Finish(ctx))
      && t.own.service == IssuedAll(e.own.service, rs, id, RingThread(e.own.at[ctx]))
      && Apply(t, Finish(ctx)).own.service == Reclaimed(t.own.service, ctx)
  {
    O.IssueAllIs(e.own, Outcome(e, ctx, bound).1, e.own.service.contexts[ctx].handler.value, RingThread(e.own.at[ctx]));
  }
}

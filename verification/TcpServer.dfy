/** The accept chain of a Linux server.  All accepts share one address slot, `addr6`, which
    the kernel fills when a connection comes in; the handler copies it before it submits the
    next accept. */
module TcpServers {
  import opened Memory
  import opened IoBuffers
  import opened IoDoubleBuffers
  import opened IoServices
  import opened TcpSockets

  type Address = seq<byte>

  const ACCEPT_REQUEST := Request(Accept, Nowhere, 0)

  datatype AcceptCtx = AcceptCtx(ring: nat, res: Option<int>)

  // The accept a request makes, if it is one.
  function Accepts(r: Request, ring: nat): seq<AcceptCtx> {
    if r.kind == Accept then [AcceptCtx(ring, None)] else []
  }

  // Where the thread of a ring stands in `io_accepting`, and the descriptor it was given.
  datatype Stage = SetRemote(fd: int) | Resubmit | Activate

  // A descriptor and the address of its peer.
  datatype Connection = Connection(fd: int, addr: Address)

  // `arrived`: every connection as the kernel made it, in order of arrival.  `sockets`: the
  // descriptor and the address stored in each socket made, in order; `active`: how many of
  // them have been activated.
  datatype Server = Server(
    addr6: Address, accepts: seq<AcceptCtx>, busy: map<nat, Stage>, rings: seq<nat>, home: nat,
    failures: nat, arrived: seq<Connection>, sockets: seq<Connection>, active: nat)

  datatype Step =
    | Arrive(i: nat, fd: int, addr: Address)  // the kernel completes accept i
    | Break(i: nat, res: int)                 // ... or fails it
    | Dispatch(i: nat)
    | DoSetRemote(ring: nat)
    | DoSubmit(ring: nat)
    | DoActivate(ring: nat)

  predicate At(s: Server, ring: nat, stage: Stage) {
    ring in s.busy && s.busy[ring] == stage
  }

  predicate Enabled(s: Server, step: Step) {
    match step
    case Arrive(i, fd, _) => i < |s.accepts| && s.accepts[i].res == None && 0 < fd
    case Break(i, res) => i < |s.accepts| && s.accepts[i].res == None && res <= 0
    case Dispatch(i) => i < |s.accepts| && s.accepts[i].res.Some? && s.accepts[i].ring !in s.busy
    case DoSetRemote(ring) => ring in s.busy && s.busy[ring].SetRemote?
    case DoSubmit(ring) => At(s, ring, Resubmit)
    case DoActivate(ring) => At(s, ring, Activate)
  }

  function Apply(s: Server, step: Step): Server
    requires Enabled(s, step)
  {
    match step
    case Arrive(i, fd, addr) =>
      s.(accepts := s.accepts[i := s.accepts[i].(res := Some(fd))], addr6 := addr,
         arrived := s.arrived + [Connection(fd, addr)])
    case Break(i, res) => s.(accepts := s.accepts[i := s.accepts[i].(res := Some(res))])
    case Dispatch(i) =>
      var c := s.accepts[i];
      var t := s.(accepts := s.accepts[..i] + s.accepts[i + 1..]);
      if 0 < c.res.value then t.(busy := t.busy[c.ring := SetRemote(c.res.value)]) else t.(failures := t.failures + 1)
    case DoSetRemote(ring) =>
      s.(sockets := s.sockets + [Connection(s.busy[ring].fd, s.addr6)], busy := s.busy[ring := Resubmit])
    case DoSubmit(ring) =>
      s.(accepts := s.accepts + Accepts(ACCEPT_REQUEST, Route(s.rings, RingThread(ring))), busy := s.busy[ring := Activate])
    case DoActivate(ring) => s.(active := s.active + 1, busy := s.busy - {ring})
  }

  predicate Legal(s: Server, steps: seq<Step>)
    decreases steps
  {
    steps == [] || (Enabled(s, steps[0]) && Legal(Apply(s, steps[0]), steps[1..]))
  }

  function Exec(s: Server, steps: seq<Step>): Server
    requires Legal(s, steps)
    decreases steps
  {
    if steps == [] then s else Exec(Apply(s, steps[0]), steps[1..])
  }

  // `run` submits the first accept from whatever thread it is called on.
  function Started(rings: seq<nat>, caller: Caller): Server
    requires Routable(rings, caller)
  {
    Server([], Accepts(ACCEPT_REQUEST, Route(rings, caller)), map[], rings, Route(rings, caller), 0, [], [], 0)
  }

  // The descriptor of a connection that has arrived and whose address waits in the slot.
  function Waiting(s: Server): Option<int> {
    if |s.accepts| == 1 && s.accepts[0].res.Some? && 0 < s.accepts[0].res.value then s.accepts[0].res
    else if s.home in s.busy && s.busy[s.home].SetRemote? then Some(s.busy[s.home].fd)
    else None
  }

  // One link: an accept with the kernel, or a handler on the home ring yet to submit it.
  predicate Chain(s: Server) {
    || (|s.accepts| == 1 && s.accepts[0].ring == s.home && s.failures == 0
        && (s.busy == map[] || s.busy == map[s.home := Activate]))
    || (s.accepts == [] && s.failures == 0
        && s.home in s.busy && !s.busy[s.home].Activate? && s.busy == map[s.home := s.busy[s.home]])
    || (s.accepts == [] && s.failures == 1 && s.busy == map[])
  }

  predicate Inv(s: Server) {
    && Chain(s)
    && (match Waiting(s)
        case None => s.arrived == s.sockets
        case Some(fd) => s.arrived == s.sockets + [Connection(fd, s.addr6)])
    && s.active + (if At(s, s.home, Resubmit) || At(s, s.home, Activate) then 1 else 0) == |s.sockets|
  }

  lemma StepKeeps(s: Server, step: Step)
    requires Inv(s) && Enabled(s, step)
    ensures Inv(Apply(s, step)) && Apply(s, step).home == s.home
  {
    if step.Dispatch? {
      assert s.accepts[..0] + s.accepts[1..] == [];
    }
  }

  lemma {:induction false} RunKeeps(s: Server, steps: seq<Step>)
    requires Inv(s) && Legal(s, steps)
    ensures Inv(Exec(s, steps)) && Exec(s, steps).home == s.home
    decreases steps
  {
    if steps != [] {
      StepKeeps(s, steps[0]);
      RunKeeps(Apply(s, steps[0]), steps[1..]);
    }
  }

  // In every run the sockets are the connections, in order: each was made from the descriptor
  // of one connection and stores the address the kernel wrote for that same one.  At most the
  // newest connection still waits, and until an accept fails exactly one is outstanding
  // whenever no handler is running, always on the same ring.
  lemma AcceptsMatchConnections(rings: seq<nat>, caller: Caller, steps: seq<Step>)
    requires Routable(rings, caller) && Legal(Started(rings, caller), steps)
    ensures var s := Exec(Started(rings, caller), steps);
      && s.sockets <= s.arrived && |s.arrived| <= |s.sockets| + 1
      && |s.accepts| <= 1 && (forall c | c in s.accepts :: c.ring == Route(rings, caller))
      && (s.busy == map[] ==> |s.accepts| + s.failures == 1 && s.active == |s.sockets|)
  {
    RunKeeps(Started(rings, caller), steps);
  }

  // --- The class ----------------------------------------------------------------------

  class TcpServer {
    const id: nat
    const heap: Heap
    const service: IoService
    var addr6: Address
    var serverSocket: nat

    constructor (id: nat, heap: Heap, service: IoService, fd: nat)
      ensures this.id == id && this.heap == heap && this.service == service && serverSocket == fd
    {
      this.id, this.heap, this.service := id, heap, service;
      addr6, serverSocket := [], fd;
    }

    method Stop(caller: Caller)
      requires Routable(service.ioArray, caller)
      modifies service, service.contextPool
      ensures service.View() == IssuedAll(old(service.View()), [SHUTDOWN_REQUEST], id, caller)
    {
      service.Issue(SHUTDOWN_REQUEST, id, caller);
    }

    // What the completion loop does with a shutdown of the server.
    method CloseHandler()
      modifies `serverSocket
      ensures serverSocket == 0
    {
      serverSocket := 0;
    }

    method SubmitAccept(caller: Caller)
      requires Routable(service.ioArray, caller)
      modifies service, service.contextPool
      ensures service.View() == IssuedAll(old(service.View()), [ACCEPT_REQUEST], id, caller)
    {
      service.Issue(ACCEPT_REQUEST, id, caller);
    }

    // The new socket takes the address out of the slot ...
    method MakeSocket(newId: nat, newSocket: nat) returns (socket: TcpSocket)
      requires heap.ledger.Valid()
      ensures fresh(socket.Objects()) && socket.Blocks() == {}
      ensures socket.Valid() && socket.heap == heap && socket.service == service && socket.id == newId
      ensures socket.addrStorage == addr6 && socket.socketHandler == newSocket
      ensures socket.View() == Sock(heap.ledger, NO_DBL, NO_BUF, false, false, newSocket != 0, 0, 0)
    {
      socket := new TcpSocket(newId, heap, service, newSocket);
      socket.SetRemoteInfo(addr6);
    }

    // ... before the next accept is submitted.
    method IoAccepting(newId: nat, newSocket: nat, caller: Caller) returns (socket: TcpSocket)
      requires heap.ledger.Valid() && Routable(service.ioArray, caller)
      modifies heap, service, service.contextPool
      ensures fresh(socket.Objects()) && fresh(socket.Blocks())
      ensures socket.Valid() && socket.heap == heap && socket.service == service && socket.id == newId
      ensures socket.addrStorage == addr6 && socket.socketHandler == newSocket
      ensures var blank := Sock(old(heap.ledger), NO_DBL, NO_BUF, false, false, newSocket != 0, 0, 0);
        socket.View() == Activated(blank).0
      ensures service.View()
           == IssuedAll(IssuedAll(old(service.View()), [ACCEPT_REQUEST], id, caller), [READ_REQUEST], newId, caller)
    {
      socket := MakeSocket(newId, newSocket);
      SubmitAccept(caller);
      socket.OnActive(caller);
    }
  }
}

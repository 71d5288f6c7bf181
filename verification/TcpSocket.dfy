/** One TCP socket on Linux: the code of `socket_object` and `tcp_socket`, and the part of
    the completion loop that calls it.  `Sock` is the state; each function gives the state
    after a call and the requests the call submitted. */
module TcpSockets {
  import opened Memory
  import opened IoBuffers
  import opened IoDoubleBuffers
  import opened IoServices

  const DATA_BUFFER_SIZE: nat := 1024 * 64

  datatype CloseType = Graceful | Force

  // `open`: the descriptor has not been closed yet.  `completions` and `errors` count the
  // calls made to the send-complete and error callbacks.
  datatype Sock = Sock(
    l: Ledger, send: Dbl, recv: Buf,
    connected: bool, graceful: bool, open: bool,
    completions: nat, errors: nat)

  const READ_REQUEST := Request(Read, Bind, DATA_BUFFER_SIZE)
  const SHUTDOWN_REQUEST := Request(Shutdown, Nowhere, 0)

  // The whole of main, and nothing of sub.
  function WriteRequest(d: Dbl): Request {
    Request(Write, Block(d.main.raw), |d.main.data|)
  }

  function Activated(s: Sock): (Sock, seq<Request>) {
    var (l0, recv) := Assigned(s.l, s.recv, DATA_BUFFER_SIZE);
    var (l', send) := AssignedMain(l0, s.send, DATA_BUFFER_SIZE);
    (s.(l := l', recv := recv, send := send, connected := true), [READ_REQUEST])
  }

  // The tests a send makes before it takes the lock.
  predicate Admits(s: Sock) {
    !s.graceful && s.connected
  }

  // The locked part of a send.
  function Sent(s: Sock, bytes: seq<byte>): (r: (Sock, seq<Request>))
    requires s.send.CanPush(|bytes|)
    ensures |r.1| <= 1
  {
    var (l', d) := Queued(s.l, s.send, bytes);
    (s.(l := l', send := d), if s.send.IsEmpty() then [WriteRequest(d)] else [])
  }

  // The end of io_sent: the next write, or the end of a busy period.
  function Continued(s: Sock): (r: (Sock, seq<Request>))
    ensures |r.1| <= 1
  {
    if !s.send.IsEmpty() then
      (s, [WriteRequest(s.send)])
    else
      (s.(completions := s.completions + 1), if s.graceful then [SHUTDOWN_REQUEST] else [])
  }

  // io_sent.
  function Acked(s: Sock, n: nat): (r: (Sock, seq<Request>))
    ensures |r.1| <= 1
  {
    var (l', d) := Elevated(s.l, Unqueued(s.send, n));
    Continued(s.(l := l', send := d))
  }

  function Closing(s: Sock, how: CloseType): (r: (Sock, seq<Request>))
    ensures |r.1| <= 1
  {
    if how == Graceful && !s.send.IsEmpty() then (s.(graceful := true), []) else (s, [SHUTDOWN_REQUEST])
  }

  // io_shutdown.
  function Ended(s: Sock): Sock {
    var (l0, recv) := Destroyed(s.l, s.recv);
    var (l', send) := DestroyedBoth(l0, s.send);
    s.(l := l', recv := recv, send := send, connected := false)
  }

  // io_received up to the receive callback.
  function Received(s: Sock, bytes: seq<byte>): (Sock, seq<Request>)
    requires s.recv.CanPush(|bytes|)
  {
    var (l', recv) := Pushed(s.l, s.recv, bytes);
    (s.(l := l', recv := recv), [READ_REQUEST])
  }

  // One completion of a socket's request: `bound` is the content of the bind buffer.
  function Dispatched(s: Sock, kind: Kind, res: int, bound: seq<byte>): (r: (Sock, seq<Request>))
    requires kind == Read && 0 < res ==> res <= |bound| && s.recv.CanPush(res)
    ensures |r.1| <= 1
  {
    match kind
    case Read => if 0 < res then Received(s, bound[..res]) else (Ended(s), [])
    case Write => if 0 < res then Acked(s, res) else (s.(errors := s.errors + 1), [])
    case Shutdown => (s.(open := false), [])
    case _ => (s, [])
  }

  // --- What a call comes to -------------------------------------------------------------

  // A read that brought bytes appends them to recv_buffer and submits exactly one more read,
  // of 64K, into the bind buffer; nothing else that completes submits a read.
  lemma ReadsGoOn(s: Sock, kind: Kind, res: int, bound: seq<byte>)
    requires kind == Read && 0 < res ==> res <= |bound| && s.recv.CanPush(res)
    ensures var (t, rs) := Dispatched(s, kind, res, bound);
      if kind == Read && 0 < res then
        && rs == [Request(Read, Bind, 65536)] && t.recv.data == s.recv.data + bound[..res]
        && t == s.(l := t.l, recv := t.recv)
      else forall r | r in rs :: r.kind != Read
  {
  }

  // Activation submits the first one; sends and closes submit none.
  lemma NobodyElseReads(s: Sock, bytes: seq<byte>, how: CloseType)
    ensures Activated(s).1 == [Request(Read, Bind, 65536)]
    ensures s.send.CanPush(|bytes|) ==> forall r | r in Sent(s, bytes).1 :: r.kind == Write
    ensures forall r | r in Closing(s, how).1 :: r.kind == Shutdown
  {
  }

  // An activated socket is up, with two new empty blocks of 64K.
  lemma ActivatedIs(s: Sock)
    ensures var t := Activated(s).0;
      && t == s.(l := t.l, recv := t.recv, send := t.send, connected := true) && t.send.sub == s.send.sub
      && t.recv.capacity == t.recv.block == t.send.main.capacity == t.send.main.block == 65536
      && t.recv.data == t.send.main.data == []
      && t.recv.raw == s.l.next && t.send.main.raw == s.l.next + 1
  {
  }

  // A socket that has ended owns nothing, and its other flags are as they were.
  lemma EndedIs(s: Sock)
    requires OwnsAll(s.l, s.send, s.recv)
    ensures var t := Ended(s);
      && t == s.(l := t.l, send := NO_DBL, recv := NO_BUF, connected := false)
      && t.l.live == s.l.live - SockOwns(s)
  {
  }

  // A forced close, and any close of an idle socket, asks for the shutdown at once and changes
  // nothing; a graceful close with data pending raises the flag and asks for nothing.
  lemma ClosingIs(s: Sock, how: CloseType)
    ensures var (t, rs) := Closing(s, how);
      if how == Force || Fifo(s.send) == [] then t == s && rs == [Request(Shutdown, Nowhere, 0)]
      else t == s.(graceful := true) && rs == []
  {
  }

  // What is left of a completion when it is not a read that brought bytes.
  lemma DispatchedIs(s: Sock, kind: Kind, res: int, bound: seq<byte>)
    requires kind == Read && 0 < res ==> res <= |bound| && s.recv.CanPush(res)
    ensures var (t, rs) := Dispatched(s, kind, res, bound);
      && (kind == Read && res <= 0 ==> t == Ended(s) && rs == [])
      && (kind == Write && res <= 0 ==> t == s.(errors := s.errors + 1) && rs == [])
      && (kind == Write && 0 < res ==>
            && t == s.(l := t.l, send := t.send, completions := t.completions)
            && (Fifo(t.send) == [] ==>
                  && t.completions == s.completions + 1
                  && rs == if s.graceful then [Request(Shutdown, Nowhere, 0)] else [])
            && (Fifo(t.send) != [] ==>
                  && t.completions == s.completions
                  && rs == [Request(Write, Block(t.send.main.raw), |t.send.main.data|)]))
      && (kind == Shutdown ==> t == s.(open := false) && rs == [])
  {
  }

  // --- Who owns which block -----------------------------------------------------------

  // The three buffers own live, distinct blocks.
  ghost predicate OwnsAll(l: Ledger, send: Dbl, recv: Buf) {
    && Holds(l, send) && recv.Valid()
    && Own(recv) <= l.live && Own(recv) !! Owns(send)
  }

  function OnSend(s: Sock, op: IoDoubleBuffers.Op): Sock
    requires IoDoubleBuffers.Returns(s.send, op)
  {
    var (l', d) := IoDoubleBuffers.Apply(s.l, s.send, op);
    s.(l := l', send := d)
  }

  // The pointers of the three buffers.
  function BuffersOwn(send: Dbl, recv: Buf): set<Ptr> {
    Owns(send) + Own(recv)
  }

  function SockOwns(s: Sock): set<Ptr> {
    BuffersOwn(s.send, s.recv)
  }

  // From s to t no block changed hands that belongs to neither.
  ghost predicate OnlyOwn(s: Sock, t: Sock) {
    OwnsAll(t.l, t.send, t.recv) && t.l.live - SockOwns(t) == s.l.live - SockOwns(s)
  }

  lemma SendOwns(s: Sock, op: IoDoubleBuffers.Op)
    requires OwnsAll(s.l, s.send, s.recv) && IoDoubleBuffers.Returns(s.send, op)
    ensures OnlyOwn(s, OnSend(s, op)) && OnSend(s, op).recv == s.recv
  {
    HoldsStep(s.l, s.send, op);
    var t := OnSend(s, op);
    assert Own(s.recv) <= s.l.live - Owns(s.send);
  }

  lemma ReceiveOwns(s: Sock, bytes: seq<byte>)
    requires OwnsAll(s.l, s.send, s.recv) && s.recv.CanPush(|bytes|)
    ensures OnlyOwn(s, Received(s, bytes).0)
  {
    PushKeeps(s.l, s.recv, bytes);
    assert Owns(s.send) <= s.l.live - Own(s.recv);
  }

  lemma AckOwns(s: Sock, n: nat)
    requires OwnsAll(s.l, s.send, s.recv)
    ensures OnlyOwn(s, Acked(s, n).0)
  {
    SendOwns(s, DoPop(n));
    SendOwns(OnSend(s, DoPop(n)), DoElevate);
  }

  lemma EndOwns(s: Sock)
    requires OwnsAll(s.l, s.send, s.recv)
    ensures OnlyOwn(s, Ended(s)) && SockOwns(Ended(s)) == {}
  {
    var t := s.(l := Destroyed(s.l, s.recv).0, recv := Destroyed(s.l, s.recv).1);
    assert Owns(s.send) <= s.l.live - Own(s.recv);
    assert OnlyOwn(s, t);
    SendOwns(t, DoDestroy);
  }

  lemma ActivateOwns(s: Sock)
    requires OwnsAll(s.l, s.send, s.recv)
    ensures OnlyOwn(s, Activated(s).0)
  {
    var (l0, recv) := Assigned(s.l, s.recv, DATA_BUFFER_SIZE);
    var t := s.(l := l0, recv := recv);
    assert Owns(s.send) <= s.l.live - Own(s.recv);
    assert OnlyOwn(s, t);
    SendOwns(t, DoAssign(DATA_BUFFER_SIZE));
  }

  // Whatever completes, a socket leaves the blocks of everybody else alone.
  lemma DispatchOwns(s: Sock, kind: Kind, res: int, bound: seq<byte>)
    requires OwnsAll(s.l, s.send, s.recv)
    requires kind == Read && 0 < res ==> res <= |bound| && s.recv.CanPush(res)
    ensures OnlyOwn(s, Dispatched(s, kind, res, bound).0)
  {
    match kind {
      case Read => if 0 < res { ReceiveOwns(s, bound[..res]); } else { EndOwns(s); }
      case Write => if 0 < res { AckOwns(s, res); }
      case _ =>
    }
  }

  // A socket whose blocks are apart from those that changed hands still owns its own.
  lemma OthersOwn(s: Sock, o: Sock, o': Sock)
    requires OwnsAll(s.l, s.send, s.recv) && s.l == o.l && SockOwns(s) !! SockOwns(o) && OnlyOwn(o, o')
    ensures OwnsAll(o'.l, s.send, s.recv) && SockOwns(s) !! SockOwns(o')
  {
    assert SockOwns(s) <= o.l.live - SockOwns(o);
  }

  // The buffer has the block it had, and the block holds what it held.
  twostate predicate SameBytes(b: IoBuffer)
    reads b, b.rawBuffer
  {
    && b.rawBuffer == old(b.rawBuffer)
    && (b.rawBuffer != null ==> b.rawBuffer[..] == old(b.rawBuffer[..]))
  }

  function TheBlock(a: array?<byte>): set<object> {
    if a == null then {} else {a}
  }

  // --- The class ----------------------------------------------------------------------

  class TcpSocket {
    const id: nat
    const heap: Heap
    const service: IoService
    const recvBuffer: IoBuffer
    const sendBuffer: IoDoubleBuffer
    const recvBindBuffer: array<byte>
    var connectedFlag: bool
    var shutdownGracefully: bool
    var socketHandler: nat
    var addrStorage: seq<byte>
    var completions: nat
    var errors: nat

    ghost predicate Valid()
      reads this, heap, recvBuffer, sendBuffer.mainBuffer, sendBuffer.subBuffer
      reads recvBuffer.rawBuffer, sendBuffer.mainBuffer.rawBuffer, sendBuffer.subBuffer.rawBuffer
    {
      && recvBuffer.heap == heap && sendBuffer.heap == heap
      && recvBuffer.Valid() && sendBuffer.Valid()
      && recvBuffer != sendBuffer.mainBuffer && recvBuffer != sendBuffer.subBuffer
      && (recvBuffer.rawBuffer != null ==>
            recvBuffer.rawBuffer != sendBuffer.mainBuffer.rawBuffer
            && recvBuffer.rawBuffer != sendBuffer.subBuffer.rawBuffer)
      && recvBindBuffer.Length == DATA_BUFFER_SIZE
      && recvBindBuffer != recvBuffer.rawBuffer
      && recvBindBuffer != sendBuffer.mainBuffer.rawBuffer && recvBindBuffer != sendBuffer.subBuffer.rawBuffer
      && OwnsAll(heap.ledger, sendBuffer.View(), recvBuffer.view)
    }

    ghost function View(): Sock
      reads this, heap, recvBuffer, sendBuffer.mainBuffer, sendBuffer.subBuffer
    {
      Sock(heap.ledger, sendBuffer.View(), recvBuffer.view, connectedFlag,
           shutdownGracefully, socketHandler != 0, completions, errors)
    }

    // Every block now in use was this socket's before, or is new.
    twostate predicate Fresher()
      reads recvBuffer, sendBuffer.mainBuffer, sendBuffer.subBuffer
    {
      recvBuffer.Fresher() && sendBuffer.Fresher()
    }

    constructor (id: nat, heap: Heap, service: IoService, fd: nat)
      requires heap.ledger.Valid()
      ensures Valid() && this.id == id && this.heap == heap && this.service == service && socketHandler == fd
      ensures fresh(Objects()) && Blocks() == {}
      ensures View() == Sock(heap.ledger, NO_DBL, NO_BUF, false, false, fd != 0, 0, 0)
    {
      this.id, this.heap, this.service := id, heap, service;
      recvBuffer := new IoBuffer(heap);
      sendBuffer := new IoDoubleBuffer(heap);
      recvBindBuffer := new byte[DATA_BUFFER_SIZE];
      connectedFlag, shutdownGracefully, socketHandler := false, false, fd;
      addrStorage, completions, errors := [], 0, 0;
    }

    method SetRemoteInfo(addr: seq<byte>)
      requires Valid()
      modifies `addrStorage
      ensures Valid() && addrStorage == addr
    {
      addrStorage := addr;
    }

    // --- several sockets

    ghost function Objects(): set<object> {
      {this, recvBuffer, sendBuffer.mainBuffer, sendBuffer.subBuffer, recvBindBuffer}
    }

    // The blocks behind the three buffers.
    ghost function Blocks(): set<object>
      reads recvBuffer, sendBuffer.mainBuffer, sendBuffer.subBuffer
    {
      TheBlock(recvBuffer.rawBuffer)
      + TheBlock(sendBuffer.mainBuffer.rawBuffer) + TheBlock(sendBuffer.subBuffer.rawBuffer)
    }

    ghost function Owned(): (r: set<Ptr>)
      reads recvBuffer, sendBuffer.mainBuffer, sendBuffer.subBuffer
    {
      BuffersOwn(sendBuffer.View(), recvBuffer.view)
    }

    // Two sockets on one heap that share neither objects nor memory.
    ghost predicate Apart(other: TcpSocket)
      reads recvBuffer, sendBuffer.mainBuffer, sendBuffer.subBuffer
      reads other.recvBuffer, other.sendBuffer.mainBuffer, other.sendBuffer.subBuffer
    {
      && heap == other.heap && Objects() !! other.Objects()
      && Blocks() !! other.Blocks() && Blocks() !! other.Objects() && Objects() !! other.Blocks()
      && Owned() !! other.Owned()
    }

    // While others work on the heap, a socket whose blocks stay live stays valid and keeps its
    // whole state; `OthersOwn` says that they do stay live.
    twostate lemma StaysValid()
      requires old(Valid()) && heap.ledger.Valid() && old(Owned()) <= heap.ledger.live
      requires unchanged(this) && unchanged(recvBuffer)
      requires unchanged(sendBuffer.mainBuffer) && unchanged(sendBuffer.subBuffer)
      requires SameBytes(recvBuffer) && SameBytes(sendBuffer.mainBuffer) && SameBytes(sendBuffer.subBuffer)
      ensures Valid() && View() == old(View()).(l := heap.ledger)
    {
    }

    // Whatever blocks the other one takes, they are new.
    twostate lemma StaysApart(other: TcpSocket)
      requires old(Apart(other)) && other.Fresher() && old(Owned()) !! other.Owned()
      requires unchanged(recvBuffer) && unchanged(sendBuffer.mainBuffer) && unchanged(sendBuffer.subBuffer)
      ensures Apart(other)
    {
      other.NewBlocks();
      ghost var added := other.Blocks() - old(other.Blocks());
      AreApart(old(Objects() + Blocks()), added);
      assert Blocks() == old(Blocks()) && other.Blocks() <= old(other.Blocks()) + added;
    }

    // What is new is apart from what was there.
    static twostate lemma AreApart(there: set<object>, new added: set<object>)
      requires fresh(added)
      ensures there !! added
    {
    }

    lemma ApartBothWays(other: TcpSocket)
      requires Apart(other)
      ensures other.Apart(this)
    {
    }

    twostate lemma StaysBeside(other: TcpSocket)
      requires old(Apart(other))
      requires Blocks() == old(Blocks()) && Owned() == old(Owned())
      requires other.Blocks() == old(other.Blocks()) && other.Owned() == old(other.Owned())
      ensures Apart(other)
    {
    }

    twostate lemma NewBlocks()
      requires Fresher()
      ensures fresh(Blocks() - old(Blocks()))
    {
    }

    // --- sending

    method SubmitSending(caller: Caller)
      requires Valid() && Routable(service.ioArray, caller)
      modifies service, service.contextPool
      ensures Valid()
      ensures service.View() == IssuedAll(old(service.View()), [WriteRequest(View().send)], id, caller)
    {
      service.Issue(Request(Write, Block(sendBuffer.mainBuffer.rawPointer), sendBuffer.mainBuffer.bufferOffset),
                    id, caller);
    }

    method PushSend(bytes: seq<byte>)
      requires Valid() && View().send.CanPush(|bytes|)
      modifies sendBuffer.mainBuffer, sendBuffer.subBuffer, heap
      modifies sendBuffer.mainBuffer.rawBuffer, sendBuffer.subBuffer.rawBuffer
      ensures Valid() && Fresher() && View() == Sent(old(View()), bytes).0
    {
      SendOwns(View(), DoPush(bytes));
      sendBuffer.Push(bytes);
    }

    method Send(bytes: seq<byte>, caller: Caller) returns (ok: bool)
      requires Valid() && Routable(service.ioArray, caller)
      requires Admits(View()) ==> View().send.CanPush(|bytes|)
      modifies sendBuffer.mainBuffer, sendBuffer.subBuffer, heap
      modifies sendBuffer.mainBuffer.rawBuffer, sendBuffer.subBuffer.rawBuffer
      modifies service, service.contextPool
      ensures Valid() && Fresher() && ok == Admits(old(View()))
      ensures !ok ==> View() == old(View()) && service.View() == old(service.View())
      ensures ok ==>
        var (s, requests) := Sent(old(View()), bytes);
        View() == s && service.View() == IssuedAll(old(service.View()), requests, id, caller)
    {
      if shutdownGracefully { return false; }
      if !connectedFlag { return false; }
      if sendBuffer.mainBuffer.bufferOffset == 0 && sendBuffer.subBuffer.bufferOffset == 0 {
        PushSend(bytes);
        SubmitSending(caller);
      } else {
        PushSend(bytes);
      }
      return true;
    }

    method PopSend(bytesTransferred: nat)
      requires Valid()
      modifies sendBuffer.mainBuffer, sendBuffer.mainBuffer.rawBuffer
      ensures sendBuffer.mainBuffer.rawBuffer == old(sendBuffer.mainBuffer.rawBuffer)
      ensures Valid() && View() == old(View()).(send := Unqueued(old(View()).send, bytesTransferred))
    {
      SendOwns(View(), DoPop(bytesTransferred));
      sendBuffer.Pop(bytesTransferred);
    }

    method ElevateSend()
      requires Valid()
      modifies sendBuffer.mainBuffer, sendBuffer.subBuffer, heap
      ensures Valid() && Fresher()
      ensures var (l, d) := Elevated(old(View()).l, old(View()).send);
        View() == old(View()).(l := l, send := d)
    {
      SendOwns(View(), DoElevate);
      sendBuffer.Elevate();
    }

    method DrainSend(bytesTransferred: nat)
      requires Valid()
      modifies sendBuffer.mainBuffer, sendBuffer.subBuffer, sendBuffer.mainBuffer.rawBuffer, heap
      ensures Valid() && Fresher()
      ensures var (l, d) := Elevated(old(View()).l, Unqueued(old(View()).send, bytesTransferred));
        View() == old(View()).(l := l, send := d)
    {
      PopSend(bytesTransferred);
      ElevateSend();
    }

    method NotifySent()
      requires Valid()
      modifies `completions
      ensures Valid() && View() == old(View()).(completions := old(View()).completions + 1)
    {
      completions := completions + 1;
    }

    method IoSent(bytesTransferred: nat, caller: Caller)
      requires Valid() && Routable(service.ioArray, caller)
      modifies `completions, sendBuffer.mainBuffer, sendBuffer.subBuffer, heap
      modifies sendBuffer.mainBuffer.rawBuffer
      modifies service, service.contextPool
      ensures Valid() && Fresher()
      ensures var (s, requests) := Acked(old(View()), bytesTransferred);
        View() == s && service.View() == IssuedAll(old(service.View()), requests, id, caller)
    {
      DrainSend(bytesTransferred);
      ContinueSending(caller);
    }

    method ContinueSending(caller: Caller)
      requires Valid() && Routable(service.ioArray, caller)
      modifies `completions, service, service.contextPool
      ensures Valid()
      ensures var (s, requests) := Continued(old(View()));
        View() == s && service.View() == IssuedAll(old(service.View()), requests, id, caller)
    {
      if sendBuffer.mainBuffer.bufferOffset != 0 || sendBuffer.subBuffer.bufferOffset != 0 {
        SubmitSending(caller);
      } else {
        NotifySent();
        OnSendComplete(caller);
      }
    }

    method OnSendComplete(caller: Caller)
      requires Valid() && Routable(service.ioArray, caller)
      modifies service, service.contextPool
      ensures Valid()
      ensures service.View() == IssuedAll(old(service.View()),
                                          if View().graceful then [SHUTDOWN_REQUEST] else [], id, caller)
    {
      if shutdownGracefully {
        SubmitShutdown(caller);
      }
    }

    // --- closing

    method SubmitShutdown(caller: Caller)
      requires Valid() && Routable(service.ioArray, caller)
      modifies service, service.contextPool
      ensures Valid()
      ensures service.View() == IssuedAll(old(service.View()), [SHUTDOWN_REQUEST], id, caller)
    {
      service.Issue(SHUTDOWN_REQUEST, id, caller);
    }

    method Close(how: CloseType, caller: Caller)
      requires Valid() && Routable(service.ioArray, caller)
      modifies `shutdownGracefully, service, service.contextPool
      ensures Valid()
      ensures var (s, requests) := Closing(old(View()), how);
        View() == s && service.View() == IssuedAll(old(service.View()), requests, id, caller)
    {
      if how == Graceful {
        if sendBuffer.mainBuffer.bufferOffset == 0 && sendBuffer.subBuffer.bufferOffset == 0 {
          SubmitShutdown(caller);
        } else {
          shutdownGracefully := true;
        }
      } else {
        SubmitShutdown(caller);
      }
    }

    method IoShutdown()
      requires Valid()
      modifies `connectedFlag, recvBuffer, sendBuffer.mainBuffer, sendBuffer.subBuffer, heap
      ensures Valid() && Fresher() && View() == Ended(old(View()))
    {
      connectedFlag := false;
      recvBuffer.Destroy();
      sendBuffer.Destroy();
    }

    // --- receiving

    method SubmitReceiving(caller: Caller)
      requires Valid() && Routable(service.ioArray, caller)
      modifies service, service.contextPool
      ensures Valid()
      ensures service.View() == IssuedAll(old(service.View()), [READ_REQUEST], id, caller)
    {
      service.Issue(READ_REQUEST, id, caller);
    }

    method AssignReceive()
      requires Valid()
      modifies recvBuffer, heap
      ensures Valid() && Fresher()
      ensures var (l, recv) := Assigned(old(View()).l, old(View()).recv, DATA_BUFFER_SIZE);
        View() == old(View()).(l := l, recv := recv)
    {
      recvBuffer.Assign(DATA_BUFFER_SIZE);
    }

    method AssignSend()
      requires Valid()
      modifies sendBuffer.mainBuffer, heap
      ensures Valid() && Fresher()
      ensures var (l, d) := AssignedMain(old(View()).l, old(View()).send, DATA_BUFFER_SIZE);
        View() == old(View()).(l := l, send := d)
    {
      SendOwns(View(), DoAssign(DATA_BUFFER_SIZE));
      sendBuffer.Assign(DATA_BUFFER_SIZE);
    }

    method OnActive(caller: Caller)
      requires Valid() && Routable(service.ioArray, caller)
      modifies `connectedFlag, recvBuffer, sendBuffer.mainBuffer, heap, service, service.contextPool
      ensures Valid() && Fresher()
      ensures var (s, requests) := Activated(old(View()));
        View() == s && service.View() == IssuedAll(old(service.View()), requests, id, caller)
    {
      connectedFlag := true;
      AssignReceive();
      AssignSend();
      SubmitReceiving(caller);
    }

    method PushReceived(bytesTransferred: nat)
      requires Valid()
      requires bytesTransferred <= DATA_BUFFER_SIZE && View().recv.CanPush(bytesTransferred)
      modifies recvBuffer, recvBuffer.rawBuffer, heap
      ensures Valid() && Fresher() && recvBindBuffer[..] == old(recvBindBuffer[..])
      ensures View() == Received(old(View()), old(recvBindBuffer[..bytesTransferred])).0
    {
      ReceiveOwns(View(), recvBindBuffer[..bytesTransferred]);
      recvBuffer.Push(recvBindBuffer[..bytesTransferred]);
    }

    method IoReceived(bytesTransferred: nat, caller: Caller)
      requires Valid() && Routable(service.ioArray, caller)
      requires bytesTransferred <= DATA_BUFFER_SIZE && View().recv.CanPush(bytesTransferred)
      modifies recvBuffer, recvBuffer.rawBuffer, heap, service, service.contextPool
      ensures Valid() && Fresher()
      ensures var (s, requests) := Received(old(View()), old(recvBindBuffer[..bytesTransferred]));
        View() == s && service.View() == IssuedAll(old(service.View()), requests, id, caller)
    {
      PushReceived(bytesTransferred);
      SubmitReceiving(caller);
    }

    // --- the completion loop

    method IoError()
      requires Valid()
      modifies `errors
      ensures Valid() && View() == old(View()).(errors := old(View()).errors + 1)
    {
      errors := errors + 1;
    }

    method CloseHandler()
      requires Valid()
      modifies `socketHandler
      ensures Valid() && View() == old(View()).(open := false)
    {
      if socketHandler != 0 {
        socketHandler := 0;
      }
    }

    // What the loop does with a completion before it puts the context back.
    method Handle(kind: Kind, res: int, caller: Caller)
      requires Valid() && Routable(service.ioArray, caller)
      requires kind == Read && 0 < res ==> res <= DATA_BUFFER_SIZE && View().recv.CanPush(res)
      modifies this, heap, recvBuffer, sendBuffer.mainBuffer, sendBuffer.subBuffer
      modifies recvBuffer.rawBuffer, sendBuffer.mainBuffer.rawBuffer, sendBuffer.subBuffer.rawBuffer
      modifies service, service.contextPool
      ensures Valid() && Fresher()
      ensures var (s, requests) := Dispatched(old(View()), kind, res, old(recvBindBuffer[..]));
        View() == s && service.View() == IssuedAll(old(service.View()), requests, id, caller)
    {
      match kind {
        case Read =>
          if 0 < res {
            assert recvBindBuffer[..][..res] == recvBindBuffer[..res];
            IoReceived(res, caller);
          } else {
            IoShutdown();
          }
        case Write =>
          if 0 < res {
            IoSent(res, caller);
          } else {
            IoError();
          }
        case Shutdown =>
          CloseHandler();
        case _ =>
      }
    }

    // One turn of the loop of ring `ring`.
    method Dispatch(ctx: nat, res: int, ring: nat)
      requires Valid() && ctx in service.contexts && service.contexts[ctx].handler == Some(id)
      requires service.contexts[ctx].request.kind == Read && 0 < res ==>
                 res <= DATA_BUFFER_SIZE && View().recv.CanPush(res)
      modifies this, heap, recvBuffer, sendBuffer.mainBuffer, sendBuffer.subBuffer
      modifies recvBuffer.rawBuffer, sendBuffer.mainBuffer.rawBuffer, sendBuffer.subBuffer.rawBuffer
      modifies service, service.contextPool
      ensures Valid() && Fresher()
      ensures var (s, requests) := Dispatched(old(View()), old(service.contexts[ctx].request.kind), res,
                                              old(recvBindBuffer[..]));
        && View() == s
        && service.View() == Reclaimed(IssuedAll(old(service.View()), requests, id, RingThread(ring)), ctx)
    {
      Handle(service.contexts[ctx].request.kind, res, RingThread(ring));
      service.DeallocateContext(ctx);
    }
  }
}

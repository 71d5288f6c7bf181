/** The chat server's pool of clients, on real sockets.  `ChatAll` goes through the sockets one
    by one; each send allocates and frees on the heap they all share. */
module ClientPools {
  import opened Memory
  import opened IoDoubleBuffers
  import opened IoServices
  import opened TcpSockets

  // A send of `bytes` was tried: accepted exactly if the socket is up and not closing.
  ghost predicate Told(s: Sock, t: Sock, bytes: seq<byte>) {
    && t == s.(l := t.l, send := t.send)
    && if Admits(s) then Fifo(t.send) == Fifo(s.send) + bytes else t.send == s.send
  }

  lemma SentTells(s: Sock, bytes: seq<byte>)
    requires OwnsAll(s.l, s.send, s.recv) && s.send.CanPush(|bytes|) && Admits(s)
    ensures var t := Sent(s, bytes).0; Told(s, t, bytes) && OnlyOwn(s, t)
  {
    SendOwns(s, DoPush(bytes));
  }

  // The socket was up, not closing, and had nothing queued.
  predicate Idle(s: Sock) {
    Admits(s) && Fifo(s.send) == []
  }

  // What a send asks of the service: exactly if the socket was idle, one write of the bytes, now
  // the whole of main, with this socket as its handler.
  ghost predicate Asked(v: Service, w: Service, s: Sock, t: Sock, bytes: seq<byte>, id: nat, caller: Caller) {
    && Routable(v.rings, caller)
    && if Idle(s) then
         && t.send.main.data == bytes
         && w == Issued(v, Request(Write, Block(t.send.main.raw), |bytes|), id, caller)
       else w == v
  }

  lemma SentAsks(v: Service, s: Sock, bytes: seq<byte>, id: nat, caller: Caller)
    requires Routable(v.rings, caller) && s.send.CanPush(|bytes|) && Admits(s)
    ensures var (t, rs) := Sent(s, bytes); Asked(v, IssuedAll(v, rs, id, caller), s, t, bytes, id, caller)
  {
    var rs := Sent(s, bytes).1;
    if rs != [] {
      assert rs[1..] == [] && s.send.main.data + bytes == bytes;
    }
  }

  // Everything of a socket is as it was, except that the heap it shares has moved on.
  twostate predicate Untouched(a: TcpSocket)
    reads *
  {
    && a.Valid() && a.View() == old(a.View()).(l := a.heap.ledger)
    && a.Blocks() == old(a.Blocks()) && a.Owned() == old(a.Owned())
  }

  twostate predicate Same(a: TcpSocket)
    reads *
  {
    && unchanged(a) && unchanged(a.recvBuffer)
    && unchanged(a.sendBuffer.mainBuffer) && unchanged(a.sendBuffer.subBuffer)
    && SameBytes(a.recvBuffer) && SameBytes(a.sendBuffer.mainBuffer) && SameBytes(a.sendBuffer.subBuffer)
  }

  lemma ToldStill(s: Sock, t: Sock, l: Ledger, bytes: seq<byte>)
    requires Told(s, t, bytes)
    ensures Told(s, t.(l := l), bytes)
  {
  }

  // What a send of socket b may change.
  ghost function Writes(b: TcpSocket): set<object>
    reads *
  {
    {b.sendBuffer.mainBuffer, b.sendBuffer.subBuffer, b.heap, b.service, b.service.contextPool}
    + TheBlock(b.sendBuffer.mainBuffer.rawBuffer) + TheBlock(b.sendBuffer.subBuffer.rawBuffer)
  }

  lemma WritesApart(a: TcpSocket, b: TcpSocket)
    requires a.Apart(b)
    ensures a.Objects() !! Writes(b) && a.Blocks() !! Writes(b)
  {
  }

  class Client {
    const socket: TcpSocket

    constructor (socket: TcpSocket)
      ensures this.socket == socket
    {
      this.socket := socket;
    }

    method Send(buf: seq<byte>, caller: Caller)
      requires socket.Valid() && Routable(socket.service.ioArray, caller)
      requires Admits(socket.View()) ==> socket.View().send.CanPush(|buf|)
      modifies Writes(socket)
      ensures socket.Valid() && socket.Fresher()
      ensures Told(old(socket.View()), socket.View(), buf) && OnlyOwn(old(socket.View()), socket.View())
      ensures Asked(old(socket.service.View()), socket.service.View(), old(socket.View()), socket.View(),
                    buf, socket.id, caller)
    {
      if Admits(socket.View()) {
        SentTells(socket.View(), buf);
        SentAsks(socket.service.View(), socket.View(), buf, socket.id, caller);
      }
      var ok := socket.Send(buf, caller);
    }
  }

  // One client is sent to; the others are apart from it.  Their memory is not touched ...
  method SendFramed(c: Client, ghost others: set<TcpSocket>, buf: seq<byte>, caller: Caller)
    requires c.socket.Valid() && Routable(c.socket.service.ioArray, caller)
    requires Admits(c.socket.View()) ==> c.socket.View().send.CanPush(|buf|)
    requires forall a | a in others :: a.Valid() && a.Apart(c.socket)
    modifies Writes(c.socket)
    ensures c.socket.Valid() && Told(old(c.socket.View()), c.socket.View(), buf)
    ensures Asked(old(c.socket.service.View()), c.socket.service.View(), old(c.socket.View()), c.socket.View(),
                  buf, c.socket.id, caller)
    ensures c.socket.Fresher() && OnlyOwn(old(c.socket.View()), c.socket.View())
    ensures forall a | a in others :: Same(a)
  {
    ghost var written := Writes(c.socket);
    forall a | a in others
      ensures a.Objects() !! written && a.Blocks() !! written
    {
      WritesApart(a, c.socket);
    }
    c.Send(buf, caller);
    forall a | a in others
      ensures Same(a)
    {
      assert a.Objects() !! written && old(a.Blocks()) !! written;
    }
  }

  // ... they stay as they were ...
  method SendBeside(c: Client, ghost others: set<TcpSocket>, buf: seq<byte>, caller: Caller)
    requires c.socket.Valid() && Routable(c.socket.service.ioArray, caller)
    requires Admits(c.socket.View()) ==> c.socket.View().send.CanPush(|buf|)
    requires forall a | a in others :: a.Valid() && a.Apart(c.socket)
    modifies Writes(c.socket)
    ensures c.socket.Valid() && Told(old(c.socket.View()), c.socket.View(), buf)
    ensures Asked(old(c.socket.service.View()), c.socket.service.View(), old(c.socket.View()), c.socket.View(),
                  buf, c.socket.id, caller)
    ensures c.socket.Fresher() && OnlyOwn(old(c.socket.View()), c.socket.View())
    ensures forall a | a in others :: Untouched(a) && Same(a)
  {
    SendFramed(c, others, buf, caller);
    ghost var b := c.socket;
    forall a | a in others
      ensures Untouched(a)
    {
      assert old(a.Valid()) && old(a.Apart(b)) && Same(a);
      OthersOwn(old(a.View()), old(b.View()), b.View());
      a.StaysValid();
    }
  }

  // ... and they stay apart.
  method SendApart(c: Client, ghost others: set<TcpSocket>, buf: seq<byte>, caller: Caller)
    requires c.socket.Valid() && Routable(c.socket.service.ioArray, caller)
    requires Admits(c.socket.View()) ==> c.socket.View().send.CanPush(|buf|)
    requires forall a | a in others :: a.Valid() && a.Apart(c.socket)
    modifies Writes(c.socket)
    ensures c.socket.Valid() && Told(old(c.socket.View()), c.socket.View(), buf)
    ensures Asked(old(c.socket.service.View()), c.socket.service.View(), old(c.socket.View()), c.socket.View(),
                  buf, c.socket.id, caller)
    ensures forall a | a in others :: Untouched(a)
    ensures forall a | a in others :: a.Apart(c.socket) && c.socket.Apart(a)
  {
    SendBeside(c, others, buf, caller);
    ghost var b := c.socket;
    forall a | a in others
      ensures a.Apart(b) && b.Apart(a)
    {
      assert old(a.Valid()) && old(a.Apart(b)) && Untouched(a);
      OthersOwn(old(a.View()), old(b.View()), b.View());
      a.StaysApart(b);
      a.ApartBothWays(b);
    }
  }

  // --- The pool ---------------------------------------------------------------------------

  // The sockets are in order, and no two of them share anything but heap and service.
  ghost predicate AllValid(ss: set<TcpSocket>, service: IoService)
    reads *
  {
    forall a | a in ss :: a.Valid() && a.service == service
  }

  ghost predicate AllApart(ss: set<TcpSocket>)
    reads *
  {
    forall a, b | a in ss && b in ss && a != b :: a.Apart(b)
  }

  method SendAmong(c: Client, ghost ss: set<TcpSocket>, buf: seq<byte>, caller: Caller)
    requires c.socket in ss && AllValid(ss, c.socket.service) && AllApart(ss)
    requires Routable(c.socket.service.ioArray, caller)
    requires Admits(c.socket.View()) ==> c.socket.View().send.CanPush(|buf|)
    modifies Writes(c.socket)
    ensures AllValid(ss, c.socket.service) && AllApart(ss)
    ensures Asked(old(c.socket.service.View()), c.socket.service.View(), old(c.socket.View()), c.socket.View(),
                  buf, c.socket.id, caller)
    ensures Told(old(c.socket.View()), c.socket.View(), buf)
    ensures forall a | a in ss && a != c.socket :: Untouched(a)
  {
    ghost var b, others := c.socket, ss - {c.socket};
    SendApart(c, others, buf, caller);
    forall a, a' | a in ss && a' in ss && a != a'
      ensures a.Apart(a')
    {
      if a == b {
        assert a' in others;
      } else if a' == b {
        assert a in others;
      } else {
        assert a in others && a' in others;
        assert Untouched(a);
        assert Untouched(a');
        a.StaysBeside(a');
      }
    }
    assert AllValid(ss, b.service) by {
      forall a | a in ss ensures a.Valid() && a.service == b.service {
        assert a == b || a in others;
        assert a != b ==> Untouched(a);
      }
    }
  }

  ghost function Sockets(cs: map<nat, Client>): set<TcpSocket> {
    set i | i in cs :: cs[i].socket
  }

  ghost predicate OneEach(cs: map<nat, Client>) {
    forall i, j | i in cs && j in cs && i != j :: cs[i].socket != cs[j].socket
  }

  lemma Joined(cs: map<nat, Client>, id: nat, c: Client)
    requires OneEach(cs) && id !in cs && c.socket !in Sockets(cs)
    ensures OneEach(cs[id := c]) && Sockets(cs[id := c]) == Sockets(cs) + {c.socket}
  {
    var ds := cs[id := c];
    assert forall i | i in cs :: ds[i] == cs[i] && cs[i].socket in Sockets(cs);
    assert ds[id] == c;
  }

  lemma JoinedApart(ss: set<TcpSocket>, b: TcpSocket)
    requires AllApart(ss) && forall a | a in ss :: a.Apart(b) && b.Apart(a)
    ensures AllApart(ss + {b})
  {
    forall a, a' | a in ss + {b} && a' in ss + {b} && a != a'
      ensures a.Apart(a')
    {
      if a == b {
        assert a' in ss;
      } else if a' == b {
        assert a in ss;
      }
    }
  }

  ghost function ReachOf(a: TcpSocket): set<object>
    reads *
  {
    a.Objects() + a.Blocks() + {a.heap}
  }

  // Requests issued one after the other, each for its own handler.
  ghost function IssuedFor(v: Service, asked: seq<(Request, nat)>, caller: Caller): (w: Service)
    requires Routable(v.rings, caller)
    ensures w.rings == v.rings
  {
    if asked == [] then v
    else
      var last := |asked| - 1;
      Issued(IssuedFor(v, asked[..last], caller), asked[last].0, asked[last].1, caller)
  }

  // A broadcast as far as it has got: what each client showed at its start and shows now, who
  // is still to be sent to, and the clients that submitted a write, with their requests.
  datatype Talk = Talk(
    start: map<nat, Sock>, now: map<nat, Sock>, todo: set<nat>,
    order: seq<nat>, asked: seq<(Request, nat)>, ids: map<nat, nat>)
  {
    ghost predicate Valid(rc: seq<byte>) {
      && start.Keys == now.Keys == ids.Keys && todo <= start.Keys
      && (forall i | i in start :: if i in todo then now[i] == start[i] else Told(start[i], now[i], rc))
      && |order| == |asked| && (forall j, k | 0 <= j < k < |order| :: order[j] != order[k])
      && (forall i :: i in order <==> i in start && i !in todo && Idle(start[i]))
      && (forall k | 0 <= k < |order| ::
            asked[k] == (Request(Write, Block(now[order[k]].send.main.raw), |rc|), ids[order[k]]))
    }
  }

  lemma AskedOneMore(v: Service, asked: seq<(Request, nat)>, ask: (Request, nat), caller: Caller)
    requires Routable(v.rings, caller)
    ensures IssuedFor(v, asked + [ask], caller) == Issued(IssuedFor(v, asked, caller), ask.0, ask.1, caller)
  {
    assert (asked + [ask])[..|asked|] == asked;
  }

  // One more client has been sent to ...
  function Went(t: Talk, id: nat, state: Sock, size: nat): Talk
    requires id in t.start && id in t.ids
  {
    var u := t.(now := t.now[id := state], todo := t.todo - {id});
    if Idle(t.start[id]) then
      u.(order := t.order + [id],
         asked := t.asked + [(Request(Write, Block(state.send.main.raw), size), t.ids[id])])
    else u
  }

  lemma WentOn(t: Talk, id: nat, state: Sock, rc: seq<byte>)
    requires t.Valid(rc) && id in t.todo && Told(t.now[id], state, rc)
    ensures Went(t, id, state, |rc|).Valid(rc)
  {
    assert forall k | 0 <= k < |t.order| :: t.order[k] in t.order && t.order[k] !in t.todo;
  }

  // ... and so has the service.
  lemma WentAsking(t: Talk, id: nat, state: Sock, rc: seq<byte>, v: Service, w: Service, caller: Caller)
    requires t.Valid(rc) && id in t.todo && Routable(v.rings, caller)
    requires Asked(IssuedFor(v, t.asked, caller), w, t.now[id], state, rc, t.ids[id], caller)
    ensures w == IssuedFor(v, Went(t, id, state, |rc|).asked, caller)
  {
    AskedOneMore(v, t.asked, (Request(Write, Block(state.send.main.raw), |rc|), t.ids[id]), caller);
  }

  class ClientPool {
    const service: IoService
    var clients: map<nat, Client>

    ghost predicate Valid()
      reads *
    {
      OneEach(clients) && AllValid(Sockets(clients), service) && AllApart(Sockets(clients))
    }

    constructor (service: IoService)
      ensures Valid() && clients == map[] && this.service == service
    {
      this.service, clients := service, map[];
    }

    method SetClients(cs: map<nat, Client>)
      requires OneEach(cs) && AllValid(Sockets(cs), service) && AllApart(Sockets(cs))
      modifies this
      ensures Valid() && clients == cs
    {
      clients := cs;
    }

    // An id that is already present keeps its client.
    method Add(id: nat, c: Client)
      requires Valid() && c.socket.Valid() && c.socket.service == service && c.socket !in Sockets(clients)
      requires forall a | a in Sockets(clients) :: a.Apart(c.socket) && c.socket.Apart(a)
      modifies this
      ensures Valid() && clients == if id in old(clients) then old(clients) else old(clients)[id := c]
    {
      if id !in clients {
        Joined(clients, id, c);
        JoinedApart(Sockets(clients), c.socket);
        SetClients(clients[id := c]);
      }
    }

    method Remove(id: nat)
      requires Valid()
      modifies this
      ensures Valid() && clients == old(clients) - {id}
    {
      assert Sockets(clients - {id}) <= Sockets(clients);
      SetClients(clients - {id});
    }

    // Every object a broadcast may change.
    ghost function Reach(): set<object>
      reads *
    {
      (set i, o | i in clients && o in ReachOf(clients[i].socket) :: o) + {service, service.contextPool}
    }

    ghost predicate InReach(id: nat, reach: set<object>)
      reads *
    {
      id in clients &&
      var socket := clients[id].socket;
      && socket.sendBuffer.mainBuffer in reach && socket.sendBuffer.subBuffer in reach
      && socket.heap in reach && service in reach && service.contextPool in reach
      && socket.Blocks() <= reach
    }

    // The client's socket is in the given state, on the heap as it is now.
    ghost predicate Shows(id: nat, state: Sock)
      reads *
    {
      id in clients && clients[id].socket.View() == state.(l := clients[id].socket.heap.ledger)
    }

    lemma AllInReach(id: nat)
      requires id in clients
      ensures InReach(id, Reach())
    {
      var socket := clients[id].socket;
      forall o | o in ReachOf(socket)
        ensures o in Reach()
      {
        assert id in clients && o in ReachOf(clients[id].socket);
      }
    }

    lemma WritesReached(id: nat, reach: set<object>)
      requires InReach(id, reach) && clients[id].socket.service == service
      ensures Writes(clients[id].socket) <= reach
    {
    }

    method SendTo(id: nat, rc: seq<byte>, caller: Caller)
      requires Valid() && id in clients && Routable(service.ioArray, caller)
      requires Admits(clients[id].socket.View()) ==> clients[id].socket.View().send.CanPush(|rc|)
      modifies Writes(clients[id].socket)
      ensures Valid() && clients == old(clients)
      ensures Told(old(clients[id].socket.View()), clients[id].socket.View(), rc)
      ensures Asked(old(service.View()), service.View(), old(clients[id].socket.View()), clients[id].socket.View(),
                    rc, clients[id].socket.id, caller)
      ensures forall i | i in clients && i != id :: Untouched(clients[i].socket)
    {
      assert clients[id].socket in Sockets(clients);
      SendAmong(clients[id], Sockets(clients), rc, caller);
      assert forall i | i in clients && i != id ::
        clients[i].socket in Sockets(clients) && clients[i].socket != clients[id].socket;
    }

    // A broadcast in progress: `todo` is still to be sent to, `now` what everybody shows.
    ghost predicate Chatting(todo: set<nat>, now: map<nat, Sock>, reach: set<object>)
      reads *
    {
      && todo <= clients.Keys == now.Keys && Valid()
      && (forall i | i in todo :: InReach(i, reach))
      && (forall i | i in clients :: Shows(i, now[i]))
    }

    lemma ChatsOn(todo: set<nat>, now: map<nat, Sock>, reach: set<object>, id: nat, state: Sock)
      requires todo <= clients.Keys == now.Keys && Valid() && (forall i | i in todo - {id} :: InReach(i, reach))
      requires Shows(id, state) && forall i | i in clients && i != id :: Shows(i, now[i])
      ensures Chatting(todo - {id}, now[id := state], reach)
    {
    }

    // A send to a client that shows the given state, in terms of what it shows afterwards.
    method SendShown(id: nat, ghost was: Sock, rc: seq<byte>, caller: Caller) returns (ghost state: Sock)
      requires Valid() && Shows(id, was) && Routable(service.ioArray, caller)
      requires Admits(was) ==> was.send.CanPush(|rc|)
      modifies Writes(clients[id].socket)
      ensures Valid() && clients == old(clients) && Shows(id, state)
      ensures Told(was, state, rc)
      ensures Asked(old(service.View()), service.View(), was, state, rc, clients[id].socket.id, caller)
      ensures forall i | i in clients && i != id :: Untouched(clients[i].socket)
    {
      assert clients[id].socket in Sockets(clients);
      SendTo(id, rc, caller);
      state := clients[id].socket.View();
    }

    method ChatOne(id: nat, ghost now: map<nat, Sock>, rc: seq<byte>, caller: Caller) returns (ghost state: Sock)
      requires Valid() && id in clients && clients.Keys == now.Keys && (forall i | i in clients :: Shows(i, now[i]))
      requires Routable(service.ioArray, caller) && (Admits(now[id]) ==> now[id].send.CanPush(|rc|))
      modifies Writes(clients[id].socket)
      ensures Valid() && clients == old(clients)
      ensures Shows(id, state) && forall i | i in clients && i != id :: Shows(i, now[i])
      ensures Told(now[id], state, rc)
      ensures Asked(old(service.View()), service.View(), now[id], state, rc, clients[id].socket.id, caller)
      ensures forall i | i in clients && i != id :: Untouched(clients[i].socket)
    {
      assert Shows(id, now[id]);
      state := SendShown(id, now[id], rc, caller);
      forall i | i in clients && i != id
        ensures Shows(i, now[i])
      {
        assert Untouched(clients[i].socket) && old(Shows(i, now[i]));
      }
    }

    method ChatWithin(id: nat, ghost todo: set<nat>, ghost now: map<nat, Sock>, ghost reach: set<object>,
                      rc: seq<byte>, caller: Caller) returns (ghost state: Sock)
      requires Chatting(todo, now, reach) && id in todo && Routable(service.ioArray, caller)
      requires Admits(now[id]) ==> now[id].send.CanPush(|rc|)
      modifies reach
      ensures Chatting(todo - {id}, now[id := state], reach) && clients == old(clients)
      ensures Told(now[id], state, rc)
      ensures Asked(old(service.View()), service.View(), now[id], state, rc, clients[id].socket.id, caller)
    {
      assert InReach(id, reach) && clients[id].socket in Sockets(clients);
      WritesReached(id, reach);
      state := ChatOne(id, now, rc, caller);
      forall i | i in todo - {id}
        ensures InReach(i, reach)
      {
        assert Untouched(clients[i].socket) && old(InReach(i, reach));
      }
      ChatsOn(todo, now, reach, id, state);
    }

    // One turn of the loop.
    method ChatTurn(id: nat, ghost talk: Talk, ghost reach: set<object>, ghost v: Service,
                    rc: seq<byte>, caller: Caller) returns (ghost next: Talk)
      requires Chatting(talk.todo, talk.now, reach) && talk.Valid(rc)
      requires id in talk.todo && Routable(service.ioArray, caller)
      requires forall i | i in clients :: i in talk.ids && talk.ids[i] == clients[i].socket.id
      requires Admits(talk.start[id]) ==> talk.start[id].send.CanPush(|rc|)
      requires Routable(v.rings, caller) && service.View() == IssuedFor(v, talk.asked, caller)
      modifies reach
      ensures Chatting(next.todo, next.now, reach) && clients == old(clients)
      ensures next.Valid(rc) && next.todo == talk.todo - {id} && next.start == talk.start && next.ids == talk.ids
      ensures service.View() == IssuedFor(v, next.asked, caller)
    {
      ghost var state := ChatWithin(id, talk.todo, talk.now, reach, rc, caller);
      next := Went(talk, id, state, |rc|);
      WentOn(talk, id, state, rc);
      WentAsking(talk, id, state, rc, v, service.View(), caller);
    }

    method ChatLoop(rc: seq<byte>, caller: Caller, ghost reach: set<object>, ghost v: Service, ghost first: Talk)
      returns (ghost talk: Talk)
      requires Chatting(first.todo, first.now, reach) && first.Valid(rc) && first.todo == clients.Keys
      requires forall i | i in clients :: i in first.ids && first.ids[i] == clients[i].socket.id
      requires Routable(v.rings, caller) && service.View() == IssuedFor(v, first.asked, caller)
      requires forall i | i in first.start && Admits(first.start[i]) :: first.start[i].send.CanPush(|rc|)
      modifies reach
      ensures clients == old(clients) && Chatting({}, talk.now, reach)
      ensures talk.Valid(rc) && talk.start == first.start && talk.ids == first.ids && talk.todo == {}
      ensures service.View() == IssuedFor(v, talk.asked, caller)
    {
      talk := first;
      var todo := clients.Keys;
      while todo != {}
        invariant clients == old(clients) && Chatting(talk.todo, talk.now, reach) && talk.todo == todo
        invariant talk.Valid(rc) && talk.start == first.start && talk.ids == first.ids
        invariant service.View() == IssuedFor(v, talk.asked, caller)
        decreases todo
      {
        var id :| id in todo;
        talk := ChatTurn(id, talk, reach, v, rc, caller);
        todo := todo - {id};
      }
    }

    // What the sockets show at the end, client by client.
    lemma AllTold(talk: Talk, rc: seq<byte>, reach: set<object>)
      requires Chatting({}, talk.now, reach) && talk.Valid(rc) && talk.todo == {}
      requires forall i | i in clients :: i in talk.ids && talk.ids[i] == clients[i].socket.id
      ensures forall i | i in clients :: Told(talk.start[i], clients[i].socket.View(), rc)
      ensures forall k | 0 <= k < |talk.order| ::
        talk.order[k] in clients
        && talk.asked[k] == (Request(Write, Block(clients[talk.order[k]].socket.View().send.main.raw), |rc|),
                             clients[talk.order[k]].socket.id)
    {
      forall i | i in clients
        ensures Told(talk.start[i], clients[i].socket.View(), rc)
      {
        assert Shows(i, talk.now[i]);
        ToldStill(talk.start[i], talk.now[i], clients[i].socket.heap.ledger, rc);
      }
      forall k | 0 <= k < |talk.order|
        ensures talk.order[k] in clients
        ensures talk.asked[k] == (Request(Write, Block(clients[talk.order[k]].socket.View().send.main.raw), |rc|),
                                  clients[talk.order[k]].socket.id)
      {
        assert talk.order[k] in talk.order && Shows(talk.order[k], talk.now[talk.order[k]]);
      }
    }

    // Every registered client is sent the message once; nobody else is touched.  Each client
    // that was up, not closing and idle submits one write of the message, and nothing else is
    // submitted.
    method ChatAll(rc: seq<byte>, caller: Caller) returns (ghost order: seq<nat>, ghost asked: seq<(Request, nat)>)
      requires Valid() && Routable(service.ioArray, caller)
      requires forall i | i in clients && Admits(clients[i].socket.View()) ::
        clients[i].socket.View().send.CanPush(|rc|)
      modifies Reach()
      ensures Valid() && clients == old(clients)
      ensures forall i | i in clients :: Told(old(clients[i].socket.View()), clients[i].socket.View(), rc)
      ensures |order| == |asked| && forall j, k | 0 <= j < k < |order| :: order[j] != order[k]
      ensures forall i :: i in order <==> i in clients && Idle(old(clients[i].socket.View()))
      ensures forall k | 0 <= k < |order| ::
        asked[k] == (Request(Write, Block(clients[order[k]].socket.View().send.main.raw), |rc|),
                     clients[order[k]].socket.id)
      ensures service.View() == IssuedFor(old(service.View()), asked, caller)
    {
      ghost var reach := Reach();
      ghost var start := map i | i in clients :: clients[i].socket.View();
      forall i | i in clients
        ensures InReach(i, reach) && Shows(i, start[i])
      {
        AllInReach(i);
      }
      ghost var first := Talk(start, start, clients.Keys, [], [], map i | i in clients :: clients[i].socket.id);
      ghost var talk := ChatLoop(rc, caller, reach, service.View(), first);
      AllTold(talk, rc, reach);
      order, asked := talk.order, talk.asked;
    }
  }
}

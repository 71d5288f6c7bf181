/** The chat server as a whole: the accept chain, the receive chains and send pipelines of all
    clients, and the broadcast, in one step system.  The thread of a ring is inside at most one
    handler; `chat_all` is called by a receive callback and runs on its thread. */
module ChatServers {
  import opened Memory
  import opened IoServices
  import opened Lists
  import IoDoubleBuffers
  import TcpSockets
  import A = TcpServers
  import R = Receiver
  import S = Sender
  import H = Broadcast

  // `speaker`: the client whose callback is inside chat_all, while there is a broadcast.
  datatype Server = Server(
    accept: A.Server, hall: H.Hall, socks: map<nat, S.Sys>, recvs: map<nat, R.Recv>, speaker: nat)

  datatype Step =
    | Accepting(a: A.Step)                                  // the accept chain up to its callback
    | Join(ring: nat, id: nat)                              // the callback adds the client; the next accept goes out
    | Up(ring: nat, id: nat, l: Ledger, bind: seq<byte>)    // the client's socket is activated
    | Reading(id: nat, r: R.Step)                           // the client's receive chain
    | Speak(id: nat, ring: nat, m: H.Message)               // its callback enters chat_all
    | Test(id: nat)                                         // chat_all comes to a client: its send tests the flags
    | Put                                                   // ... and enters its locked part
    | Release                                               // chat_all releases the lock
    | Leave(id: nat)                                        // the close event removes the client
    | Socket(id: nat, step: S.Step)                         // anything else that happens to one socket

  // The thread of the ring is inside no handler.
  predicate Idle(s: Server, ring: nat) {
    && ring !in s.accept.busy
    && (forall id | id in s.recvs :: ring !in s.recvs[id].busy)
    && (forall id | id in s.socks :: ring !in s.socks[id].closers)
  }

  // The thread of the ring is not inside chat_all.
  predicate Free(s: Server, ring: nat) {
    !(s.hall.chatting && s.hall.host == ring)
  }

  // A thread that is free to begin a handler, or to go on with the one it is in, takes the step.
  predicate ReadsOn(s: Server, id: nat, r: R.Step)
    requires id in s.recvs
  {
    match r
    case Dispatch(i) => i < |s.recvs[id].chain| && Idle(s, s.recvs[id].chain[i].ring)
    case AppPop(ring, _) => Free(s, ring)
    case Return(ring) => Free(s, ring)
    case ZeroFd => false
    case _ => true
  }

  predicate HandlesOn(s: Server, id: nat, st: S.Step)
    requires id in s.socks
  {
    match st
    case Handle(_, ring) => Idle(s, ring)
    case TestFd(k) => k < |s.socks[id].shutdowns| && Idle(s, s.socks[id].shutdowns[k])
    case Check(_) => false
    case Append(_) => false
    case Hangup => false
    case _ => true
  }

  // The step ends the receive chain: io_shutdown runs.
  ghost predicate Ends(s: Server, id: nat, r: R.Step)
    requires id in s.recvs && R.Enabled(s.recvs[id], r)
  {
    s.recvs[id].sock.connected && !R.Apply(s.recvs[id], r).sock.connected
  }

  // A graceful close raises the flag.
  ghost predicate Raises(s: Server, id: nat, st: S.Step)
    requires id in s.socks && S.Enabled(s.socks[id], st)
  {
    !s.socks[id].sock.graceful && S.Apply(s.socks[id], st).sock.graceful
  }

  ghost predicate Enabled(s: Server, step: Step) {
    match step
    case Accepting(a) =>
      && A.Enabled(s.accept, a) && !a.DoSubmit? && !a.DoActivate?
      && (a.Dispatch? ==> Idle(s, s.accept.accepts[a.i].ring))
    case Join(ring, id) => A.Enabled(s.accept, A.DoSubmit(ring)) && H.Enabled(s.hall, H.Add(id, ring))
    case Up(ring, id, l, bind) =>
      && A.Enabled(s.accept, A.DoActivate(ring)) && H.Enabled(s.hall, H.Activate(id))
      && id !in s.socks && id !in s.recvs && s.hall.members[id].home == ring
      && l.Valid() && |bind| == TcpSockets.DATA_BUFFER_SIZE
    case Reading(id, r) =>
      && id in s.recvs && R.Enabled(s.recvs[id], r) && ReadsOn(s, id, r)
      && (Ends(s, id, r) ==>
            id in s.socks && S.Enabled(s.socks[id], S.Hangup) && H.Enabled(s.hall, H.HangUp(id)))
    case Speak(id, ring, m) =>
      id in s.recvs && R.At(s.recvs[id], ring, R.Callback) && H.Enabled(s.hall, H.Begin(m, ring))
    case Test(id) => H.Enabled(s.hall, H.Check(id))
    case Put =>
      && H.Enabled(s.hall, H.Append) && s.hall.sending.value in s.socks
      && S.Enabled(s.socks[s.hall.sending.value], S.Append(0))
    case Release => H.Enabled(s.hall, H.Finish)
    case Leave(id) => H.Enabled(s.hall, H.Remove(id))
    case Socket(id, st) =>
      && id in s.socks && S.Enabled(s.socks[id], st) && HandlesOn(s, id, st)
      && (Raises(s, id, st) ==> H.Enabled(s.hall, H.GoDown(id)))
      && (st.ZeroFd? ==> id in s.recvs)
  }

  ghost function Apply(s: Server, step: Step): Server
    requires Enabled(s, step)
  {
    match step
    case Accepting(a) => s.(accept := A.Apply(s.accept, a))
    case Join(ring, id) =>
      s.(accept := A.Apply(s.accept, A.DoSubmit(ring)), hall := H.Apply(s.hall, H.Add(id, ring)))
    case Up(ring, id, l, bind) =>
      s.(accept := A.Apply(s.accept, A.DoActivate(ring)), hall := H.Apply(s.hall, H.Activate(id)),
         socks := s.socks[id := S.Started(l)],
         recvs := s.recvs[id := R.Started(l, bind, s.accept.rings, RingThread(ring))])
    case Reading(id, r) =>
      var t := s.(recvs := s.recvs[id := R.Apply(s.recvs[id], r)]);
      if Ends(s, id, r) then
        t.(hall := H.Apply(s.hall, H.HangUp(id)), socks := s.socks[id := S.Apply(s.socks[id], S.Hangup)])
      else t
    case Speak(id, ring, m) => s.(hall := H.Apply(s.hall, H.Begin(m, ring)), speaker := id)
    case Test(id) =>
      s.(hall := H.Apply(s.hall, H.Check(id)),
         socks := if id in s.socks then s.socks[id := S.Apply(s.socks[id], S.Check(H.Current(s.hall)))] else s.socks)
    case Put =>
      var id := s.hall.sending.value;
      s.(hall := H.Apply(s.hall, H.Append), socks := s.socks[id := S.Apply(s.socks[id], S.Append(0))])
    case Release => s.(hall := H.Apply(s.hall, H.Finish))
    case Leave(id) => s.(hall := H.Apply(s.hall, H.Remove(id)))
    case Socket(id, st) =>
      s.(hall := if Raises(s, id, st) then H.Apply(s.hall, H.GoDown(id)) else s.hall,
         socks := s.socks[id := S.Apply(s.socks[id], st)],
         recvs := if st.ZeroFd? then s.recvs[id := R.Apply(s.recvs[id], R.ZeroFd)] else s.recvs)
  }

  ghost predicate Legal(s: Server, steps: seq<Step>)
    decreases steps
  {
    steps == [] || (Enabled(s, steps[0]) && Legal(Apply(s, steps[0]), steps[1..]))
  }

  ghost function Exec(s: Server, steps: seq<Step>): Server
    requires Legal(s, steps)
    decreases steps
  {
    if steps == [] then s else Exec(Apply(s, steps[0]), steps[1..])
  }

  // The server after `run`, called on whatever thread.
  function Started(rings: seq<nat>, caller: Caller): Server
    requires Routable(rings, caller)
  {
    Server(A.Started(rings, caller), H.EMPTY_HALL, map[], map[], 0)
  }

  // --- One ring for all clients ---------------------------------------------------------------

  // The receive chain of a client runs on the ring of the accept chain.
  ghost predicate ReadOk(s: Server, id: nat)
    requires id in s.recvs
  {
    && R.Inv(s.recvs[id]) && s.recvs[id].home == s.accept.home
    && id in s.hall.members && s.recvs[id].sock.connected == s.hall.members[id].connected
  }

  // A broadcast runs on that ring, inside the callback of the speaker.
  predicate SpeakerOk(s: Server) {
    s.hall.chatting ==>
      s.speaker in s.recvs && R.At(s.recvs[s.speaker], s.hall.host, R.Callback)
  }

  ghost predicate OneRing(s: Server) {
    && A.Inv(s.accept) && H.Inv(s.hall) && H.AtHome(s.hall, s.accept.home)
    && SpeakerOk(s)
    && (forall id | id in s.recvs :: ReadOk(s, id))
  }

  // A client's entry in the hall is its socket: same flags, the accepted messages are the
  // accepted bytes, and the one send under way is the current message.
  predicate SameClient(m: H.Member, sys: S.Sys, sending: bool, log: seq<H.Message>) {
    && m.connected == sys.sock.connected && m.ended == !sys.sock.connected
    && m.graceful == sys.sock.graceful
    && Flat(m.got) == sys.accepted
    && (sending ==> log != [])
    && sys.ready == (if sending then [log[|log| - 1]] else [])
  }

  // A client whose socket is not up yet.
  predicate NotUp(m: H.Member, sending: bool) {
    !m.connected && !m.ended && !m.graceful && m.got == [] && !sending
  }

  predicate ClientOk(s: Server, id: nat)
    requires id in s.hall.members
  {
    if id in s.socks then SameClient(s.hall.members[id], s.socks[id], s.hall.sending == Some(id), s.hall.log)
    else NotUp(s.hall.members[id], s.hall.sending == Some(id))
  }

  ghost predicate Clients(s: Server) {
    && H.Inv(s.hall) && s.recvs.Keys == s.socks.Keys <= s.hall.members.Keys
    && forall id | id in s.hall.members :: ClientOk(s, id)
  }

  // --- Steps of the hall ------------------------------------------------------------------

  // What a step means for the broadcast.
  ghost function Shown(s: Server, step: Step): Option<H.Step>
    requires Enabled(s, step)
  {
    match step
    case Accepting(_) => None
    case Join(ring, id) => Some(H.Add(id, ring))
    case Up(_, id, _, _) => Some(H.Activate(id))
    case Reading(id, r) => if Ends(s, id, r) then Some(H.HangUp(id)) else None
    case Speak(_, ring, m) => Some(H.Begin(m, ring))
    case Test(id) => Some(H.Check(id))
    case Put => Some(H.Append)
    case Release => Some(H.Finish)
    case Leave(id) => Some(H.Remove(id))
    case Socket(id, st) => if Raises(s, id, st) then Some(H.GoDown(id)) else None
  }

  lemma HallIs(s: Server, step: Step)
    requires Enabled(s, step)
    ensures var h := Shown(s, step);
      && (h.Some? ==> H.Enabled(s.hall, h.value))
      && Apply(s, step).hall == if h.Some? then H.Apply(s.hall, h.value) else s.hall
  {
  }

  // Clients join, and broadcasts begin, on the accept chain's ring.
  lemma ShownAtHome(s: Server, step: Step)
    requires A.Inv(s.accept) && Enabled(s, step) && (step.Speak? ==> ReadOk(s, step.id))
    ensures Shown(s, step).Some? ==> H.StepAtHome(Shown(s, step).value, s.accept.home)
  {
  }

  lemma HallStepKeeps(hall: H.Hall, h: H.Step, ring: nat)
    requires H.Inv(hall) && H.AtHome(hall, ring) && H.Enabled(hall, h) && H.StepAtHome(h, ring)
    ensures H.Inv(H.Apply(hall, h)) && H.AtHome(H.Apply(hall, h), ring)
  {
    H.StepKeeps(hall, h);
    H.HomeStep(hall, h, ring);
  }

  lemma HallKeeps(s: Server, step: Step)
    requires A.Inv(s.accept) && H.Inv(s.hall) && H.AtHome(s.hall, s.accept.home) && Enabled(s, step)
    requires step.Speak? ==> ReadOk(s, step.id)
    ensures H.Inv(Apply(s, step).hall) && H.AtHome(Apply(s, step).hall, s.accept.home)
  {
    HallIs(s, step);
    ShownAtHome(s, step);
    if Shown(s, step).Some? {
      HallStepKeeps(s.hall, Shown(s, step).value, s.accept.home);
    }
  }

  // --- Steps of the chains ----------------------------------------------------------------

  lemma AcceptKeeps(s: Server, step: Step)
    requires A.Inv(s.accept) && Enabled(s, step)
    ensures A.Inv(Apply(s, step).accept) && Apply(s, step).accept.home == s.accept.home
  {
    match step {
      case Accepting(a) => A.StepKeeps(s.accept, a);
      case Join(ring, _) => A.StepKeeps(s.accept, A.DoSubmit(ring));
      case Up(ring, _, _, _) => A.StepKeeps(s.accept, A.DoActivate(ring));
      case _ =>
    }
  }

  lemma StartedReads(l: Ledger, bind: seq<byte>, rings: seq<nat>, ring: nat)
    requires l.Valid() && |bind| == TcpSockets.DATA_BUFFER_SIZE
    ensures var r := R.Started(l, bind, rings, RingThread(ring));
      R.Inv(r) && r.home == ring && r.sock.connected && r.busy == map[]
  {
    R.StartedInv(l, bind, rings, RingThread(ring));
  }

  lemma ReadKeeps(s: Server, id: nat, r: R.Step)
    requires OneRing(s) && Enabled(s, Reading(id, r))
    ensures ReadOk(Apply(s, Reading(id, r)), id)
  {
    assert ReadOk(s, id);
    R.StepKeeps(s.recvs[id], r);
    if !s.recvs[id].sock.connected { R.StaysDown(s.recvs[id], r); }
  }

  // A receive chain that the step does not touch.
  lemma ReadStays(s: Server, t: Server, id: nat)
    requires id in s.recvs && ReadOk(s, id)
    requires id in t.recvs && t.recvs[id] == s.recvs[id] && t.accept.home == s.accept.home
    requires id in t.hall.members && t.hall.members[id].connected == s.hall.members[id].connected
    ensures ReadOk(t, id)
  {
  }

  lemma UpKeeps(s: Server, step: Step)
    requires OneRing(s) && Enabled(s, step) && step.Up?
    ensures ReadOk(Apply(s, step), step.id)
  {
    StartedReads(step.l, step.bind, s.accept.rings, step.ring);
  }

  lemma ZeroKeeps(s: Server, step: Step)
    requires OneRing(s) && Enabled(s, step) && step.Socket? && step.step.ZeroFd?
    ensures ReadOk(Apply(s, step), step.id) && Apply(s, step).recvs[step.id].busy == s.recvs[step.id].busy
  {
    assert ReadOk(s, step.id);
    R.StepKeeps(s.recvs[step.id], R.ZeroFd);
  }

  // Which clients a step leaves up.
  lemma ConnectedStays(s: Server, step: Step, id: nat)
    requires Enabled(s, step) && id in s.hall.members && id in s.recvs
    requires !(step.Reading? && step.id == id) && !(step.Up? && step.id == id)
    ensures var t := Apply(s, step);
      id in t.hall.members && t.hall.members[id].connected == s.hall.members[id].connected
  {
    HallIs(s, step);
  }

  // The receive chain a step is about, if it is about one.
  predicate AboutRead(step: Step, id: nat) {
    || (step.Up? && step.id == id)
    || (step.Reading? && step.id == id)
    || (step.Socket? && step.id == id && step.step.ZeroFd?)
  }

  lemma OtherReadsStay(s: Server, step: Step, id: nat)
    requires Enabled(s, step) && id in Apply(s, step).recvs && !AboutRead(step, id)
    ensures id in s.recvs && Apply(s, step).recvs[id] == s.recvs[id]
  {
  }

  lemma ReadsKeep(s: Server, step: Step, id: nat)
    requires OneRing(s) && Enabled(s, step) && id in Apply(s, step).recvs
    ensures ReadOk(Apply(s, step), id)
  {
    if !AboutRead(step, id) {
      OtherReadsStay(s, step, id);
      assert ReadOk(s, id);
      AcceptKeeps(s, step);
      ConnectedStays(s, step, id);
      ReadStays(s, Apply(s, step), id);
    } else if step.Up? {
      UpKeeps(s, step);
    } else if step.Reading? {
      ReadKeeps(s, id, step.r);
    } else {
      ZeroKeeps(s, step);
    }
  }

  lemma HostStays(s: Server, step: Step)
    requires Enabled(s, step) && !step.Speak?
    ensures var t := Apply(s, step);
      t.speaker == s.speaker && (t.hall.chatting ==> s.hall.chatting && t.hall.host == s.hall.host)
  {
    HallIs(s, step);
  }

  lemma BusyStays(s: Server, step: Step, id: nat)
    requires Enabled(s, step) && id in s.recvs && !(step.Reading? && step.id == id)
    ensures id in Apply(s, step).recvs && Apply(s, step).recvs[id].busy == s.recvs[id].busy
  {
  }

  // The thread inside chat_all does nothing else, so that its callback is still under way.
  lemma SpeakerStays(s: Server, step: Step)
    requires SpeakerOk(s) && Enabled(s, step) && (s.hall.chatting ==> ReadOk(s, s.speaker))
    ensures SpeakerOk(Apply(s, step))
  {
    var t := Apply(s, step);
    if step.Speak? {
      HallIs(s, step);
    } else {
      HostStays(s, step);
      if t.hall.chatting {
        if step.Reading? && step.id == s.speaker {
          R.CallbackStays(s.recvs[s.speaker], step.r, s.hall.host);
        } else {
          BusyStays(s, step, s.speaker);
        }
      }
    }
  }

  lemma OneRingKeeps(s: Server, step: Step)
    requires OneRing(s) && Enabled(s, step)
    ensures OneRing(Apply(s, step))
  {
    AcceptKeeps(s, step);
    if step.Speak? { assert ReadOk(s, step.id); }
    HallKeeps(s, step);
    if s.hall.chatting { assert ReadOk(s, s.speaker); }
    SpeakerStays(s, step);
    forall id | id in Apply(s, step).recvs ensures ReadOk(Apply(s, step), id) {
      ReadsKeep(s, step, id);
    }
  }

  // --- Steps of the senders ---------------------------------------------------------------

  // What a sender step other than the two parts of a send does to what the hall knows.
  lemma Quiet(sys: S.Sys, st: S.Step)
    requires S.Enabled(sys, st) && !st.Check? && !st.Append?
    ensures var t := S.Apply(sys, st);
      && t.accepted == sys.accepted && t.ready == sys.ready
      && (sys.sock.graceful ==> t.sock.graceful)
      && t.sock.connected == (sys.sock.connected && !st.Hangup?)
      && (st.Hangup? ==> t.sock.graceful == sys.sock.graceful)
  {
    if st.Handle? {
      S.HandleAccepts(sys, st);
    }
  }

  // What a step does not touch stays in order.
  lemma ClientStays(s: Server, t: Server, id: nat)
    requires id in s.hall.members && ClientOk(s, id)
    requires id in t.hall.members && t.hall.members[id] == s.hall.members[id] && t.hall.log == s.hall.log
    requires id in t.socks <==> id in s.socks
    requires id in s.socks ==> t.socks[id] == s.socks[id]
    requires t.hall.sending == Some(id) <==> s.hall.sending == Some(id)
    ensures ClientOk(t, id)
  {
  }

  lemma SocketOk(s: Server, id: nat, st: S.Step)
    requires id in s.hall.members && ClientOk(s, id) && Enabled(s, Socket(id, st))
    ensures ClientOk(Apply(s, Socket(id, st)), id)
  {
    Quiet(s.socks[id], st);
  }

  lemma EndOk(s: Server, id: nat, r: R.Step)
    requires id in s.hall.members && ClientOk(s, id) && Enabled(s, Reading(id, r)) && Ends(s, id, r)
    ensures ClientOk(Apply(s, Reading(id, r)), id)
  {
    Quiet(s.socks[id], S.Hangup);
  }

  lemma TestedOk(s: Server, id: nat)
    requires H.LockOk(s.hall) && Enabled(s, Test(id)) && ClientOk(s, id)
    ensures ClientOk(Apply(s, Test(id)), id)
  {
  }

  lemma PutOk(s: Server, id: nat)
    requires Enabled(s, Put) && s.hall.sending == Some(id) && ClientOk(s, id)
    ensures ClientOk(Apply(s, Put), id)
  {
    S.AppendedIs(s.socks[id], 0);
    FlatSnoc(s.hall.members[id].got, H.Current(s.hall));
  }

  // The client a step is about, if it is about one.
  function About(s: Server, step: Step): Option<nat> {
    match step
    case Join(_, id) => Some(id)
    case Up(_, id, _, _) => Some(id)
    case Reading(id, _) => Some(id)
    case Test(id) => Some(id)
    case Put => s.hall.sending
    case Socket(id, _) => Some(id)
    case _ => None
  }

  lemma MemberStays(s: Server, step: Step, id: nat)
    requires H.LockOk(s.hall) && Enabled(s, step) && id in s.hall.members && About(s, step) != Some(id)
    ensures var t := Apply(s, step);
      && id in t.hall.members && t.hall.members[id] == s.hall.members[id]
      && (t.hall.sending == Some(id) <==> s.hall.sending == Some(id))
      && (!step.Speak? ==> t.hall.log == s.hall.log)
      && (step.Speak? ==> s.hall.sending == t.hall.sending == None)
  {
    HallIs(s, step);
  }

  lemma SockStays(s: Server, step: Step, id: nat)
    requires Enabled(s, step) && About(s, step) != Some(id)
    ensures var t := Apply(s, step);
      (id in t.socks <==> id in s.socks) && (id in s.socks ==> t.socks[id] == s.socks[id])
  {
  }

  lemma OthersStay(s: Server, step: Step, id: nat)
    requires H.LockOk(s.hall) && Enabled(s, step) && id in s.hall.members && ClientOk(s, id)
    requires About(s, step) != Some(id)
    ensures id in Apply(s, step).hall.members && ClientOk(Apply(s, step), id)
  {
    MemberStays(s, step, id);
    SockStays(s, step, id);
    if !step.Speak? {
      ClientStays(s, Apply(s, step), id);
    }
  }

  lemma AboutOk(s: Server, step: Step, id: nat)
    requires Clients(s) && Enabled(s, step) && About(s, step) == Some(id)
    ensures id in Apply(s, step).hall.members ==> ClientOk(Apply(s, step), id)
  {
    if id in s.hall.members { assert ClientOk(s, id); }
    match step {
      case Reading(_, r) =>
        if Ends(s, id, r) { EndOk(s, id, r); } else { HallIs(s, step); }
      case Test(_) => TestedOk(s, id);
      case Put => PutOk(s, id);
      case Socket(_, st) => SocketOk(s, id, st);
      case _ =>
    }
  }

  lemma KeysKeep(s: Server, step: Step)
    requires s.recvs.Keys == s.socks.Keys <= s.hall.members.Keys && Enabled(s, step)
    ensures var t := Apply(s, step); t.recvs.Keys == t.socks.Keys <= t.hall.members.Keys
    ensures forall id | id in Apply(s, step).hall.members :: id in s.hall.members || About(s, step) == Some(id)
  {
    HallIs(s, step);
  }

  lemma ClientsKeep(s: Server, step: Step)
    requires Clients(s) && Enabled(s, step) && H.Inv(Apply(s, step).hall)
    ensures Clients(Apply(s, step))
  {
    KeysKeep(s, step);
    forall id | id in Apply(s, step).hall.members ensures ClientOk(Apply(s, step), id) {
      if About(s, step) == Some(id) {
        AboutOk(s, step, id);
      } else {
        assert ClientOk(s, id);
        OthersStay(s, step, id);
      }
    }
  }

  // --- The parts are runs of their own ----------------------------------------------------

  // Some run of a sender, of a receive chain, of the hall leads here.
  ghost predicate Reached(sys: S.Sys) {
    exists l: Ledger, run: seq<S.Step> ::
      l.Valid() && S.Legal(S.Started(l), run) && S.Exec(S.Started(l), run) == sys
  }

  ghost predicate HallReached(h: H.Hall) {
    exists run: seq<H.Step> :: H.Legal(H.EMPTY_HALL, run) && H.Exec(H.EMPTY_HALL, run) == h
  }

  lemma {:induction false} HallSnoc(s: H.Hall, run: seq<H.Step>, step: H.Step)
    requires H.Legal(s, run) && H.Enabled(H.Exec(s, run), step)
    ensures H.Legal(s, run + [step]) && H.Exec(s, run + [step]) == H.Apply(H.Exec(s, run), step)
    decreases run
  {
    if run == [] {
      assert [] + [step] == [step] && [step][1..] == [];
    } else {
      assert (run + [step])[1..] == run[1..] + [step];
      HallSnoc(H.Apply(s, run[0]), run[1..], step);
    }
  }

  lemma SenderGoesOn(sys: S.Sys, step: S.Step)
    requires Reached(sys) && S.Enabled(sys, step)
    ensures Reached(S.Apply(sys, step))
  {
    var l: Ledger, run: seq<S.Step> :|
      l.Valid() && S.Legal(S.Started(l), run) && S.Exec(S.Started(l), run) == sys;
    S.Join(S.Started(l), run, [step]);
    assert [step][1..] == [];
  }

  lemma SenderStarts(l: Ledger)
    requires l.Valid()
    ensures Reached(S.Started(l))
  {
    assert S.Legal(S.Started(l), []) && S.Exec(S.Started(l), []) == S.Started(l);
  }

  lemma HallGoesOn(h: H.Hall, step: H.Step)
    requires HallReached(h) && H.Enabled(h, step)
    ensures HallReached(H.Apply(h, step))
  {
    var run: seq<H.Step> :| H.Legal(H.EMPTY_HALL, run) && H.Exec(H.EMPTY_HALL, run) == h;
    HallSnoc(H.EMPTY_HALL, run, step);
  }

  // One client's sender goes on.
  lemma SocketReached(socks: map<nat, S.Sys>, id: nat, step: S.Step)
    requires id in socks && Reached(socks[id]) && S.Enabled(socks[id], step)
    requires forall i | i in socks :: Reached(socks[i])
    ensures var t := socks[id := S.Apply(socks[id], step)]; forall i | i in t :: Reached(t[i])
  {
    SenderGoesOn(socks[id], step);
  }

  ghost predicate SocksReached(socks: map<nat, S.Sys>) {
    forall id | id in socks :: Reached(socks[id])
  }

  // What a step means for the senders that are there already.
  ghost function Sends(s: Server, step: Step): Option<(nat, S.Step)>
    requires Enabled(s, step)
  {
    match step
    case Reading(id, r) => if Ends(s, id, r) then Some((id, S.Hangup)) else None
    case Test(id) => if id in s.socks then Some((id, S.Check(H.Current(s.hall)))) else None
    case Put => Some((s.hall.sending.value, S.Append(0)))
    case Socket(id, st) => Some((id, st))
    case _ => None
  }

  lemma SocksAre(s: Server, step: Step)
    requires Enabled(s, step) && !step.Up?
    ensures var st, socks := Sends(s, step), Apply(s, step).socks;
      if st.None? then socks == s.socks
      else
        && st.value.0 in s.socks && S.Enabled(s.socks[st.value.0], st.value.1)
        && socks == s.socks[st.value.0 := S.Apply(s.socks[st.value.0], st.value.1)]
  {
  }

  lemma SocketsReached(s: Server, step: Step)
    requires SocksReached(s.socks) && Enabled(s, step)
    ensures SocksReached(Apply(s, step).socks)
  {
    if step.Up? {
      SenderStarts(step.l);
    } else {
      SocksAre(s, step);
      var st := Sends(s, step);
      if st.Some? { SocketReached(s.socks, st.value.0, st.value.1); }
    }
  }

  ghost predicate Inv(s: Server) {
    OneRing(s) && Clients(s) && HallReached(s.hall) && SocksReached(s.socks)
  }

  lemma StepKeeps(s: Server, step: Step)
    requires Inv(s) && Enabled(s, step)
    ensures Inv(Apply(s, step))
  {
    OneRingKeeps(s, step);
    ClientsKeep(s, step);
    SocketsReached(s, step);
    HallIs(s, step);
    if Shown(s, step).Some? {
      HallGoesOn(s.hall, Shown(s, step).value);
    }
  }

  lemma {:induction false} RunKeeps(s: Server, steps: seq<Step>)
    requires Inv(s) && Legal(s, steps)
    ensures Inv(Exec(s, steps))
    decreases steps
  {
    if steps != [] {
      StepKeeps(s, steps[0]);
      RunKeeps(Apply(s, steps[0]), steps[1..]);
    }
  }

  lemma StartedInv(rings: seq<nat>, caller: Caller)
    requires Routable(rings, caller)
    ensures Inv(Started(rings, caller))
  {
    assert H.Legal(H.EMPTY_HALL, []) && H.Exec(H.EMPTY_HALL, []) == H.EMPTY_HALL;
  }

  // In every run of the server the broadcast makes a run of the hall, each client's socket a
  // run of the sender, and the bytes a socket accepted are the messages its client accepted.
  lemma ServerRuns(rings: seq<nat>, caller: Caller, steps: seq<Step>)
    requires Routable(rings, caller) && Legal(Started(rings, caller), steps)
    ensures var s := Exec(Started(rings, caller), steps);
      && HallReached(s.hall) && SocksReached(s.socks)
      && forall id | id in s.socks :: id in s.hall.members && s.socks[id].accepted == Flat(s.hall.members[id].got)
  {
    StartedInv(rings, caller);
    RunKeeps(Started(rings, caller), steps);
    var s := Exec(Started(rings, caller), steps);
    forall id | id in s.socks ensures id in s.hall.members && s.socks[id].accepted == Flat(s.hall.members[id].got) {
      assert id in s.hall.members.Keys && ClientOk(s, id);
    }
  }

  // All reads, callbacks and hang-ups of all clients, and every broadcast, run on the ring of
  // the accept chain: the one to which `run` submitted the first accept.
  lemma AllOnOneRing(rings: seq<nat>, caller: Caller, steps: seq<Step>)
    requires Routable(rings, caller) && Legal(Started(rings, caller), steps)
    ensures var s, home := Exec(Started(rings, caller), steps), Route(rings, caller);
      && (s.hall.chatting ==> s.hall.host == home)
      && (forall id | id in s.recvs ::
            && s.recvs[id].touched <= {home} && s.recvs[id].busy.Keys <= {home}
            && forall c | c in s.recvs[id].chain :: c.ring == home)
  {
    StartedInv(rings, caller);
    RunKeeps(Started(rings, caller), steps);
    HomeStays(Started(rings, caller), steps);
    HomeOfAll(Exec(Started(rings, caller), steps));
  }

  lemma HomeOfAll(s: Server)
    requires OneRing(s)
    ensures s.hall.chatting ==> s.hall.host == s.accept.home
    ensures forall id | id in s.recvs ::
              && s.recvs[id].touched <= {s.accept.home} && s.recvs[id].busy.Keys <= {s.accept.home}
              && forall c | c in s.recvs[id].chain :: c.ring == s.accept.home
  {
    forall id | id in s.recvs
      ensures s.recvs[id].touched <= {s.accept.home} && s.recvs[id].busy.Keys <= {s.accept.home}
      ensures forall c | c in s.recvs[id].chain :: c.ring == s.accept.home
    {
      assert ReadOk(s, id);
    }
  }

  lemma {:induction false} HomeStays(s: Server, steps: seq<Step>)
    requires Inv(s) && Legal(s, steps)
    ensures Exec(s, steps).accept.home == s.accept.home
    decreases steps
  {
    if steps != [] {
      AcceptKeeps(s, steps[0]);
      StepKeeps(s, steps[0]);
      HomeStays(Apply(s, steps[0]), steps[1..]);
    }
  }

  // --- Every broadcast ends ---------------------------------------------------------------

  lemma ReachedInv(sys: S.Sys)
    requires Reached(sys)
    ensures if sys.sock.connected then S.Inv(sys) else sys.sock.send == IoDoubleBuffers.NO_DBL
  {
    var l: Ledger, run: seq<S.Step> :|
      l.Valid() && S.Legal(S.Started(l), run) && S.Exec(S.Started(l), run) == sys;
    S.StartedInv(l);
    S.EndedOrInv(S.Started(l), run);
  }

  lemma CanAppend(sys: S.Sys)
    requires Reached(sys) && sys.sock.connected && sys.ready != []
    ensures S.Enabled(sys, S.Append(0))
  {
    ReachedInv(sys);
    IoDoubleBuffers.PushStep(sys.sock.l, sys.sock.send, sys.ready[0]);
  }

  // The client being sent to is up, and its send waits.
  lemma SendingIsUp(s: Server, id: nat)
    requires H.AtHome(s.hall, s.accept.home) && s.hall.sending == Some(id) && id in s.hall.members && ClientOk(s, id)
    ensures H.Enabled(s.hall, H.Append)
    ensures id in s.socks && s.socks[id].sock.connected && s.socks[id].ready != []
  {
  }

  // A broadcast's send that has passed its tests returns.
  lemma SendReturns(s: Server, id: nat)
    requires H.AtHome(s.hall, s.accept.home) && s.hall.sending == Some(id) && id in s.hall.members
    requires ClientOk(s, id) && SocksReached(s.socks)
    ensures Enabled(s, Put)
  {
    SendingIsUp(s, id);
    CanAppend(s.socks[id]);
  }

  // Turns of the broadcast.
  predicate Turn(step: Step) {
    step.Test? || step.Put? || step.Release?
  }

  lemma NextTurn(s: Server) returns (step: Step)
    requires Inv(s) && s.hall.chatting
    ensures Turn(step) && Enabled(s, step)
  {
    if s.hall.sending.Some? {
      var id := s.hall.sending.value;
      assert ClientOk(s, id);
      SendReturns(s, id);
      step := Put;
    } else {
      var h := H.NextTurn(s.hall);
      step := if h.Check? then Test(h.id) else Release;
    }
  }

  function Turns(steps: seq<Step>): nat {
    if steps == [] then 0 else (if Turn(steps[0]) then 1 else 0) + Turns(steps[1..])
  }

  lemma TurnWorks(s: Server, step: Step)
    requires Enabled(s, step) && s.hall.chatting
    ensures var t := Apply(s, step);
      && t.hall.chatting == (step != Release)
      && H.Work(t.hall) + (if Turn(step) then 1 else 0) <= H.Work(s.hall)
  {
    HallIs(s, step);
    var h := Shown(s, step);
    if h.Some? {
      H.TurnWorks(s.hall, h.value);
    }
  }

  // A broadcast that takes as many turns as it has clients and pushes to go has released the
  // lock, whatever else happens in between.
  lemma {:induction false} TurnsEnd(s: Server, steps: seq<Step>)
    requires s.hall.chatting && Legal(s, steps) && H.Work(s.hall) <= Turns(steps)
    ensures Release in steps
    decreases steps
  {
    TurnWorks(s, steps[0]);
    if steps[0] != Release {
      TurnsEnd(Apply(s, steps[0]), steps[1..]);
    }
  }

  // Every broadcast ends: in every run of the server, while there is one, its next turn can be
  // taken, and no more than `Work` turns are left.
  lemma BroadcastsEnd(rings: seq<nat>, caller: Caller, steps: seq<Step>) returns (next: Step)
    requires Routable(rings, caller) && Legal(Started(rings, caller), steps)
    ensures var s := Exec(Started(rings, caller), steps);
      && !H.Stuck(s.hall)
      && (s.hall.chatting ==> Turn(next) && Enabled(s, next))
      && (s.hall.chatting ==>
            forall more | Legal(s, more) && H.Work(s.hall) <= Turns(more) :: Release in more)
  {
    StartedInv(rings, caller);
    RunKeeps(Started(rings, caller), steps);
    var s := Exec(Started(rings, caller), steps);
    next := Release;
    if s.hall.chatting {
      next := NextTurn(s);
      forall more | Legal(s, more) && H.Work(s.hall) <= Turns(more) ensures Release in more {
        TurnsEnd(s, more);
      }
    }
  }

  // Joining the parts takes nothing away from a socket but what the thread of a ring, busy
  // elsewhere, would have to do itself: kernel transfers, closes, and completions on idle rings
  // stay possible whatever the broadcast is doing.
  lemma SocketsAreFree(s: Server, id: nat, st: S.Step)
    requires Clients(s) && id in s.socks && S.Enabled(s.socks[id], st) && HandlesOn(s, id, st)
    ensures Enabled(s, Socket(id, st))
  {
    assert id in s.recvs.Keys;
  }

  // While there is a broadcast, the thread of the one ring is inside it.
  lemma HostIsBusy(s: Server)
    requires OneRing(s) && s.hall.chatting
    ensures !Idle(s, s.accept.home)
  {
  }

  // So nobody can hang up during a broadcast.
  lemma EndIsPossible(s: Server, id: nat, r: R.Step)
    requires OneRing(s) && id in s.recvs && id in s.socks && id in s.hall.members && ReadOk(s, id) && ClientOk(s, id)
    requires R.Enabled(s.recvs[id], r) && ReadsOn(s, id, r) && Ends(s, id, r)
    ensures !s.hall.chatting
    ensures S.Enabled(s.socks[id], S.Hangup) && H.Enabled(s.hall, H.HangUp(id))
  {
    R.EndsByDispatch(s.recvs[id], r);
    if s.hall.chatting {
      HostIsBusy(s);
    }
  }

  lemma ReadsAreFree(s: Server, id: nat, r: R.Step)
    requires OneRing(s) && Clients(s) && id in s.recvs && R.Enabled(s.recvs[id], r) && ReadsOn(s, id, r)
    ensures Enabled(s, Reading(id, r))
  {
    assert ReadOk(s, id) && id in s.socks.Keys && ClientOk(s, id);
    if Ends(s, id, r) {
      EndIsPossible(s, id, r);
    }
  }
}

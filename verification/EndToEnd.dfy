/** From one application to the other: frames are sent through the send pipeline, carried in
    order, received in whatever pieces the kernel makes, and taken out by the receive loop. */
module EndToEnd {
  import opened Memory
  import opened IoServices
  import opened TcpSockets
  import opened Lists
  import opened Framing
  import opened Chat
  import S = Sender
  import R = Receiver
  import H = Broadcast
  import C = ChatServers

  // The receiver has got a prefix of what the sender's kernel took for it, and nothing from
  // anywhere else: no read of its went to descriptor 0.
  predicate Carried(s: S.Sys, r: R.Recv) {
    r.got <= s.delivered && r.alien == []
  }

  lemma PrefixTrans<T>(a: seq<T>, b: seq<T>, c: seq<T>)
    requires a <= b <= c
    ensures a <= c
  {
    assert a == b[..|a|] == c[..|b|][..|a|] == c[..|a|];
  }

  // --- Callbacks that run the loop --------------------------------------------------------

  // The parser after a step: a copy is a receive event.
  function Parsed(s: R.Recv, p: Parser, step: R.Step, code: byte): Parser {
    if step.DoCopy? && step.ring in s.busy && s.busy[step.ring].Copy? && s.busy[step.ring].n <= |s.bind| then
      Receive(p, s.bind[..s.busy[step.ring].n], code)
    else
      p
  }

  // In this run every receive callback is the receive loop: when it returns, it leaves in
  // recv_buffer what the loop leaves there after the bytes just copied.
  ghost predicate CallbacksLoop(s: R.Recv, p: Parser, steps: seq<R.Step>, code: byte)
    requires R.Legal(s, steps)
    decreases steps
  {
    steps == [] ||
    var t := R.Apply(s, steps[0]);
    && (steps[0].Return? ==> s.sock.recv.data == p.buf)
    && CallbacksLoop(t, Parsed(s, p, steps[0], code), steps[1..], code)
  }

  // No handler is between its copy and its return.
  predicate AtRest(s: R.Recv) {
    s.home !in s.busy || s.busy[s.home].Copy?
  }

  ghost predicate InStep(s: R.Recv, p: Parser, code: byte) {
    && p == ReceiveAll(FRESH, s.pieces, code)
    && (AtRest(s) && s.sock.connected ==> s.sock.recv.data == p.buf)
    && (!s.sock.connected ==> s.popped + p.buf == Flat(s.pieces))
  }

  lemma {:induction false} ReceiveAllSnoc(p: Parser, chunks: seq<seq<byte>>, chunk: seq<byte>, code: byte)
    ensures ReceiveAll(p, chunks + [chunk], code) == Receive(ReceiveAll(p, chunks, code), chunk, code)
    decreases chunks
  {
    if chunks == [] {
      assert [] + [chunk] == [chunk];
    } else {
      assert (chunks + [chunk])[1..] == chunks[1..] + [chunk];
      ReceiveAllSnoc(Receive(p, chunks[0], code), chunks[1..], chunk, code);
    }
  }

  // What of the receive chain's invariant matters here.
  predicate Home(s: R.Recv) {
    && s.busy.Keys <= {s.home} && (forall c | c in s.chain :: c.ring == s.home)
    && (if s.sock.connected then Flat(s.pieces) == s.popped + s.sock.recv.data else s.chain == [] && s.busy == map[])
  }

  lemma HomeAlone(s: R.Recv)
    requires R.Inv(s)
    ensures Home(s)
  {
  }

  lemma LoopStep(s: R.Recv, p: Parser, step: R.Step, code: byte)
    requires R.Enabled(s, step) && InStep(s, p, code) && Home(s)
    requires step.Return? ==> s.sock.recv.data == p.buf
    ensures InStep(R.Apply(s, step), Parsed(s, p, step, code), code)
  {
    if step.DoCopy? {
      ReceiveAllSnoc(FRESH, s.pieces, s.bind[..s.busy[step.ring].n], code);
    }
  }

  // Then the real buffer and the loop run piece by piece stay in step.
  lemma {:induction false} LoopKeeps(s: R.Recv, p: Parser, steps: seq<R.Step>, code: byte)
    requires R.Inv(s) && R.Legal(s, steps) && CallbacksLoop(s, p, steps, code) && InStep(s, p, code)
    ensures var t := R.Exec(s, steps); InStep(t, ReceiveAll(FRESH, t.pieces, code), code)
    decreases steps
  {
    if steps != [] {
      R.StepKeeps(s, steps[0]);
      HomeAlone(s);
      LoopStep(s, p, steps[0], code);
      LoopKeeps(R.Apply(s, steps[0]), Parsed(s, p, steps[0], code), steps[1..], code);
    }
  }

  lemma LoopRuns(l: Ledger, bind: seq<byte>, rings: seq<nat>, caller: Caller, steps: seq<R.Step>, code: byte)
    requires l.Valid() && |bind| == DATA_BUFFER_SIZE && Routable(rings, caller)
    requires R.Legal(R.Started(l, bind, rings, caller), steps)
    requires CallbacksLoop(R.Started(l, bind, rings, caller), FRESH, steps, code)
    ensures var r := R.Exec(R.Started(l, bind, rings, caller), steps);
      InStep(r, ReceiveAll(FRESH, r.pieces, code), code)
  {
    R.StartedInv(l, bind, rings, caller);
    LoopKeeps(R.Started(l, bind, rings, caller), FRESH, steps, code);
  }

  // --- From sender to receiver --------------------------------------------------------------

  // What reached recv_buffer is a prefix of what the sender accepted.
  lemma PiecesCame(l: Ledger, steps: seq<S.Step>,
                   l': Ledger, bind: seq<byte>, rings: seq<nat>, caller: Caller, steps': seq<R.Step>)
    requires l.Valid() && S.Legal(S.Started(l), steps) && S.Exec(S.Started(l), steps).sock.connected
    requires l'.Valid() && |bind| == DATA_BUFFER_SIZE && Routable(rings, caller)
    requires R.Legal(R.Started(l', bind, rings, caller), steps')
    requires Carried(S.Exec(S.Started(l), steps), R.Exec(R.Started(l', bind, rings, caller), steps'))
    ensures var s, r := S.Exec(S.Started(l), steps), R.Exec(R.Started(l', bind, rings, caller), steps');
      && Flat(r.pieces) <= s.accepted && r.popped <= Flat(r.pieces)
      && (r.sock.connected ==> Flat(r.pieces) == r.popped + r.sock.recv.data)
  {
    var s, r := S.Exec(S.Started(l), steps), R.Exec(R.Started(l', bind, rings, caller), steps');
    S.StreamIntegrity(l, steps);
    R.ReceiveIntegrity(l', bind, rings, caller, steps');
    if r.sock.connected {
      CameThrough(s.accepted, s.delivered, r.got, Flat(r.pieces), r.bind[..R.Unhandled(r)]);
    } else {
      assert Flat(r.pieces) + [] == Flat(r.pieces);
      CameThrough(s.accepted, s.delivered, r.got, Flat(r.pieces), []);
    }
  }

  // For every run of the sender that accepted the frames, and every run of the receiver, up or
  // hung up: the receive loop, run after each piece that reached recv_buffer, takes out the
  // first k frames byte for byte, and what it leaves is a strict prefix of the next; when all
  // bytes have come through, k is all of them.  What the receiver consumed is a prefix of these
  // bytes.  If its own callbacks are that loop, its buffer holds just what the loop leaves, and
  // between callbacks, and after the hang-up, it has consumed exactly the k frames.
  lemma FramesArrive(l: Ledger, steps: seq<S.Step>,
                     l': Ledger, bind: seq<byte>, rings: seq<nat>, caller: Caller, steps': seq<R.Step>,
                     fs: seq<seq<byte>>, code: byte) returns (k: nat)
    requires l.Valid() && S.Legal(S.Started(l), steps) && S.Exec(S.Started(l), steps).sock.connected
    requires l'.Valid() && |bind| == DATA_BUFFER_SIZE && Routable(rings, caller)
    requires R.Legal(R.Started(l', bind, rings, caller), steps')
    requires AllWellFormed(fs, code)
    requires var s, r := S.Exec(S.Started(l), steps), R.Exec(R.Started(l', bind, rings, caller), steps');
      s.accepted == Flat(fs) && Carried(s, r)
    ensures var s, r := S.Exec(S.Started(l), steps), R.Exec(R.Started(l', bind, rings, caller), steps');
      var q := ReceiveAll(FRESH, r.pieces, code);
      && k <= |fs| && q.frames == fs[..k]
      && Flat(fs[..k]) + q.buf == Flat(r.pieces) && r.popped <= Flat(r.pieces)
      && (r.sock.connected ==> Flat(r.pieces) == r.popped + r.sock.recv.data)
      && (if k < |fs| then q.buf < fs[k] else q.buf == [])
      && (|Flat(r.pieces)| == |s.accepted| ==> q == Parser([], fs))
      && (AtRest(r) && CallbacksLoop(R.Started(l', bind, rings, caller), FRESH, steps', code) ==>
            && r.popped == Flat(fs[..k])
            && (r.sock.connected ==> r.sock.recv.data == q.buf))
  {
    var s, r := S.Exec(S.Started(l), steps), R.Exec(R.Started(l', bind, rings, caller), steps');
    PiecesCame(l, steps, l', bind, rings, caller, steps');
    k := FramingRoundTrip(fs, r.pieces, code);
    var q := ReceiveAll(FRESH, r.pieces, code);
    if |Flat(r.pieces)| == |s.accepted| {
      assert Flat(r.pieces) == Flat(fs)[..|Flat(fs)|] == Flat(fs);
    }
    if AtRest(r) && CallbacksLoop(R.Started(l', bind, rings, caller), FRESH, steps', code) {
      LoopRuns(l', bind, rings, caller, steps', code);
      SplitSame(r.popped, Flat(fs[..k]), q.buf);
    }
  }

  lemma CameThrough<T>(accepted: seq<T>, delivered: seq<T>, got: seq<T>, pieces: seq<T>, waiting: seq<T>)
    requires delivered <= accepted && got <= delivered && got + [] == pieces + waiting
    ensures pieces <= accepted
  {
    assert got + [] == got;
    PrefixTrans(pieces, got, delivered);
    PrefixTrans(pieces, delivered, accepted);
  }

  lemma SplitSame<T>(a: seq<T>, b: seq<T>, c: seq<T>)
    requires a + c == b + c
    ensures a == b
  {
    assert (a + c)[..|a|] == a && (b + c)[..|b|] == b;
  }

  function Requests(texts: seq<seq<byte>>): (fs: seq<seq<byte>>)
    ensures |fs| == |texts|
  {
    seq(|texts|, i requires 0 <= i < |texts| => RequestFrame(texts[i]))
  }

  // What chat clients typed is what the server reads out of the frames it takes.
  lemma RequestsArrive(l: Ledger, steps: seq<S.Step>,
                       l': Ledger, bind: seq<byte>, rings: seq<nat>, caller: Caller, steps': seq<R.Step>,
                       texts: seq<seq<byte>>) returns (k: nat)
    requires l.Valid() && S.Legal(S.Started(l), steps) && S.Exec(S.Started(l), steps).sock.connected
    requires l'.Valid() && |bind| == DATA_BUFFER_SIZE && Routable(rings, caller)
    requires R.Legal(R.Started(l', bind, rings, caller), steps')
    requires var s, r := S.Exec(S.Started(l), steps), R.Exec(R.Started(l', bind, rings, caller), steps');
      s.accepted == Flat(Requests(texts)) && Carried(s, r)
    ensures var s, r := S.Exec(S.Started(l), steps), R.Exec(R.Started(l', bind, rings, caller), steps');
      var frames := ReceiveAll(FRESH, r.pieces, REQ_CHAT).frames;
      && k == |frames| <= |texts|
      && (forall i | 0 <= i < k :: 7 <= |frames[i]|)
      && (forall i | 0 <= i < k && |texts[i]| <= 1000 ::
            frames[i][7..] == texts[i] && UnLe(frames[i][3..7]) == |texts[i]|)
      && (forall i | 0 <= i < k && 1000 < |texts[i]| ::
            frames[i][7..] == texts[i][..1000] && UnLe(frames[i][3..7]) == 1000)
      && (|Flat(r.pieces)| == |s.accepted| ==> k == |texts|)
  {
    var fs := Requests(texts);
    forall f | f in fs ensures WellFormed(f, REQ_CHAT) {
      var i :| 0 <= i < |fs| && fs[i] == f;
      RequestRoundTrip(texts[i]);
    }
    k := FramesArrive(l, steps, l', bind, rings, caller, steps', fs, REQ_CHAT);
    forall i | 0 <= i < k
      ensures 7 <= |fs[i]|
      ensures |texts[i]| <= 1000 ==> fs[i][7..] == texts[i] && UnLe(fs[i][3..7]) == |texts[i]|
      ensures 1000 < |texts[i]| ==> fs[i][7..] == texts[i][..1000] && UnLe(fs[i][3..7]) == 1000
    {
      RequestRoundTrip(texts[i]);
    }
  }

  // The same for any state a sender can reach.
  lemma ReachedFramesArrive(sys: S.Sys,
                            l: Ledger, bind: seq<byte>, rings: seq<nat>, caller: Caller, steps: seq<R.Step>,
                            fs: seq<seq<byte>>, code: byte) returns (k: nat)
    requires C.Reached(sys) && sys.sock.connected && AllWellFormed(fs, code) && sys.accepted == Flat(fs)
    requires l.Valid() && |bind| == DATA_BUFFER_SIZE && Routable(rings, caller)
    requires R.Legal(R.Started(l, bind, rings, caller), steps)
    requires Carried(sys, R.Exec(R.Started(l, bind, rings, caller), steps))
    ensures k <= |fs|
    ensures var r := R.Exec(R.Started(l, bind, rings, caller), steps);
      var q := ReceiveAll(FRESH, r.pieces, code);
      && q.frames == fs[..k] && (if k < |fs| then q.buf < fs[k] else q.buf == [])
      && (|Flat(r.pieces)| == |sys.accepted| ==> k == |fs|)
  {
    var l0: Ledger, run: seq<S.Step> :|
      l0.Valid() && S.Legal(S.Started(l0), run) && S.Exec(S.Started(l0), run) == sys;
    k := FramesArrive(l0, run, l, bind, rings, caller, steps, fs, code);
  }

  lemma ClientHasSegment(s0: C.Server, server: seq<C.Step>, id: nat)
    requires C.Inv(s0) && C.Legal(s0, server) && id in C.Exec(s0, server).socks
    ensures var s := C.Exec(s0, server);
      && id in s.hall.members && H.Segment(s.hall.members[id], s.hall.log)
      && C.Reached(s.socks[id]) && s.socks[id].accepted == Flat(s.hall.members[id].got)
  {
    C.RunKeeps(s0, server);
    var s := C.Exec(s0, server);
    assert id in s.hall.members.Keys && C.ClientOk(s, id);
    H.MemberHas(s.hall, id);
  }

  // In every run of the whole server, a chat client takes out of its socket a contiguous
  // piece of the broadcasts, in the order of the log, starting with the first one its socket
  // accepted; and when all accepted bytes have come through, all that its socket accepted.
  lemma BroadcastsArrive(rs: seq<nat>, who: Caller, s0: C.Server, server: seq<C.Step>, id: nat,
                         l: Ledger, bind: seq<byte>, rings: seq<nat>, caller: Caller, steps: seq<R.Step>)
    returns (k: nat)
    requires Routable(rs, who) && s0 == C.Started(rs, who) && C.Legal(s0, server)
    requires var s := C.Exec(s0, server);
      id in s.socks && s.socks[id].sock.connected && AllWellFormed(s.hall.log, RESP_CHAT)
    requires l.Valid() && |bind| == DATA_BUFFER_SIZE && Routable(rings, caller)
    requires R.Legal(R.Started(l, bind, rings, caller), steps)
    requires Carried(C.Exec(s0, server).socks[id], R.Exec(R.Started(l, bind, rings, caller), steps))
    ensures var s, r := C.Exec(s0, server), R.Exec(R.Started(l, bind, rings, caller), steps);
      && id in s.hall.members
      && var m := s.hall.members[id];
      var q := ReceiveAll(FRESH, r.pieces, RESP_CHAT);
      && k <= |m.got| && m.from + k <= |s.hall.log|
      && q.frames == s.hall.log[m.from..m.from + k]
      && (if k < |m.got| then q.buf < m.got[k] else q.buf == [])
      && (|Flat(r.pieces)| == |s.socks[id].accepted| ==> k == |m.got|)
  {
    C.StartedInv(rs, who);
    ClientHasSegment(s0, server, id);
    var s := C.Exec(s0, server);
    k := SegmentArrives(s.hall.members[id], s.hall.log, s.socks[id], l, bind, rings, caller, steps);
  }

  lemma SegmentArrives(m: H.Member, log: seq<H.Message>, sys: S.Sys,
                       l: Ledger, bind: seq<byte>, rings: seq<nat>, caller: Caller, steps: seq<R.Step>) returns (k: nat)
    requires H.Segment(m, log) && AllWellFormed(log, RESP_CHAT)
    requires C.Reached(sys) && sys.sock.connected && sys.accepted == Flat(m.got)
    requires l.Valid() && |bind| == DATA_BUFFER_SIZE && Routable(rings, caller)
    requires R.Legal(R.Started(l, bind, rings, caller), steps)
    requires Carried(sys, R.Exec(R.Started(l, bind, rings, caller), steps))
    ensures var r := R.Exec(R.Started(l, bind, rings, caller), steps);
      var q := ReceiveAll(FRESH, r.pieces, RESP_CHAT);
      && k <= |m.got| && m.from + k <= |log|
      && q.frames == log[m.from..m.from + k]
      && (if k < |m.got| then q.buf < m.got[k] else q.buf == [])
      && (|Flat(r.pieces)| == |sys.accepted| ==> k == |m.got|)
  {
    SegmentWellFormed(m, log, RESP_CHAT);
    k := ReachedFramesArrive(sys, l, bind, rings, caller, steps, m.got, RESP_CHAT);
    H.SegmentPart(m, log, m.from, m.from + k);
    assert m.got[0..k] == m.got[..k];
  }

  lemma SegmentWellFormed(m: H.Member, log: seq<seq<byte>>, code: byte)
    requires H.Segment(m, log) && AllWellFormed(log, code)
    ensures AllWellFormed(m.got, code)
  {
    forall f | f in m.got ensures WellFormed(f, code) {
      assert f in log;
    }
  }
}

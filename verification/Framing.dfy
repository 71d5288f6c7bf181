/** Length-prefixed frames over a byte stream: the receive loop of the chat server and
    client.  A frame starts with a message code and its own size in two bytes, low byte
    first; it is copied into a scratch array of fixed size before it is looked at. */
module Framing {
  import opened Memory
  import opened Lists
  import TcpSockets

  const HEADER := 3
  const SCRATCH := 1024

  const REQ_CHAT: byte := 1
  const RESP_CHAT: byte := 11

  function SizeAt(buf: seq<byte>): nat
    requires HEADER <= |buf|
  {
    buf[1] as nat + 256 * buf[2] as nat
  }

  // Why the loop left off: the buffer holds no whole frame; a frame with another code was
  // taken out; the frame does not fit the scratch array; or the frame has size zero, so that
  // the loop takes nothing out and turns for ever.
  datatype End = Waiting | Closed | Overrun | Spinning

  datatype Drained = Drained(frames: seq<seq<byte>>, rest: seq<byte>, end: End)

  // No whole frame yet.
  predicate Incomplete(buf: seq<byte>) {
    |buf| < HEADER || |buf| < SizeAt(buf)
  }

  // The receive loop on the bytes in the buffer, expecting message code `code`.
  function Drain(buf: seq<byte>, code: byte): Drained {
    if Incomplete(buf) then Drained([], buf, Waiting)
    else
      var size := SizeAt(buf);
      if SCRATCH < size then Drained([], buf, Overrun)
      else if buf[0] != code then Drained([], buf[size..], Closed)
      else if size == 0 then Drained([], buf, Spinning)
      else
        var next := Drain(buf[size..], code);
        next.(frames := [buf[..size]] + next.frames)
  }

  // Bytes pushed so far and not taken out, and the frames taken out so far.
  datatype Parser = Parser(buf: seq<byte>, frames: seq<seq<byte>>)

  const FRESH := Parser([], [])

  // One receive event.
  function Receive(p: Parser, chunk: seq<byte>, code: byte): Parser {
    var d := Drain(p.buf + chunk, code);
    Parser(d.rest, p.frames + d.frames)
  }

  function ReceiveAll(p: Parser, chunks: seq<seq<byte>>, code: byte): Parser
    decreases chunks
  {
    if chunks == [] then p else ReceiveAll(Receive(p, chunks[0], code), chunks[1..], code)
  }

  // --- Any chunking -----------------------------------------------------------------------

  // More bytes at the end change nothing about frames already complete.
  lemma {:induction false} DrainExtends(a: seq<byte>, b: seq<byte>, code: byte)
    ensures var d := Drain(a, code);
      if d.end == Waiting then
        var e := Drain(d.rest + b, code);
        Drain(a + b, code) == Drained(d.frames + e.frames, e.rest, e.end)
      else
        Drain(a + b, code) == Drained(d.frames, d.rest + b, d.end)
    decreases |a|
  {
    if !Incomplete(a) {
      var size := SizeAt(a);
      assert SizeAt(a + b) == size && (a + b)[0] == a[0];
      assert (a + b)[size..] == a[size..] + b && (a + b)[..size] == a[..size];
      if 0 < size <= SCRATCH && a[0] == code {
        DrainExtends(a[size..], b, code);
        var d := Drain(a[size..], code);
        if d.end == Waiting {
          var e := Drain(d.rest + b, code);
          Assoc([a[..size]], d.frames, e.frames);
        }
      }
    } else {
      assert [] + Drain(a + b, code).frames == Drain(a + b, code).frames;
    }
  }

  // Where the loop stops without rejecting a frame it would stop again.
  lemma {:induction false} DrainRests(a: seq<byte>, code: byte)
    requires Drain(a, code).end != Closed
    ensures Drain(Drain(a, code).rest, code) == Drained([], Drain(a, code).rest, Drain(a, code).end)
    decreases |a|
  {
    if !Incomplete(a) {
      var size := SizeAt(a);
      if 0 < size <= SCRATCH && a[0] == code {
        DrainRests(a[size..], code);
      }
    }
  }

  // --- Frames cut by size alone -----------------------------------------------------------

  // Nothing can be taken out of the front, now or later: no whole frame, one that does not
  // fit the scratch array, or one of size zero.
  predicate NoFrame(t: seq<byte>) {
    Incomplete(t) || SizeAt(t) == 0 || SCRATCH < SizeAt(t)
  }

  function BySize(t: seq<byte>): seq<seq<byte>> {
    if NoFrame(t) then [] else [t[..SizeAt(t)]] + BySize(t[SizeAt(t)..])
  }

  // The frames of a stream that carry the expected code.
  function Proper(t: seq<byte>, code: byte): seq<seq<byte>> {
    if NoFrame(t) then []
    else (if t[0] == code then [t[..SizeAt(t)]] else []) + Proper(t[SizeAt(t)..], code)
  }

  // More bytes at the end do not change the front frame.
  lemma FrontStays(a: seq<byte>, later: seq<byte>)
    requires !Incomplete(a)
    ensures !Incomplete(a + later) && SizeAt(a + later) == SizeAt(a) && (a + later)[0] == a[0]
    ensures (a + later)[SizeAt(a)..] == a[SizeAt(a)..] + later && (a + later)[..SizeAt(a)] == a[..SizeAt(a)]
  {
  }

  // Taking out what the loop takes out first makes no difference.
  lemma {:induction false} DrainSkips(a: seq<byte>, later: seq<byte>, code: byte)
    ensures var d := Drain(a, code);
      Proper(a + later, code) == d.frames + Proper(d.rest + later, code)
    decreases |a|
  {
    if NoFrame(a) {
      assert Drain(a, code).frames == [] && Drain(a, code).rest == a;
    } else {
      FrontStays(a, later);
      var rest := a[SizeAt(a)..];
      if a[0] == code {
        DrainSkips(rest, later, code);
        Assoc([a[..SizeAt(a)]], Drain(rest, code).frames, Proper(Drain(rest, code).rest + later, code));
      }
    }
  }

  // Whatever the chunks, what was taken out and what can still come are the proper frames.
  lemma {:induction false} ReceiveAllSkips(p: Parser, chunks: seq<seq<byte>>, code: byte)
    ensures var q := ReceiveAll(p, chunks, code);
      q.frames + Proper(q.buf, code) == p.frames + Proper(p.buf + Flat(chunks), code)
    decreases chunks
  {
    if chunks == [] {
      assert p.buf + Flat(chunks) == p.buf;
    } else {
      var later, q := Flat(chunks[1..]), Receive(p, chunks[0], code);
      ReceiveAllSkips(q, chunks[1..], code);
      Assoc(p.buf, chunks[0], later);
      DrainSkips(p.buf + chunks[0], later, code);
      Assoc(p.frames, Drain(p.buf + chunks[0], code).frames, Proper(q.buf + later, code));
    }
  }

  lemma FewerBefore(a: seq<byte>, later: seq<byte>, code: byte)
    ensures Drain(a + later, code).frames
         <= Drain(a, code).frames + Drain(Drain(a, code).rest + later, code).frames
  {
    DrainExtends(a, later, code);
  }

  lemma PrefixChain<T>(a: seq<T>, x: seq<T>, b: seq<T>, c: seq<T>, z: seq<T>)
    requires x <= b + c && (a + b) + c <= z
    ensures a + x <= z
  {
    Assoc(a, b, c);
  }

  // One receive event with everything takes out no more than many events do.
  lemma {:induction false} OneChunkIsLeast(p: Parser, chunks: seq<seq<byte>>, code: byte)
    requires chunks != []
    ensures p.frames + Drain(p.buf + Flat(chunks), code).frames <= ReceiveAll(p, chunks, code).frames
    decreases chunks
  {
    var a, later := p.buf + chunks[0], Flat(chunks[1..]);
    var q := Receive(p, chunks[0], code);
    Assoc(p.buf, chunks[0], later);
    if |chunks| == 1 {
      assert a + later == a;
    } else {
      OneChunkIsLeast(q, chunks[1..], code);
      FewerBefore(a, later, code);
      PrefixChain(p.frames, Drain(a + later, code).frames, Drain(a, code).frames,
                  Drain(q.buf + later, code).frames, ReceiveAll(p, chunks, code).frames);
    }
  }

  // --- When the cut matters ---------------------------------------------------------------

  // A receive event leaves the loop at the first foreign frame, so a foreign frame costs an
  // event.  What follows counts the events there are against the events that are needed.

  // Foreign frames that have a proper frame behind them.
  function Costs(t: seq<byte>, code: byte): nat {
    if NoFrame(t) then 0
    else
      var rest := t[SizeAt(t)..];
      (if t[0] != code && Proper(rest, code) != [] then 1 else 0) + Costs(rest, code)
  }

  // The bytes behind the point at which the loop can see the front frame.
  function Behind(t: seq<byte>): nat
    requires !NoFrame(t)
  {
    |t| - if SizeAt(t) < HEADER then HEADER else SizeAt(t)
  }

  // The events, without the last, after which at most `bytes` bytes are still to come.
  function Events(chunks: seq<seq<byte>>, bytes: nat): nat {
    if |chunks| <= 1 then 0
    else (if |Flat(chunks[1..])| <= bytes then 1 else 0) + Events(chunks[1..], bytes)
  }

  // For every foreign frame with a proper one behind it there are, once it can be seen,
  // enough events before the last one for it and all such frames after it.
  predicate Timely(t: seq<byte>, chunks: seq<seq<byte>>, code: byte) {
    NoFrame(t) ||
    var rest := t[SizeAt(t)..];
    && (t[0] == code || Proper(rest, code) == [] || Costs(t, code) <= Events(chunks, Behind(t)))
    && Timely(rest, chunks, code)
  }

  lemma {:induction false} EventsBound(chunks: seq<seq<byte>>, bytes: nat)
    requires chunks != []
    ensures Events(chunks, bytes) <= |chunks| - 1
    ensures |Flat(chunks[1..])| <= bytes ==> Events(chunks, bytes) == |chunks| - 1
  {
    if 1 < |chunks| {
      EventsBound(chunks[1..], bytes);
    }
  }

  lemma {:induction false} CostsNothing(t: seq<byte>, chunks: seq<seq<byte>>, code: byte)
    requires Proper(t, code) == []
    ensures Costs(t, code) == 0 && Timely(t, chunks, code)
    decreases |t|
  {
    if !NoFrame(t) {
      CostsNothing(t[SizeAt(t)..], chunks, code);
    }
  }

  lemma {:induction false} TimelyBound(t: seq<byte>, chunks: seq<seq<byte>>, code: byte)
    requires chunks != [] && Timely(t, chunks, code)
    ensures Costs(t, code) <= |chunks| - 1
    decreases |t|
  {
    if !NoFrame(t) {
      EventsBound(chunks, Behind(t));
      TimelyBound(t[SizeAt(t)..], chunks, code);
      var rest := t[SizeAt(t)..];
      if t[0] != code && Proper(rest, code) == [] {
        CostsNothing(rest, chunks, code);
      }
    }
  }

  // An event at whose end no frame of t can be seen does not count for t.
  lemma {:induction false} TimelyUnseen(t: seq<byte>, chunks: seq<seq<byte>>, code: byte)
    requires 2 <= |chunks| && (NoFrame(t) || Behind(t) < |Flat(chunks[1..])|)
    ensures Timely(t, chunks, code) <==> Timely(t, chunks[1..], code)
    decreases |t|
  {
    if !NoFrame(t) {
      TimelyUnseen(t[SizeAt(t)..], chunks, code);
    }
  }

  lemma {:induction false} TimelyMore(t: seq<byte>, chunks: seq<seq<byte>>, code: byte)
    requires 2 <= |chunks| && Timely(t, chunks[1..], code)
    ensures Timely(t, chunks, code)
    decreases |t|
  {
    if !NoFrame(t) {
      TimelyMore(t[SizeAt(t)..], chunks, code);
    }
  }

  lemma {:induction false} TimelyLess(t: seq<byte>, chunks: seq<seq<byte>>, code: byte)
    requires 2 <= |chunks| && Timely(t, chunks, code) && Costs(t, code) <= |chunks| - 2
    ensures Timely(t, chunks[1..], code)
    decreases |t|
  {
    if !NoFrame(t) {
      EventsBound(chunks[1..], Behind(t));
      TimelyLess(t[SizeAt(t)..], chunks, code);
    }
  }

  // One receive event that is not the last one.
  lemma {:induction false} EventKeepsTimely(a: seq<byte>, chunks: seq<seq<byte>>, code: byte)
    requires 2 <= |chunks|
    ensures var later := Flat(chunks[1..]);
      Timely(a + later, chunks, code) <==> Timely(Drain(a, code).rest + later, chunks[1..], code)
    decreases |a|
  {
    var later := Flat(chunks[1..]);
    var t := a + later;
    if NoFrame(a) {
      TimelyUnseen(t, chunks, code);
    } else {
      var size := SizeAt(a);
      assert SizeAt(t) == size && t[0] == a[0] && t[size..] == a[size..] + later;
      if a[0] == code {
        EventKeepsTimely(a[size..], chunks, code);
      } else {
        RejectKeepsTimely(t, chunks, code);
      }
    }
  }

  lemma RejectKeepsTimely(t: seq<byte>, chunks: seq<seq<byte>>, code: byte)
    requires 2 <= |chunks| && !NoFrame(t) && t[0] != code && |Flat(chunks[1..])| <= Behind(t)
    ensures Timely(t, chunks, code) <==> Timely(t[SizeAt(t)..], chunks[1..], code)
  {
    var rest := t[SizeAt(t)..];
    if Proper(rest, code) == [] {
      CostsNothing(rest, chunks, code);
      CostsNothing(rest, chunks[1..], code);
    } else {
      EventsBound(chunks, Behind(t));
      if Timely(t, chunks, code) {
        TimelyLess(rest, chunks, code);
      }
      if Timely(rest, chunks[1..], code) {
        TimelyBound(rest, chunks[1..], code);
        TimelyMore(rest, chunks, code);
      }
    }
  }

  // The last event takes out everything proper exactly if nothing foreign stands before it.
  lemma {:induction false} LastEvent(t: seq<byte>, chunk: seq<byte>, code: byte)
    ensures Drain(t, code).frames == Proper(t, code) <==> Timely(t, [chunk], code)
    decreases |t|
  {
    if !NoFrame(t) {
      var rest := t[SizeAt(t)..];
      LastEvent(rest, chunk, code);
      if t[0] == code {
        var f := t[..SizeAt(t)];
        assert ([f] + Drain(rest, code).frames)[1..] == Drain(rest, code).frames;
        assert ([f] + Proper(rest, code))[1..] == Proper(rest, code);
      } else if Proper(rest, code) == [] {
        CostsNothing(rest, [chunk], code);
      }
    }
  }

  // For any bytes and any one cut of them, exactly when no proper frame is left behind.
  lemma {:induction false} NothingLostIff(p: Parser, chunks: seq<seq<byte>>, code: byte)
    requires chunks != []
    ensures ReceiveAll(p, chunks, code).frames == p.frames + Proper(p.buf + Flat(chunks), code)
       <==> Timely(p.buf + Flat(chunks), chunks, code)
    decreases chunks
  {
    var a, later := p.buf + chunks[0], Flat(chunks[1..]);
    var d, q := Drain(a, code), Receive(p, chunks[0], code);
    Assoc(p.buf, chunks[0], later);
    if |chunks| == 1 {
      assert a + later == a && chunks == [chunks[0]];
      assert ReceiveAll(p, chunks, code) == q;
      LastEvent(a, chunks[0], code);
      Cancel(p.frames, d.frames, Proper(a, code));
    } else {
      NothingLostIff(q, chunks[1..], code);
      EventKeepsTimely(a, chunks, code);
      DrainSkips(a, later, code);
      Assoc(p.frames, d.frames, Proper(d.rest + later, code));
    }
  }

  lemma Cancel<T>(a: seq<T>, x: seq<T>, y: seq<T>)
    ensures a + x == a + y <==> x == y
  {
    assert (a + x)[|a|..] == x && (a + y)[|a|..] == y;
  }

  // --- Every cut the kernel can make --------------------------------------------------------

  const LARGEST_READ := TcpSockets.DATA_BUFFER_SIZE

  // The bytes that k full reads bring.
  function Reads(k: nat): nat {
    if k == 0 then 0 else LARGEST_READ + Reads(k - 1)
  }

  lemma {:induction false} ReadsGrow(j: nat, k: nat)
    requires j <= k
    ensures Reads(j) <= Reads(k)
    decreases k
  {
    if j < k {
      ReadsGrow(j, k - 1);
    }
  }

  predicate CutOf(chunks: seq<seq<byte>>, stream: seq<byte>) {
    Flat(chunks) == stream && forall c | c in chunks :: 1 <= |c| <= LARGEST_READ
  }

  // All of them give the same frames.
  ghost predicate ChunkingIsInvisible(stream: seq<byte>, code: byte) {
    forall a, b | CutOf(a, stream) && CutOf(b, stream) ::
      ReceiveAll(FRESH, a, code).frames == ReceiveAll(FRESH, b, code).frames
  }

  // Behind every foreign frame that has a proper one behind it, there are as many times the
  // largest read as there are such foreign frames from this one on.
  predicate Spaced(t: seq<byte>, code: byte) {
    NoFrame(t) ||
    var rest := t[SizeAt(t)..];
    && (t[0] == code || Proper(rest, code) == [] || Reads(Costs(t, code)) <= Behind(t))
    && Spaced(rest, code)
  }

  lemma {:induction false} EventsAtLeast(chunks: seq<seq<byte>>, bytes: nat)
    requires forall c | c in chunks :: |c| <= LARGEST_READ
    requires bytes < |Flat(chunks)|
    ensures bytes < Reads(Events(chunks, bytes) + 1)
    decreases chunks
  {
    FlatBound(chunks);
    if 1 < |chunks| {
      EventsBound(chunks, bytes);
      if bytes < |Flat(chunks[1..])| {
        EventsAtLeast(chunks[1..], bytes);
      }
    }
  }

  lemma {:induction false} FlatBound(chunks: seq<seq<byte>>)
    requires forall c | c in chunks :: |c| <= LARGEST_READ
    ensures |Flat(chunks)| <= Reads(|chunks|)
  {
    if chunks != [] {
      FlatBound(chunks[1..]);
    }
  }

  // How many full reads there are before n bytes are through.
  function FullReads(n: nat): (k: nat)
    requires 0 < n
    ensures Reads(k) < n <= Reads(k + 1)
  {
    if n <= LARGEST_READ then 0 else FullReads(n - LARGEST_READ) + 1
  }

  // The cut with the fewest events: k full reads, and before them the short one.
  function Latest(s: seq<byte>, k: nat): (chunks: seq<seq<byte>>)
    requires Reads(k) < |s|
    ensures |chunks| == k + 1
    decreases k
  {
    if k == 0 then [s]
    else
      var n := |s| - Reads(k);
      [s[..n]] + Latest(s[n..], k - 1)
  }

  lemma CutCons(c: seq<byte>, chunks: seq<seq<byte>>, stream: seq<byte>)
    requires 1 <= |c| <= LARGEST_READ && CutOf(chunks, stream)
    ensures CutOf([c] + chunks, c + stream) && ([c] + chunks)[1..] == chunks
  {
  }

  lemma {:induction false} LatestCuts(s: seq<byte>, k: nat)
    requires Reads(k) < |s| <= Reads(k + 1)
    ensures CutOf(Latest(s, k), s)
    ensures k != 0 ==> |Flat(Latest(s, k)[1..])| == Reads(k)
    decreases k
  {
    if k != 0 {
      var n := |s| - Reads(k);
      LatestCuts(s[n..], k - 1);
      CutCons(s[..n], Latest(s[n..], k - 1), s[n..]);
      assert s[..n] + s[n..] == s;
    }
  }

  lemma {:induction false} EventsAtMost(s: seq<byte>, k: nat, bytes: nat)
    requires Reads(k) < |s| <= Reads(k + 1) && bytes < |s|
    ensures Reads(Events(Latest(s, k), bytes)) <= bytes
    decreases k
  {
    if k != 0 {
      var n := |s| - Reads(k);
      LatestCuts(s, k);
      assert Latest(s, k)[1..] == Latest(s[n..], k - 1);
      if bytes < Reads(k) {
        EventsAtMost(s[n..], k - 1, bytes);
      } else {
        EventsBound(Latest(s, k), bytes);
      }
    }
  }

  // One byte at a time.
  function Bytes(s: seq<byte>): (chunks: seq<seq<byte>>)
    ensures CutOf(chunks, s) && |chunks| == |s|
    decreases |s|
  {
    if s == [] then [] else
    var rest := Bytes(s[1..]);
    assert ([s[..1]] + rest)[1..] == rest && s[..1] + s[1..] == s;
    [s[..1]] + rest
  }

  lemma {:induction false} EventsOfBytes(s: seq<byte>, bytes: nat)
    requires bytes < |s|
    ensures Events(Bytes(s), bytes) == bytes
    decreases |s|
  {
    var rest := Bytes(s[1..]);
    assert Bytes(s) == [s[..1]] + rest && Bytes(s)[1..] == rest;
    if bytes < |s| - 1 {
      EventsOfBytes(s[1..], bytes);
    } else {
      EventsBound(Bytes(s), bytes);
    }
  }

  lemma {:induction false} CostsBound(t: seq<byte>, code: byte)
    requires !NoFrame(t)
    ensures Costs(t, code) <= Behind(t)
    decreases |t|
  {
    var rest := t[SizeAt(t)..];
    if !NoFrame(rest) {
      CostsBound(rest, code);
    }
  }

  // Byte by byte every proper frame is taken out.
  lemma {:induction false} BytesTimely(t: seq<byte>, s: seq<byte>, code: byte)
    requires |t| <= |s|
    ensures Timely(t, Bytes(s), code)
    decreases |t|
  {
    if !NoFrame(t) {
      CostsBound(t, code);
      EventsOfBytes(s, Behind(t));
      BytesTimely(t[SizeAt(t)..], s, code);
    }
  }

  lemma {:induction false} SpacedIsTimely(t: seq<byte>, chunks: seq<seq<byte>>, code: byte)
    requires Spaced(t, code) && |t| <= |Flat(chunks)|
    requires forall c | c in chunks :: |c| <= LARGEST_READ
    ensures Timely(t, chunks, code)
    decreases |t|
  {
    if !NoFrame(t) {
      EventsAtLeast(chunks, Behind(t));
      if Events(chunks, Behind(t)) < Costs(t, code) {
        ReadsGrow(Events(chunks, Behind(t)) + 1, Costs(t, code));
      }
      SpacedIsTimely(t[SizeAt(t)..], chunks, code);
    }
  }

  lemma {:induction false} TimelyIsSpaced(t: seq<byte>, s: seq<byte>, k: nat, code: byte)
    requires Reads(k) < |s| <= Reads(k + 1) && |t| <= |s|
    requires Timely(t, Latest(s, k), code)
    ensures Spaced(t, code)
    decreases |t|
  {
    if !NoFrame(t) {
      EventsAtMost(s, k, Behind(t));
      if Costs(t, code) <= Events(Latest(s, k), Behind(t)) {
        ReadsGrow(Costs(t, code), Events(Latest(s, k), Behind(t)));
      }
      TimelyIsSpaced(t[SizeAt(t)..], s, k, code);
    }
  }

  lemma CutLosesNothingIff(chunks: seq<seq<byte>>, stream: seq<byte>, code: byte)
    requires CutOf(chunks, stream)
    ensures ReceiveAll(FRESH, chunks, code).frames == Proper(stream, code) <==> Timely(stream, chunks, code)
  {
    assert [] + stream == stream && [] + Proper(stream, code) == Proper(stream, code);
    if chunks != [] {
      NothingLostIff(FRESH, chunks, code);
    }
  }

  // For any bytes: all ways in which the kernel can cut them give the same frames exactly
  // when the foreign frames are spaced, and then these are all the proper frames.
  lemma ChunkingIsInvisibleIff(stream: seq<byte>, code: byte)
    ensures ChunkingIsInvisible(stream, code) <==> Spaced(stream, code)
    ensures Spaced(stream, code) ==>
              forall chunks | CutOf(chunks, stream) :: ReceiveAll(FRESH, chunks, code).frames == Proper(stream, code)
  {
    if Spaced(stream, code) {
      forall chunks | CutOf(chunks, stream) ensures ReceiveAll(FRESH, chunks, code).frames == Proper(stream, code) {
        SpacedIsTimely(stream, chunks, code);
        CutLosesNothingIff(chunks, stream, code);
      }
    }
    if ChunkingIsInvisible(stream, code) && stream != [] {
      var k := FullReads(|stream|);
      LatestCuts(stream, k);
      BytesTimely(stream, stream, code);
      CutLosesNothingIff(Bytes(stream), stream, code);
      CutLosesNothingIff(Latest(stream, k), stream, code);
      TimelyIsSpaced(stream, stream, k, code);
    }
  }

  predicate IsProper(f: seq<byte>, code: byte) {
    f != [] && f[0] == code
  }

  // No foreign frame stands before a proper one.
  predicate ForeignLast(fs: seq<seq<byte>>, code: byte) {
    forall i, j | 0 <= i < j < |fs| :: IsProper(fs[i], code) || !IsProper(fs[j], code)
  }

  lemma {:induction false} ProperNone(t: seq<byte>, code: byte)
    ensures Proper(t, code) == [] <==> forall f | f in BySize(t) :: !IsProper(f, code)
    decreases |t|
  {
    if !NoFrame(t) {
      var f, rest := t[..SizeAt(t)], t[SizeAt(t)..];
      ProperNone(rest, code);
      assert BySize(t) == [f] + BySize(rest) && IsProper(f, code) == (t[0] == code);
      assert forall g :: g in BySize(t) <==> g == f || g in BySize(rest);
      assert f in BySize(t);
    }
  }

  lemma ForeignLastFirst(f: seq<byte>, fs: seq<seq<byte>>, code: byte)
    ensures ForeignLast([f] + fs, code)
       <==> ForeignLast(fs, code) && (IsProper(f, code) || forall g | g in fs :: !IsProper(g, code))
  {
    var all := [f] + fs;
    assert forall i | 0 <= i < |fs| :: fs[i] == all[i + 1];
    assert forall i | 0 < i < |all| :: all[i] == fs[i - 1];
    if ForeignLast(all, code) {
      forall i, j | 0 <= i < j < |fs| ensures IsProper(fs[i], code) || !IsProper(fs[j], code) {
        assert IsProper(all[i + 1], code) || !IsProper(all[j + 1], code);
      }
      forall g | g in fs ensures IsProper(f, code) || !IsProper(g, code) {
        var j :| 0 <= j < |fs| && fs[j] == g;
        assert IsProper(all[0], code) || !IsProper(all[j + 1], code);
      }
    }
  }

  lemma {:induction false} CostsNone(t: seq<byte>, code: byte)
    ensures Costs(t, code) == 0 <==> ForeignLast(BySize(t), code)
    decreases |t|
  {
    if !NoFrame(t) {
      var rest := t[SizeAt(t)..];
      CostsNone(rest, code);
      ProperNone(rest, code);
      ForeignLastFirst(t[..SizeAt(t)], BySize(rest), code);
    }
  }

  lemma {:induction false} ShortSpaced(t: seq<byte>, code: byte)
    requires |t| <= LARGEST_READ
    ensures Spaced(t, code) <==> Costs(t, code) == 0
    decreases |t|
  {
    if !NoFrame(t) {
      ShortSpaced(t[SizeAt(t)..], code);
    }
  }

  // For a stream that one read can bring, that is: no foreign frame before a proper one.
  lemma ShortStreams(stream: seq<byte>, code: byte)
    requires |stream| <= LARGEST_READ
    ensures ChunkingIsInvisible(stream, code) <==> ForeignLast(BySize(stream), code)
  {
    ChunkingIsInvisibleIff(stream, code);
    ShortSpaced(stream, code);
    CostsNone(stream, code);
  }

  // --- Well-formed frames -----------------------------------------------------------------

  predicate WellFormed(f: seq<byte>, code: byte) {
    HEADER <= |f| <= SCRATCH && f[0] == code && SizeAt(f) == |f|
  }

  predicate AllWellFormed(fs: seq<seq<byte>>, code: byte) {
    forall f | f in fs :: WellFormed(f, code)
  }

  lemma {:induction false} DrainFlat(fs: seq<seq<byte>>, tail: seq<byte>, code: byte)
    requires AllWellFormed(fs, code) && Incomplete(tail)
    ensures Drain(Flat(fs) + tail, code) == Drained(fs, tail, Waiting)
    decreases fs
  {
    if fs == [] {
      assert Flat(fs) + tail == tail;
    } else {
      DrainFlat(fs[1..], tail, code);
      Assoc(fs[0], Flat(fs[1..]), tail);
      assert WellFormed(fs[0], code);
      DrainFirst(fs[0], Flat(fs[1..]) + tail, code);
      assert fs == [fs[0]] + fs[1..];
    }
  }

  // A well-formed frame at the front is taken out first.
  lemma DrainFirst(f: seq<byte>, later: seq<byte>, code: byte)
    requires WellFormed(f, code)
    ensures var d := Drain(later, code);
      Drain(f + later, code) == d.(frames := [f] + d.frames)
  {
    var s := f + later;
    assert s[0] == f[0] && s[1] == f[1] && s[2] == f[2];
    assert s[..|f|] == f && s[|f|..] == later;
  }

  // A prefix of a list of frames is some whole frames and a strict prefix of the next.
  lemma {:induction false} SplitPrefix(s: seq<byte>, fs: seq<seq<byte>>) returns (k: nat, tail: seq<byte>)
    requires s <= Flat(fs)
    ensures k <= |fs| && s == Flat(fs[..k]) + tail
    ensures if k < |fs| then tail < fs[k] else tail == []
    decreases fs
  {
    if fs == [] || |s| < |fs[0]| {
      k, tail := 0, s;
      assert Flat(fs[..0]) + tail == tail;
      if fs != [] {
        assert s == Flat(fs)[..|s|] == fs[0][..|s|];
      }
    } else {
      var f := fs[0];
      assert s[..|f|] == Flat(fs)[..|f|] == f && s == f + s[|f|..];
      assert Flat(fs)[|f|..] == Flat(fs[1..]);
      assert s[|f|..] == Flat(fs)[..|s|][|f|..] == Flat(fs)[|f|..][..|s| - |f|];
      var j, rest := SplitPrefix(s[|f|..], fs[1..]);
      k, tail := j + 1, rest;
      assert fs[..k] == [f] + fs[1..][..j] && fs[..k][1..] == fs[1..][..j];
      Assoc(f, Flat(fs[1..][..j]), rest);
    }
  }

  // While nothing is rejected, many events leave just what one would have left.
  lemma {:induction false} ReceiveAllExact(p: Parser, chunks: seq<seq<byte>>, code: byte)
    requires Drain(p.buf, code) == Drained([], p.buf, Waiting)
    requires Drain(p.buf + Flat(chunks), code).end == Waiting
    ensures var d := Drain(p.buf + Flat(chunks), code);
      ReceiveAll(p, chunks, code) == Parser(d.rest, p.frames + d.frames)
    decreases chunks
  {
    if chunks == [] {
      assert p.buf + Flat(chunks) == p.buf && p.frames + [] == p.frames;
    } else {
      var a, later := p.buf + chunks[0], Flat(chunks[1..]);
      Assoc(p.buf, chunks[0], later);
      DrainExtends(a, later, code);
      DrainRests(a, code);
      ReceiveAllExact(Receive(p, chunks[0], code), chunks[1..], code);
      Assoc(p.frames, Drain(a, code).frames, Drain(Drain(a, code).rest + later, code).frames);
    }
  }

  // Framing round trip: however a prefix of the sent frames arrives, the receiver has taken
  // out exactly the whole frames in it, byte for byte and in order, and holds a strict
  // prefix of the next one.
  lemma FramingRoundTrip(fs: seq<seq<byte>>, chunks: seq<seq<byte>>, code: byte) returns (k: nat)
    requires AllWellFormed(fs, code) && Flat(chunks) <= Flat(fs)
    ensures var q := ReceiveAll(FRESH, chunks, code);
      && k <= |fs| && q.frames == fs[..k] && Flat(chunks) == Flat(fs[..k]) + q.buf
      && (if k < |fs| then q.buf < fs[k] else q.buf == [])
      && (Flat(chunks) == Flat(fs) ==> q == Parser([], fs))
  {
    var tail;
    k, tail := SplitPrefix(Flat(chunks), fs);
    if k < |fs| {
      assert WellFormed(fs[k], code);
      if HEADER <= |tail| {
        assert tail == fs[k][..|tail|];
      }
    }
    assert AllWellFormed(fs[..k], code);
    DrainFlat(fs[..k], tail, code);
    assert [] + Flat(chunks) == Flat(chunks) && [] + fs[..k] == fs[..k];
    ReceiveAllExact(FRESH, chunks, code);
    if k < |fs| {
      FlatReaches(fs, k);
    } else {
      assert fs[..k] == fs;
    }
  }

  lemma FlatReaches(fs: seq<seq<byte>>, k: nat)
    requires k < |fs|
    ensures |Flat(fs[..k])| + |fs[k]| <= |Flat(fs)|
  {
    assert fs == fs[..k] + fs[k..] && fs[k..] == [fs[k]] + fs[k + 1..];
    FlatConcat(fs[..k], fs[k..]);
    assert Flat(fs[k..]) == fs[k] + Flat(fs[k..][1..]);
  }
}

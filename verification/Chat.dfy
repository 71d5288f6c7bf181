/** The chat messages: how client and server write their frames, and the loop in which both
    take frames out of a receive buffer. */
module Chat {
  import opened Memory
  import opened IoBuffers
  import opened Framing

  const REQUEST_HEADER := 7     // code, size, chat_size
  const NAME_SIZE := 20
  const RESPONSE_HEADER := 27   // code, size, name, chat_size
  const CLIENT_TEXT_MAX := 1000

  // The low `width` bytes of n, lowest first.
  function Le(n: nat, width: nat): (s: seq<byte>)
    ensures |s| == width
  {
    if width == 0 then [] else [(n % 256) as byte] + Le(n / 256, width - 1)
  }

  function UnLe(s: seq<byte>): nat {
    if s == [] then 0 else s[0] as nat + 256 * UnLe(s[1..])
  }

  function Pow256(width: nat): nat {
    if width == 0 then 1 else 256 * Pow256(width - 1)
  }

  lemma {:induction false} LeRoundTrip(n: nat, width: nat)
    requires n < Pow256(width)
    ensures UnLe(Le(n, width)) == n
  {
    if width != 0 {
      LeRoundTrip(n / 256, width - 1);
      assert Le(n, width)[1..] == Le(n / 256, width - 1);
    }
  }

  // What the client keeps of its input line.
  function Kept(text: seq<byte>): seq<byte> {
    if |text| < CLIENT_TEXT_MAX then text else text[..CLIENT_TEXT_MAX]
  }

  function RequestFrame(text: seq<byte>): seq<byte> {
    var kept := Kept(text);
    [REQ_CHAT] + Le(REQUEST_HEADER + |kept|, 2) + Le(|kept|, 4) + kept
  }

  function ResponseFrame(name: seq<byte>, text: seq<byte>): seq<byte>
    requires |name| < NAME_SIZE
  {
    [RESP_CHAT] + Le(RESPONSE_HEADER + |text|, 2)
    + (name + seq(NAME_SIZE - |name|, _ => 0 as byte)) + Le(|text|, 4) + text
  }

  function Digits(n: nat): seq<byte> {
    if n < 10 then [(48 + n) as byte] else Digits(n / 10) + [(48 + n % 10) as byte]
  }

  // The name the server gives its n-th client: "client" and the number.
  function ClientName(n: nat): seq<byte> {
    [99, 108, 105, 101, 110, 116] + Digits(n)
  }

  function Pow10(k: nat): nat {
    if k == 0 then 1 else 10 * Pow10(k - 1)
  }

  lemma {:induction false} DigitsFit(n: nat, k: nat)
    requires 1 <= k && n < Pow10(k)
    ensures |Digits(n)| <= k && 0 !in Digits(n)
    decreases k
  {
    if 10 <= n {
      assert Pow10(0) == 1;
      DigitsFit(n / 10, k - 1);
    }
  }

  // Names always fit their field, terminator included, while the counter is an int.
  lemma ClientNameFits(n: nat)
    requires n < 0x8000_0000
    ensures |ClientName(n)| < NAME_SIZE && 0 !in ClientName(n)
  {
    assert Pow10(10) == 10 * Pow10(9) && Pow10(9) == 10 * Pow10(8) && Pow10(8) == 10 * Pow10(7);
    assert Pow10(7) == 10 * Pow10(6) && Pow10(6) == 10 * Pow10(5) && Pow10(5) == 10 * Pow10(4);
    assert Pow10(4) == 10 * Pow10(3) && Pow10(3) == 10 * Pow10(2) && Pow10(2) == 10 * Pow10(1);
    DigitsFit(n, 10);
  }

  function UnDigits(s: seq<byte>): int {
    if s == [] then 0 else 10 * UnDigits(s[..|s| - 1]) + (s[|s| - 1] as int - 48)
  }

  lemma {:induction false} DigitsRoundTrip(n: nat)
    ensures Digits(n) != [] && UnDigits(Digits(n)) == n
  {
    var d := Digits(n);
    if n < 10 {
      assert d[..0] == [] && UnDigits([]) == 0;
    } else {
      DigitsRoundTrip(n / 10);
      assert d[..|d| - 1] == Digits(n / 10);
    }
  }

  // No two clients have the same name: the number can be read back.
  lemma ClientNamesDiffer(m: nat, n: nat)
    ensures ClientName(m) == ClientName(n) <==> m == n
    ensures UnDigits(ClientName(n)[6..]) == n
  {
    assert ClientName(m)[6..] == Digits(m) && ClientName(n)[6..] == Digits(n);
    DigitsRoundTrip(m);
    DigitsRoundTrip(n);
  }

  // A C string: the bytes before the first zero.
  function CString(s: seq<byte>): seq<byte> {
    if s == [] || s[0] == 0 then [] else [s[0]] + CString(s[1..])
  }

  lemma SizeField(code: byte, n: nat, rest: seq<byte>)
    requires n < 65536
    ensures SizeAt([code] + Le(n, 2) + rest) == n
  {
    var f := [code] + Le(n, 2) + rest;
    assert f[1] == Le(n, 2)[0] && f[2] == Le(n, 2)[1] == Le(n / 256, 1)[0];
    assert n / 256 % 256 == n / 256;
  }

  // A request says what its sender typed: up to 1000 bytes come back whole, with their number,
  // of a longer line the first 1000.
  lemma RequestRoundTrip(text: seq<byte>)
    ensures var f := RequestFrame(text);
      && 7 <= |f| && WellFormed(f, REQ_CHAT)
      && (|text| <= 1000 ==> f[7..] == text && UnLe(f[3..7]) == |text|)
      && (1000 < |text| ==> f[7..] == text[..1000] && UnLe(f[3..7]) == 1000)
  {
    var kept := Kept(text);
    SizeField(REQ_CHAT, REQUEST_HEADER + |kept|, Le(|kept|, 4) + kept);
    var f := RequestFrame(text);
    assert f == [REQ_CHAT] + Le(REQUEST_HEADER + |kept|, 2) + (Le(|kept|, 4) + kept);
    assert f[3..7] == Le(|kept|, 4);
    assert Pow256(4) == 256 * Pow256(3) && Pow256(3) == 256 * Pow256(2) && Pow256(2) == 256 * Pow256(1);
    LeRoundTrip(|kept|, 4);
  }

  lemma {:induction false} CStringOf(name: seq<byte>, pad: seq<byte>)
    requires 0 !in name && pad != [] && pad[0] == 0
    ensures CString(name + pad) == name
  {
    if name == [] {
      assert name + pad == pad;
    } else {
      assert (name + pad)[1..] == name[1..] + pad;
      CStringOf(name[1..], pad);
    }
  }

  lemma ResponseRoundTrip(name: seq<byte>, text: seq<byte>)
    requires |name| < NAME_SIZE && 0 !in name && RESPONSE_HEADER + |text| < SCRATCH
    ensures var f := ResponseFrame(name, text);
      && WellFormed(f, RESP_CHAT) && |f| == RESPONSE_HEADER + |text|
      && CString(f[3..23]) == name && UnLe(f[23..27]) == |text| && f[27..] == text
  {
    var pad := seq(NAME_SIZE - |name|, _ => 0 as byte);
    SizeField(RESP_CHAT, RESPONSE_HEADER + |text|, (name + pad) + Le(|text|, 4) + text);
    var f := ResponseFrame(name, text);
    assert f == [RESP_CHAT] + Le(RESPONSE_HEADER + |text|, 2) + ((name + pad) + Le(|text|, 4) + text);
    assert f[3..23] == name + pad && f[23..27] == Le(|text|, 4);
    CStringOf(name, pad);
    assert Pow256(4) == 256 * Pow256(3) && Pow256(3) == 256 * Pow256(2) && Pow256(2) == 256 * Pow256(1);
    LeRoundTrip(|text|, 4);
  }

  // --- Imperative ---------------------------------------------------------------------

  // Stores bytes at position `at` and nothing else.
  method Put(buf: array<byte>, at: nat, bytes: seq<byte>)
    requires at + |bytes| <= buf.Length
    modifies buf
    ensures buf[at..at + |bytes|] == bytes
    ensures forall k | 0 <= k < at || at + |bytes| <= k < buf.Length :: buf[k] == old(buf[k])
  {
    ghost var was := buf[..];
    Heap.Memcpy(buf, at, bytes);
    var end := at + |bytes|;
    assert buf[at..end] == buf[..end][at..];
    forall k | 0 <= k < at ensures buf[k] == was[k] {
      assert buf[..end][k] == was[..at][k];
    }
    forall k | end <= k < buf.Length ensures buf[k] == was[k] {
      assert buf[end..][k - end] == was[end..][k - end];
    }
  }

  // The body of the client's input loop: the frame is written field by field.
  method EncodeRequest(input: seq<byte>) returns (buf: array<byte>, size: nat)
    ensures fresh(buf) && buf.Length == SCRATCH && size <= SCRATCH
    ensures buf[..size] == RequestFrame(input)
  {
    buf := new byte[SCRATCH](_ => 0);
    var chatSize := if |input| < CLIENT_TEXT_MAX then |input| else CLIENT_TEXT_MAX;
    size := REQUEST_HEADER + chatSize;
    Put(buf, REQUEST_HEADER, input[..chatSize]);
    ghost var text := buf[7..size];
    var head := [REQ_CHAT] + Le(size, 2) + Le(chatSize, 4);
    Put(buf, 0, head);
    assert buf[..7] == buf[0..7] == head && buf[7..size] == text == Kept(input);
    assert buf[..size] == buf[..7] + buf[7..size];
    RequestIs(input);
  }

  lemma RequestIs(text: seq<byte>)
    ensures RequestFrame(text)
         == ([REQ_CHAT] + Le(REQUEST_HEADER + |Kept(text)|, 2) + Le(|Kept(text)|, 4)) + Kept(text)
  {
  }

  // The server's frame builder; the text is followed by a zero that is not sent.  Where the
  // original would write beyond its array, the model stops and says so.
  method BuildResponse(name: seq<byte>, msg: seq<byte>) returns (fits: bool, buf: array<byte>, size: nat)
    requires |name| < NAME_SIZE
    ensures fresh(buf) && buf.Length == SCRATCH
    ensures fits <==> RESPONSE_HEADER + |msg| < SCRATCH
    ensures fits ==> size < SCRATCH && buf[..size] == ResponseFrame(name, msg) && buf[size] == 0
  {
    buf := new byte[SCRATCH](_ => 0);
    size := RESPONSE_HEADER + |msg|;
    fits := size < SCRATCH;
    if !fits { return; }
    var head := [RESP_CHAT] + Le(size, 2);
    Put(buf, 0, head);
    Put(buf, 3, name + seq(NAME_SIZE - |name|, _ => 0 as byte));
    ghost var who := buf[3..23];
    Put(buf, RESPONSE_HEADER, msg + [0]);
    ghost var text := buf[27..28 + |msg|];
    Put(buf, 23, Le(|msg|, 4));
    assert buf[27..28 + |msg|] == text && buf[3..23] == who;
    assert buf[27..size] == text[..|msg|] == msg && buf[size] == text[|msg|];
    assert buf[..3] == head;
    assert buf[..size] == buf[..3] + buf[3..23] + buf[23..27] + buf[27..size];
  }

  // One turn of the receive loop.  Where the original would copy beyond its scratch array,
  // or turn for ever, the model stops and says so.
  datatype Turn = Took(frame: seq<byte>) | Stop(end: End)

  method TakeFrame(buf: IoBuffer, picked: array<byte>, code: byte) returns (t: Turn)
    requires buf.Valid() && picked.Length == SCRATCH && picked != buf.rawBuffer
    modifies buf, buf.rawBuffer, picked
    ensures buf.Valid() && buf.rawBuffer == old(buf.rawBuffer)
    ensures t.Stop? ==> Drain(old(buf.view).data, code) == Drained([], buf.view.data, t.end)
    ensures t.Took? ==>
      && |buf.view.data| < |old(buf.view).data|
      && var d := Drain(buf.view.data, code);
         Drain(old(buf.view).data, code) == d.(frames := [t.frame] + d.frames)
  {
    ghost var data := buf.view.data;
    var ok := buf.Read(picked, HEADER);
    if !ok { return Stop(Waiting); }
    assert forall k | 0 <= k < HEADER :: picked[k] == picked[..][k] == data[k];
    var size := picked[1] as nat + 256 * picked[2] as nat;
    assert size == SizeAt(data);
    if SCRATCH < size <= buf.bufferOffset { return Stop(Overrun); }
    ok := buf.Read(picked, size);
    if !ok { return Stop(Waiting); }
    assert picked[..size] == data[..size];
    assert picked[0] == picked[..][0] == data[0];
    buf.Pop(size);
    if picked[0] != code { return Stop(Closed); }
    if size == 0 { return Stop(Spinning); }
    return Took(picked[..size]);
  }

  // The receive event of server (REQ_CHAT) and client (RESP_CHAT): the frames it takes out.
  method OnReceive(buf: IoBuffer, code: byte) returns (frames: seq<seq<byte>>, end: End)
    requires buf.Valid()
    modifies buf, buf.rawBuffer
    ensures buf.Valid()
    ensures Drained(frames, buf.view.data, end) == Drain(old(buf.view).data, code)
  {
    var picked := new byte[SCRATCH](_ => 0);
    frames := [];
    while true
      invariant buf.Valid() && buf.rawBuffer == old(buf.rawBuffer)
      invariant var d := Drain(buf.view.data, code);
        Drain(old(buf.view).data, code) == d.(frames := frames + d.frames)
      decreases |buf.view.data|
    {
      ghost var before := frames;
      var t := TakeFrame(buf, picked, code);
      if t.Stop? { return frames, t.end; }
      frames := frames + [t.frame];
      assert forall more :: before + ([t.frame] + more) == frames + more;
    }
  }
}

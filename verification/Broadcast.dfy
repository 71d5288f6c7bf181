/** The chat server's broadcast.  `chat_all` holds the pool's lock while it sends one message
    to every registered client.  It runs on the thread of some ring; meanwhile the threads of
    other rings take sockets up and down. */
module Broadcast {
  import opened Memory
  import opened IoServices
  import opened Lists

  type Message = seq<byte>

  // A client's socket as far as a send looks at it, and the messages it accepted.  `ended`:
  // io_shutdown has run.  `home`: the ring of its reads, whose thread also runs io_shutdown.
  // `from`: where in the log the first accepted message stands.
  datatype Member = Member(connected: bool, graceful: bool, ended: bool, home: nat, got: seq<Message>, from: nat)

  predicate Admits(m: Member) {
    !m.graceful && m.connected
  }

  // `host`: the ring whose thread is inside chat_all, while `chatting`.  `sending`: the client
  // whose send has passed the checks and not yet appended.
  datatype Hall = Hall(
    members: map<nat, Member>, pool: set<nat>, log: seq<Message>,
    chatting: bool, host: nat, todo: set<nat>, sending: Option<nat>)

  datatype Step =
    | Add(id: nat, home: nat)      // pool::add from the accept event, before on_active
    | Activate(id: nat)
    | GoDown(id: nat)      // a graceful close with data pending raises the flag
    | HangUp(id: nat)      // io_shutdown
    | Remove(id: nat)      // pool::remove from the close event
    | Begin(m: Message, ring: nat) // chat_all takes the lock
    | Check(id: nat)       // ... tests the flags of one client
    | Append               // ... and appends to its stream
    | Finish               // ... and releases the lock

  // The message being sent.
  function Current(s: Hall): Message {
    if s.log == [] then [] else s.log[|s.log| - 1]
  }

  // A push into destroyed buffers returns only if it carries no bytes.
  predicate PushReturns(s: Hall)
    requires s.sending.Some? && s.sending.value in s.members
  {
    !s.members[s.sending.value].ended || Current(s) == []
  }

  predicate Enabled(s: Hall, step: Step) {
    match step
    case Add(id, _) => !s.chatting && id !in s.members
    case Activate(id) => id in s.members && !s.members[id].connected && !s.members[id].ended
    case GoDown(id) => id in s.members
    // a thread does one thing at a time
    case HangUp(id) => id in s.members && s.members[id].connected && !(s.chatting && s.members[id].home == s.host)
    case Remove(id) => !s.chatting && id in s.members && s.members[id].ended
    case Begin(_, _) => !s.chatting
    case Check(id) => s.chatting && s.sending == None && id in s.todo && id in s.members
    case Append => s.sending.Some? && s.sending.value in s.members && PushReturns(s)
    case Finish => s.chatting && s.sending == None && s.todo == {}
  }

  function Apply(s: Hall, step: Step): Hall
    requires Enabled(s, step)
  {
    match step
    case Add(id, home) =>
      s.(members := s.members[id := Member(false, false, false, home, [], 0)], pool := s.pool + {id})
    case Activate(id) => s.(members := s.members[id := s.members[id].(connected := true)])
    case GoDown(id) => s.(members := s.members[id := s.members[id].(graceful := true)])
    case HangUp(id) => s.(members := s.members[id := s.members[id].(connected := false, ended := true)])
    case Remove(id) => s.(pool := s.pool - {id})
    case Begin(m, ring) => s.(chatting := true, host := ring, log := s.log + [m], todo := s.pool)
    case Check(id) =>
      s.(todo := s.todo - {id}, sending := if Admits(s.members[id]) then Some(id) else None)
    case Append =>
      var id := s.sending.value;
      s.(members := s.members[id := Accepted(s.members[id], s.log)], sending := None)
    case Finish => s.(chatting := false)
  }

  // The client takes the last message of the log.
  function Accepted(m: Member, log: seq<Message>): Member {
    if log == [] then m
    else m.(got := m.got + [log[|log| - 1]], from := if m.got == [] then |log| - 1 else m.from)
  }

  predicate Legal(s: Hall, steps: seq<Step>)
    decreases steps
  {
    steps == [] || (Enabled(s, steps[0]) && Legal(Apply(s, steps[0]), steps[1..]))
  }

  function Exec(s: Hall, steps: seq<Step>): Hall
    requires Legal(s, steps)
    decreases steps
  {
    if steps == [] then s else Exec(Apply(s, steps[0]), steps[1..])
  }

  const EMPTY_HALL := Hall(map[], {}, [], false, 0, {}, None)

  // --- The invariant ------------------------------------------------------------------

  // The accepted messages are one contiguous piece of the log.
  predicate Segment(m: Member, log: seq<Message>) {
    m.from + |m.got| <= |log| && m.got == log[m.from..m.from + |m.got|]
  }

  // The current message is still on its way to this client.
  predicate Due(s: Hall, id: nat) {
    s.sending == Some(id) || id in s.todo
  }

  // A client that may still accept has missed nothing since its first message.
  predicate UpToDate(s: Hall, id: nat)
    requires id in s.members
  {
    var m := s.members[id];
    m.got == [] || !(Admits(m) || s.sending == Some(id)) ||
    (id in s.pool && m.from + |m.got| + (if Due(s, id) then 1 else 0) == |s.log|)
  }

  // Only a socket that was up at some time has accepted or is accepting.
  predicate WasUp(s: Hall, id: nat)
    requires id in s.members
  {
    var m := s.members[id];
    && (m.got != [] || s.sending == Some(id) ==> m.connected || m.ended)
    && !(m.ended && m.connected)
  }

  predicate MemberOk(s: Hall, id: nat)
    requires id in s.members
  {
    Segment(s.members[id], s.log) && UpToDate(s, id) && WasUp(s, id)
  }

  predicate LockOk(s: Hall) {
    && s.todo <= s.pool <= s.members.Keys
    && (!s.chatting ==> s.todo == {} && s.sending == None)
    && (s.chatting ==> s.log != [])
    && (s.sending.Some? ==> s.sending.value !in s.todo && s.sending.value in s.pool)
  }

  ghost predicate Inv(s: Hall) {
    LockOk(s) && forall id | id in s.members :: MemberOk(s, id)
  }

  lemma MemberBegin(s: Hall, next: Message, ring: nat, id: nat)
    requires LockOk(s) && !s.chatting && id in s.members && MemberOk(s, id)
    ensures MemberOk(Apply(s, Begin(next, ring)), id)
  {
    var m := s.members[id];
    assert (s.log + [next])[m.from..m.from + |m.got|] == s.log[m.from..m.from + |m.got|];
  }

  lemma MemberAppend(s: Hall, id: nat)
    requires LockOk(s) && Enabled(s, Append) && id in s.members && MemberOk(s, id)
    ensures MemberOk(Apply(s, Append), id)
  {
    var m, n := s.members[id], |s.log|;
    if s.sending == Some(id) {
      if m.got == [] {
        assert [s.log[n - 1]] == s.log[n - 1..n];
      } else {
        assert m.from + |m.got| == n - 1;
        assert s.log[m.from..n] == s.log[m.from..n - 1] + [s.log[n - 1]];
      }
    }
  }

  lemma MemberOther(s: Hall, step: Step, id: nat)
    requires LockOk(s) && Enabled(s, step) && !step.Begin? && !step.Append?
    requires id in s.members && MemberOk(s, id)
    ensures MemberOk(Apply(s, step), id)
  {
  }

  lemma StepKeeps(s: Hall, step: Step)
    requires Inv(s) && Enabled(s, step)
    ensures Inv(Apply(s, step))
  {
    var t := Apply(s, step);
    forall id | id in t.members ensures MemberOk(t, id) {
      if id in s.members {
        match step {
          case Begin(next, ring) => MemberBegin(s, next, ring, id);
          case Append => MemberAppend(s, id);
          case _ => MemberOther(s, step, id);
        }
      }
    }
    assert LockOk(t);
  }

  lemma {:induction false} RunKeeps(s: Hall, steps: seq<Step>)
    requires Inv(s) && Legal(s, steps)
    ensures Inv(Exec(s, steps))
    decreases steps
  {
    if steps != [] {
      StepKeeps(s, steps[0]);
      RunKeeps(Apply(s, steps[0]), steps[1..]);
    }
  }

  lemma MemberHas(s: Hall, id: nat)
    requires Inv(s) && id in s.members
    ensures var m := s.members[id];
      Segment(m, s.log) && (!s.chatting && Admits(m) && m.got != [] ==> m.got == s.log[m.from..])
  {
    assert MemberOk(s, id);
  }

  // In every run each client has accepted exactly one contiguous piece of the log of
  // broadcasts, whatever happened to its socket; between broadcasts, one that is still up
  // has everything from its first message to the end of the log.
  lemma EachClientHasOneSegment(steps: seq<Step>, id: nat)
    requires Legal(EMPTY_HALL, steps) && id in Exec(EMPTY_HALL, steps).members
    ensures var s := Exec(EMPTY_HALL, steps);
      var m := s.members[id];
      && Segment(m, s.log)
      && (!s.chatting && Admits(m) && m.got != [] ==> m.got == s.log[m.from..])
  {
    RunKeeps(EMPTY_HALL, steps);
    MemberHas(Exec(EMPTY_HALL, steps), id);
  }

  // The client accepted the broadcast at position i of the log.
  predicate Took(m: Member, i: nat) {
    m.from <= i < m.from + |m.got|
  }

  // Any two clients accepted the broadcasts they share as the same block: it stands in both
  // streams contiguously and in log order, and nothing one of them accepted outside it falls
  // within the range of the other.
  lemma CommonBroadcastsAgree(steps: seq<Step>, a: nat, b: nat) returns (lo: nat, hi: nat)
    requires Legal(EMPTY_HALL, steps)
    requires a in Exec(EMPTY_HALL, steps).members && b in Exec(EMPTY_HALL, steps).members
    ensures var s := Exec(EMPTY_HALL, steps);
      var x, y := s.members[a], s.members[b];
      && lo <= hi <= |s.log|
      && (forall i | 0 <= i < |s.log| :: lo <= i < hi <==> Took(x, i) && Took(y, i))
      && (lo < hi ==>
            && x.from <= lo && hi <= x.from + |x.got| && y.from <= lo && hi <= y.from + |y.got|
            && x.got[lo - x.from..hi - x.from] == y.got[lo - y.from..hi - y.from] == s.log[lo..hi])
  {
    EachClientHasOneSegment(steps, a);
    EachClientHasOneSegment(steps, b);
    var s := Exec(EMPTY_HALL, steps);
    var x, y := s.members[a], s.members[b];
    lo, hi := SegmentsMeet(x, y, s.log);
    if lo < hi {
      SegmentPart(x, s.log, lo, hi);
      SegmentPart(y, s.log, lo, hi);
    }
  }

  lemma SegmentsMeet(x: Member, y: Member, log: seq<Message>) returns (lo: nat, hi: nat)
    requires Segment(x, log) && Segment(y, log)
    ensures lo <= hi <= |log|
    ensures forall i | 0 <= i < |log| :: lo <= i < hi <==> Took(x, i) && Took(y, i)
    ensures lo < hi ==> x.from <= lo && hi <= x.from + |x.got| && y.from <= lo && hi <= y.from + |y.got|
  {
    lo := if x.from < y.from then y.from else x.from;
    hi := if x.from + |x.got| < y.from + |y.got| then x.from + |x.got| else y.from + |y.got|;
    if hi <= lo {
      lo, hi := 0, 0;
    }
  }

  lemma SegmentPart(m: Member, log: seq<Message>, lo: nat, hi: nat)
    requires Segment(m, log) && m.from <= lo <= hi <= m.from + |m.got|
    ensures m.got[lo - m.from..hi - m.from] == log[lo..hi]
  {
    SliceOfSlice(log, m.from, m.from + |m.got|, lo - m.from, hi - m.from);
  }

  // --- Who gets a message ---------------------------------------------------------------

  // The broadcast finds the client's socket up and not closing when it comes to it.
  predicate Found(s: Hall, steps: seq<Step>, id: nat)
    requires Legal(s, steps)
    decreases steps
  {
    steps != [] &&
    ((steps[0] == Check(id) && id in s.members && Admits(s.members[id])) || Found(Apply(s, steps[0]), steps[1..], id))
  }

  // The run ends with the end of the broadcast it is in.
  predicate EndsBroadcast(steps: seq<Step>) {
    steps != [] && steps[|steps| - 1] == Finish && Finish !in steps[..|steps| - 1]
  }

  // What one step means for one client's share of the broadcast under way.
  lemma ShareStep(s: Hall, step: Step, id: nat)
    requires LockOk(s) && s.chatting && Enabled(s, step) && step != Finish && id in s.members
    ensures var t := Apply(s, step);
      && t.chatting && t.log == s.log && id in t.members
      && t.members[id].got == s.members[id].got + (if step.Append? && s.sending == Some(id) then [Current(s)] else [])
      && (id in t.todo <==> id in s.todo && step != Check(id))
      && (t.sending == Some(id) <==>
            (s.sending == Some(id) && !step.Append?) || (step == Check(id) && Admits(s.members[id])))
  {
  }

  lemma NotOver(steps: seq<Step>)
    requires EndsBroadcast(steps) && 1 < |steps|
    ensures EndsBroadcast(steps[1..]) && steps[0] != Finish
  {
    assert steps[0] == steps[..|steps| - 1][0] && steps[1..][..|steps| - 2] == steps[..|steps| - 1][1..];
  }

  // Nobody is looked at who is not on the list.
  lemma {:induction false} NotFoundTwice(s: Hall, steps: seq<Step>, id: nat)
    requires Inv(s) && s.chatting && Legal(s, steps) && EndsBroadcast(steps) && id in s.members && id !in s.todo
    ensures !Found(s, steps, id)
    decreases steps
  {
    if |steps| == 1 {
      assert steps[1..] == [];
    } else {
      NotOver(steps);
      ShareStep(s, steps[0], id);
      StepKeeps(s, steps[0]);
      NotFoundTwice(Apply(s, steps[0]), steps[1..], id);
    }
  }

  // What the client has still to accept of the broadcast under way: its message once, if a send
  // to it is under way or it has yet to be looked at and is then found up.
  function Share(s: Hall, steps: seq<Step>, id: nat): seq<Message>
    requires Legal(s, steps)
  {
    if s.sending == Some(id) || (id in s.todo && Found(s, steps, id)) then [Current(s)] else []
  }

  lemma ShareGoesOn(s: Hall, steps: seq<Step>, id: nat)
    requires LockOk(s) && s.chatting && Legal(s, steps) && EndsBroadcast(steps) && 1 < |steps| && id in s.members
    requires steps[0] == Check(id) ==> !Found(Apply(s, steps[0]), steps[1..], id)
    ensures var t := Apply(s, steps[0]);
      && id in t.members && t.members[id].got + Share(t, steps[1..], id) == s.members[id].got + Share(s, steps, id)
  {
    var step, t := steps[0], Apply(s, steps[0]);
    NotOver(steps);
    ShareStep(s, step, id);
    if step.Append? && s.sending == Some(id) { assert t.members[id].got + [] == t.members[id].got; }
  }

  lemma {:induction false} ShareOf(s: Hall, steps: seq<Step>, id: nat)
    requires Inv(s) && s.chatting && Legal(s, steps) && EndsBroadcast(steps) && id in s.members
    ensures var t := Exec(s, steps);
      && id in t.members && t.log == s.log && !t.chatting
      && t.members[id].got == s.members[id].got + Share(s, steps, id)
    decreases steps
  {
    if |steps| == 1 {
      assert steps[1..] == [];
    } else {
      NotOver(steps);
      ShareStep(s, steps[0], id);
      StepKeeps(s, steps[0]);
      if steps[0] == Check(id) { NotFoundTwice(Apply(s, steps[0]), steps[1..], id); }
      ShareGoesOn(s, steps, id);
      ShareOf(Apply(s, steps[0]), steps[1..], id);
    }
  }

  // Every broadcast reaches every client that is registered when it begins and found up when its
  // turn comes, the first message as well as any other, once; it reaches nobody else.
  lemma EveryoneIsTold(s: Hall, m: Message, ring: nat, steps: seq<Step>, id: nat)
    requires Inv(s) && Enabled(s, Begin(m, ring)) && id in s.members
    requires Legal(Apply(s, Begin(m, ring)), steps) && EndsBroadcast(steps)
    ensures var b := Apply(s, Begin(m, ring));
      var t := Exec(b, steps);
      && id in t.members && t.log == s.log + [m]
      && t.members[id].got == s.members[id].got + (if id in s.pool && Found(b, steps, id) then [m] else [])
  {
    StepKeeps(s, Begin(m, ring));
    ShareOf(Apply(s, Begin(m, ring)), steps, id);
  }

  // --- When a broadcast completes -------------------------------------------------------

  // A send passed its tests, then its client hung up: the push never returns, and with it
  // neither the socket's lock nor the pool's is ever released.
  predicate Stuck(s: Hall) {
    s.chatting && s.sending.Some? && s.sending.value in s.members && !PushReturns(s)
  }

  // Turns of the broadcast itself.
  predicate Turn(step: Step) {
    step.Check? || step.Append? || step.Finish?
  }

  // As long as it is not stuck, the broadcast can go on.
  lemma NextTurn(s: Hall) returns (step: Step)
    requires Inv(s) && s.chatting && !Stuck(s)
    ensures Turn(step) && Enabled(s, step)
  {
    if s.sending.Some? {
      step := Append;
    } else if s.todo != {} {
      var id :| id in s.todo;
      step := Check(id);
    } else {
      step := Finish;
    }
  }

  // Turns still to go.
  function Work(s: Hall): nat {
    2 * |s.todo| + (if s.sending.Some? then 1 else 0) + (if s.chatting then 1 else 0)
  }

  lemma TurnWorks(s: Hall, step: Step)
    requires Enabled(s, step) && s.chatting
    ensures var t := Apply(s, step);
      && t.chatting == (step != Finish)
      && Work(t) + (if Turn(step) then 1 else 0) <= Work(s)
  {
  }

  // All clients have the same home ring, broadcasts run there, and the client being sent to is
  // up.
  predicate AtHome(s: Hall, ring: nat) {
    && (forall id | id in s.members :: s.members[id].home == ring)
    && (s.chatting ==> s.host == ring)
    && (s.sending.Some? ==> s.chatting && s.sending.value in s.members && !s.members[s.sending.value].ended)
  }

  predicate StepAtHome(step: Step, ring: nat) {
    (step.Add? ==> step.home == ring) && (step.Begin? ==> step.ring == ring)
  }

  // Then nobody can hang up while a send is between its tests and its push.
  lemma HomeStep(s: Hall, step: Step, ring: nat)
    requires Inv(s) && AtHome(s, ring) && Enabled(s, step) && StepAtHome(step, ring)
    ensures AtHome(Apply(s, step), ring) && !Stuck(Apply(s, step))
  {
    if step.Check? {
      assert MemberOk(s, step.id);
    }
  }

  predicate RunAtHome(steps: seq<Step>, ring: nat) {
    forall i | 0 <= i < |steps| :: StepAtHome(steps[i], ring)
  }

  lemma {:induction false} HomeKeeps(s: Hall, steps: seq<Step>, ring: nat)
    requires Inv(s) && AtHome(s, ring) && Legal(s, steps) && RunAtHome(steps, ring)
    ensures AtHome(Exec(s, steps), ring)
    decreases steps
  {
    if steps != [] {
      StepKeeps(s, steps[0]);
      assert StepAtHome(steps[0], ring);
      HomeStep(s, steps[0], ring);
      assert forall i | 0 <= i < |steps[1..]| :: steps[1..][i] == steps[i + 1];
      HomeKeeps(Apply(s, steps[0]), steps[1..], ring);
    }
  }

  // In a run in which clients and broadcasts share one ring no broadcast is ever stuck.
  lemma NeverStuckAtHome(steps: seq<Step>, ring: nat)
    requires Legal(EMPTY_HALL, steps) && RunAtHome(steps, ring)
    ensures !Stuck(Exec(EMPTY_HALL, steps))
  {
    HomeKeeps(EMPTY_HALL, steps, ring);
  }
}

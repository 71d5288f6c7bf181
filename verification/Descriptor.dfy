/** Closing the descriptor.  A shutdown completion is handled without any lock: the thread of
    its ring tests the field, copies it, zeroes it, and closes the copy.  Shutdowns go to the
    ring of whoever submits them, so that two handlers may run at once. */
module Descriptors {
  import opened Memory
  import opened TcpSockets
  import opened Sender

  // A handler that will close the socket's descriptor; one that will close descriptor 0.
  predicate Holds(c: Closer) {
    !c.Tested? && c.found
  }

  predicate Missed(c: Closer) {
    !c.Tested? && !c.found
  }

  function Holders(s: Sys): set<nat> {
    set ring | ring in s.closers && Holds(s.closers[ring])
  }

  function Latecomers(s: Sys): set<nat> {
    set ring | ring in s.closers && Missed(s.closers[ring])
  }

  // Copies taken of the descriptor, and of the zero that replaced it; each is or will be
  // closed.
  function Copies(s: Sys): nat {
    s.closes + |Holders(s)|
  }

  function LateCopies(s: Sys): nat {
    s.strayCloses + |Latecomers(s)|
  }

  // A handler copies the descriptor while another one has copied it and not yet zeroed it.
  ghost predicate Overlap(s: Sys, step: Step) {
    step.CopyFd? && s.sock.open && exists ring :: ring in s.closers && s.closers[ring] == Copied(true)
  }

  // A handler found the field set and copies it after another one has zeroed it.
  predicate TooLate(s: Sys, step: Step) {
    step.CopyFd? && !s.sock.open
  }

  ghost predicate Overlaps(s: Sys, steps: seq<Step>)
    requires Legal(s, steps)
    decreases steps
  {
    steps != [] && (Overlap(s, steps[0]) || Overlaps(Apply(s, steps[0]), steps[1..]))
  }

  ghost predicate AnyTooLate(s: Sys, steps: seq<Step>)
    requires Legal(s, steps)
    decreases steps
  {
    steps != [] && (TooLate(s, steps[0]) || AnyTooLate(Apply(s, steps[0]), steps[1..]))
  }

  // While the descriptor is there nobody has got beyond copying it.
  predicate Untouched(s: Sys) {
    s.sock.open ==> s.closes == 0 && forall ring | ring in s.closers :: s.closers[ring] in {Tested, Copied(true)}
  }

  lemma CopyCounts(s: Sys, ring: nat)
    requires Untouched(s) && Enabled(s, CopyFd(ring))
    ensures var t := Apply(s, CopyFd(ring));
      && Copies(t) == Copies(s) + (if s.sock.open then 1 else 0)
      && LateCopies(t) == LateCopies(s) + (if s.sock.open then 0 else 1)
    ensures s.sock.open ==> (Copies(s) == 0 <==> !Overlap(s, CopyFd(ring)))
  {
    var t := Apply(s, CopyFd(ring));
    if s.sock.open {
      assert Holders(t) == Holders(s) + {ring} && Latecomers(t) == Latecomers(s);
      if Holders(s) != {} {
        var other :| other in Holders(s);
        assert s.closers[other] == Copied(true);
      } else {
        assert forall other | other in s.closers :: other !in Holders(s);
      }
    } else {
      assert Holders(t) == Holders(s) && Latecomers(t) == Latecomers(s) + {ring};
    }
  }

  lemma CloseCounts(s: Sys, ring: nat)
    requires Enabled(s, CloseFd(ring))
    ensures Copies(Apply(s, CloseFd(ring))) == Copies(s)
    ensures LateCopies(Apply(s, CloseFd(ring))) == LateCopies(s)
  {
    var t := Apply(s, CloseFd(ring));
    if s.closers[ring].found {
      assert Holders(t) == Holders(s) - {ring} && Latecomers(t) == Latecomers(s);
    } else {
      assert Holders(t) == Holders(s) && Latecomers(t) == Latecomers(s) - {ring};
    }
  }

  // No other step takes or gives back a copy.
  lemma OthersCount(s: Sys, step: Step)
    requires Enabled(s, step) && !step.CopyFd? && !step.CloseFd?
    ensures Copies(Apply(s, step)) == Copies(s) && LateCopies(Apply(s, step)) == LateCopies(s)
  {
    if step.Append? || step.Handle? {
      LockedIs(s, step);
    }
    var t := Apply(s, step);
    assert Holders(t) == Holders(s) && Latecomers(t) == Latecomers(s);
  }

  lemma UntouchedStep(s: Sys, step: Step)
    requires Untouched(s) && Enabled(s, step)
    ensures Untouched(Apply(s, step))
  {
    if step.Append? || step.Handle? {
      LockedIs(s, step);
    }
  }

  lemma CopiesStep(s: Sys, step: Step)
    requires Untouched(s) && Enabled(s, step)
    ensures Untouched(Apply(s, step))
    ensures Copies(Apply(s, step)) <= 1 <==> Copies(s) <= 1 && !Overlap(s, step)
    ensures LateCopies(Apply(s, step)) == 0 <==> LateCopies(s) == 0 && !TooLate(s, step)
  {
    UntouchedStep(s, step);
    match step {
      case CopyFd(ring) => CopyCounts(s, ring);
      case CloseFd(ring) => CloseCounts(s, ring);
      case _ => OthersCount(s, step);
    }
  }

  lemma {:induction false} CopiesIff(s: Sys, steps: seq<Step>)
    requires Untouched(s) && Legal(s, steps)
    ensures Copies(Exec(s, steps)) <= 1 <==> Copies(s) <= 1 && !Overlaps(s, steps)
    ensures LateCopies(Exec(s, steps)) == 0 <==> LateCopies(s) == 0 && !AnyTooLate(s, steps)
    decreases steps
  {
    if steps != [] {
      CopiesStep(s, steps[0]);
      CopiesIff(Apply(s, steps[0]), steps[1..]);
    }
  }

  // The descriptor is closed at most once as long as no handler copies it between another's
  // copying and zeroing; descriptor 0 is never closed as long as no handler copies the field
  // after another one zeroed it.  Once all handlers are through, exactly then.
  lemma ClosedOnceIff(l: Ledger, steps: seq<Step>)
    requires Legal(Started(l), steps)
    ensures !Overlaps(Started(l), steps) ==> Exec(Started(l), steps).closes <= 1
    ensures !AnyTooLate(Started(l), steps) ==> Exec(Started(l), steps).strayCloses == 0
    ensures Exec(Started(l), steps).closers == map[] ==>
              && (Exec(Started(l), steps).closes <= 1 <==> !Overlaps(Started(l), steps))
              && (Exec(Started(l), steps).strayCloses == 0 <==> !AnyTooLate(Started(l), steps))
  {
    assert Holders(Started(l)) == {} && Latecomers(Started(l)) == {};
    CopiesIff(Started(l), steps);
    var t := Exec(Started(l), steps);
    if t.closers == map[] {
      assert Holders(t) == {} && Latecomers(t) == {};
    }
  }

  // --- Two handlers -------------------------------------------------------------------------

  // Two forced closes whose shutdowns go to different rings: both handlers test the field.
  lemma BothTest(s: Sys)
    requires s.sock.open && s.shutdowns == [] && s.closers == map[]
    ensures Legal(s, [CloseBy(Force, 0), CloseBy(Force, 1), TestFd(0), TestFd(0)])
    ensures var t := Exec(s, [CloseBy(Force, 0), CloseBy(Force, 1), TestFd(0), TestFd(0)]);
      && t.closers == map[0 := Tested, 1 := Tested] && t.sock.open
      && t.closes == s.closes && t.strayCloses == s.strayCloses
  {
    var s1 := Apply(s, CloseBy(Force, 0));
    var s2 := Apply(s1, CloseBy(Force, 1));
    assert s2.shutdowns == [0, 1];
    var s3 := Apply(s2, TestFd(0));
    assert s3.shutdowns == [1] && s3.closers == map[0 := Tested];
    var s4 := Apply(s3, TestFd(0));
    assert s4.closers == map[0 := Tested, 1 := Tested];
    LegalFour(s, [CloseBy(Force, 0), CloseBy(Force, 1), TestFd(0), TestFd(0)], s1, s2, s3, s4);
  }

  // The second one copies before the first one zeroes ...
  lemma BothCopy(s: Sys)
    requires s.sock.open && s.closers == map[0 := Tested, 1 := Tested]
    ensures Legal(s, [CopyFd(0), CopyFd(1), ZeroFd(0), ZeroFd(1)])
    ensures var t := Exec(s, [CopyFd(0), CopyFd(1), ZeroFd(0), ZeroFd(1)]);
      t.closers == map[0 := Zeroed(true), 1 := Zeroed(true)] && t.closes == s.closes
  {
    var s1 := Apply(s, CopyFd(0));
    var s2 := Apply(s1, CopyFd(1));
    assert s2.closers == map[0 := Copied(true), 1 := Copied(true)];
    var s3 := Apply(s2, ZeroFd(0));
    var s4 := Apply(s3, ZeroFd(1));
    assert s4.closers == map[0 := Zeroed(true), 1 := Zeroed(true)];
    LegalFour(s, [CopyFd(0), CopyFd(1), ZeroFd(0), ZeroFd(1)], s1, s2, s3, s4);
  }

  // ... or after.
  lemma OneCopiesLate(s: Sys)
    requires s.sock.open && s.closers == map[0 := Tested, 1 := Tested]
    ensures Legal(s, [CopyFd(0), ZeroFd(0), CopyFd(1), ZeroFd(1)])
    ensures var t := Exec(s, [CopyFd(0), ZeroFd(0), CopyFd(1), ZeroFd(1)]);
      t.closers == map[0 := Zeroed(true), 1 := Zeroed(false)] && t.strayCloses == s.strayCloses
  {
    var s1 := Apply(s, CopyFd(0));
    var s2 := Apply(s1, ZeroFd(0));
    assert s2.closers == map[0 := Zeroed(true), 1 := Tested];
    var s3 := Apply(s2, CopyFd(1));
    var s4 := Apply(s3, ZeroFd(1));
    assert s4.closers == map[0 := Zeroed(true), 1 := Zeroed(false)];
    LegalFour(s, [CopyFd(0), ZeroFd(0), CopyFd(1), ZeroFd(1)], s1, s2, s3, s4);
  }

  lemma BothClose(s: Sys, second: bool)
    requires s.closers == map[0 := Zeroed(true), 1 := Zeroed(second)]
    ensures Legal(s, [CloseFd(0), CloseFd(1)])
    ensures var t := Exec(s, [CloseFd(0), CloseFd(1)]);
      && t.closes == s.closes + (if second then 2 else 1)
      && t.strayCloses == s.strayCloses + (if second then 0 else 1)
  {
    var s1 := Apply(s, CloseFd(0));
    assert s1.closers == map[1 := Zeroed(second)];
    var rest := [CloseFd(1)];
    assert [CloseFd(0), CloseFd(1)][1..] == rest && rest[1..] == [];
    assert Legal(s1, rest) && Exec(s1, rest) == Apply(s1, CloseFd(1));
  }

  // So the descriptor can be closed twice, and descriptor 0 can be closed.
  lemma ClosedTwice(l: Ledger) returns (twice: seq<Step>, stray: seq<Step>)
    ensures Legal(Started(l), twice) && Exec(Started(l), twice).closes == 2
    ensures Legal(Started(l), stray) && Exec(Started(l), stray).strayCloses == 1
  {
    var s := Started(l);
    var tests := [CloseBy(Force, 0), CloseBy(Force, 1), TestFd(0), TestFd(0)];
    BothTest(s);
    var t := Exec(s, tests);
    twice := CloseAfter(t, true);
    Join(s, tests, twice);
    stray := CloseAfter(t, false);
    Join(s, tests, stray);
    twice, stray := tests + twice, tests + stray;
  }

  lemma CloseAfter(t: Sys, second: bool) returns (steps: seq<Step>)
    requires t.sock.open && t.closers == map[0 := Tested, 1 := Tested]
    ensures Legal(t, steps)
    ensures second ==> Exec(t, steps).closes == t.closes + 2
    ensures !second ==> Exec(t, steps).strayCloses == t.strayCloses + 1
  {
    var copies := if second then [CopyFd(0), CopyFd(1), ZeroFd(0), ZeroFd(1)]
                  else [CopyFd(0), ZeroFd(0), CopyFd(1), ZeroFd(1)];
    if second { BothCopy(t); } else { OneCopiesLate(t); }
    BothClose(Exec(t, copies), second);
    Join(t, copies, [CloseFd(0), CloseFd(1)]);
    steps := copies + [CloseFd(0), CloseFd(1)];
  }

  // --- One ring -----------------------------------------------------------------------------

  // All shutdowns of the run go to one ring.
  predicate OnOneRing(steps: seq<Step>, ring: nat) {
    forall i | 0 <= i < |steps| ::
      (steps[i].CloseBy? || steps[i].Handle?) ==> steps[i].ring == ring
  }

  predicate OneRing(s: Sys, ring: nat) {
    && s.closers.Keys <= {ring}
    && (forall k | 0 <= k < |s.shutdowns| :: s.shutdowns[k] == ring)
    && (ring in s.closers && s.closers[ring] == Tested ==> s.sock.open)
  }

  lemma OneRingStep(s: Sys, step: Step, ring: nat)
    requires OneRing(s, ring) && Enabled(s, step)
    requires (step.CloseBy? || step.Handle?) ==> step.ring == ring
    ensures OneRing(Apply(s, step), ring) && !Overlap(s, step) && !TooLate(s, step)
  {
    if step.Append? || step.Handle? {
      LockedIs(s, step);
    }
  }

  // Then the descriptor is closed at most once, and nothing else is.
  lemma {:induction false} OneRingClosesOnce(s: Sys, steps: seq<Step>, ring: nat)
    requires OneRing(s, ring) && Legal(s, steps) && OnOneRing(steps, ring)
    ensures !Overlaps(s, steps) && !AnyTooLate(s, steps)
    decreases steps
  {
    if steps != [] {
      OneRingStep(s, steps[0], ring);
      assert forall i | 0 <= i < |steps[1..]| :: steps[1..][i] == steps[i + 1];
      OneRingClosesOnce(Apply(s, steps[0]), steps[1..], ring);
    }
  }
}

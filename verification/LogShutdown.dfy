/** When the writer thread can end (src/log.cpp:93-99, 178; include/log.h:172-190). */
module LogShutdown {
  import opened LogText
  import opened LogRing
  import opened LogProtocol
  import opened LogBaton
  import opened LogStream
  import opened LogSkips
  import opened LogPace
  import opened LogTickets
  import opened LogRuns
  import opened LogTheorems

  predicate NoAttach(steps: seq<Step>) {
    forall i | 0 <= i < |steps| :: !steps[i].Attach?
  }

  /** Some run without new transports ends the writer. */
  ghost predicate CanStop(s: State) {
    exists steps: seq<Step> :: NoAttach(steps) && Legal(s, steps) && Exec(s, steps).writer == Stopped
  }

  /** Nothing to write and nobody left to log, but the writer is above the loop that waits
      for work: the check whether it may stop comes after that loop. */
  ghost predicate Stuck(s: State) {
    s.writer == AtTop && s.d.action != Proceed && s.d.start == s.d.end && s.h.live == {}
  }

  /** Without transports no logger is active, so no node of theirs is left anywhere. */
  lemma NobodyLeft(s: State)
    requires Inv(s) && s.h.live == {}
    ensures forall t: Tid :: Th(s, t).pc == Idle
    ensures s.d.first == None && s.h.token == NoToken && HeldBy(s.writer) == None
  {
    hide FlowInv, TaleInv, SpotInv, BooksInv, PaceInv, TicketInv;
    forall t: Tid ensures Th(s, t).pc == Idle { assert T(LifeOf(s), t) == Th(s, t); }
    forall t: Tid ensures P(BatonOf(s), t).pc == Idle { assert P(BatonOf(s), t) == Th(s, t); }
    NoBaton(BatonOf(s));
  }

  lemma NoBaton(b: Baton)
    requires BatonInv(b) && forall t: Tid :: P(b, t).pc == Idle
    ensures b.first == None && b.token == NoToken && b.held == None
  {
    forall t: Tid ensures t !in b.queue { assert ThreadOk(b, t) && P(b, t).pc == Idle; }
    SomeMember(b.queue);
  }

  lemma NoTicketLeft(s: State)
    requires Inv(s) && s.d.start == s.d.end && !s.writer.Writing?
    ensures s.d.gFirst == None
  {
    hide BatonInv, TaleInv, SpotInv, BooksInv, LifeInv, TicketInv;
  }

  lemma StuckStep(s: State, step: Step)
    requires Inv(s) && Stuck(s) && Enabled(s, step) && !step.Attach?
    requires |s.h.dropped| == LEVELS && |s.h.lost| == LEVELS
    ensures Stuck(Do(s, step))
  {
    hide Inv, DoAdd, DoRetry, DoHandOn, DoWakeUp, DoSnapshot, DoEmit, DoAdvance, DoRelease, DoReadNext, DoSignal;
    NobodyLeft(s);
    NoTicketLeft(s);
  }

  /** Then the writer does not leave the loop again, whatever happens, unless a new
      transport is made. */
  lemma {:induction false} StuckForGood(s: State, steps: seq<Step>)
    requires Inv(s) && Stuck(s) && Legal(s, steps) && NoAttach(steps)
    ensures Exec(s, steps).writer == AtTop
    decreases |steps|
  {
    hide Inv, Enabled, Do;
    if steps != [] {
      assert !steps[0].Attach?;
      StuckStep(s, steps[0]);
      InvStep(s, steps[0]);
      StuckForGood(Do(s, steps[0]), steps[1..]);
    }
  }

  lemma StepThenStop(s: State, step: Step)
    requires Inv(s) && Enabled(s, step) && !step.Attach?
    requires |s.h.dropped| == LEVELS && |s.h.lost| == LEVELS && CanStop(Do(s, step))
    ensures CanStop(s)
  {
    hide Inv, Enabled, Do;
    var next := Do(s, step);
    var steps: seq<Step> :| NoAttach(steps) && Legal(next, steps) && Exec(next, steps).writer == Stopped;
    var all := [step] + steps;
    assert all[0] == step && all[1..] == steps;
    assert NoAttach(all) && Legal(s, all) && Exec(s, all).writer == Stopped;
  }

  /** The writer on its way down, alone. */
  ghost predicate Closing(s: State) {
    && Inv(s) && !s.overrun && s.d.action == TerminationAllowed && s.h.live == {}
    && !s.h.misused && !s.h.strayed && s.h.gq == []
  }

  lemma ClosingStep(s: State, step: Step) returns (n: State)
    requires Closing(s) && Enabled(s, step) && ByWriter(step) && !step.EnterTerminating?
    ensures |s.h.dropped| == LEVELS && |s.h.lost| == LEVELS
    ensures n == Do(s, step) && (!n.h.strayed ==> Closing(n))
    ensures CanStop(n) ==> CanStop(s)
  {
    hide Inv, CanStop, Slice;
    InvSizes(s);
    InvStep(s, step);
    n := Do(s, step);
    if CanStop(n) { StepThenStop(s, step); }
  }

  lemma StopsFromDeciding(s: State)
    requires Closing(s) && s.writer == Deciding && s.d.start == s.d.end
    ensures CanStop(s)
  {
    hide FlowInv, BatonInv, TaleInv, SpotInv, BooksInv, PaceInv, TicketInv;
    InvSizes(s);
    var n := Do(s, CheckTermination);
    assert n.writer == Stopped;
    assert NoAttach([]) && Legal(n, []) && Exec(n, []) == n;
    StepThenStop(s, CheckTermination);
  }

  /** The list of detached nodes comes to its end. */
  lemma {:induction false} StopsFromReleasing(s: State)
    requires Closing(s) && s.writer.Releasing? && s.writer.p == None && s.d.start == s.d.end
    ensures CanStop(s)
    decreases |s.h.gl|
  {
    hide Inv, CanStop, TicketInv;
    CursorAtHead(s);
    var a := ClosingStep(s, Release);
    ReadsNext(a);
    var b := ClosingStep(a, ReadNext);
    if b.writer.Releasing? { StopsFromReleasing(b); } else { StopsFromDeciding(b); }
  }

  lemma CursorAtHead(s: State)
    requires Closing(s) && s.writer.Releasing?
    ensures s.h.gl != [] && s.h.gl[0] == s.writer.next
  {
    hide FlowInv, BatonInv, TaleInv, SpotInv, BooksInv, PaceInv, LifeInv;
    TicketLists(TicketsOf(s));
  }

  lemma ReadsNext(s: State)
    requires Closing(s) && s.writer.Reading?
    ensures !DoReadNext(s).h.strayed
  {
    hide FlowInv, BatonInv, TaleInv, SpotInv, BooksInv, PaceInv, LifeInv, TicketInv;
    LinkRead(TicketsOf(s), s.writer.node);
  }

  lemma StopsFromWriting(s: State)
    requires Closing(s) && s.writer.Writing? && s.writer.p == None && s.writer.done == 0 && s.writer.to == s.d.end
    ensures CanStop(s)
  {
    hide Inv, CanStop, Slice;
    FreeToWrite(s);
    var a := ClosingStep(s, Emit(WrittenSize(|s.d.buff|, s.writer.from, s.writer.to)));
    var b := ClosingStep(a, Advance);
    if b.writer.Releasing? { StopsFromReleasing(b); } else { StopsFromDeciding(b); }
  }

  lemma FreeToWrite(s: State)
    requires Inv(s) && !s.overrun && s.writer.Writing? && s.writer.done == 0
    ensures Enabled(s, Emit(WrittenSize(|s.d.buff|, s.writer.from, s.writer.to)))
  {
    hide TaleInv, SpotInv, PaceInv, LifeInv, TicketsInv, BooksInv;
    ContextHolds(s);
  }

  /** Once termination is allowed and the last transport is gone, the writer can end if and
      only if there are bytes left to write. */
  lemma StopsExactly(s: State)
    requires Inv(s) && !s.overrun && !s.h.misused && !s.h.strayed
    requires s.writer == AtTop && s.d.action == TerminationAllowed && s.h.live == {}
    ensures CanStop(s) <==> s.d.start < s.d.end
  {
    hide Inv, CanStop;
    Bounds(s);
    if s.d.start < s.d.end {
      StopsFromTop(s);
    } else if CanStop(s) {
      CannotStop(s);
    }
  }

  lemma Bounds(s: State)
    requires Inv(s)
    ensures s.d.start <= s.d.end <= Capacity(s.d) && 0 < |s.d.buff| && |s.h.dropped| == LEVELS && |s.h.lost| == LEVELS
    ensures !s.h.misused && !s.h.strayed ==> (s.d.gFirst == None <==> s.h.gq == [])
  {
    hide TaleInv, SpotInv, PaceInv, LifeInv, BooksInv;
    ContextHolds(s);
    InvSizes(s);
  }

  lemma CannotStop(s: State)
    requires Inv(s) && Stuck(s)
    ensures !CanStop(s)
  {
    hide Inv, Stuck, Legal, Exec;
    forall steps: seq<Step> | NoAttach(steps) && Legal(s, steps) ensures Exec(s, steps).writer != Stopped {
      StuckForGood(s, steps);
    }
  }

  lemma StopsFromTop(s: State)
    requires Inv(s) && !s.overrun && !s.h.misused && !s.h.strayed && s.d.start < s.d.end
    requires s.writer == AtTop && s.d.action == TerminationAllowed && s.h.live == {}
    ensures CanStop(s)
  {
    hide Inv, CanStop, Slice;
    Bounds(s);
    NobodyLeft(s);
    InvStep(s, WriterWakes);
    var a := Do(s, WriterWakes);
    Bounds(a);
    InvStep(a, Snapshot);
    var b := Do(a, Snapshot);
    StopsFromWriting(b);
    StepThenStop(a, Snapshot);
    StepThenStop(s, WriterWakes);
  }
}

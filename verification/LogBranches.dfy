/** What each critical section decides, and on what: in every reachable state, in the terms
    of include/log.h:112-125 alone (src/log.cpp:94-127, 323-417). */
module LogBranches {
  import opened LogText
  import opened LogRing
  import opened LogProtocol
  import opened LogBaton
  import opened LogStream
  import opened LogSkips
  import opened LogPace
  import opened LogTickets
  import opened LogRuns

  /** There is room for a message, and for a report of 128 bytes if one is due. */
  predicate Room(d: Shared, msg: seq<char>) {
    d.end - d.start + |msg| + (if d.skipped.full == 0 then 0 else 128) <= |d.buff|
  }

  /** The records an insertion adds. */
  function Entered(c: Counters, t: Tid, msg: seq<char>): seq<Record> {
    (if c.full == 0 then [] else [Report(c.ctr)]) + [Message(t, msg)]
  }

  lemma RoomPasses(d: Shared, msg: seq<char>)
    ensures Passes(d, msg) <==> Room(d, msg)
  {
  }

  lemma BranchFacts(s: State)
    requires Reachable(s)
    ensures PaceContext(s) && PaceInv(s) && |s.h.dropped| == LEVELS && |s.h.lost| == LEVELS
    ensures s.d.gFirst == None <==> s.d.gLast == None
  {
    hide FlowInv, BatonInv, TaleInv, SpotInv, BooksInv, LifeInv, TicketsInv, Reachable;
    ReachableInv(s);
    InvSizes(s);
    ContextHolds(s);
  }

  /** A message is inserted at once if and only if nobody is queued and there is room, with
      the report that is due before it; a critical one, or any in the terminating phase,
      queues a guaranteed write, and the logger of a critical one waits for it. */
  lemma AddInsertsExactly(s: State, t: Tid, tr: Trid, msg: seq<char>, level: Level)
    requires Reachable(s) && Enabled(s, AddMsg(t, tr, msg, level))
    ensures |s.h.dropped| == LEVELS && |s.h.lost| == LEVELS
    ensures var n := DoAdd(s, t, tr, msg, level);
            && (n.d.end > s.d.end <==> s.d.last == None && Room(s.d, msg))
            && (s.d.last == None && Room(s.d, msg) ==>
                  && n.h.records == s.h.records + Entered(s.d.skipped, t, msg)
                  && n.d.skipped.full == 0 && n.h.queue == s.h.queue && n.h.dropped == s.h.dropped
                  && n.h.gq == s.h.gq + (if level <= s.d.critLevel || s.d.action == ProceedToTermination then [tr] else [])
                  && Th(n, t) == Thread(if level <= s.d.critLevel then AwaitingWrite(n.d.end) else Idle, tr, msg, level))
  {
    hide InsertMessage, Passes, DoAdd, ReportText, Room, PaceContext, PaceInv, Reachable;
    BranchFacts(s);
    RoomPasses(s.d, msg);
    if s.d.last == None && Passes(s.d, msg) {
      AddInserts(s, t, tr, msg, level);
    } else {
      AddQuiet(s, t, tr, msg, level);
    }
  }

  /** A message is dropped if and only if it is not inserted at once and its level may be
      skipped; it is queued if and only if it is not inserted at once and its level may not. */
  lemma AddRefusesExactly(s: State, t: Tid, tr: Trid, msg: seq<char>, level: Level)
    requires Reachable(s) && Enabled(s, AddMsg(t, tr, msg, level))
    ensures |s.h.dropped| == LEVELS && |s.h.lost| == LEVELS
    ensures var n := DoAdd(s, t, tr, msg, level);
            var refused := s.d.last.Some? || !Room(s.d, msg);
            && n.h.dropped == (if refused && level >= s.d.skipLevel then Bumped(s.h.dropped, level, 1) else s.h.dropped)
            && n.h.queue == (if refused && level < s.d.skipLevel then s.h.queue + [t] else s.h.queue)
            && (refused ==>
                  && n.h.records == s.h.records && n.h.gq == s.h.gq && n.d.buff == s.d.buff
                  && Th(n, t) == if level < s.d.skipLevel then Thread(AwaitingSpace, tr, msg, level) else Th(s, t))
  {
    hide InsertMessage, Passes, DoAdd, ReportText, Room, PaceContext, PaceInv, Reachable;
    BranchFacts(s);
    RoomPasses(s.d, msg);
    if s.d.last == None && Passes(s.d, msg) {
      AddInserts(s, t, tr, msg, level);
    } else {
      AddQuiet(s, t, tr, msg, level);
      DropsExactly(s, t, tr, msg, level);
    }
  }

  lemma DropsExactly(s: State, t: Tid, tr: Trid, msg: seq<char>, level: Level)
    requires Enabled(s, AddMsg(t, tr, msg, level)) && |s.h.dropped| == LEVELS && |s.h.lost| == LEVELS
    requires s.d.last.Some? || !Passes(s.d, msg)
    ensures DoAdd(s, t, tr, msg, level).h.dropped
            == if level >= s.d.skipLevel then Bumped(s.h.dropped, level, 1) else s.h.dropped
  {
    hide InsertMessage, Incremented, Passes, Bumped;
    PassesSame(s.d, s.d.nodes[t := FRESH_NODE], msg);
  }

  /** A woken logger parks again if and only if there is no room; otherwise it inserts, with
      the report of its own counters, and leaves the head of the queue, or it runs into the
      space assertion. */
  lemma RetryExactly(s: State, t: Tid)
    requires Reachable(s) && Enabled(s, Retry(t))
    ensures |s.h.lost| == LEVELS
    ensures var n, th, c := DoRetry(s, t), Th(s, t), NodeOf(s.d, t).ctrs;
            && (Th(n, t).pc == AwaitingSpace <==> !Room(s.d, th.msg))
            && (n.d.first == Some(t) <==> !Room(s.d, th.msg))
            && (n.d.end > s.d.end <==> Room(s.d, th.msg) && !n.overrun)
            && (n.d.end > s.d.end ==>
                  && n.h.records == s.h.records + Entered(c, t, th.msg)
                  && Th(n, t).pc == HandingOn && s.h.queue == [t] + n.h.queue
                  && n.h.gq == s.h.gq + if th.level <= s.d.critLevel || s.d.action == ProceedToTermination then [th.tr] else [])
  {
    hide InsertMessage, Passes, Fits, DoRetry, ReportText, Room, PaceInv, Plus, Reachable;
    BranchFacts(s);
    RoomPasses(s.d, Th(s, t).msg);
    RetriesAtHead(s, t);
    if !Passes(s.d, Th(s, t).msg) {
      RetryParks(s, t);
    } else if Fits(s.d, NodeOf(s.d, t).ctrs, Th(s, t).msg) {
      RetryInserts(s, t);
    } else {
      RetryStops(s, t);
    }
  }

  lemma RetriesAtHead(s: State, t: Tid)
    requires Reachable(s) && Th(s, t).pc == Retrying
    ensures s.h.queue != [] && s.h.queue == [t] + s.h.queue[1..] && s.d.first == None
  {
    hide FlowInv, TaleInv, SpotInv, BooksInv, PaceInv, LifeInv, TicketsInv, Reachable;
    ReachableInv(s);
    assert ThreadOk(BatonOf(s), t) && P(BatonOf(s), t) == Th(s, t);
  }

  /** The snapshot covers everything accepted so far, takes the whole queue of guaranteed
      writes, and the parked logger if and only if there is room for a message of any size. */
  lemma SnapshotExactly(s: State)
    requires Reachable(s) && Enabled(s, Snapshot)
    ensures var n := DoSnapshot(s);
            var taken := s.d.first.Some? && s.d.end - s.d.start + 0x1000 <= |s.d.buff|;
            && n.writer == Writing(s.d.start, s.d.end, 0, if taken then s.d.first else None, s.d.gFirst)
            && n.d == s.d.(first := if taken then None else s.d.first, gFirst := None, gLast := None)
  {
    hide PaceContext, PaceInv, Reachable;
    BranchFacts(s);
  }

  /** The writer waits for work if and only if everything is written and nobody is parked;
      a guaranteed write always means that something is not written. */
  lemma SleepsExactly(s: State)
    requires Reachable(s)
    ensures !s.writer.Writing? ==> (Sleeps(s.d) <==> s.d.start == s.d.end && s.d.first == None)
    ensures Enabled(s, WriterWakes) <==>
              s.writer == AtTop && !s.overrun && (s.d.start < s.d.end || s.d.first.Some?)
  {
    hide Reachable;
    BranchFacts(s);
  }
}

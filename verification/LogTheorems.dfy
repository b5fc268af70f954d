/** What every run of the logger guarantees, and where the code departs from what its
    comments and assertions promise. */
module LogTheorems {
  import opened LogText
  import opened LogRing
  import opened LogProtocol
  import opened LogBaton
  import opened LogStream
  import opened LogSkips
  import opened LogPace
  import opened LogTickets
  import opened LogRules
  import opened LogRuns

  // ---------------------------------------------------------------- the log

  /** In every reachable state start <= end <= start + B, and each unwritten offset k of
      the stream sits at position k mod B of the ring. */
  lemma RingRefinesStream(s: State)
    requires Reachable(s)
    ensures s.d.start <= s.d.end <= s.d.start + |s.d.buff| && |s.h.stream| == s.d.end
    ensures forall k | s.d.start <= k < s.d.end :: s.d.buff[k % |s.d.buff|] == s.h.stream[k]
    ensures s.h.stream == Render(s.h.records)
  {
    ReachableInv(s);
  }

  /** Outside a write, the log is the accepted stream up to `start`, nothing lost, doubled
      or interleaved, if and only if the writer never wrote an empty range. */
  lemma LogIsPrefix(s: State)
    requires Reachable(s) && !s.writer.Writing?
    ensures s.d.start <= |s.h.stream|
    ensures s.h.log == s.h.stream[..s.d.start] <==> forall w | w in s.h.writes :: w.from < w.to
  {
    ReachableInv(s);
    LogIsStreamPrefix(FlowOf(s));
  }

  /** Bytes the writer copies without the lock are the stream's, whatever is inserted
      meanwhile. */
  lemma UnlockedWriteExact(s: State, n: nat)
    requires Reachable(s) && Enabled(s, Emit(n)) && s.writer.from < s.writer.to
    ensures var at := s.writer.from + s.writer.done;
            at + n <= |s.h.stream| && DoEmit(s, n).h.log == s.h.log + s.h.stream[at..at + n]
  {
    hide BatonInv, TaleInv, SpotInv, BooksInv, PaceInv, LifeInv, TicketsInv, Reachable;
    ReachableInv(s);
    SliceExact(s.d.buff, s.h.stream, s.d.start, s.writer.from + s.writer.done, n);
  }

  /** When the writer has stopped, every accepted message has been written, in order, and
      nobody is left waiting. */
  lemma StoppedMeansComplete(s: State)
    requires Reachable(s) && s.writer == Stopped
    ensures s.h.good == s.h.stream == Render(s.h.records) && s.h.arrivals == Messages(s.h.records)
    ensures s.d.action == TerminationAllowed && s.h.live == {} && s.h.queue == []
    ensures forall t: Tid :: Th(s, t).pc == Idle
    ensures s.h.log == s.h.stream <==> forall w | w in s.h.writes :: w.from < w.to
  {
    ReachableInv(s);
    LogIsStreamPrefix(FlowOf(s));
    forall t: Tid ensures Th(s, t).pc == Idle && t !in s.h.queue {
      assert T(LifeOf(s), t) == Th(s, t);
      assert ThreadOk(BatonOf(s), t);
    }
    SomeMember(s.h.queue);
    assert s.h.arrivals == Messages(s.h.records);
  }

  lemma SomeMember(q: seq<Tid>)
    ensures q == [] || exists t: Tid :: t in q
  {
    if q != [] {
      assert q[0] in q;
    }
  }

  // ---------------------------------------------------------------- order

  /** Accepted messages enter the stream in the order in which they were accepted; those
      not yet in it are exactly the queued ones, in queue order. */
  lemma NothingOvertakes(s: State)
    requires Reachable(s)
    ensures s.h.arrivals == Messages(s.h.records) + Pending(s.threads, s.h.queue)
  {
    ReachableInv(s);
  }

  /** While loggers are queued, only the one at the head can insert. */
  lemma OnlyHeadInserts(s: State, step: Step)
    requires Reachable(s) && Enabled(s, step) && s.h.queue != []
    requires |s.h.dropped| == LEVELS && |s.h.lost| == LEVELS
    ensures Do(s, step).d.end != s.d.end ==> step == Retry(s.h.queue[0])
  {
    hide InsertMessage, DoAdd, DoRetry, Passes, FlowInv, TaleInv, SpotInv, BooksInv, PaceInv, LifeInv, TicketsInv, BatonInv;
    ReachableInv(s);
    QueuedMeansLast(BatonOf(s));
    match step
    case AddMsg(t, tr, msg, level) => AddQuiet(s, t, tr, msg, level);
    case Retry(t) => BatonPark(BatonOf(s), t);
    case _ =>
  }

  lemma QueuedMeansLast(b: Baton)
    requires BatonInv(b)
    ensures b.last.Some? <==> b.queue != []
  {
  }

  /** nextToAdd is set exactly when there is a baton; there is never more than one. */
  lemma BatonUnique(s: State)
    requires Reachable(s)
    ensures s.d.last.Some? <==> exists h :: LogBaton.Holds(BatonOf(s), h)
    ensures forall g, h | LogBaton.Holds(BatonOf(s), g) && LogBaton.Holds(BatonOf(s), h) :: g == h
  {
    ReachableInv(s);
    OneBaton(BatonOf(s));
  }

  // ---------------------------------------------------------------- space and waiting

  /** The space assertions of a retry fail exactly when the shared counters are empty, the
      logger's own are not, and its report no longer fits: the check looks at the wrong
      counters. This never hits a logger that the writer itself woke. */
  lemma OverrunExactly(s: State, t: Tid)
    requires Reachable(s) && Enabled(s, Retry(t)) && |s.h.lost| == LEVELS
    ensures var th, c := Th(s, t), NodeOf(s.d, t).ctrs;
            && (DoRetry(s, t).overrun <==>
                  && s.d.skipped.full == 0 && c.full != 0
                  && s.d.end + |th.msg| <= Capacity(s.d) < s.d.end + |ReportText(c)| + |th.msg|)
            && (s.h.token == Running(true) ==> !DoRetry(s, t).overrun && Passes(s.d, th.msg))
  {
    hide InsertMessage, DoRetry, FlowInv, TaleInv, BooksInv, PaceInv, BatonInv, LifeInv, TicketsInv, SpotInv, ReportText;
    ReachableInv(s);
    ContextHolds(s);
    var th, c := Th(s, t), NodeOf(s.d, t).ctrs;
    ReportFits(c);
    if s.h.token == Running(true) {
      WriterWokenFits(s, t);
    }
    if !Passes(s.d, th.msg) {
      RetryParks(s, t);
    } else if Fits(s.d, c, th.msg) {
      RetryInserts(s, t);
    } else {
      RetryStops(s, t);
    }
  }

  /** While a logger is parked the writer does not sleep, and it detaches the logger at
      the second snapshot at the latest. */
  lemma ParkedIsServed(s: State)
    requires Reachable(s) && s.d.first.Some?
    ensures !Sleeps(s.d) && s.h.snaps <= 1
    ensures s.writer == Snapshotting && s.h.snaps == 1 ==> TakesWaiter(s.d)
  {
    ReachableInv(s);
    ContextHolds(s);
    DetachedBySecondSnapshot(s);
  }

  ghost predicate StaysParked(s: State, steps: seq<Step>, t: Tid)
    requires Legal(s, steps)
    decreases |steps|
  {
    s.d.first == Some(t) && (steps == [] || StaysParked(Do(s, steps[0]), steps[1..], t))
  }

  function Snapshots(steps: seq<Step>): nat {
    if steps == [] then 0 else (if steps[0] == Snapshot then 1 else 0) + Snapshots(steps[1..])
  }

  /** The same for runs: no logger stays parked across two snapshots. */
  lemma {:induction false} ParkedAcrossOneSnapshot(s: State, steps: seq<Step>, t: Tid)
    requires Inv(s) && Legal(s, steps) && StaysParked(s, steps, t)
    ensures s.h.snaps + Snapshots(steps) <= 1
    decreases |steps|
  {
    hide FlowInv, BatonInv, TaleInv, SpotInv, BooksInv, PaceInv, LifeInv, TicketsInv, InsertMessage, DoAdd, DoRetry;
    ContextHolds(s);
    DetachedBySecondSnapshot(s);
    if steps != [] {
      var next := Do(s, steps[0]);
      InvStep(s, steps[0]);
      ParkedAcrossOneSnapshot(next, steps[1..], t);
      ParkedSnaps(s, steps[0]);
    }
  }

  lemma ParkedSnaps(s: State, step: Step)
    requires Inv(s) && Enabled(s, step) && |s.h.dropped| == LEVELS && |s.h.lost| == LEVELS && s.d.first.Some?
    ensures Do(s, step).h.snaps == s.h.snaps + if step == Snapshot then 1 else 0
  {
    hide FlowInv, BatonInv, TaleInv, SpotInv, BooksInv, PaceInv, LifeInv, TicketsInv, InsertMessage, DoAdd, DoRetry, Passes;
    ContextHolds(s);
    match step
    case AddMsg(t, tr, msg, level) => AddQuiet(s, t, tr, msg, level); PaceQueued(s, t, tr, msg, level);
    case _ =>
  }

  /** The ring is dumped only by a write of nothing, and that only happens on behalf of a
      parked logger. */
  lemma DumpOnlyForWaiter(s: State)
    requires Reachable(s) && Enabled(s, Snapshot)
    ensures DoSnapshot(s).writer.from == DoSnapshot(s).writer.to ==>
              s.d.first.Some? && DoSnapshot(s).writer.p == s.d.first
  {
    ReachableInv(s);
    ContextHolds(s);
    EmptyWriteOnlyForWaiter(s);
  }

  // ---------------------------------------------------------------- guaranteed writes

  /** As long as no node was queued or destroyed while in use and the writer has read the
      right links, a logger with a critical message returns only once the message has been
      handed to fwrite. */
  lemma GuaranteedWrite(s: State, t: Tid)
    requires Reachable(s) && !s.h.misused && !s.h.strayed && Enabled(s, WriteConfirmed(t))
    ensures var msg, ticket := Th(s, t).msg, Th(s, t).pc.ticket;
            && ticket <= s.d.start <= |s.h.good| && |msg| <= ticket
            && s.h.good[ticket - |msg|..ticket] == msg
  {
    hide FlowInv, BatonInv, TaleInv, SpotInv, BooksInv, PaceInv, LifeInv, TicketInv;
    ReachableInv(s);
    var msg, ticket := Th(s, t).msg, Th(s, t).pc.ticket;
    assert H(TicketsOf(s), t) == Th(s, t) == R(TaleOf(s), t);
    TicketRedeemed(TicketsOf(s), t);
    SpotAt(TaleOf(s), t);
    GoodPrefix(FlowOf(s), ticket - |msg|, ticket);
  }

  /** The writer reads a wrong link if and only if the node it has just released is in the
      queue again, unless it is last there and the writer's own list is at its end. */
  lemma StraysExactly(s: State)
    requires Reachable(s) && !s.h.misused && !s.h.strayed && Enabled(s, ReadNext)
    ensures DoReadNext(s).h.strayed <==>
              s.writer.node in s.h.gq && (s.h.gl != [] || Last(s.h.gq) != Some(s.writer.node))
  {
    hide FlowInv, BatonInv, TaleInv, SpotInv, BooksInv, PaceInv, LifeInv, TicketInv;
    ReachableInv(s);
    LinkRead(TicketsOf(s), s.writer.node);
  }

  /** And then the promise is broken: the node behind it in the queue is released next, and
      the logger waiting on that, if there is one, can return with its message unwritten. */
  lemma StrayReturnsEarly(s: State, i: nat)
    requires Reachable(s) && !s.h.misused && !s.h.strayed && Enabled(s, ReadNext)
    requires i + 1 < |s.h.gq| && s.h.gq[i] == s.writer.node
    ensures var c, n := s.h.gq[i + 1], DoReadNext(s);
            && n.writer == Releasing(c, s.writer.p) && c in s.h.issued
            && (s.h.issued[c].waits ==>
                  var t, early := s.h.issued[c].holder, DoRelease(n);
                  Enabled(early, WriteConfirmed(t)) && Th(early, t).pc.ticket > early.d.start)
  {
    hide FlowInv, BatonInv, TaleInv, SpotInv, BooksInv, PaceInv, LifeInv;
    ReachableInv(s);
    var k, c := TicketsOf(s), s.h.gq[i + 1];
    assert Link(k, k.gq, i);
    assert c in k.gq && NodeOk(k, c);
    if s.h.issued[c].waits { assert H(k, s.h.issued[c].holder) == Th(s, s.h.issued[c].holder); }
  }

  /** The rest of the writer's own list is lost: it goes on in the queue or leaves the loop,
      and the nodes it has left behind are released by nobody, though a logger waits on each
      of them, if ever one was to. */
  lemma StrayLosesRest(s: State, tr: Trid)
    requires Reachable(s) && !s.h.misused && !s.h.strayed && Enabled(s, ReadNext)
    requires s.writer.node in s.h.gq && tr in s.h.gl
    ensures var n := DoReadNext(s);
            && (n.writer == AfterRelease(s.writer.p) || (n.writer.Releasing? && n.writer.next in s.h.gq))
            && tr !in s.h.gq && !GwwOf(n.d, tr).canRun && tr in s.h.issued
            && (s.h.issued[tr].waits ==>
                  var t := s.h.issued[tr].holder;
                  Th(n, t).pc.AwaitingWrite? && Th(n, t).tr == tr && !Enabled(n, WriteConfirmed(t)))
  {
    hide FlowInv, BatonInv, TaleInv, SpotInv, BooksInv, PaceInv, LifeInv;
    ReachableInv(s);
    var k := TicketsOf(s);
    assert NodeOk(k, tr);
    var i: nat :| i < |k.gq| && k.gq[i] == s.writer.node;
    assert Link(k, k.gq, i);
    if s.h.issued[tr].waits { assert H(k, s.h.issued[tr].holder) == Th(s, s.h.issued[tr].holder); }
  }

  lemma SpotAt(tale: Tale, u: Tid)
    requires SpotInv(tale)
    ensures Spot(tale, u)
  {
  }

  lemma GoodPrefix(f: Flow, from: nat, to: nat)
    requires FlowInv(f) && from <= to <= f.start
    ensures f.start <= |f.good| <= |f.stream| && f.good[from..to] == f.stream[from..to]
  {
  }

  ghost predicate OrderlyRun(s: State, steps: seq<Step>, rule: Rule)
    requires Legal(s, steps)
    decreases |steps|
  {
    steps == [] || (Orderly(s, steps[0], rule) && OrderlyRun(Do(s, steps[0]), steps[1..], rule))
  }

  /** Under either rule no node is misused and no wrong link read, over whole runs. */
  lemma {:induction false} OrderlyRunsAreSafe(s: State, steps: seq<Step>, rule: Rule)
    requires Inv(s) && OrderlyState(s, rule) && Legal(s, steps) && OrderlyRun(s, steps, rule)
    ensures !Exec(s, steps).h.misused && !Exec(s, steps).h.strayed
    decreases |steps|
  {
    hide Inv, Enabled, Do, OrderlyState, Orderly, PaceContext;
    NotMisused(s, rule);
    if steps != [] {
      InvStep(s, steps[0]);
      InvContext(s);
      OrderlyStep(s, steps[0], rule);
      OrderlyRunsAreSafe(Do(s, steps[0]), steps[1..], rule);
    }
  }

  /** From the start of the program: under these rules every critical message is in the
      log before its logger returns. */
  lemma OrderlyCallersAreSafe(s0: State, steps: seq<Step>, rule: Rule, t: Tid)
    requires Initial(s0) && Legal(s0, steps) && OrderlyRun(s0, steps, rule)
    requires Enabled(Exec(s0, steps), WriteConfirmed(t))
    ensures var s := Exec(s0, steps);
            var msg, ticket := Th(s, t).msg, Th(s, t).pc.ticket;
            ticket <= s.d.start <= |s.h.good| && |msg| <= ticket && s.h.good[ticket - |msg|..ticket] == msg
  {
    hide Inv, OrderlyState, Initial, Do;
    InitialInv(s0);
    OrderlyRunsAreSafe(s0, steps, rule);
    assert Reachable(Exec(s0, steps));
    GuaranteedWrite(Exec(s0, steps), t);
  }

  lemma NotMisused(s: State, rule: Rule)
    requires OrderlyState(s, rule)
    ensures !s.h.misused && !s.h.strayed
  {
  }

  lemma InvContext(s: State)
    requires Inv(s)
    ensures PaceContext(s)
  {
    ContextHolds(s);
  }

  // ---------------------------------------------------------------- skipped messages

  /** Per level: dropped = reported in the stream + shared counters + queued counters, for
      runs with fewer than 2^32 drops; and what must not be dropped never is. */
  lemma SkipsAccounted(s: State, l: Level)
    requires Reachable(s)
    ensures |s.h.dropped| == LEVELS && |s.d.skipped.ctr| == LEVELS
    ensures l < s.d.skipLevel ==> s.h.dropped[l] == 0
    ensures Total(s.h.dropped) < 0x1_0000_0000 ==>
              s.h.dropped[l] == Reported(s.h.records, l) + s.d.skipped.ctr[l] + QueueSum(s.d.nodes, s.h.queue, l)
  {
    ReachableInv(s);
    SkipConservation(BooksOf(s), l);
  }

  // ---------------------------------------------------------------- the code's own assertions

  /** The conditions asserted at each step, with their source lines; 148 for as long as no
      node was misused and no wrong link read. Those that can fail, 134, 273 on the retry
      path, 301 and 334, have lemmas of their own. */
  ghost predicate Asserted(s: State, step: Step)
    requires Enabled(s, step)
  {
    match step
    case AddMsg(t, tr, msg, level) =>
      && (s.d.last == None ==> s.d.first == None)                                 // 362, 363
      && (s.d.last == None && Passes(s.d, msg) ==> Fits(s.d, s.d.skipped, msg))   // 273
      && (s.d.gFirst == None <==> s.d.gLast == None)                              // 305, 311
    case Retry(t) =>
      && s.d.first == None && s.d.last.Some?                                      // 398, 400
      && (s.d.last == Some(t) <==> NodeOf(s.d, t).next == None)                   // 410, 415
      && (s.d.gFirst == None <==> s.d.gLast == None)                              // 305, 311
    case HandOn(t) =>
      NodeOf(s.d, t).next.Some? ==> !NodeOf(s.d, NodeOf(s.d, t).next.value).canRun // 423
    case Snapshot =>
      s.d.gFirst.Some? ==> s.d.start < s.d.mbwi <= s.d.end                        // 117, 135, 136
    case Release =>
      !s.h.misused && !s.h.strayed ==> !GwwOf(s.d, s.writer.next).canRun          // 148
    case Signal =>
      !NodeOf(s.d, s.writer.waiter).canRun                                        // 170
    case _ => true
  }

  lemma RetryAsserted(b: Baton, t: Tid)
    requires BatonInv(b) && P(b, t).pc == Retrying
    ensures b.first == None && b.last.Some? && (b.last == Some(t) <==> N(b, t).next == None)
  {
    assert ThreadOk(b, t) && LinkOk(b, 0);
  }

  lemma AssertionsHold(s: State, step: Step)
    requires Reachable(s) && Enabled(s, step)
    ensures Asserted(s, step)
  {
    hide FlowInv, BatonInv, TaleInv, SpotInv, BooksInv, LifeInv, TicketInv, Passes, Fits;
    ReachableInv(s);
    ContextHolds(s);
    var b := BatonOf(s);
    match step
    case AddMsg(t, tr, msg, level) =>
      QueuedMeansLast(b);
      if Passes(s.d, msg) { PassesFits(s.d, msg); }
    case Retry(t) => RetryAsserted(b, t);
    case HandOn(t) => BatonPass(b, t);
    case Release => if !s.h.misused && !s.h.strayed { TicketReleased(TicketsOf(s), s.writer.next); }
    case Signal => BatonSignal(b);
    case _ =>
  }

  /** The assertion at 334, that a queue implies a parked logger, holds exactly while the
      baton is parked. */
  lemma Assertion334(s: State)
    requires Reachable(s) && s.d.last.Some?
    ensures s.d.first.Some? <==> forall h | LogBaton.Holds(BatonOf(s), h) :: h == InFirstToRelease
  {
    ReachableInv(s);
    ParkedWaiterAssertion(BatonOf(s));
  }

  /** The assertion at 134, that a writer with guaranteed writes to confirm takes no parked
      logger, fails exactly when there are both and room for a message of any size; the
      ring then holds unwritten bytes. */
  lemma Assertion134(s: State)
    requires Reachable(s) && Enabled(s, Snapshot)
    ensures var w := DoSnapshot(s).writer;
            (w.g.Some? && w.p.Some? <==>
               s.d.gFirst.Some? && s.d.first.Some? && s.d.end - s.d.start + MAX_MESSAGE <= |s.d.buff|)
            && (w.g.Some? && w.p.Some? ==> s.d.start < s.d.end && s.h.snaps == 0)
  {
    hide FlowInv, BatonInv, TaleInv, SpotInv, BooksInv, LifeInv, TicketInv;
    ReachableInv(s);
    ContextHolds(s);
  }

  /** The assertion at 301, that a node about to be queued is not still released, fails
      exactly when the writer has released it and either nobody waited for that, as after
      a retry, or its logger has not looked yet. */
  lemma Assertion301(s: State, tr: Trid)
    requires Reachable(s) && !s.h.misused && !s.h.strayed
    ensures GwwOf(s.d, tr).canRun <==>
              && tr in s.h.issued && tr !in s.h.gq && tr !in s.h.gl
              && (s.h.issued[tr].waits ==>
                    var ticket := s.h.issued[tr];
                    Th(s, ticket.holder).pc == AwaitingWrite(ticket.end) && Th(s, ticket.holder).tr == tr)
  {
    hide FlowInv, BatonInv, TaleInv, SpotInv, BooksInv, PaceInv, LifeInv, TicketInv;
    ReachableInv(s);
    var k := TicketsOf(s);
    StillReleased(k, tr);
    if tr in s.h.issued { assert H(k, s.h.issued[tr].holder) == Th(s, s.h.issued[tr].holder); }
  }

  // ---------------------------------------------------------------- no step is blocked by the model

  /** The bookkeeping conditions in Enabled are never what stops a step: in a reachable
      state a step is enabled whenever its thread has got to it. */
  lemma LoggersAreFree(s: State, t: Tid, tr: Trid, msg: seq<char>, l: Level)
    requires Reachable(s) && !s.overrun
    ensures Enabled(s, AddMsg(t, tr, msg, l)) <==> Th(s, t).pc == Idle && tr in s.h.live && 1 <= |msg| < 4096
    ensures Enabled(s, Retry(t)) <==> Th(s, t).pc == Retrying
  {
    hide TaleInv, SpotInv, PaceInv, LifeInv, TicketsInv, FlowInv;
    ReachableInv(s);
    ContextHolds(s);
    var b := BatonOf(s);
    assert ThreadOk(b, t) && P(b, t) == Th(s, t);
    if s.h.queue != [] {
      assert s.h.queue[|s.h.queue| - 1] in s.h.queue;
    }
  }

  lemma WriterIsFree(s: State)
    requires Reachable(s) && !s.overrun
    ensures Enabled(s, Snapshot) <==> s.writer == Snapshotting
    ensures s.writer.Writing? ==>
              var left := WrittenSize(|s.d.buff|, s.writer.from, s.writer.to) - s.writer.done;
              left >= 0 && Enabled(s, Emit(left)) && (left == 0 <==> Enabled(s, Advance))
  {
    hide TaleInv, SpotInv, PaceInv, LifeInv, TicketsInv, BooksInv;
    ReachableInv(s);
    ContextHolds(s);
  }

  // ---------------------------------------------------------------- no lost wake-up

  /** When the writer sleeps, everything accepted is written, and nobody depends on it:
      if loggers are queued, one of them carries the baton and can move; and, no node
      misused and no wrong link read, every logger that waits for its write can return. */
  lemma SleepIsSafe(s: State, t: Tid)
    requires Reachable(s) && !s.overrun && s.writer == AtTop && Sleeps(s.d)
    ensures s.d.start == s.d.end && s.h.good == s.h.stream
    ensures s.h.queue != [] ==>
              || Enabled(s, WakeUp(s.h.queue[0]))
              || Enabled(s, Retry(s.h.queue[0]))
              || exists u: Tid :: Enabled(s, HandOn(u)) && NodeOf(s.d, u).next == Some(s.h.queue[0])
    ensures !s.h.misused && !s.h.strayed && Th(s, t).pc.AwaitingWrite? ==> Enabled(s, WriteConfirmed(t))
  {
    hide FlowInv, BatonInv, TaleInv, SpotInv, BooksInv, PaceInv, LifeInv, TicketInv;
    ReachableInv(s);
    LogIsStreamPrefix(FlowOf(s));
    assert s.h.stream[..s.d.start] == s.h.stream by { InvSizes(s); }
    if s.h.queue != [] {
      var u := BatonMoves(BatonOf(s));
      LoggersAreFree(s, s.h.queue[0], 0, "", 0);
      assert P(BatonOf(s), u) == Th(s, u) && N(BatonOf(s), u) == NodeOf(s.d, u);
      assert Th(s, u).pc == HandingOn ==> Enabled(s, HandOn(u));
    }
    if !s.h.misused && !s.h.strayed {
      TicketReady(TicketsOf(s), t);
      assert H(TicketsOf(s), t) == Th(s, t);
    }
  }

  lemma BatonMoves(b: Baton) returns (u: Tid)
    requires BatonInv(b) && b.queue != [] && b.first == None && b.held == None
    ensures (P(b, b.queue[0]).pc == AwaitingSpace && N(b, b.queue[0]).canRun)
         || P(b, b.queue[0]).pc == Retrying
         || (P(b, u).pc == HandingOn && N(b, u).next == Some(b.queue[0]))
  {
    u := b.queue[0];
    if b.token.Passing? {
      u := b.token.sender;
      assert ThreadOk(b, b.token.sender);
    }
  }

  lemma TicketReady(k: Tickets, t: Tid)
    requires TicketInv(k) && k.gFirst == None && k.next == None && k.reading == None
    ensures H(k, t).pc.AwaitingWrite? ==> G(k, H(k, t).tr).canRun
  {
    assert HolderOk(k, t);
  }
}

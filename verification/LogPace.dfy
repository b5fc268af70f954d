/** How soon the writer serves a blocked logger, and why the logger then fits
    (src/log.cpp:94-97, 110-127, 158-175, 392-406); when the writer stops. */
module LogPace {
  import opened LogText
  import opened LogRing
  import opened LogProtocol
  import opened LogBaton
  import opened LogStream

  /** How far `start` will be once the write under way, if any, is over. */
  function Frontier(s: State): nat {
    if s.writer.Writing? then s.writer.to else s.d.start
  }

  ghost predicate PaceInv(s: State) {
    && (s.d.gFirst == None <==> s.d.gLast == None)
    && (s.d.gFirst.Some? ==> s.d.mbwi > Frontier(s))
    && (s.writer == Snapshotting ==> s.d.end > s.d.start || s.d.first.Some?)
    && (s.h.token == Parked ==> s.h.snaps <= 1 && (s.h.snaps == 1 ==> Frontier(s) == s.d.end))
    && (s.h.token == AtWriter ==> Frontier(s) == s.d.end)
    && (s.h.token == Woken(true) || s.h.token == Running(true) ==> s.d.start == s.d.end)
  }

  /** What the other invariants contribute. */
  ghost predicate PaceContext(s: State) {
    && RingSize(|s.d.buff|) && s.d.start <= s.d.end <= Capacity(s.d) && s.d.mbwi <= s.d.end
    && (s.writer.Writing? ==> s.writer.from == s.d.start && s.writer.from <= s.writer.to <= s.d.end)
    && (s.d.first.Some? <==> s.h.token == Parked)
    && (HeldBy(s.writer).Some? <==> s.h.token == AtWriter)
    && (s.d.last == None <==> s.h.token == NoToken)
    && (forall t: Tid | NodeOf(s.d, t).canRun :: s.h.token.Woken?)
    && (forall t: Tid | Th(s, t).pc == Retrying ::
          && s.h.token.Running? && MessageOk(Th(s, t).msg))
  }

  lemma ContextHolds(s: State)
    requires FlowInv(FlowOf(s)) && BatonInv(BatonOf(s))
    ensures PaceContext(s)
  {
    var b := BatonOf(s);
    forall t: Tid | NodeOf(s.d, t).canRun ensures s.h.token.Woken? {
      assert ThreadOk(b, t);
    }
    forall t: Tid | Th(s, t).pc == Retrying ensures s.h.token.Running? && MessageOk(Th(s, t).msg) {
      assert ThreadOk(b, t);
    }
  }

  lemma EnqueueMoves(d: Shared, tr: Trid, c: Counters, msg: seq<char>, level: Level)
    requires d.start <= d.end && 0 < |d.buff| && |c.ctr| == LEVELS && Fits(d, c, msg)
    ensures var r := InsertMessage(d, tr, c, msg, level);
            if WantsWrite(d, level)
            then && r.mbwi == r.end && r.gLast == Some(tr)
                 && r.gFirst == (if d.gLast == None then Some(tr) else d.gFirst)
            else r.mbwi == d.mbwi && r.gFirst == d.gFirst && r.gLast == d.gLast
  {
    hide Put, ReportText;
  }

  lemma PaceAdd(s: State, t: Tid, tr: Trid, msg: seq<char>, level: Level)
    requires Enabled(s, AddMsg(t, tr, msg, level)) && |s.h.dropped| == LEVELS && |s.h.lost| == LEVELS
    requires PaceInv(s) && PaceContext(s)
    ensures PaceInv(DoAdd(s, t, tr, msg, level))
  {
    hide InsertMessage, Passes, DoAdd, ReportOf;
    if s.d.last == None && Passes(s.d, msg) {
      AddInserts(s, t, tr, msg, level);
      EnqueueMoves(s.d, tr, s.d.skipped, msg, level);
    } else {
      AddQuiet(s, t, tr, msg, level);
      PaceQueued(s, t, tr, msg, level);
    }
  }

  lemma PaceQueued(s: State, t: Tid, tr: Trid, msg: seq<char>, level: Level)
    requires Enabled(s, AddMsg(t, tr, msg, level)) && |s.h.dropped| == LEVELS && |s.h.lost| == LEVELS
    requires s.d.last.Some? || !Passes(s.d, msg)
    ensures var a := DoAdd(s, t, tr, msg, level);
            if s.d.last == None && level < s.d.skipLevel then a.h.token == Parked && a.h.snaps == 0
            else a.h.token == s.h.token && a.h.snaps == s.h.snaps && a.d.first == s.d.first
  {
    hide InsertMessage, Passes, Incremented;
    PassesSame(s.d, s.d.nodes[t := FRESH_NODE], msg);
  }

  /** A logger that the writer woke finds an empty ring: its message fits, together with
      the report of what was dropped meanwhile. */
  lemma WriterWokenFits(s: State, t: Tid)
    requires PaceInv(s) && PaceContext(s) && |NodeOf(s.d, t).ctrs.ctr| == LEVELS
    requires Th(s, t).pc == Retrying && s.h.token.byWriter
    ensures Passes(s.d, Th(s, t).msg) && Fits(s.d, NodeOf(s.d, t).ctrs, Th(s, t).msg)
  {
    ReportFits(NodeOf(s.d, t).ctrs);
  }

  lemma PaceRetry(s: State, t: Tid)
    requires Enabled(s, Retry(t)) && |s.h.lost| == LEVELS && PaceInv(s) && PaceContext(s)
    ensures PaceInv(DoRetry(s, t))
  {
    hide InsertMessage, Passes, Fits, DoRetry, ReportOf, Plus;
    var th, c := Th(s, t), NodeOf(s.d, t).ctrs;
    if !Passes(s.d, th.msg) {
      RetryParks(s, t);
    } else if Fits(s.d, c, th.msg) {
      RetryInserts(s, t);
      EnqueueMoves(s.d, th.tr, c, th.msg, th.level);
    } else {
      RetryStops(s, t);
    }
  }

  predicate ByWriter(step: Step) {
    step.WriterWakes? || step.Snapshot? || step.Emit? || step.Advance? || step.Release? || step.ReadNext? || step.Signal?
    || step.EnterTerminating? || step.AllowTermination?
  }

  lemma PaceWriter(s: State, step: Step)
    requires Enabled(s, step) && ByWriter(step) && |s.h.dropped| == LEVELS && |s.h.lost| == LEVELS
    requires PaceInv(s) && PaceContext(s)
    ensures PaceInv(Do(s, step))
  {
    hide DoAdd, DoRetry, DoHandOn, DoWakeUp, Slice, NodeOf, GwwOf;
  }

  lemma PaceStep(s: State, step: Step)
    requires Enabled(s, step) && |s.h.dropped| == LEVELS && |s.h.lost| == LEVELS
    requires PaceInv(s) && PaceContext(s)
    ensures PaceInv(Do(s, step))
  {
    hide DoAdd, DoRetry, DoSnapshot, DoEmit, DoAdvance, DoRelease, DoSignal;
    match step
    case AddMsg(t, tr, msg, level) => PaceAdd(s, t, tr, msg, level);
    case Retry(t) => PaceRetry(s, t);
    case Attach(_) =>
    case Detach(_) =>
    case WriteConfirmed(_) =>
    case WakeUp(_) =>
    case HandOn(_) =>
    case CheckTermination =>
    case _ => PaceWriter(s, step);
  }

  /** The second snapshot taken after a logger was parked detaches it, at the latest; and
      the writer never goes to sleep while one is parked. */
  lemma DetachedBySecondSnapshot(s: State)
    requires PaceInv(s) && PaceContext(s) && s.d.first.Some?
    ensures !Sleeps(s.d) && s.h.snaps <= 1
    ensures s.writer == Snapshotting && s.h.snaps == 1 ==> TakesWaiter(s.d)
  {
  }

  /** The writer copies out an empty range, and so dumps the ring, only on behalf of a
      parked logger that this very snapshot detaches. */
  lemma EmptyWriteOnlyForWaiter(s: State)
    requires PaceInv(s) && PaceContext(s) && Enabled(s, Snapshot)
    ensures var a := DoSnapshot(s);
            a.writer.from == a.writer.to ==> a.writer.p.Some? && s.d.first == a.writer.p
  {
  }

  // ---------------------------------------------------------------- life of the machine

  /** Reference counts, and what is left when the writer has stopped. */
  datatype Life = Life(threads: map<Tid, Thread>, live: set<Trid>, refCounter: nat, stopped: bool, drained: bool)

  function LifeOf(s: State): Life {
    Life(s.threads, s.h.live, s.d.refCounter, s.writer == Stopped,
         s.d.start == s.d.end && s.d.action == TerminationAllowed)
  }

  function T(l: Life, t: Tid): Thread { if t in l.threads then l.threads[t] else NO_THREAD }

  ghost predicate LifeInv(l: Life) {
    && (!l.stopped ==> l.refCounter == |l.live| + 1)
    && (forall t: Tid :: T(l, t).pc == Idle || T(l, t).tr in l.live)
    && (l.stopped ==> l.drained && l.live == {})
  }

  lemma LifeThread(l: Life, t: Tid, th: Thread)
    requires LifeInv(l) && (th.pc == Idle || th.tr in l.live)
    ensures LifeInv(l.(threads := l.threads[t := th]))
  {
    var a := l.(threads := l.threads[t := th]);
    forall u: Tid ensures T(a, u).pc == Idle || T(a, u).tr in a.live {
      assert u == t || T(l, u) == T(a, u);
    }
  }

  lemma LifeDetach(s: State, tr: Trid)
    requires LifeInv(LifeOf(s)) && Enabled(s, Detach(tr))
    ensures LifeInv(LifeOf(s).(refCounter := s.d.refCounter - 1, live := s.h.live - {tr}))
  {
    var l := LifeOf(s);
    var a := l.(refCounter := s.d.refCounter - 1, live := s.h.live - {tr});
    forall t: Tid ensures T(a, t).pc == Idle || T(a, t).tr in a.live {
      assert T(l, t) == T(a, t);
      assert t in s.threads && s.threads[t].pc != Idle ==> s.threads[t].tr != tr;
    }
  }

  lemma LifeAttach(s: State, tr: Trid)
    requires LifeInv(LifeOf(s)) && Enabled(s, Attach(tr))
    ensures LifeInv(LifeOf(s).(refCounter := s.d.refCounter + 1, live := s.h.live + {tr}))
  {
    var l := LifeOf(s);
    var a := l.(refCounter := s.d.refCounter + 1, live := s.h.live + {tr});
    forall t: Tid ensures T(a, t).pc == Idle || T(a, t).tr in a.live {
      assert T(l, t) == T(a, t);
    }
  }

  /** While the machine runs, its writer has not stopped. */
  lemma BusyMeansRunning(s: State, t: Tid)
    requires LifeInv(LifeOf(s)) && Th(s, t).pc != Idle
    ensures s.writer != Stopped && Th(s, t).tr in s.h.live
  {
    assert T(LifeOf(s), t) == Th(s, t);
  }

  lemma LifeBytes(l: Life, drained: bool)
    requires LifeInv(l) && !l.stopped
    ensures LifeInv(l.(drained := drained))
  {
    var a := l.(drained := drained);
    forall t: Tid ensures T(a, t).pc == Idle || T(a, t).tr in a.live {
      assert T(l, t) == T(a, t);
    }
  }

  lemma LifeAdd(s: State, t: Tid, tr: Trid, msg: seq<char>, level: Level)
    requires Enabled(s, AddMsg(t, tr, msg, level)) && |s.h.dropped| == LEVELS && |s.h.lost| == LEVELS
    requires LifeInv(LifeOf(s))
    ensures LifeInv(LifeOf(DoAdd(s, t, tr, msg, level)))
  {
    hide InsertMessage, Passes, DoAdd, ReportOf, LifeInv;
    LiveMeansRunning(s, tr);
    var l, a := LifeOf(s), LifeOf(DoAdd(s, t, tr, msg, level));
    LifeBytes(l, a.drained);
    LifeThread(l.(drained := a.drained), t, T(a, t).(tr := tr));
    if s.d.last == None && Passes(s.d, msg) {
      AddInserts(s, t, tr, msg, level);
    } else {
      AddQuiet(s, t, tr, msg, level);
    }
  }

  lemma LiveMeansRunning(s: State, tr: Trid)
    requires LifeInv(LifeOf(s)) && tr in s.h.live
    ensures s.writer != Stopped
  {
  }

  lemma LifeRetry(s: State, t: Tid)
    requires Enabled(s, Retry(t)) && |s.h.lost| == LEVELS && LifeInv(LifeOf(s))
    ensures LifeInv(LifeOf(DoRetry(s, t)))
  {
    hide InsertMessage, Passes, Fits, DoRetry, ReportOf, Plus, LifeInv;
    var th, c := Th(s, t), NodeOf(s.d, t).ctrs;
    BusyMeansRunning(s, t);
    var l, a := LifeOf(s), LifeOf(DoRetry(s, t));
    LifeBytes(l, a.drained);
    LifeThread(l.(drained := a.drained), t, th.(pc := HandingOn));
    LifeThread(l.(drained := a.drained), t, th.(pc := AwaitingSpace));
    if !Passes(s.d, th.msg) {
      RetryParks(s, t);
    } else if Fits(s.d, c, th.msg) {
      RetryInserts(s, t);
    } else {
      RetryStops(s, t);
    }
  }

  lemma LifeStep(s: State, step: Step)
    requires Enabled(s, step) && |s.h.dropped| == LEVELS && |s.h.lost| == LEVELS
    requires LifeInv(LifeOf(s))
    ensures LifeInv(LifeOf(Do(s, step)))
  {
    hide DoAdd, DoRetry, LifeInv, DoSnapshot, DoEmit, DoAdvance, DoRelease, DoSignal, DoCheckTermination;
    match step
    case AddMsg(t, tr, msg, level) => LifeAdd(s, t, tr, msg, level);
    case Retry(t) => LifeRetry(s, t);
    case Attach(tr) => LifeAttach(s, tr);
    case Detach(tr) => LifeDetach(s, tr);
    case WriteConfirmed(t) => LifeReturns(s, t, Idle);
    case WakeUp(t) => LifeReturns(s, t, Retrying);
    case HandOn(t) => LifeReturns(s, t, Idle);
    case CheckTermination => LifeStops(s);
    case _ => LifeWriter(s, step);
  }

  lemma LifeWriter(s: State, step: Step)
    requires Enabled(s, step) && ByWriter(step) && |s.h.dropped| == LEVELS && |s.h.lost| == LEVELS
    requires LifeInv(LifeOf(s))
    ensures LifeInv(LifeOf(Do(s, step)))
  {
    hide DoAdd, DoRetry, DoHandOn, DoWakeUp, LifeInv, Slice;
    LifeBytes(LifeOf(s), LifeOf(Do(s, step)).drained);
  }

  lemma LifeReturns(s: State, t: Tid, pc: Pc)
    requires LifeInv(LifeOf(s)) && Th(s, t).pc != Idle
    ensures LifeInv(LifeOf(s).(threads := WithPc(s, t, pc)))
  {
    BusyMeansRunning(s, t);
    LifeThread(LifeOf(s), t, Th(s, t).(pc := pc));
  }

  /** The writer only stops when every byte is written, termination is allowed and no
      transport is left. */
  lemma LifeStops(s: State)
    requires LifeInv(LifeOf(s)) && s.writer == Deciding
    ensures LifeInv(LifeOf(DoCheckTermination(s)))
  {
    var l, a := LifeOf(s), LifeOf(DoCheckTermination(s));
    forall t: Tid ensures T(a, t).pc == Idle || T(a, t).tr in a.live {
      assert T(l, t) == T(a, t);
    }
  }
}

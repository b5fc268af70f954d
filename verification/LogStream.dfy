/** What reaches the log, in which order, and when (src/log.cpp:76-164, 271-285). */
module LogStream {
  import opened LogText
  import opened LogRing
  import opened LogProtocol
  import opened LogBaton

  // ---------------------------------------------------------------- ring and output

  /** The part of a state that carries bytes. */
  datatype Flow = Flow(buff: seq<char>, start: nat, end: nat, mbwi: nat, writer: Writer,
                       stream: seq<char>, log: seq<char>, good: seq<char>, stray: nat, writes: seq<Span>)

  function FlowOf(s: State): Flow {
    Flow(s.d.buff, s.d.start, s.d.end, s.d.mbwi, s.writer,
         s.h.stream, s.h.log, s.h.good, s.h.stray, s.h.writes)
  }

  /** The ring holds every accepted byte that the writer has not released. */
  ghost predicate RingOk(f: Flow) {
    && RingSize(|f.buff|)
    && LogRing.Holds(f.buff, f.stream, f.start)
    && |f.stream| == f.end && f.mbwi <= f.end
  }

  /** How much of the stream the writer has put out. */
  function WrittenUpTo(f: Flow): nat {
    if f.writer.Writing? && f.writer.from < f.writer.to then f.start + f.writer.done else f.start
  }

  ghost predicate WriterOk(f: Flow) {
    && (f.writer.Writing? ==>
          && f.writer.from == f.start && f.writer.from <= f.writer.to <= f.end
          && f.writer.done <= WrittenSize(|f.buff|, f.writer.from, f.writer.to))
    && WrittenUpTo(f) <= |f.stream|
    && f.good == f.stream[..WrittenUpTo(f)]
  }

  predicate Dumping(w: Writer) { w.Writing? && w.from == w.to && w.done > 0 }

  /** Stray bytes come from writes of nothing, and from nowhere else. */
  ghost predicate OutputOk(f: Flow) {
    && |f.log| == |f.good| + f.stray
    && (f.stray == 0 ==> f.log == f.good)
    && (f.stray == 0 <==> !Dumping(f.writer) && forall w | w in f.writes :: w.from < w.to)
  }

  ghost predicate FlowInv(f: Flow) {
    RingOk(f) && WriterOk(f) && OutputOk(f)
  }

  /** An insertion extends the stream by the report and the message; the writer, at work
      without the lock, is not disturbed. */
  lemma InsertHolds(d: Shared, stream: seq<char>, tr: Trid, c: Counters, msg: seq<char>, level: Level)
    requires LogRing.Holds(d.buff, stream, d.start) && |stream| == d.end && |c.ctr| == LEVELS && Fits(d, c, msg)
    ensures var r := InsertMessage(d, tr, c, msg, level);
            && LogRing.Holds(r.buff, stream + ReportOf(c) + msg, d.start)
            && |r.buff| == |d.buff|
            && (r.mbwi == d.mbwi || r.mbwi == r.end)
  {
    hide LogRing.Holds, Put, ReportText;
    HoldsBounds(d.buff, stream, d.start);
    if c.full != 0 {
      PutHolds(d.buff, stream, d.start, ReportText(c));
      PutHolds(Put(d.buff, d.end, ReportText(c)), stream + ReportText(c), d.start, msg);
    } else {
      PutHolds(d.buff, stream, d.start, msg);
      assert stream + "" == stream;
    }
  }

  lemma HoldsBounds(buff: seq<char>, stream: seq<char>, start: nat)
    requires LogRing.Holds(buff, stream, start)
    ensures 0 < |buff| && start <= |stream| <= start + |buff|
  {
  }

  lemma FlowInserted(f: Flow, buff: seq<char>, mbwi: nat, more: seq<char>)
    requires FlowInv(f) && LogRing.Holds(buff, f.stream + more, f.start) && |buff| == |f.buff|
    requires mbwi <= f.end + |more|
    ensures FlowInv(f.(buff := buff, end := f.end + |more|, mbwi := mbwi, stream := f.stream + more))
  {
    hide LogRing.Holds;
    assert (f.stream + more)[..WrittenUpTo(f)] == f.stream[..WrittenUpTo(f)];
  }

  lemma FlowAdd(s: State, t: Tid, tr: Trid, msg: seq<char>, level: Level)
    requires Enabled(s, AddMsg(t, tr, msg, level)) && |s.h.dropped| == LEVELS && |s.h.lost| == LEVELS
    requires FlowInv(FlowOf(s))
    ensures FlowInv(FlowOf(DoAdd(s, t, tr, msg, level)))
  {
    hide FlowInv, InsertMessage, Passes, DoAdd, ReportOf, LogRing.Holds;
    if s.d.last == None && Passes(s.d, msg) {
      AddInserts(s, t, tr, msg, level);
      var r := InsertMessage(s.d, tr, s.d.skipped, msg, level);
      FlowParts(FlowOf(s));
      InsertHolds(s.d, s.h.stream, tr, s.d.skipped, msg, level);
      assert s.h.stream + ReportOf(s.d.skipped) + msg == s.h.stream + (ReportOf(s.d.skipped) + msg);
      FlowInserted(FlowOf(s), r.buff, r.mbwi, ReportOf(s.d.skipped) + msg);
    } else {
      AddQuiet(s, t, tr, msg, level);
    }
  }

  lemma FlowParts(f: Flow)
    requires FlowInv(f)
    ensures RingOk(f) && WriterOk(f)
  {
  }

  lemma FlowRetry(s: State, t: Tid)
    requires Enabled(s, Retry(t)) && |s.h.lost| == LEVELS && FlowInv(FlowOf(s))
    ensures FlowInv(FlowOf(DoRetry(s, t)))
  {
    hide FlowInv, InsertMessage, Passes, Fits, ReportOf, DoRetry, LogRing.Holds;
    var th, c := Th(s, t), NodeOf(s.d, t).ctrs;
    if !Passes(s.d, th.msg) {
      RetryParks(s, t);
    } else if Fits(s.d, c, th.msg) {
      RetryInserts(s, t);
      var r := InsertMessage(s.d, th.tr, c, th.msg, th.level);
      FlowParts(FlowOf(s));
      InsertHolds(s.d, s.h.stream, th.tr, c, th.msg, th.level);
      assert s.h.stream + ReportOf(c) + th.msg == s.h.stream + (ReportOf(c) + th.msg);
      FlowInserted(FlowOf(s), r.buff, r.mbwi, ReportOf(c) + th.msg);
    } else {
      RetryStops(s, t);
    }
  }

  /** Whatever the writer reads without the lock, if there is something to write, is the
      next piece of the stream. */
  lemma FlowEmit(s: State, n: nat)
    requires Enabled(s, Emit(n)) && FlowInv(FlowOf(s))
    ensures FlowInv(FlowOf(DoEmit(s, n)))
  {
    var f, w := FlowOf(s), s.writer;
    if w.from < w.to {
      SliceExact(f.buff, f.stream, f.start, w.from + w.done, n);
      assert f.stream[..w.from + w.done] + f.stream[w.from + w.done..w.from + w.done + n]
          == f.stream[..w.from + w.done + n];
    }
  }

  lemma FlowAdvance(s: State)
    requires Enabled(s, Advance) && FlowInv(FlowOf(s))
    ensures FlowInv(FlowOf(DoAdvance(s)))
  {
    var f, w := FlowOf(s), s.writer;
    assert WrittenSize(|f.buff|, w.from, w.to) > 0;
    assert forall x | x in f.writes + [Span(w.from, w.to)] :: x in f.writes || x == Span(w.from, w.to);
    assert Span(w.from, w.to) in f.writes + [Span(w.from, w.to)];
    assert forall x | x in f.writes :: x in f.writes + [Span(w.from, w.to)];
  }

  lemma FlowStep(s: State, step: Step)
    requires Enabled(s, step) && |s.h.dropped| == LEVELS && |s.h.lost| == LEVELS
    requires FlowInv(FlowOf(s))
    ensures FlowInv(FlowOf(Do(s, step)))
  {
    hide DoAdd, DoRetry, DoEmit, DoAdvance, LogRing.Holds;
    match step
    case AddMsg(t, tr, msg, level) => FlowAdd(s, t, tr, msg, level);
    case Retry(t) => FlowRetry(s, t);
    case Emit(n) => FlowEmit(s, n);
    case Advance => FlowAdvance(s);
    case _ =>
  }

  /** Between writes the log file is exactly the part of the stream behind `start`, if and
      only if the writer never wrote an empty range; then nothing is lost, doubled or
      torn. A write of an empty range dumps the whole ring instead. */
  lemma LogIsStreamPrefix(f: Flow)
    requires FlowInv(f) && !f.writer.Writing?
    ensures f.start <= |f.stream|
    ensures f.good == f.stream[..f.start]
    ensures f.log == f.stream[..f.start] <==> forall w | w in f.writes :: w.from < w.to
  {
  }

  // ---------------------------------------------------------------- order

  function TextOf(r: Record): seq<char> {
    match r
    case Report(ctr) => if |ctr| == LEVELS then ReportText(Counters(ctr, 0)) else ""
    case Message(_, text) => text
  }

  function Render(records: seq<Record>): seq<char> {
    if records == [] then "" else Render(records[..|records| - 1]) + TextOf(records[|records| - 1])
  }

  /** The messages of a record list, without the reports. */
  function Messages(records: seq<Record>): seq<Entry> {
    if records == [] then [] else
      var last := records[|records| - 1];
      Messages(records[..|records| - 1]) + if last.Message? then [Entry(last.who, last.text)] else []
  }

  /** The messages of the blocked loggers, in queue order. */
  function Pending(threads: map<Tid, Thread>, queue: seq<Tid>): (r: seq<Entry>)
    ensures |r| == |queue|
  {
    seq(|queue|, i requires 0 <= i < |queue| =>
      Entry(queue[i], if queue[i] in threads then threads[queue[i]].msg else ""))
  }

  datatype Tale = Tale(stream: seq<char>, records: seq<Record>, arrivals: seq<Entry>,
                       queue: seq<Tid>, threads: map<Tid, Thread>)

  function TaleOf(s: State): Tale {
    Tale(s.h.stream, s.h.records, s.h.arrivals, s.h.queue, s.threads)
  }

  /** The stream is the text of the records; the messages among them, followed by those
      still waiting, are the accepted messages in the order in which they arrived. */
  ghost predicate TaleInv(t: Tale) {
    && t.stream == Render(t.records)
    && t.arrivals == Messages(t.records) + Pending(t.threads, t.queue)
  }

  lemma Appended(records: seq<Record>, r: Record)
    ensures Render(records + [r]) == Render(records) + TextOf(r)
    ensures Messages(records + [r]) == Messages(records) + if r.Message? then [Entry(r.who, r.text)] else []
  {
    var more := records + [r];
    assert more[..|more| - 1] == records && more[|more| - 1] == r;
  }

  lemma RecordedRenders(h: History, c: Counters, t: Tid, msg: seq<char>)
    requires |c.ctr| == LEVELS && h.stream == Render(h.records)
    ensures var r := Recorded(h, c, t, msg);
            && r.stream == Render(r.records)
            && Messages(r.records) == Messages(h.records) + [Entry(t, msg)]
  {
    hide Render, Messages, ReportText;
    if c.full != 0 {
      var most := h.records + [Report(c.ctr)];
      SameText(c);
      Appended(h.records, Report(c.ctr));
      Appended(most, Message(t, msg));
      assert h.records + [Report(c.ctr)] + [Message(t, msg)] == most + [Message(t, msg)];
    } else {
      Appended(h.records, Message(t, msg));
      assert h.records + [] == h.records && h.stream + "" == h.stream;
    }
  }

  lemma SameText(c: Counters)
    requires |c.ctr| == LEVELS
    ensures ReportText(Counters(c.ctr, 0)) == ReportText(c)
  {
    SameItems(c, 0);
  }

  lemma {:induction false} SameItems(c: Counters, from: nat)
    requires |c.ctr| == LEVELS && from <= LEVELS
    ensures Items(Counters(c.ctr, 0), from) == Items(c, from)
    decreases LEVELS - from
  {
    if from < LEVELS {
      SameItems(c, from + 1);
    }
  }

  lemma PendingStays(threads: map<Tid, Thread>, queue: seq<Tid>, t: Tid, th: Thread)
    requires t !in queue || (t in threads && threads[t].msg == th.msg)
    ensures Pending(threads[t := th], queue) == Pending(threads, queue)
  {
  }

  lemma TaleAdd(s: State, t: Tid, tr: Trid, msg: seq<char>, level: Level)
    requires Enabled(s, AddMsg(t, tr, msg, level)) && |s.h.dropped| == LEVELS && |s.h.lost| == LEVELS
    requires TaleInv(TaleOf(s)) && BatonInv(BatonOf(s))
    ensures TaleInv(TaleOf(DoAdd(s, t, tr, msg, level)))
  {
    hide BatonInv, InsertMessage, Passes, DoAdd, Render, Messages;
    BatonRenew(BatonOf(s), t);
    if s.d.last == None && Passes(s.d, msg) {
      AddInserts(s, t, tr, msg, level);
      RecordedRenders(s.h, s.d.skipped, t, msg);
    } else {
      AddQuiet(s, t, tr, msg, level);
      var after := DoAdd(s, t, tr, msg, level);
      if level < s.d.skipLevel {
        PendingStays(s.threads, s.h.queue, t, after.threads[t]);
        assert Pending(after.threads, s.h.queue + [t]) == Pending(after.threads, s.h.queue) + [Entry(t, msg)];
      }
    }
  }

  /** The head of the queue enters the stream: what was pending becomes inserted. */
  lemma TaleHead(tale: Tale, t: Tid, th: Thread, stream: seq<char>, records: seq<Record>)
    requires TaleInv(tale) && tale.queue != [] && tale.queue[0] == t
    requires t in tale.threads && tale.threads[t].msg == th.msg
    requires stream == Render(records) && Messages(records) == Messages(tale.records) + [Entry(t, th.msg)]
    ensures TaleInv(Tale(stream, records, tale.arrivals, tale.queue[1..], tale.threads[t := th]))
  {
    hide Render, Messages;
    var threads := tale.threads[t := th];
    PendingStays(tale.threads, tale.queue, t, th);
    assert Pending(threads, tale.queue) == [Entry(t, th.msg)] + Pending(threads, tale.queue[1..]);
    assert tale.arrivals == Messages(records) + Pending(threads, tale.queue[1..]);
  }

  lemma TaleRetry(s: State, t: Tid)
    requires Enabled(s, Retry(t)) && |s.h.lost| == LEVELS && TaleInv(TaleOf(s)) && BatonInv(BatonOf(s))
    ensures TaleInv(TaleOf(DoRetry(s, t)))
  {
    hide BatonInv, InsertMessage, Passes, Fits, ReportOf, DoRetry, Render, Messages, Pending, Plus;
    var th, c := Th(s, t), NodeOf(s.d, t).ctrs;
    BatonPark(BatonOf(s), t);
    if !Passes(s.d, th.msg) {
      PendingStays(s.threads, s.h.queue, t, th.(pc := AwaitingSpace));
      RetryParks(s, t);
    } else if Fits(s.d, c, th.msg) {
      RecordedRenders(s.h, c, t, th.msg);
      var r := Recorded(s.h, c, t, th.msg);
      TaleHead(TaleOf(s), t, th.(pc := HandingOn), r.stream, r.records);
      RetryInserts(s, t);
    } else {
      RetryStops(s, t);
    }
  }

  lemma TaleStep(s: State, step: Step)
    requires Enabled(s, step) && |s.h.dropped| == LEVELS && |s.h.lost| == LEVELS
    requires TaleInv(TaleOf(s)) && BatonInv(BatonOf(s))
    ensures TaleInv(TaleOf(Do(s, step)))
  {
    hide DoAdd, DoRetry, BatonInv, Render, Messages;
    match step
    case AddMsg(t, tr, msg, level) => TaleAdd(s, t, tr, msg, level);
    case Retry(t) => TaleRetry(s, t);
    case WriteConfirmed(t) => PendingStays(s.threads, s.h.queue, t, Do(s, step).threads[t]);
    case WakeUp(t) => PendingStays(s.threads, s.h.queue, t, Do(s, step).threads[t]);
    case HandOn(t) => PendingStays(s.threads, s.h.queue, t, Do(s, step).threads[t]);
    case _ =>
  }

  // ---------------------------------------------------------------- where a critical message is

  function R(t: Tale, u: Tid): Thread { if u in t.threads then t.threads[u] else NO_THREAD }

  /** A logger that waits for its message to be written knows where it ends. */
  ghost predicate Spot(t: Tale, u: Tid) {
    R(t, u).pc.AwaitingWrite? ==>
      && |R(t, u).msg| <= R(t, u).pc.ticket <= |t.stream|
      && t.stream[R(t, u).pc.ticket - |R(t, u).msg|..R(t, u).pc.ticket] == R(t, u).msg
  }

  ghost predicate SpotInv(t: Tale) {
    forall u: Tid :: Spot(t, u)
  }

  lemma SliceOfPrefix(s: seq<char>, more: seq<char>, from: nat, to: nat)
    requires from <= to <= |s|
    ensures (s + more)[from..to] == s[from..to]
  {
  }

  lemma SliceOfEnd(s: seq<char>, more: seq<char>, n: nat)
    requires n <= |more|
    ensures (s + more)[|s + more| - n..] == more[|more| - n..]
  {
  }

  lemma SpotMoves(t: Tale, more: seq<char>, u: Tid, th: Thread)
    requires SpotInv(t)
    requires th.pc.AwaitingWrite? ==>
               && th.pc.ticket == |t.stream + more| && |th.msg| <= |more| && more[|more| - |th.msg|..] == th.msg
    ensures SpotInv(t.(stream := t.stream + more, threads := t.threads[u := th]))
  {
    var a := t.(stream := t.stream + more, threads := t.threads[u := th]);
    forall v: Tid ensures Spot(a, v) {
      assert Spot(t, v);
      if v == u {
        if th.pc.AwaitingWrite? {
          SliceOfEnd(t.stream, more, |th.msg|);
          assert a.stream[|a.stream| - |th.msg|..|a.stream|] == a.stream[|a.stream| - |th.msg|..];
        }
      } else if R(t, v).pc.AwaitingWrite? {
        SliceOfPrefix(t.stream, more, R(t, v).pc.ticket - |R(t, v).msg|, R(t, v).pc.ticket);
      }
    }
  }

  lemma SpotFrame(t: Tale, a: Tale)
    requires SpotInv(t) && a.stream == t.stream && a.threads == t.threads
    ensures SpotInv(a)
  {
    forall u: Tid ensures Spot(a, u) {
      assert Spot(t, u);
    }
  }

  lemma SpotAdd(s: State, t: Tid, tr: Trid, msg: seq<char>, level: Level)
    requires Enabled(s, AddMsg(t, tr, msg, level)) && |s.h.dropped| == LEVELS && |s.h.lost| == LEVELS
    requires SpotInv(TaleOf(s)) && |s.h.stream| == s.d.end
    ensures SpotInv(TaleOf(DoAdd(s, t, tr, msg, level)))
  {
    hide InsertMessage, Passes, DoAdd, ReportOf, SpotInv;
    var a := DoAdd(s, t, tr, msg, level);
    var tale := TaleOf(s);
    if s.d.last == None && Passes(s.d, msg) {
      AddInserts(s, t, tr, msg, level);
      var more := ReportOf(s.d.skipped) + msg;
      assert s.h.stream + ReportOf(s.d.skipped) + msg == s.h.stream + more;
      SpotMoves(tale, more, t, a.threads[t]);
      SpotFrame(tale.(stream := a.h.stream, threads := a.threads), TaleOf(a));
    } else {
      AddQuiet(s, t, tr, msg, level);
      SpotMoves(tale, "", t, Thread(AwaitingSpace, tr, msg, level));
      assert s.h.stream + "" == s.h.stream;
      SpotFrame(tale, tale.(threads := s.threads));
      SpotFrame(if level < s.d.skipLevel then tale.(threads := a.threads) else tale, TaleOf(a));
    }
  }

  lemma SpotRetry(s: State, t: Tid)
    requires Enabled(s, Retry(t)) && |s.h.lost| == LEVELS && SpotInv(TaleOf(s))
    ensures SpotInv(TaleOf(DoRetry(s, t)))
  {
    hide InsertMessage, Passes, Fits, ReportOf, DoRetry, Plus, SpotInv;
    var th, c := Th(s, t), NodeOf(s.d, t).ctrs;
    var tale, a := TaleOf(s), DoRetry(s, t);
    if !Passes(s.d, th.msg) {
      RetryParks(s, t);
      SpotMoves(tale, "", t, th.(pc := AwaitingSpace));
      assert s.h.stream + "" == s.h.stream;
      SpotFrame(tale.(threads := a.threads), TaleOf(a));
    } else if Fits(s.d, c, th.msg) {
      RetryInserts(s, t);
      var more := ReportOf(c) + th.msg;
      assert s.h.stream + ReportOf(c) + th.msg == s.h.stream + more;
      SpotMoves(tale, more, t, th.(pc := HandingOn));
      SpotFrame(tale.(stream := a.h.stream, threads := a.threads), TaleOf(a));
    } else {
      RetryStops(s, t);
    }
  }

  lemma SpotStep(s: State, step: Step)
    requires Enabled(s, step) && |s.h.dropped| == LEVELS && |s.h.lost| == LEVELS
    requires SpotInv(TaleOf(s)) && |s.h.stream| == s.d.end
    ensures SpotInv(TaleOf(Do(s, step)))
  {
    hide DoAdd, DoRetry, SpotInv;
    var tale := TaleOf(s);
    assert s.h.stream + "" == s.h.stream;
    match step
    case AddMsg(t, tr, msg, level) => SpotAdd(s, t, tr, msg, level);
    case Retry(t) => SpotRetry(s, t);
    case WriteConfirmed(t) => SpotMoves(tale, "", t, Th(s, t).(pc := Idle));
    case WakeUp(t) => SpotMoves(tale, "", t, Th(s, t).(pc := Retrying));
    case HandOn(t) => SpotMoves(tale, "", t, Th(s, t).(pc := Idle));
    case _ => SpotFrame(tale, TaleOf(Do(s, step)));
  }
}

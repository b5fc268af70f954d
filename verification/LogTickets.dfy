/** Guaranteed writes: a logger with a critical message waits on its transport's node until
    the writer has put the message out (src/log.cpp:110-121, 132-155, 297-316, 372-381). */
module LogTickets {
  import opened LogText
  import opened LogRing
  import opened LogProtocol
  import opened LogBaton
  import opened LogStream
  import opened LogPace

  /** The part of a state that guaranteed writes are about. `next` is the writer's cursor
      in the list it detached, `reading` the node it has released and whose link it has
      still to read. */
  datatype Tickets = Tickets(gwws: map<Trid, Gww>, gFirst: Option<Trid>, gLast: Option<Trid>,
                             next: Option<Trid>, reading: Option<Trid>,
                             gq: seq<Trid>, gl: seq<Trid>, issued: map<Trid, Ticket>, threads: map<Tid, Thread>,
                             start: nat, frontier: nat, end: nat)

  function CursorOf(w: Writer): Option<Trid> {
    match w
    case Writing(_, _, _, _, g) => g
    case Releasing(next, _) => Some(next)
    case _ => None
  }

  function ReadingOf(w: Writer): Option<Trid> { if w.Reading? then Some(w.node) else None }

  function TicketsOf(s: State): Tickets {
    Tickets(s.d.gwws, s.d.gFirst, s.d.gLast, CursorOf(s.writer), ReadingOf(s.writer), s.h.gq, s.h.gl, s.h.issued,
            s.threads, s.d.start, Frontier(s), s.d.end)
  }

  function G(k: Tickets, tr: Trid): Gww { if tr in k.gwws then k.gwws[tr] else FRESH_GWW }
  function H(k: Tickets, t: Tid): Thread { if t in k.threads then k.threads[t] else NO_THREAD }

  function Last(q: seq<Trid>): Option<Trid> { if q == [] then None else Some(q[|q| - 1]) }

  ghost predicate Link(k: Tickets, q: seq<Trid>, i: nat)
    requires i < |q|
  {
    G(k, q[i]).next == if i + 1 < |q| then Some(q[i + 1]) else None
  }

  ghost predicate Chain(k: Tickets, q: seq<Trid>) {
    Distinct(q) && forall i: nat | i < |q| :: Link(k, q, i)
  }

  /** The writer knows where its list goes on: by its cursor, or by a link it has still to
      read, unless that node has joined the queue in the meantime. */
  ghost predicate CursorOk(k: Tickets) {
    match k.reading
    case None => k.next == Head(k.gl)
    case Some(n) => k.next == None && n !in k.gl && (n !in k.gq ==> G(k, n).next == Head(k.gl))
  }

  /** Two disjoint null-terminated lists: the shared queue, and what the writer detached. */
  ghost predicate ListsOk(k: Tickets) {
    && Chain(k, k.gq) && k.gFirst == Head(k.gq) && k.gLast == Last(k.gq)
    && Chain(k, k.gl) && CursorOk(k)
    && forall tr | tr in k.gq :: tr !in k.gl
  }

  predicate Busy(k: Tickets, tr: Trid) { tr in k.gq || tr in k.gl || G(k, tr).canRun }

  predicate AwaitsOn(k: Tickets, t: Tid, tr: Trid, end: nat) {
    H(k, t).pc == AwaitingWrite(end) && H(k, t).tr == tr
  }

  /** Where the message behind a node must be, given where the node is, and who is to take
      the node back: if nobody is, it stays in use for good. */
  ghost predicate NodeOk(k: Tickets, tr: Trid) {
    && (Busy(k, tr) ==>
          && tr in k.issued
          && (G(k, tr).canRun ==> tr !in k.gq && tr !in k.gl)
          && k.issued[tr].end <= (if tr in k.gq then k.end else if tr in k.gl then k.frontier else k.start)
          && (tr in k.gq ==> k.frontier < k.issued[tr].end))
    && (tr in k.issued ==>
          if k.issued[tr].waits then Busy(k, tr) ==> AwaitsOn(k, k.issued[tr].holder, tr, k.issued[tr].end)
          else Busy(k, tr))
  }

  /** A logger waits only on a node that is busy on its behalf. */
  ghost predicate HolderOk(k: Tickets, t: Tid) {
    H(k, t).pc.AwaitingWrite? ==>
      && Busy(k, H(k, t).tr) && H(k, t).tr in k.issued
      && k.issued[H(k, t).tr] == Ticket(H(k, t).pc.ticket, t, true)
  }

  ghost predicate TicketInv(k: Tickets) {
    && k.start <= k.frontier <= k.end
    && ListsOk(k)
    && (forall tr: Trid :: NodeOk(k, tr))
    && (forall t: Tid :: HolderOk(k, t))
  }

  // ---------------------------------------------------------------- each step keeps it

  lemma ChainFrame(k: Tickets, a: Tickets, q: seq<Trid>)
    requires Chain(k, q) && forall tr | tr in q :: G(a, tr).next == G(k, tr).next
    ensures Chain(a, q)
  {
    forall i: nat | i < |q| ensures Link(a, q, i) {
      assert Link(k, q, i) && q[i] in q;
    }
  }

  function Issued(k: Tickets, tr: Trid, end: nat, t: Tid, waits: bool): Tickets {
    var cut := k.(gwws := k.gwws[tr := G(k, tr).(next := None)], gLast := Some(tr),
                  gq := k.gq + [tr], issued := k.issued[tr := Ticket(end, t, waits)], end := end);
    if k.gLast == None then cut.(gFirst := Some(tr))
    else cut.(gwws := cut.gwws[k.gLast.value := G(cut, k.gLast.value).(next := Some(tr))])
  }

  lemma IssuedLists(k: Tickets, tr: Trid, end: nat, t: Tid, waits: bool)
    requires ListsOk(k) && !Busy(k, tr)
    ensures ListsOk(Issued(k, tr, end, t, waits))
    ensures forall x: Trid :: G(Issued(k, tr, end, t, waits), x).canRun == G(k, x).canRun
  {
    var a := Issued(k, tr, end, t, waits);
    if k.gq != [] {
      assert k.gq[|k.gq| - 1] in k.gq;
    }
    ChainFrame(k, a, k.gl);
    forall i: nat | i < |a.gq| ensures Link(a, a.gq, i) {
      if i < |k.gq| {
        assert Link(k, k.gq, i) && k.gq[i] in k.gq;
      }
    }
    assert forall x | x in a.gq :: x == tr || x in k.gq;
  }

  lemma IssuedNode(k: Tickets, tr: Trid, end: nat, t: Tid, waits: bool, x: Trid)
    requires TicketInv(k) && !Busy(k, tr)
    ensures Busy(Issued(k, tr, end, t, waits), x) == (x == tr || Busy(k, x))
  {
    hide Link, NodeOk, HolderOk;
    IssuedLists(k, tr, end, t, waits);
    assert G(Issued(k, tr, end, t, waits), x).canRun == G(k, x).canRun;
  }

  /** The node of an unused transport joins the queue, with or without a logger waiting. */
  lemma TicketIssued(k: Tickets, tr: Trid, end: nat, t: Tid, th: Thread)
    requires TicketInv(k) && !Busy(k, tr) && end > k.end && !H(k, t).pc.AwaitingWrite?
    requires th.pc.AwaitingWrite? ==> th.tr == tr && th.pc.ticket == end
    ensures TicketInv(Issued(k, tr, end, t, th.pc.AwaitingWrite?).(threads := k.threads[t := th]))
  {
    hide Link, Issued;
    var waits := th.pc.AwaitingWrite?;
    IssuedLists(k, tr, end, t, waits);
    IssuedFrame(k, tr, end, t, waits);
    var i := Issued(k, tr, end, t, waits);
    var a := i.(threads := k.threads[t := th]);
    ChainFrame(i, a, a.gq);
    ChainFrame(i, a, a.gl);
    forall x: Trid ensures NodeOk(a, x) {
      assert NodeOk(k, x);
      assert G(a, x).canRun == G(k, x).canRun;
      IssuedNode(k, tr, end, t, waits, x);
    }
    forall u: Tid ensures HolderOk(a, u) {
      assert HolderOk(k, u);
      IssuedNode(k, tr, end, t, waits, H(a, u).tr);
    }
  }

  lemma IssuedFrame(k: Tickets, tr: Trid, end: nat, t: Tid, waits: bool)
    ensures var i := Issued(k, tr, end, t, waits);
            i.issued == k.issued[tr := Ticket(end, t, waits)] && i.threads == k.threads
            && i.start == k.start && i.frontier == k.frontier && i.end == end && i.gq == k.gq + [tr] && i.gl == k.gl
  {
  }

  /** Threads that wait for no ticket, and the end of the ring, may move. */
  lemma TicketThread(k: Tickets, t: Tid, th: Thread, end: nat)
    requires TicketInv(k) && !H(k, t).pc.AwaitingWrite? && !th.pc.AwaitingWrite? && end >= k.end
    ensures TicketInv(k.(threads := k.threads[t := th], end := end))
  {
    var a := k.(threads := k.threads[t := th], end := end);
    ChainFrame(k, a, k.gq);
    ChainFrame(k, a, k.gl);
    forall x: Trid ensures NodeOk(a, x) { assert NodeOk(k, x); }
    forall u: Tid ensures HolderOk(a, u) { assert HolderOk(k, u); }
  }

  /** src/log.cpp:375-380: the logger sees canRun, and its message has been written. */
  lemma TicketRedeemed(k: Tickets, t: Tid)
    requires TicketInv(k) && H(k, t).pc.AwaitingWrite? && G(k, H(k, t).tr).canRun
    ensures H(k, t).pc.ticket <= k.start
    ensures var tr := H(k, t).tr;
            var a := k.(gwws := k.gwws[tr := G(k, tr).(canRun := false)], threads := k.threads[t := H(k, t).(pc := Idle)]);
            !Busy(a, tr) && TicketInv(a)
  {
    var tr := H(k, t).tr;
    assert HolderOk(k, t) && NodeOk(k, tr);
    var a := k.(gwws := k.gwws[tr := G(k, tr).(canRun := false)], threads := k.threads[t := H(k, t).(pc := Idle)]);
    ChainFrame(k, a, k.gq);
    ChainFrame(k, a, k.gl);
    forall x: Trid ensures NodeOk(a, x) { assert NodeOk(k, x); }
    forall u: Tid ensures HolderOk(a, u) { assert HolderOk(k, u); }
  }

  /** src/log.cpp:115-121: the writer detaches the whole queue; what is in it has been
      accepted before the snapshot. */
  lemma TicketsDetached(k: Tickets)
    requires TicketInv(k) && k.gl == [] && k.reading == None
    ensures TicketInv(k.(gFirst := None, gLast := None, next := k.gFirst, gq := [], gl := k.gq, frontier := k.end))
  {
    var a := k.(gFirst := None, gLast := None, next := k.gFirst, gq := [], gl := k.gq, frontier := k.end);
    ChainFrame(k, a, k.gq);
    forall x: Trid ensures NodeOk(a, x) { assert NodeOk(k, x); }
    forall u: Tid ensures HolderOk(a, u) { assert HolderOk(k, u); }
  }

  /** src/log.cpp:141, 161: start catches up with the snapshot. */
  lemma TicketsWritten(k: Tickets)
    requires TicketInv(k)
    ensures TicketInv(k.(start := k.frontier))
  {
    var a := k.(start := k.frontier);
    ChainFrame(k, a, k.gq);
    ChainFrame(k, a, k.gl);
    forall x: Trid ensures NodeOk(a, x) { assert NodeOk(k, x); }
    forall u: Tid ensures HolderOk(a, u) { assert HolderOk(k, u); }
  }

  /** src/log.cpp:145-150: one node is released. */
  lemma TicketReleased(k: Tickets, tr: Trid)
    requires TicketInv(k) && k.next == Some(tr) && k.start == k.frontier
    ensures !G(k, tr).canRun && k.gl != [] && k.gl[0] == tr
    ensures TicketInv(k.(gwws := k.gwws[tr := G(k, tr).(canRun := true)], next := None, reading := Some(tr), gl := k.gl[1..]))
  {
    var a := k.(gwws := k.gwws[tr := G(k, tr).(canRun := true)], next := None, reading := Some(tr), gl := k.gl[1..]);
    assert Link(k, k.gl, 0) && NodeOk(k, tr);
    assert tr in k.gl && forall x | x in a.gl :: x in k.gl;
    ChainFrame(k, a, k.gq);
    forall i: nat | i < |a.gl| ensures Link(a, a.gl, i) { assert Link(k, k.gl, i + 1); }
    forall x: Trid ensures NodeOk(a, x) {
      assert NodeOk(k, x);
      assert x in k.gl <==> x == tr || x in k.gl[1..];
    }
    forall u: Tid ensures HolderOk(a, u) {
      assert HolderOk(k, u);
      assert H(k, u).tr in k.gl <==> H(k, u).tr == tr || H(k, u).tr in k.gl[1..];
    }
  }

  /** src/log.cpp:151: the link read from a released node leads on if and only if the node
      has not joined the queue again, or is last in it and the writer's list is at its end. */
  lemma LinkRead(k: Tickets, n: Trid)
    requires TicketInv(k) && k.reading == Some(n)
    ensures G(k, n).next == Head(k.gl) <==> n !in k.gq || (k.gl == [] && Last(k.gq) == Some(n))
    ensures G(k, n).next == Head(k.gl) ==> TicketInv(k.(next := Head(k.gl), reading := None))
  {
    if n in k.gq {
      var i: nat :| i < |k.gq| && k.gq[i] == n;
      assert Link(k, k.gq, i);
      if i + 1 < |k.gq| { assert k.gq[i + 1] in k.gq; }
    }
    var a := k.(next := Head(k.gl), reading := None);
    ChainFrame(k, a, k.gq);
    ChainFrame(k, a, k.gl);
    forall x: Trid ensures NodeOk(a, x) { assert NodeOk(k, x); }
    forall u: Tid ensures HolderOk(a, u) { assert HolderOk(k, u); }
  }

  /** The assertion at src/log.cpp:301, exactly: a node still has canRun set when the writer
      has released it and either nobody was to wait for it, or its logger has not yet looked. */
  lemma StillReleased(k: Tickets, tr: Trid)
    requires TicketInv(k)
    ensures G(k, tr).canRun <==>
              && tr in k.issued && tr !in k.gq && tr !in k.gl
              && (k.issued[tr].waits ==> AwaitsOn(k, k.issued[tr].holder, tr, k.issued[tr].end))
  {
    assert NodeOk(k, tr);
    if tr in k.issued { assert HolderOk(k, k.issued[tr].holder); }
  }

  // ---------------------------------------------------------------- on the whole machine

  ghost predicate TicketsInv(s: State) {
    s.h.misused || s.h.strayed || TicketInv(TicketsOf(s))
  }

  lemma InsertIssues(d: Shared, tr: Trid, c: Counters, msg: seq<char>, level: Level)
    requires d.start <= d.end && 0 < |d.buff| && |c.ctr| == LEVELS && Fits(d, c, msg)
    ensures var r, e := InsertMessage(d, tr, c, msg, level), Enqueue(d, tr);
            if WantsWrite(d, level) then r.gwws == e.gwws && r.gFirst == e.gFirst && r.gLast == e.gLast
            else r.gwws == d.gwws && r.gFirst == d.gFirst && r.gLast == d.gLast
  {
    hide Put, ReportText;
  }

  lemma IssuedIsEnqueue(s: State, tr: Trid, end: nat, t: Tid, waits: bool)
    ensures var e := Enqueue(s.d, tr);
            Issued(TicketsOf(s), tr, end, t, waits) ==
              TicketsOf(s).(gwws := e.gwws, gFirst := e.gFirst, gLast := e.gLast, end := end,
                            gq := s.h.gq + [tr], issued := s.h.issued[tr := Ticket(end, t, waits)])
  {
    assert GwwOf(s.d, tr) == G(TicketsOf(s), tr);
  }

  /** An insertion by thread t, which then waits for the write, hands on, or returns. */
  lemma TicketsInserted(s: State, t: Tid, tr: Trid, level: Level, th: Thread, r: Shared)
    requires TicketsInv(s) && !Th(s, t).pc.AwaitingWrite? && r.end > s.d.end
    requires th.pc.AwaitingWrite? ==> th.tr == tr && th.pc.ticket == r.end && WantsWrite(s.d, level)
    requires var e := Enqueue(s.d, tr);
             if WantsWrite(s.d, level) then r.gwws == e.gwws && r.gFirst == e.gFirst && r.gLast == e.gLast
             else r.gwws == s.d.gwws && r.gFirst == s.d.gFirst && r.gLast == s.d.gLast
    ensures var h := Ticketed(s, s.h, t, tr, r.end, level, th.pc.AwaitingWrite?);
            h.misused || h.strayed || TicketInv(TicketsOf(s).(gwws := r.gwws, gFirst := r.gFirst, gLast := r.gLast, end := r.end,
                                                 gq := h.gq, issued := h.issued, threads := s.threads[t := th]))
  {
    hide TicketInv, Busy, Issued, Enqueue;
    var k, h := TicketsOf(s), Ticketed(s, s.h, t, tr, r.end, level, th.pc.AwaitingWrite?);
    if !h.misused && !h.strayed {
      assert Th(s, t) == H(k, t);
      if WantsWrite(s.d, level) {
        NotBusy(s, tr);
        TicketIssued(k, tr, r.end, t, th);
        IssuedIsEnqueue(s, tr, r.end, t, th.pc.AwaitingWrite?);
      } else {
        TicketThread(k, t, th, r.end);
      }
    }
  }

  lemma NotBusy(s: State, tr: Trid)
    ensures Busy(TicketsOf(s), tr) == InUse(s, tr)
  {
  }

  lemma TicketsAdd(s: State, t: Tid, tr: Trid, msg: seq<char>, level: Level)
    requires Enabled(s, AddMsg(t, tr, msg, level)) && |s.h.dropped| == LEVELS && |s.h.lost| == LEVELS
    requires TicketsInv(s)
    ensures TicketsInv(DoAdd(s, t, tr, msg, level))
  {
    hide InsertMessage, Enqueue, Passes, DoAdd, ReportOf, TicketInv;
    if s.d.last == None && Passes(s.d, msg) {
      AddInserts(s, t, tr, msg, level);
      InsertIssues(s.d, tr, s.d.skipped, msg, level);
      var r := InsertMessage(s.d, tr, s.d.skipped, msg, level);
      var a := DoAdd(s, t, tr, msg, level);
      TicketsInserted(s, t, tr, level, a.threads[t], r);
    } else {
      AddQuiet(s, t, tr, msg, level);
      if !s.h.misused && !s.h.strayed {
        TicketThread(TicketsOf(s), t, Thread(AwaitingSpace, tr, msg, level), s.d.end);
      }
    }
  }

  lemma TicketsRetry(s: State, t: Tid)
    requires Enabled(s, Retry(t)) && |s.h.lost| == LEVELS && TicketsInv(s) && MessageOk(Th(s, t).msg)
    ensures TicketsInv(DoRetry(s, t))
  {
    hide InsertMessage, Enqueue, Passes, Fits, DoRetry, ReportOf, Plus, TicketInv;
    var th, c := Th(s, t), NodeOf(s.d, t).ctrs;
    if !Passes(s.d, th.msg) {
      RetryParks(s, t);
      if !s.h.misused && !s.h.strayed {
        TicketThread(TicketsOf(s), t, th.(pc := AwaitingSpace), s.d.end);
      }
    } else if Fits(s.d, c, th.msg) {
      RetryInserts(s, t);
      InsertIssues(s.d, th.tr, c, th.msg, th.level);
      TicketsInserted(s, t, th.tr, th.level, th.(pc := HandingOn), InsertMessage(s.d, th.tr, c, th.msg, th.level));
    } else {
      RetryStops(s, t);
    }
  }

  lemma TicketsWriter(s: State, step: Step)
    requires Enabled(s, step) && ByWriter(step) && |s.h.dropped| == LEVELS && |s.h.lost| == LEVELS
    requires TicketsInv(s) && (s.writer.Writing? ==> s.writer.from == s.d.start)
    ensures TicketsInv(Do(s, step))
  {
    hide DoAdd, DoRetry, DoHandOn, DoWakeUp, Slice, NodeOf, TicketInv;
    if !s.h.misused && !s.h.strayed {
      var k := TicketsOf(s);
      TicketLists(k);
      match step
      case Snapshot => TicketsDetached(k);
      case Advance => TicketsWritten(k);
      case Release => TicketReleased(k, s.writer.next);
      case ReadNext => LinkRead(k, s.writer.node);
      case _ =>
    }
  }

  lemma TicketLists(k: Tickets)
    requires TicketInv(k)
    ensures ListsOk(k)
  {
  }

  /** Every step keeps the tickets in order, as long as no node is queued or destroyed while
      in use and the writer reads the right links. */
  lemma TicketsStep(s: State, step: Step)
    requires Enabled(s, step) && |s.h.dropped| == LEVELS && |s.h.lost| == LEVELS
    requires TicketsInv(s) && PaceContext(s)
    ensures TicketsInv(Do(s, step))
  {
    hide DoAdd, DoRetry, DoSnapshot, DoEmit, DoAdvance, DoRelease, DoSignal, TicketInv;
    var k := TicketsOf(s);
    match step
    case AddMsg(t, tr, msg, level) => TicketsAdd(s, t, tr, msg, level);
    case Retry(t) => TicketsRetry(s, t);
    case Attach(_) =>
    case Detach(_) =>
    case WriteConfirmed(t) => if !s.h.misused && !s.h.strayed { assert Th(s, t) == H(k, t); TicketRedeemed(k, t); }
    case WakeUp(t) => if !s.h.misused && !s.h.strayed { assert Th(s, t) == H(k, t); TicketThread(k, t, Th(s, t).(pc := Retrying), s.d.end); }
    case HandOn(t) => if !s.h.misused && !s.h.strayed { assert Th(s, t) == H(k, t); TicketThread(k, t, Th(s, t).(pc := Idle), s.d.end); }
    case CheckTermination =>
    case _ => TicketsWriter(s, step);
  }
}

/** Rules for callers under which a logger with a critical message returns only once the
    message is written (src/log.cpp:144-154, 297-316, 345-381). */
module LogRules {
  import opened LogText
  import opened LogRing
  import opened LogProtocol
  import opened LogBaton
  import opened LogPace
  import opened LogTickets

  /** What keeps the writer from reading the link of a node that was queued again. */
  datatype Rule =
    /** no node is queued between its release and the reading of its link */
    | Unread
    /** one transport alone carries critical messages */
    | Solo(only: Trid)

  ghost predicate NobodyAwaits(s: State, tr: Trid) {
    forall u: Tid :: Th(s, u).pc.AwaitingWrite? ==> Th(s, u).tr != tr
  }

  /** The five clauses of the rules. */
  datatype Clause =
    /** a critical message is logged on a transport on which nobody awaits a write */
    | OwnNode
    /** a critical message is logged when it can be inserted at once */
    | AtOnce
    /** nobody enters the terminating phase */
    | StayOpen
    /** a critical message leaves the link that the writer is to read alone */
    | KeepLink
    /** no transport is destroyed before the writer has read its link */
    | KeepNode

  ghost predicate Keeps(s: State, step: Step, rule: Rule, clause: Clause) {
    var critical := step.AddMsg? && step.level <= s.d.critLevel;
    match clause
    case OwnNode => critical ==> NobodyAwaits(s, step.tr)
    case AtOnce => critical ==> s.d.last == None && Passes(s.d, step.msg)
    case StayOpen => !step.EnterTerminating?
    case KeepLink => critical ==> if rule.Unread? then ReadingOf(s.writer) != Some(step.tr) else step.tr == rule.only
    case KeepNode => step.Detach? ==> ReadingOf(s.writer) != Some(step.tr)
  }

  ghost predicate Orderly(s: State, step: Step, rule: Rule) {
    && Keeps(s, step, rule, OwnNode) && Keeps(s, step, rule, AtOnce) && Keeps(s, step, rule, StayOpen)
    && Keeps(s, step, rule, KeepLink) && Keeps(s, step, rule, KeepNode)
  }

  /** All clauses but one. */
  ghost predicate OrderlyBut(s: State, step: Step, waived: Clause) {
    forall clause | clause != waived :: Keeps(s, step, Unread, clause)
  }

  datatype Rules = Rules(k: Tickets, critLevel: nat, action: Action)

  function RulesOf(s: State): Rules { Rules(TicketsOf(s), s.d.critLevel, s.d.action) }

  /** A logger that is not in the ring yet carries no critical message. */
  ghost predicate OrderlyThread(r: Rules, t: Tid) {
    H(r.k, t).pc == AwaitingSpace || H(r.k, t).pc == Retrying ==> H(r.k, t).level > r.critLevel
  }

  /** Nodes are only queued by loggers that wait on them. */
  ghost predicate AllWait(k: Tickets) {
    forall tr | tr in k.issued :: k.issued[tr].waits
  }

  ghost predicate RuleKept(k: Tickets, rule: Rule) {
    match rule
    case Unread => k.reading.Some? ==> k.reading.value !in k.gq
    case Solo(only) => forall tr | tr in k.gq || tr in k.gl :: tr == only
  }

  ghost predicate OrderlyInv(r: Rules, rule: Rule) {
    && r.action != ProceedToTermination
    && (forall t: Tid :: OrderlyThread(r, t))
    && AllWait(r.k) && RuleKept(r.k, rule)
  }

  ghost predicate OrderlyState(s: State, rule: Rule) {
    && !s.h.misused && !s.h.strayed
    && TicketInv(TicketsOf(s)) && OrderlyInv(RulesOf(s), rule)
  }

  /** A node in use has its logger waiting on it. */
  lemma BusyIsAwaited(s: State, tr: Trid, rule: Rule)
    requires OrderlyState(s, rule) && Busy(TicketsOf(s), tr)
    ensures exists u: Tid :: u in s.threads && Th(s, u).pc.AwaitingWrite? && Th(s, u).tr == tr
  {
    var k := TicketsOf(s);
    assert NodeOk(k, tr);
    var u := k.issued[tr].holder;
    assert AwaitsOn(k, u, tr, k.issued[tr].end);
    assert H(k, u) == Th(s, u);
  }

  lemma OrderlyThreads(r: Rules, t: Tid, th: Thread, k: Tickets, rule: Rule)
    requires OrderlyInv(r, rule) && k.threads == r.k.threads[t := th]
    requires th.pc == AwaitingSpace || th.pc == Retrying ==> th.level > r.critLevel
    requires AllWait(k) && RuleKept(k, rule)
    ensures OrderlyInv(r.(k := k), rule)
  {
    forall u: Tid ensures OrderlyThread(r.(k := k), u) {
      assert OrderlyThread(r, u);
    }
  }

  lemma OrderlyFrame(r: Rules, r': Rules, rule: Rule)
    requires OrderlyInv(r, rule) && r'.k.threads == r.k.threads && r'.critLevel == r.critLevel
    requires r'.action != ProceedToTermination && AllWait(r'.k) && RuleKept(r'.k, rule)
    ensures OrderlyInv(r', rule)
  {
    forall u: Tid ensures OrderlyThread(r', u) {
      assert OrderlyThread(r, u);
    }
  }

  lemma IssuedRules(k: Tickets, tr: Trid, end: nat, t: Tid, rule: Rule)
    requires AllWait(k) && RuleKept(k, rule)
    requires match rule case Unread => k.reading != Some(tr) case Solo(only) => tr == only
    ensures AllWait(Issued(k, tr, end, t, true)) && RuleKept(Issued(k, tr, end, t, true), rule)
  {
  }

  lemma SameRules(k: Tickets, a: Tickets, rule: Rule)
    requires AllWait(k) && RuleKept(k, rule)
    requires a.issued == k.issued && a.gq == k.gq && a.gl == k.gl && a.reading == k.reading
    ensures AllWait(a) && RuleKept(a, rule)
  {
  }

  lemma OrderlyParts(s: State, rule: Rule)
    requires OrderlyState(s, rule)
    ensures AllWait(TicketsOf(s)) && RuleKept(TicketsOf(s), rule) && s.d.action != ProceedToTermination
  {
  }

  lemma OrderlyAdd(s: State, t: Tid, tr: Trid, msg: seq<char>, level: Level, rule: Rule)
    requires Enabled(s, AddMsg(t, tr, msg, level)) && |s.h.dropped| == LEVELS && |s.h.lost| == LEVELS
    requires OrderlyState(s, rule) && Orderly(s, AddMsg(t, tr, msg, level), rule)
    ensures var a := DoAdd(s, t, tr, msg, level);
            !a.h.misused && !a.h.strayed && OrderlyInv(RulesOf(a), rule)
  {
    hide InsertMessage, Enqueue, Passes, DoAdd, ReportOf, TicketInv, OrderlyInv, Busy, Issued, AllWait, RuleKept;
    var k, a := TicketsOf(s), DoAdd(s, t, tr, msg, level);
    OrderlyParts(s, rule);
    if s.d.last == None && Passes(s.d, msg) {
      AddInserts(s, t, tr, msg, level);
      InsertIssues(s.d, tr, s.d.skipped, msg, level);
      NotBusy(s, tr);
      if WantsWrite(s.d, level) {
        if Busy(k, tr) { BusyIsAwaited(s, tr, rule); }
        IssuedIsEnqueue(s, tr, a.d.end, t, true);
        IssuedRules(k, tr, a.d.end, t, rule);
        IssuedFrame(k, tr, a.d.end, t, true);
        SameRules(Issued(k, tr, a.d.end, t, true), TicketsOf(a), rule);
      } else {
        SameRules(k, TicketsOf(a), rule);
      }
      OrderlyThreads(RulesOf(s), t, a.threads[t], TicketsOf(a), rule);
    } else {
      AddQuiet(s, t, tr, msg, level);
      SameRules(k, TicketsOf(a), rule);
      if level < s.d.skipLevel {
        OrderlyThreads(RulesOf(s), t, a.threads[t], TicketsOf(a), rule);
      } else {
        OrderlyFrame(RulesOf(s), RulesOf(a), rule);
      }
    }
  }

  lemma OrderlyRetry(s: State, t: Tid, rule: Rule)
    requires Enabled(s, Retry(t)) && |s.h.lost| == LEVELS && OrderlyState(s, rule)
    ensures var a := DoRetry(s, t);
            !a.h.misused && !a.h.strayed && OrderlyInv(RulesOf(a), rule)
  {
    hide InsertMessage, Enqueue, Passes, Fits, DoRetry, ReportOf, Plus, TicketInv, OrderlyInv, AllWait, RuleKept;
    var th, c := Th(s, t), NodeOf(s.d, t).ctrs;
    var k, a := TicketsOf(s), DoRetry(s, t);
    OrderlyParts(s, rule);
    OrderlyQueued(s, t, rule);
    if !Passes(s.d, th.msg) {
      RetryParks(s, t);
    } else if Fits(s.d, c, th.msg) {
      RetryInserts(s, t);
      InsertIssues(s.d, th.tr, c, th.msg, th.level);
    } else {
      RetryStops(s, t);
    }
    SameRules(k, TicketsOf(a), rule);
    if a.threads == s.threads {
      OrderlyFrame(RulesOf(s), RulesOf(a), rule);
    } else {
      OrderlyThreads(RulesOf(s), t, a.threads[t], TicketsOf(a), rule);
    }
  }

  lemma OrderlyQueued(s: State, t: Tid, rule: Rule)
    requires OrderlyInv(RulesOf(s), rule) && (Th(s, t).pc == Retrying || Th(s, t).pc == AwaitingSpace)
    ensures !WantsWrite(s.d, Th(s, t).level) && Th(s, t).level > s.d.critLevel
  {
    assert OrderlyThread(RulesOf(s), t);
    assert H(TicketsOf(s), t) == Th(s, t);
  }

  /** A logger that moves on without queueing a node. */
  lemma OrderlyMoves(s: State, t: Tid, pc: Pc, a: State, rule: Rule)
    requires OrderlyState(s, rule) && pc != AwaitingSpace
    requires pc == Retrying ==> Th(s, t).pc == AwaitingSpace
    requires a.threads == WithPc(s, t, pc) && a.d.critLevel == s.d.critLevel && a.d.action == s.d.action
    requires a.h.issued == s.h.issued && a.h.gq == s.h.gq && a.h.gl == s.h.gl && a.writer == s.writer
    ensures OrderlyInv(RulesOf(a), rule)
  {
    hide TicketInv, OrderlyInv, AllWait, RuleKept;
    OrderlyParts(s, rule);
    if pc == Retrying { OrderlyQueued(s, t, rule); }
    SameRules(TicketsOf(s), TicketsOf(a), rule);
    OrderlyThreads(RulesOf(s), t, Th(s, t).(pc := pc), TicketsOf(a), rule);
  }

  lemma OrderlyDetach(s: State, tr: Trid, rule: Rule)
    requires Enabled(s, Detach(tr)) && OrderlyState(s, rule) && Orderly(s, Detach(tr), rule)
    ensures !PointedTo(s, tr)
  {
    if Busy(TicketsOf(s), tr) { BusyIsAwaited(s, tr, rule); }
  }

  /** The link the writer reads is the right one. */
  lemma OrderlyReads(k: Tickets, n: Trid, rule: Rule)
    requires TicketInv(k) && RuleKept(k, rule) && k.reading == Some(n)
    ensures G(k, n).next == Head(k.gl)
  {
    LinkRead(k, n);
    assert k.gq == [] || k.gq[|k.gq| - 1] in k.gq;
    assert k.gl == [] || k.gl[0] in k.gl;
  }

  lemma OrderlyWriter(s: State, step: Step, rule: Rule)
    requires Enabled(s, step) && (ByWriter(step) || step.CheckTermination?) && |s.h.dropped| == LEVELS && |s.h.lost| == LEVELS
    requires OrderlyState(s, rule) && Orderly(s, step, rule)
    ensures var a := Do(s, step);
            !a.h.misused && !a.h.strayed && OrderlyInv(RulesOf(a), rule)
  {
    hide DoAdd, DoRetry, DoHandOn, DoWakeUp, Slice, NodeOf, TicketInv, OrderlyInv;
    OrderlyParts(s, rule);
    TicketLists(TicketsOf(s));
    if step.ReadNext? { OrderlyReads(TicketsOf(s), s.writer.node, rule); }
    OrderlyFrame(RulesOf(s), RulesOf(Do(s, step)), rule);
  }

  /** Orderly callers keep every node with its logger, and the writer on its list. */
  lemma OrderlyStep(s: State, step: Step, rule: Rule)
    requires Enabled(s, step) && |s.h.dropped| == LEVELS && |s.h.lost| == LEVELS
    requires OrderlyState(s, rule) && Orderly(s, step, rule) && PaceContext(s)
    ensures OrderlyState(Do(s, step), rule)
  {
    hide DoAdd, DoRetry, DoSnapshot, DoEmit, DoAdvance, DoRelease, DoReadNext, DoSignal, DoCheckTermination, TicketInv, OrderlyInv;
    TicketsStep(s, step);
    match step
    case AddMsg(t, tr, msg, level) => OrderlyAdd(s, t, tr, msg, level, rule);
    case Retry(t) => OrderlyRetry(s, t, rule);
    case WriteConfirmed(t) => OrderlyMoves(s, t, Idle, Do(s, step), rule);
    case WakeUp(t) => OrderlyMoves(s, t, Retrying, Do(s, step), rule);
    case HandOn(t) => OrderlyMoves(s, t, Idle, Do(s, step), rule);
    case Attach(_) =>
    case Detach(tr) => OrderlyDetach(s, tr, rule);
    case _ => OrderlyWriter(s, step, rule);
  }
}

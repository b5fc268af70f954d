/** Where skipped messages are accounted for (src/log.cpp:287-297, 335-338, 355-358, 406). */
module LogSkips {
  import opened LogText
  import opened LogRing
  import opened LogProtocol
  import opened LogBaton

  /** The part of a state that counts drops. */
  datatype Books = Books(skipped: Counters, nodes: map<Tid, Node>, queue: seq<Tid>,
                         dropped: seq<nat>, lost: seq<nat>, records: seq<Record>, skipLevel: nat)

  function BooksOf(s: State): Books {
    Books(s.d.skipped, s.d.nodes, s.h.queue, s.h.dropped, s.h.lost, s.h.records, s.d.skipLevel)
  }

  /** Messages of level l that the reports in the stream admit to. */
  function Reported(records: seq<Record>, l: Level): nat {
    if records == [] then 0 else
      var last := records[|records| - 1];
      Reported(records[..|records| - 1], l) + if last.Report? && |last.ctr| == LEVELS then last.ctr[l] else 0
  }

  function CtrOf(nodes: map<Tid, Node>, t: Tid, l: Level): nat {
    if t in nodes && |nodes[t].ctrs.ctr| == LEVELS then nodes[t].ctrs.ctr[l] else 0
  }

  /** Drops charged to the blocked loggers' own counters. */
  function QueueSum(nodes: map<Tid, Node>, queue: seq<Tid>, l: Level): nat {
    if queue == [] then 0 else CtrOf(nodes, queue[0], l) + QueueSum(nodes, queue[1..], l)
  }

  ghost predicate Balanced(b: Books, l: Level)
    requires |b.dropped| == LEVELS && |b.lost| == LEVELS && |b.skipped.ctr| == LEVELS
  {
    && b.dropped[l] == Reported(b.records, l) + b.skipped.ctr[l] + QueueSum(b.nodes, b.queue, l) + b.lost[l]
    && (l < b.skipLevel ==> b.dropped[l] == 0)
  }

  ghost predicate BooksInv(b: Books) {
    && Sound(b.skipped)
    && (forall t | t in b.queue :: t in b.nodes && Sound(b.nodes[t].ctrs))
    && |b.dropped| == LEVELS && |b.lost| == LEVELS
    && Total(b.lost) % WORD == 0
    && forall l: Level :: Balanced(b, l)
  }

  // ---------------------------------------------------------------- sums over the queue

  lemma {:induction false} SumFrame(nodes: map<Tid, Node>, other: map<Tid, Node>, queue: seq<Tid>, l: Level)
    requires forall t | t in queue :: CtrOf(nodes, t, l) == CtrOf(other, t, l)
    ensures QueueSum(nodes, queue, l) == QueueSum(other, queue, l)
  {
    if queue != [] {
      SumFrame(nodes, other, queue[1..], l);
    }
  }

  lemma {:induction false} SumSnoc(nodes: map<Tid, Node>, queue: seq<Tid>, t: Tid, l: Level)
    ensures QueueSum(nodes, queue + [t], l) == QueueSum(nodes, queue, l) + CtrOf(nodes, t, l)
  {
    if queue != [] {
      SumSnoc(nodes, queue[1..], t, l);
      assert (queue + [t])[1..] == queue[1..] + [t];
    } else {
      assert [t][1..] == [];
    }
  }

  /** Only the last node changes. */
  lemma SumLast(nodes: map<Tid, Node>, queue: seq<Tid>, node: Node, l: Level)
    requires queue != [] && Distinct(queue)
    ensures var last := queue[|queue| - 1];
            QueueSum(nodes[last := node], queue, l) + CtrOf(nodes, last, l)
            == QueueSum(nodes, queue, l) + CtrOf(nodes[last := node], last, l)
  {
    var n := |queue| - 1;
    var other := nodes[queue[n] := node];
    assert queue == queue[..n] + [queue[n]];
    SumSnoc(nodes, queue[..n], queue[n], l);
    SumSnoc(other, queue[..n], queue[n], l);
    SumFrame(nodes, other, queue[..n], l);
  }

  lemma ReportedAppend(records: seq<Record>, r: Record, l: Level)
    ensures Reported(records + [r], l)
         == Reported(records, l) + if r.Report? && |r.ctr| == LEVELS then r.ctr[l] else 0
  {
    assert (records + [r])[..|records + [r]| - 1] == records;
  }

  lemma RecordedReports(h: History, c: Counters, t: Tid, msg: seq<char>, l: Level)
    requires |c.ctr| == LEVELS
    ensures Reported(Recorded(h, c, t, msg).records, l)
         == Reported(h.records, l) + if c.full != 0 then c.ctr[l] else 0
  {
    if c.full != 0 {
      ReportedAppend(h.records, Report(c.ctr), l);
      ReportedAppend(h.records + [Report(c.ctr)], Message(t, msg), l);
      assert h.records + [Report(c.ctr)] + [Message(t, msg)] == Recorded(h, c, t, msg).records;
    } else {
      ReportedAppend(h.records, Message(t, msg), l);
      assert h.records + [] == h.records;
    }
  }

  // ---------------------------------------------------------------- each step keeps the books

  /** What one drop does to a counter and to the loss it may cause. */
  lemma DropCounted(c: Counters, level: Level, l: Level)
    requires |c.ctr| == LEVELS
    ensures var before: nat, after: nat := c.ctr[l], Incremented(c, level).ctr[l];
            after + (if l == level && before == WORD - 1 then WORD else 0) == before + if l == level then 1 else 0
  {
  }

  lemma LossBumped(lost: seq<nat>, level: Level, amount: nat)
    requires |lost| == LEVELS && Total(lost) % WORD == 0 && (amount == 0 || amount == WORD)
    ensures Total(Bumped(lost, level, amount)) % WORD == 0
  {
    assert Total(Bumped(lost, level, amount)) == Total(lost) + amount;
  }

  /** A drop charged to the shared counters. */
  lemma BooksShared(b: Books, level: Level)
    requires BooksInv(b) && level >= b.skipLevel
    ensures BooksInv(b.(skipped := Incremented(b.skipped, level), dropped := Bumped(b.dropped, level, 1),
                        lost := Bumped(b.lost, level, if b.skipped.ctr[level] == WORD - 1 then WORD else 0)))
  {
    var after := b.(skipped := Incremented(b.skipped, level), dropped := Bumped(b.dropped, level, 1),
                    lost := Bumped(b.lost, level, if b.skipped.ctr[level] == WORD - 1 then WORD else 0));
    LossBumped(b.lost, level, if b.skipped.ctr[level] == WORD - 1 then WORD else 0);
    forall l: Level ensures Balanced(after, l) {
      assert Balanced(b, l);
      DropCounted(b.skipped, level, l);
    }
  }

  /** A drop charged to the node that nextToAdd points to. */
  lemma BooksLast(b: Books, level: Level)
    requires BooksInv(b) && level >= b.skipLevel && b.queue != [] && Distinct(b.queue)
    ensures var last := b.queue[|b.queue| - 1];
            var c := b.nodes[last].ctrs;
            BooksInv(b.(nodes := b.nodes[last := b.nodes[last].(ctrs := Incremented(c, level))],
                        dropped := Bumped(b.dropped, level, 1),
                        lost := Bumped(b.lost, level, if c.ctr[level] == WORD - 1 then WORD else 0)))
  {
    var last := b.queue[|b.queue| - 1];
    var c := b.nodes[last].ctrs;
    var node := b.nodes[last].(ctrs := Incremented(c, level));
    var after := b.(nodes := b.nodes[last := node], dropped := Bumped(b.dropped, level, 1),
                    lost := Bumped(b.lost, level, if c.ctr[level] == WORD - 1 then WORD else 0));
    LossBumped(b.lost, level, if c.ctr[level] == WORD - 1 then WORD else 0);
    forall l: Level ensures Balanced(after, l) {
      assert Balanced(b, l);
      DropCounted(c, level, l);
      SumLast(b.nodes, b.queue, node, l);
    }
  }

  /** Nodes may change in any way that keeps the counters of the queued ones. */
  lemma BooksNodes(b: Books, nodes: map<Tid, Node>)
    requires BooksInv(b)
    requires forall t | t in b.queue :: t in nodes && nodes[t].ctrs == b.nodes[t].ctrs
    ensures BooksInv(b.(nodes := nodes))
  {
    forall l: Level ensures Balanced(b.(nodes := nodes), l) {
      assert Balanced(b, l);
      SumFrame(b.nodes, nodes, b.queue, l);
    }
  }

  lemma BooksJoin(b: Books, t: Tid)
    requires BooksInv(b) && t in b.nodes && b.nodes[t].ctrs == NO_SKIPS
    ensures BooksInv(b.(queue := b.queue + [t]))
  {
    forall l: Level ensures Balanced(b.(queue := b.queue + [t]), l) {
      assert Balanced(b, l);
      SumSnoc(b.nodes, b.queue, t, l);
    }
  }

  /** A report from the shared counters. */
  lemma BooksReport(s: State, t: Tid, msg: seq<char>)
    requires BooksInv(BooksOf(s))
    ensures BooksInv(BooksOf(s).(skipped := AfterReport(s.d.skipped), records := Recorded(s.h, s.d.skipped, t, msg).records))
  {
    hide Reported, Recorded, QueueSum;
    var b := BooksOf(s);
    var after := b.(skipped := AfterReport(s.d.skipped), records := Recorded(s.h, s.d.skipped, t, msg).records);
    forall l: Level ensures Balanced(after, l) {
      assert Balanced(b, l);
      RecordedReports(s.h, s.d.skipped, t, msg, l);
    }
  }

  /** The head of the queue leaves with a report of its own counters. */
  lemma BooksLeave(s: State, t: Tid, msg: seq<char>)
    requires BooksInv(BooksOf(s)) && s.h.queue != [] && s.h.queue[0] == t && Distinct(s.h.queue)
    ensures var c := s.d.nodes[t].ctrs;
            BooksInv(BooksOf(s).(queue := s.h.queue[1..], records := Recorded(s.h, c, t, msg).records,
                                 lost := if c.full != 0 then s.h.lost else Plus(s.h.lost, c.ctr)))
  {
    hide Recorded, Reported;
    var b, c := BooksOf(s), s.d.nodes[t].ctrs;
    var after := b.(queue := s.h.queue[1..], records := Recorded(s.h, c, t, msg).records,
                    lost := if c.full != 0 then s.h.lost else Plus(s.h.lost, c.ctr));
    assert Total(Plus(s.h.lost, c.ctr)) == Total(s.h.lost) + Total(c.ctr);
    forall l: Level ensures Balanced(after, l) {
      assert Balanced(b, l);
      RecordedReports(s.h, c, t, msg, l);
      assert QueueSum(b.nodes, b.queue, l) == CtrOf(b.nodes, t, l) + QueueSum(b.nodes, b.queue[1..], l);
    }
  }

  // ---------------------------------------------------------------- on the whole machine

  lemma BatonQueue(b: Baton)
    requires BatonInv(b)
    ensures Distinct(b.queue)
    ensures b.last == if b.queue == [] then None else Some(b.queue[|b.queue| - 1])
  {
  }

  lemma BooksAdd(s: State, t: Tid, tr: Trid, msg: seq<char>, level: Level)
    requires Enabled(s, AddMsg(t, tr, msg, level)) && |s.h.dropped| == LEVELS && |s.h.lost| == LEVELS
    requires BooksInv(BooksOf(s)) && BatonInv(BatonOf(s))
    ensures BooksInv(BooksOf(DoAdd(s, t, tr, msg, level)))
  {
    hide BooksInv, BatonInv, InsertMessage, Passes, DoAdd, ReportOf;
    BatonRenew(BatonOf(s), t);
    var nodes := s.d.nodes[t := FRESH_NODE];
    if s.d.last == None && Passes(s.d, msg) {
      AddInserts(s, t, tr, msg, level);
      BooksReport(s, t, msg);
      BooksNodes(BooksOf(s).(skipped := AfterReport(s.d.skipped), records := Recorded(s.h, s.d.skipped, t, msg).records),
                 nodes);
    } else {
      QueueHasNodes(BooksOf(s));
      BooksNodes(BooksOf(s), nodes);
      BooksQuiet(s, t, tr, msg, level);
    }
  }

  lemma BooksQuiet(s: State, t: Tid, tr: Trid, msg: seq<char>, level: Level)
    requires Enabled(s, AddMsg(t, tr, msg, level)) && |s.h.dropped| == LEVELS && |s.h.lost| == LEVELS
    requires s.d.last.Some? || !Passes(s.d, msg)
    requires BooksInv(BooksOf(s).(nodes := s.d.nodes[t := FRESH_NODE]))
    requires BatonInv(BatonOf(s)) && t !in s.h.queue
    ensures BooksInv(BooksOf(DoAdd(s, t, tr, msg, level)))
  {
    hide BooksInv, BatonInv, InsertMessage, Passes, Incremented, Bumped, Recorded;
    BatonQueue(BatonOf(s));
    PassesSame(s.d, s.d.nodes[t := FRESH_NODE], msg);
    var b := BooksOf(s).(nodes := s.d.nodes[t := FRESH_NODE]);
    QueueHasNodes(b);
    if level >= s.d.skipLevel {
      if s.d.last.Some? {
        BooksLast(b, level);
      } else {
        BooksShared(b, level);
      }
    } else {
      var after := BooksOf(DoAdd(s, t, tr, msg, level));
      BooksNodes(b, after.nodes);
      BooksJoin(b.(nodes := after.nodes), t);
    }
  }

  lemma QueueHasNodes(b: Books)
    requires BooksInv(b)
    ensures forall t | t in b.queue :: t in b.nodes && Sound(b.nodes[t].ctrs)
  {
  }

  lemma BooksRetry(s: State, t: Tid)
    requires Enabled(s, Retry(t)) && |s.h.dropped| == LEVELS && |s.h.lost| == LEVELS
    requires BooksInv(BooksOf(s)) && BatonInv(BatonOf(s))
    ensures BooksInv(BooksOf(DoRetry(s, t)))
  {
    hide BooksInv, BatonInv, InsertMessage, Passes, Fits, Plus, ReportOf, DoRetry;
    var th, c := Th(s, t), NodeOf(s.d, t).ctrs;
    BatonPark(BatonOf(s), t);
    BatonQueue(BatonOf(s));
    QueueHasNodes(BooksOf(s));
    if !Passes(s.d, th.msg) {
      RetryParks(s, t);
    } else if Fits(s.d, c, th.msg) {
      RetryInserts(s, t);
      BooksLeave(s, t, th.msg);
      var left := BooksOf(s).(queue := s.h.queue[1..], records := Recorded(s.h, c, t, th.msg).records,
                              lost := if c.full != 0 then s.h.lost else Plus(s.h.lost, c.ctr));
      BooksNodes(left, BooksOf(DoRetry(s, t)).nodes);
    } else {
      RetryStops(s, t);
    }
  }

  /** Every step keeps the books: per level, what was dropped is what the reports in the
      stream admit to, plus what the shared and the queued counters still hold. */
  lemma BooksStep(s: State, step: Step)
    requires Enabled(s, step) && |s.h.dropped| == LEVELS && |s.h.lost| == LEVELS
    requires BooksInv(BooksOf(s)) && BatonInv(BatonOf(s))
    ensures BooksInv(BooksOf(Do(s, step)))
  {
    hide BooksInv, BatonInv, DoAdd, DoRetry;
    QueueHasNodes(BooksOf(s));
    var after := Do(s, step);
    match step
    case AddMsg(t, tr, msg, level) => BooksAdd(s, t, tr, msg, level);
    case Retry(t) => BooksRetry(s, t);
    case WakeUp(_) => BooksNodes(BooksOf(s), after.d.nodes);
    case HandOn(_) => BooksNodes(BooksOf(s), after.d.nodes);
    case Signal => BooksNodes(BooksOf(s), after.d.nodes);
    case _ => assert BooksOf(after) == BooksOf(s);
  }

  lemma {:induction false} TotalOfSums(b: Books)
    requires BooksInv(b)
    ensures Total(b.lost) <= Total(b.dropped)
  {
    forall l: Level ensures b.lost[l] <= b.dropped[l] {
      assert Balanced(b, l);
    }
  }

  /** Skip conservation. Counters wrap at 32 bits, so it is exact as long as fewer than
      2^32 messages were dropped in all; no message below levelCouldBeSkipped ever is. */
  lemma SkipConservation(b: Books, l: Level)
    requires BooksInv(b)
    ensures l < b.skipLevel ==> b.dropped[l] == 0
    ensures Total(b.dropped) < WORD ==>
              b.dropped[l] == Reported(b.records, l) + b.skipped.ctr[l] + QueueSum(b.nodes, b.queue, l)
  {
    assert Balanced(b, l);
    TotalOfSums(b);
    if Total(b.dropped) < WORD {
      assert Total(b.lost) == 0;
    }
  }
}

/** The queue of blocked loggers and the baton that lets its head insert
    (src/log.cpp:123-127, 166-173, 332-369, 383-428). */
module LogBaton {
  import opened LogText
  import opened LogRing
  import opened LogProtocol

  /** The part of a state that the baton protocol reads and writes. */
  datatype Baton = Baton(nodes: map<Tid, Node>, first: Option<Tid>, last: Option<Tid>,
                         threads: map<Tid, Thread>, held: Option<Tid>,
                         queue: seq<Tid>, token: Token, skipLevel: nat)

  function HeldBy(w: Writer): Option<Tid> {
    match w
    case Writing(_, _, _, p, _) => p
    case Releasing(_, p) => p
    case Reading(_, p) => p
    case Signalling(waiter) => Some(waiter)
    case _ => None
  }

  function BatonOf(s: State): Baton {
    Baton(s.d.nodes, s.d.first, s.d.last, s.threads, HeldBy(s.writer), s.h.queue, s.h.token, s.d.skipLevel)
  }

  function N(b: Baton, t: Tid): Node { if t in b.nodes then b.nodes[t] else FRESH_NODE }
  function P(b: Baton, t: Tid): Thread { if t in b.threads then b.threads[t] else NO_THREAD }

  ghost predicate Distinct(q: seq<nat>) {
    forall i, j | 0 <= i < j < |q| :: q[i] != q[j]
  }

  ghost predicate LinkOk(b: Baton, i: nat)
    requires i < |b.queue|
  {
    N(b, b.queue[i]).next == if i + 1 < |b.queue| then Some(b.queue[i + 1]) else None
  }

  /** The nodes of the queue form a list that ends in nextToAdd. */
  ghost predicate Linked(b: Baton) {
    && Distinct(b.queue)
    && (forall i: nat | i < |b.queue| :: LinkOk(b, i))
    && b.last == if b.queue == [] then None else Some(b.queue[|b.queue| - 1])
  }

  ghost predicate Waits(b: Baton, t: Tid) {
    t in b.queue && MessageOk(P(b, t).msg) && P(b, t).level < b.skipLevel
  }

  ghost predicate ThreadOk(b: Baton, t: Tid) {
    && (N(b, t).canRun ==> b.token.Woken? && b.queue != [] && t == b.queue[0])
    && match P(b, t).pc
       case AwaitingSpace => Waits(b, t) && !(b.token.Running? && t == b.queue[0])
       case Retrying => Waits(b, t) && b.token.Running? && t == b.queue[0]
       case HandingOn =>
         && t !in b.queue
         && N(b, t).next == if b.token == Passing(t) && b.queue != [] then Some(b.queue[0]) else None
       case _ => t !in b.queue
  }

  /** The token says where the baton is, and it is there. */
  ghost predicate TokenOk(b: Baton) {
    && (b.token == NoToken <==> b.queue == [])
    && b.first == (if b.token == Parked && b.queue != [] then Some(b.queue[0]) else None)
    && b.held == (if b.token == AtWriter && b.queue != [] then Some(b.queue[0]) else None)
    && (b.token.Woken? ==> N(b, b.queue[0]).canRun && P(b, b.queue[0]).pc == AwaitingSpace)
    && (b.token.Running? ==> P(b, b.queue[0]).pc == Retrying)
    && (b.token.Passing? ==> P(b, b.token.sender).pc == HandingOn)
  }

  ghost predicate BatonInv(b: Baton) {
    Linked(b) && TokenOk(b) && forall t: Tid :: ThreadOk(b, t)
  }

  // ---------------------------------------------------------------- each step keeps it

  /** src/log.cpp:328: an idle thread starts over with a fresh node. */
  lemma BatonRenew(b: Baton, t: Tid)
    requires BatonInv(b) && P(b, t).pc == Idle
    ensures t !in b.queue && b.token != Passing(t)
    ensures b.last == if b.queue == [] then None else Some(b.queue[|b.queue| - 1])
    ensures BatonInv(b.(nodes := b.nodes[t := FRESH_NODE]))
  {
    assert ThreadOk(b, t);
    var after := b.(nodes := b.nodes[t := FRESH_NODE]);
    forall u: Tid ensures ThreadOk(after, u) {
      assert ThreadOk(b, u);
    }
    forall i: nat | i < |after.queue| ensures LinkOk(after, i) {
      assert i < |b.queue| ==> LinkOk(b, i);
    }
  }

  /** A thread without the baton may return, or wait for its write. */
  lemma BatonIdle(b: Baton, t: Tid, th: Thread)
    requires BatonInv(b) && t !in b.queue && b.token != Passing(t)
    requires th.pc == Idle || th.pc.AwaitingWrite?
    ensures BatonInv(b.(threads := b.threads[t := th]))
  {
    var after := b.(threads := b.threads[t := th]);
    forall u: Tid ensures ThreadOk(after, u) {
      assert ThreadOk(b, u);
    }
    forall i: nat | i < |after.queue| ensures LinkOk(after, i) {
      assert i < |b.queue| ==> LinkOk(b, i);
    }
  }

  lemma BatonConfirmed(b: Baton, t: Tid)
    requires BatonInv(b) && P(b, t).pc.AwaitingWrite?
    ensures BatonInv(b.(threads := b.threads[t := P(b, t).(pc := Idle)]))
  {
    assert ThreadOk(b, t);
    BatonIdle(b, t, P(b, t).(pc := Idle));
  }

  /** Counters are not part of the protocol. */
  lemma BatonCounters(b: Baton, t: Tid, c: Counters)
    requires BatonInv(b)
    ensures BatonInv(b.(nodes := b.nodes[t := N(b, t).(ctrs := c)]))
  {
    var after := b.(nodes := b.nodes[t := N(b, t).(ctrs := c)]);
    forall u: Tid ensures ThreadOk(after, u) {
      assert ThreadOk(b, u);
    }
    forall i: nat | i < |after.queue| ensures LinkOk(after, i) {
      assert i < |b.queue| ==> LinkOk(b, i);
    }
  }

  /** src/log.cpp:364-366: the first logger that finds no room. */
  lemma BatonStart(b: Baton, t: Tid, th: Thread)
    requires BatonInv(b) && P(b, t).pc == Idle && N(b, t) == FRESH_NODE
    requires th.pc == AwaitingSpace && MessageOk(th.msg) && th.level < b.skipLevel
    requires b.queue == []
    ensures BatonInv(b.(threads := b.threads[t := th], queue := [t], last := Some(t), first := Some(t), token := Parked))
  {
    assert ThreadOk(b, t);
    var after := b.(threads := b.threads[t := th], queue := [t], last := Some(t), first := Some(t), token := Parked);
    forall u: Tid ensures ThreadOk(after, u) {
      assert ThreadOk(b, u);
    }
  }

  /** src/log.cpp:342-343: a logger joins the queue. */
  lemma BatonJoin(b: Baton, t: Tid, th: Thread)
    requires BatonInv(b) && P(b, t).pc == Idle && N(b, t) == FRESH_NODE
    requires th.pc == AwaitingSpace && MessageOk(th.msg) && th.level < b.skipLevel
    requires b.queue != []
    ensures BatonInv(b.(threads := b.threads[t := th], queue := b.queue + [t], last := Some(t),
                        nodes := b.nodes[b.last.value := N(b, b.last.value).(next := Some(t))]))
  {
    assert ThreadOk(b, t);
    var after := b.(threads := b.threads[t := th], queue := b.queue + [t], last := Some(t),
                        nodes := b.nodes[b.last.value := N(b, b.last.value).(next := Some(t))]);
    forall u: Tid ensures ThreadOk(after, u) {
      assert ThreadOk(b, u);
    }
    forall i: nat | i < |after.queue| ensures LinkOk(after, i) {
      assert i < |b.queue| ==> LinkOk(b, i);
    }
  }

  /** src/log.cpp:387-389. */
  lemma BatonWake(b: Baton, t: Tid)
    requires BatonInv(b) && P(b, t).pc == AwaitingSpace && N(b, t).canRun
    ensures b.token.Woken? && b.queue != [] && b.queue[0] == t
    ensures BatonInv(b.(nodes := b.nodes[t := N(b, t).(canRun := false)],
                        threads := b.threads[t := P(b, t).(pc := Retrying)],
                        token := Running(b.token.byWriter)))
  {
    assert ThreadOk(b, t);
    var after := b.(nodes := b.nodes[t := N(b, t).(canRun := false)],
                    threads := b.threads[t := P(b, t).(pc := Retrying)],
                    token := Running(b.token.byWriter));
    forall u: Tid ensures ThreadOk(after, u) {
      assert ThreadOk(b, u);
    }
    forall i: nat | i < |after.queue| ensures LinkOk(after, i) {
      assert i < |b.queue| ==> LinkOk(b, i);
    }
  }

  /** src/log.cpp:396-403: no room yet, the baton is parked again. */
  lemma BatonPark(b: Baton, t: Tid)
    requires BatonInv(b) && P(b, t).pc == Retrying
    ensures b.token.Running? && b.queue != [] && b.queue[0] == t
    ensures BatonInv(b.(first := Some(t), threads := b.threads[t := P(b, t).(pc := AwaitingSpace)], token := Parked))
  {
    assert ThreadOk(b, t);
    var after := b.(first := Some(t), threads := b.threads[t := P(b, t).(pc := AwaitingSpace)], token := Parked);
    forall u: Tid ensures ThreadOk(after, u) {
      assert ThreadOk(b, u);
    }
    forall i: nat | i < |after.queue| ensures LinkOk(after, i) {
      assert i < |b.queue| ==> LinkOk(b, i);
    }
  }

  /** src/log.cpp:406-416: the head inserts and leaves the queue, keeping the baton until
      it has looked at its successor. */
  lemma BatonLeave(b: Baton, t: Tid, c: Counters)
    requires BatonInv(b) && P(b, t).pc == Retrying
    ensures b.token.Running? && b.queue != [] && b.queue[0] == t
    ensures BatonInv(b.(nodes := b.nodes[t := N(b, t).(ctrs := c)],
                        threads := b.threads[t := P(b, t).(pc := HandingOn)],
                        queue := b.queue[1..],
                        last := if b.last == Some(t) then None else b.last,
                        token := if b.queue[1..] == [] then NoToken else Passing(t)))
  {
    assert ThreadOk(b, t) && LinkOk(b, 0);
    var after := b.(nodes := b.nodes[t := N(b, t).(ctrs := c)],
                    threads := b.threads[t := P(b, t).(pc := HandingOn)],
                    queue := b.queue[1..],
                    last := if b.last == Some(t) then None else b.last,
                    token := if b.queue[1..] == [] then NoToken else Passing(t));
    forall u: Tid ensures ThreadOk(after, u) {
      assert ThreadOk(b, u);
      assert u in b.queue <==> u == t || u in b.queue[1..];
    }
    forall i: nat | i < |after.queue| ensures LinkOk(after, i) {
      assert LinkOk(b, i + 1);
    }
  }

  /** src/log.cpp:419-427. */
  lemma BatonPass(b: Baton, t: Tid)
    requires BatonInv(b) && P(b, t).pc == HandingOn
    ensures var home := b.(threads := b.threads[t := P(b, t).(pc := Idle)]);
            && (N(b, t).next == None ==> BatonInv(home))
            && (N(b, t).next.Some? ==>
                  && b.token == Passing(t) && b.queue != [] && N(b, t).next == Some(b.queue[0])
                  && !N(b, b.queue[0]).canRun
                  && BatonInv(home.(nodes := b.nodes[b.queue[0] := N(b, b.queue[0]).(canRun := true)],
                                    token := Woken(false))))
  {
    assert ThreadOk(b, t);
    if N(b, t).next == None {
      BatonIdle(b, t, P(b, t).(pc := Idle));
    } else {
      var h := b.queue[0];
      assert ThreadOk(b, h);
      var after := b.(threads := b.threads[t := P(b, t).(pc := Idle)],
                      nodes := b.nodes[h := N(b, h).(canRun := true)], token := Woken(false));
      forall u: Tid ensures ThreadOk(after, u) {
        assert ThreadOk(b, u);
      }
      forall i: nat | i < |after.queue| ensures LinkOk(after, i) {
        assert LinkOk(b, i);
      }
    }
  }

  /** src/log.cpp:123-127: the writer takes the baton. */
  lemma BatonTake(b: Baton)
    requires BatonInv(b) && b.first.Some? && b.held == None
    ensures b.token == Parked
    ensures BatonInv(b.(first := None, held := b.first, token := AtWriter))
  {
    var after := b.(first := None, held := b.first, token := AtWriter);
    forall u: Tid ensures ThreadOk(after, u) {
      assert ThreadOk(b, u);
    }
    forall i: nat | i < |after.queue| ensures LinkOk(after, i) {
      assert LinkOk(b, i);
    }
  }

  /** src/log.cpp:166-173: the writer wakes the head. */
  lemma BatonSignal(b: Baton)
    requires BatonInv(b) && b.held.Some?
    ensures b.token == AtWriter && b.queue != [] && b.held == Some(b.queue[0]) && !N(b, b.queue[0]).canRun
    ensures BatonInv(b.(held := None, nodes := b.nodes[b.queue[0] := N(b, b.queue[0]).(canRun := true)], token := Woken(true)))
  {
    var h := b.queue[0];
    assert ThreadOk(b, h);
    var after := b.(held := None, nodes := b.nodes[h := N(b, h).(canRun := true)], token := Woken(true));
    forall u: Tid ensures ThreadOk(after, u) {
      assert ThreadOk(b, u);
    }
    forall i: nat | i < |after.queue| ensures LinkOk(after, i) {
      assert i < |b.queue| ==> LinkOk(b, i);
    }
  }

  // ---------------------------------------------------------------- on the whole machine

  lemma BatonAdd(s: State, t: Tid, tr: Trid, msg: seq<char>, level: Level)
    requires Enabled(s, AddMsg(t, tr, msg, level)) && |s.h.dropped| == LEVELS && |s.h.lost| == LEVELS
    requires BatonInv(BatonOf(s))
    ensures BatonInv(BatonOf(DoAdd(s, t, tr, msg, level)))
  {
    hide BatonInv, InsertMessage, Passes, DoAdd, ReportText, Incremented;
    if s.d.last == None && Passes(s.d, msg) {
      var b := BatonOf(s);
      BatonRenew(b, t);
      AddInserts(s, t, tr, msg, level);
      BatonIdle(b.(nodes := b.nodes[t := FRESH_NODE]), t, DoAdd(s, t, tr, msg, level).threads[t]);
    } else if level >= s.d.skipLevel {
      BatonSkips(s, t, tr, msg, level);
    } else {
      BatonQueues(s, t, tr, msg, level);
    }
  }

  lemma BatonSkips(s: State, t: Tid, tr: Trid, msg: seq<char>, level: Level)
    requires Enabled(s, AddMsg(t, tr, msg, level)) && |s.h.dropped| == LEVELS && |s.h.lost| == LEVELS
    requires BatonInv(BatonOf(s)) && (s.d.last.Some? || !Passes(s.d, msg)) && level >= s.d.skipLevel
    ensures BatonInv(BatonOf(DoAdd(s, t, tr, msg, level)))
  {
    hide BatonInv, Incremented, InsertMessage, Passes, Recorded, Ticketed, ReportText;
    var b := BatonOf(s);
    BatonRenew(b, t);
    PassesSame(s.d, s.d.nodes[t := FRESH_NODE], msg);
    if s.d.last.Some? {
      var l := s.d.last.value;
      BatonCounters(b.(nodes := b.nodes[t := FRESH_NODE]), l, Incremented(NodeOf(s.d, l).ctrs, level));
    }
  }

  lemma BatonQueues(s: State, t: Tid, tr: Trid, msg: seq<char>, level: Level)
    requires Enabled(s, AddMsg(t, tr, msg, level)) && |s.h.dropped| == LEVELS && |s.h.lost| == LEVELS
    requires BatonInv(BatonOf(s)) && (s.d.last.Some? || !Passes(s.d, msg)) && level < s.d.skipLevel
    ensures BatonInv(BatonOf(DoAdd(s, t, tr, msg, level)))
  {
    hide BatonInv, Incremented, InsertMessage, Passes, Recorded, Ticketed, ReportText;
    var b := BatonOf(s);
    BatonRenew(b, t);
    PassesSame(s.d, s.d.nodes[t := FRESH_NODE], msg);
    var c := b.(nodes := b.nodes[t := FRESH_NODE]);
    var th := Thread(AwaitingSpace, tr, msg, level);
    if s.d.last.Some? {
      BatonJoin(c, t, th);
    } else {
      BatonStart(c, t, th);
      assert b.queue + [t] == [t];
    }
  }

  lemma BatonRetry(s: State, t: Tid)
    requires Enabled(s, Retry(t)) && |s.h.lost| == LEVELS && BatonInv(BatonOf(s))
    ensures BatonInv(BatonOf(DoRetry(s, t)))
  {
    hide BatonInv, InsertMessage, Passes, Fits, DoRetry, Recorded;
    var b, th, c := BatonOf(s), Th(s, t), NodeOf(s.d, t).ctrs;
    if !Passes(s.d, th.msg) {
      BatonPark(b, t);
      RetryParks(s, t);
    } else if Fits(s.d, c, th.msg) {
      BatonLeave(b, t, AfterReport(c));
      RetryInserts(s, t);
    } else {
      RetryStops(s, t);
    }
  }

  /** Every step of every thread, and of the writer, keeps the baton protocol. */
  lemma BatonStep(s: State, step: Step)
    requires Enabled(s, step) && |s.h.dropped| == LEVELS && |s.h.lost| == LEVELS
    requires BatonInv(BatonOf(s))
    ensures BatonInv(BatonOf(Do(s, step)))
  {
    hide BatonInv, DoAdd, DoRetry;
    var b, after := BatonOf(s), BatonOf(Do(s, step));
    match step
    case AddMsg(t, tr, msg, level) => BatonAdd(s, t, tr, msg, level);
    case WriteConfirmed(t) => BatonConfirmed(b, t);
    case WakeUp(t) => BatonWake(b, t);
    case Retry(t) => BatonRetry(s, t);
    case HandOn(t) => BatonPass(b, t);
    case Snapshot => if TakesWaiter(s.d) { BatonTake(b); }
    case Signal => BatonSignal(b);
    case _ => assert after == b;
  }

  // ---------------------------------------------------------------- what it means

  /** The places a baton can be, read off the program's own variables. */
  datatype Holder = InFirstToRelease | InWriter | InWoken(t: Tid) | InRunning(t: Tid) | InHandover(t: Tid)

  ghost predicate Holds(b: Baton, h: Holder) {
    match h
    case InFirstToRelease => b.first.Some?
    case InWriter => b.held.Some?
    case InWoken(t) => N(b, t).canRun
    case InRunning(t) => P(b, t).pc == Retrying
    case InHandover(t) => P(b, t).pc == HandingOn && N(b, t).next.Some?
  }

  /** nextToAdd is set exactly when there is a baton, there is never more than one, and
      it always concerns the head of the queue. */
  lemma OneBaton(b: Baton)
    requires BatonInv(b)
    ensures b.last.Some? <==> exists h :: Holds(b, h)
    ensures forall g, h | Holds(b, g) && Holds(b, h) :: g == h
    ensures b.first.Some? ==> b.queue != [] && b.first.value == b.queue[0]
    ensures b.held.Some? ==> b.queue != [] && b.held.value == b.queue[0]
    ensures forall t: Tid | N(b, t).canRun || P(b, t).pc == Retrying :: b.queue != [] && b.queue[0] == t
    ensures forall t: Tid | P(b, t).pc == HandingOn && N(b, t).next.Some? :: b.queue != [] && N(b, t).next.value == b.queue[0]
  {
    if b.last.Some? {
      BatonIsHome(b);
    }
    forall h | Holds(b, h) ensures b.last.Some? && h == Home(b) {
      HolderIsHome(b, h);
    }
    forall t: Tid | N(b, t).canRun || P(b, t).pc == Retrying ensures b.queue != [] && b.queue[0] == t {
      assert ThreadOk(b, t);
    }
    forall t: Tid | P(b, t).pc == HandingOn && N(b, t).next.Some?
      ensures b.queue != [] && N(b, t).next.value == b.queue[0]
    {
      assert ThreadOk(b, t);
    }
  }

  lemma BatonIsHome(b: Baton)
    requires BatonInv(b) && b.last.Some?
    ensures b.queue != [] && Holds(b, Home(b))
  {
    if b.token.Passing? {
      assert ThreadOk(b, b.token.sender);
    }
  }

  function Home(b: Baton): Holder
    requires b.queue != []
  {
    match b.token
    case Parked => InFirstToRelease
    case Woken(_) => InWoken(b.queue[0])
    case Running(_) => InRunning(b.queue[0])
    case Passing(t) => InHandover(t)
    case _ => InWriter
  }

  lemma HolderIsHome(b: Baton, h: Holder)
    requires BatonInv(b) && Holds(b, h)
    ensures b.queue != [] && h == Home(b)
  {
    match h
    case InFirstToRelease =>
    case InWriter =>
    case InWoken(t) => assert ThreadOk(b, t);
    case InRunning(t) => assert ThreadOk(b, t);
    case InHandover(t) => assert ThreadOk(b, t);
  }

  /** The assertion of src/log.cpp:334 (a queue implies a parked waiter) holds exactly
      while the baton is parked; it fails once the writer or a logger carries it. */
  lemma ParkedWaiterAssertion(b: Baton)
    requires BatonInv(b) && b.last.Some?
    ensures b.first.Some? <==> forall h | Holds(b, h) :: h == InFirstToRelease
  {
    OneBaton(b);
    BatonIsHome(b);
    if b.first.Some? {
      assert Holds(b, InFirstToRelease);
    }
  }
}

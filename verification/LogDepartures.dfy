/** Runs in which the logger does not do what its comments and assertions promise: each
    departure that LogTheorems bounds by an exact condition does happen. */
module LogDepartures {
  import opened LogText
  import opened LogRing
  import opened LogProtocol
  import opened LogBaton
  import opened LogStream
  import opened LogSkips
  import opened LogPace
  import opened LogTickets
  import opened LogRules
  import opened LogRuns
  import opened LogTheorems
  import opened LogShutdown

  lemma {:induction false} RunExtends(s: State, steps: seq<Step>, step: Step, w: Option<Clause>)
    requires Legal(s, steps) && Enabled(Exec(s, steps), step) && RunBut(s, steps, w)
    requires |Exec(s, steps).h.dropped| == LEVELS && |Exec(s, steps).h.lost| == LEVELS
    requires w.Some? ==> OrderlyBut(Exec(s, steps), step, w.value)
    ensures Legal(s, steps + [step]) && Exec(s, steps + [step]) == Do(Exec(s, steps), step)
    ensures RunBut(s, steps + [step], w)
    decreases |steps|
  {
    hide Enabled, Do, OrderlyBut;
    if steps == [] {
      assert [step][1..] == [];
    } else {
      RunExtends(Do(s, steps[0]), steps[1..], step, w);
      assert (steps + [step])[1..] == steps[1..] + [step];
    }
  }

  /** A run that keeps all rules for callers except, perhaps, one: any run if `w` is None. */
  ghost predicate RunBut(s: State, steps: seq<Step>, w: Option<Clause>)
    requires Legal(s, steps)
    decreases |steps|
  {
    steps != [] && w.Some? ==> OrderlyBut(s, steps[0], w.value) && RunBut(Do(s, steps[0]), steps[1..], w)
  }

  ghost predicate Reached(s: State, w: Option<Clause>) {
    exists s0: State, steps: seq<Step> :: Initial(s0) && Legal(s0, steps) && RunBut(s0, steps, w) && Exec(s0, steps) == s
  }

  lemma AnyRun(s: State)
    requires Reachable(s)
    ensures Reached(s, None)
  {
    hide Initial, Legal, Exec;
    var s0: State, steps: seq<Step> :| Initial(s0) && Legal(s0, steps) && Exec(s0, steps) == s;
    assert RunBut(s0, steps, None);
  }

  lemma Extend(s: State, step: Step, w: Option<Clause> := None) returns (next: State)
    requires Reachable(s) && Enabled(s, step) && (w.Some? ==> Reached(s, w))
    requires w.Some? ==> OrderlyBut(s, step, w.value)
    ensures |s.h.dropped| == LEVELS && |s.h.lost| == LEVELS
    ensures next == Do(s, step) && Reachable(next) && Reached(next, w)
  {
    hide Enabled, Do, Initial, Inv, OrderlyBut;
    ReachableInv(s);
    InvSizes(s);
    assert Reached(s, w) by { if w == None { AnyRun(s); } }
    var s0: State, steps: seq<Step> :| Initial(s0) && Legal(s0, steps) && RunBut(s0, steps, w) && Exec(s0, steps) == s;
    RunExtends(s0, steps, step, w);
    next := Do(s, step);
    assert Exec(s0, steps + [step]) == next;
  }

  // ---------------------------------------------------------------- a ring of four small pages

  const B: nat := 0x4000

  /** The longest message there is. */
  function Long(): (msg: seq<char>)
    ensures |msg| == MAX_MESSAGE - 1
  {
    seq(MAX_MESSAGE - 1, _ => 'x')
  }

  const SHORT: seq<char> := "last"

  /** Two transports, levels as shipped (info may be skipped, fatal is critical); threads
      from `idle` on have not called yet. */
  ghost predicate Scene(s: State, start: nat, end: nat, queue: seq<Tid>, token: Token, writer: Writer, idle: nat,
                        action: Action := Proceed, w: Option<Clause> := None)
  {
    && Reachable(s) && Reached(s, w) && !s.overrun && |s.d.buff| == B
    && s.d.start == start && s.d.end == end && s.d.skipped == NO_SKIPS
    && s.h.queue == queue && s.h.token == token && s.writer == writer
    && s.d.action == action && s.h.live == {0, 1} && s.d.skipLevel == 3 && s.d.critLevel == 0
    && (forall t: Tid | t >= idle :: Th(s, t).pc == Idle)
  }

  ghost predicate NoTickets(s: State) {
    s.d.gFirst == None && s.d.gLast == None && s.h.gq == [] && s.h.gl == [] && s.d.gwws == map[] && !s.h.misused && !s.h.strayed
  }

  lemma Opening(w: Option<Clause> := None) returns (s: State)
    ensures Scene(s, 0, 0, [], NoToken, AtTop, 0, w := w) && NoTickets(s) && s.threads == map[]
  {
    var d := Shared(seq(B, _ => ' '), 0, 0, 0, NO_SKIPS, None, None, None, None, Proceed, 3, map[], map[], 3, 0);
    s := State(d, map[], AtTop, false, EMPTY_HISTORY.(live := {0, 1}));
    assert |{0, 1}| == 2;
    assert Initial(s) && Legal(s, []) && Exec(s, []) == s;
  }

  lemma SceneFacts(s: State)
    requires Reachable(s)
    ensures |s.h.dropped| == LEVELS && |s.h.lost| == LEVELS && BatonInv(BatonOf(s)) && PaceContext(s)
    ensures s.d.last.Some? <==> s.h.queue != []
    ensures s.d.last.Some? ==> s.d.last.value == s.h.queue[|s.h.queue| - 1] && s.d.last.value in s.d.nodes
    ensures forall t | t in s.h.queue :: |NodeOf(s.d, t).ctrs.ctr| == LEVELS && Sound(NodeOf(s.d, t).ctrs)
    ensures forall t | t in s.h.queue :: Th(s, t).pc != Idle
  {
    hide FlowInv, TaleInv, SpotInv, PaceInv, LifeInv, TicketsInv;
    ReachableInv(s);
    ContextHolds(s);
    forall t | t in s.h.queue ensures Th(s, t).pc != Idle {
      assert ThreadOk(BatonOf(s), t);
    }
  }

  /** A message that fits is inserted at once. */
  lemma Insert(s: State, start: nat, end: nat, writer: Writer, t: Tid, w: Option<Clause> := None) returns (n: State)
    requires Scene(s, start, end, [], NoToken, writer, t, w := w) && end + 4095 <= start + B
    ensures Scene(n, start, end + 4095, [], NoToken, writer, t + 1, w := w) && (NoTickets(s) ==> NoTickets(n))
  {
    hide InsertMessage, DoAdd, FlowInv, BatonInv, Inv, Reachable, Reached;
    SceneFacts(s);
    n := Extend(s, AddMsg(t, 0, Long(), 1), w);
    AddInserts(s, t, 0, Long(), 1);
    InsertIssues(s.d, 0, s.d.skipped, Long(), 1);
    forall u: Tid | u >= t + 1 ensures Th(n, u).pc == Idle {
      assert Th(s, u).pc == Idle;
    }
  }

  /** Apart from t, no queued logger has moved and none has been charged. */
  ghost predicate Kept(s: State, n: State, t: Tid) {
    forall u | u in s.h.queue && u != t :: Th(n, u) == Th(s, u) && NodeOf(n.d, u).ctrs == NodeOf(s.d, u).ctrs
  }

  ghost predicate SameTickets(s: State, n: State) {
    && n.d.gFirst == s.d.gFirst && n.d.gLast == s.d.gLast && n.d.gwws == s.d.gwws
    && n.h.gq == s.h.gq && n.h.gl == s.h.gl && n.h.issued == s.h.issued && n.d.mbwi == s.d.mbwi
    && n.h.misused == s.h.misused && n.h.strayed == s.h.strayed && n.h.writes == s.h.writes
  }

  /** A message that must not be skipped joins the queue. */
  lemma Wait(s: State, start: nat, end: nat, queue: seq<Tid>, token: Token, t: Tid, msg: seq<char>, level: Level, w: Option<Clause> := None)
    returns (n: State)
    requires Scene(s, start, end, queue, token, AtTop, t, w := w) && MessageOk(msg) && level < 3
    requires queue != [] || end + |msg| > start + B
    requires level == 0 && w.Some? ==> w == Some(AtOnce) && NobodyAwaits(s, 0)
    ensures Scene(n, start, end, queue + [t], if queue == [] then Parked else token, AtTop, t + 1, w := w)
    ensures Kept(s, n, t) && SameTickets(s, n)
    ensures Th(n, t) == Thread(AwaitingSpace, 0, msg, level) && NodeOf(n.d, t).ctrs == NO_SKIPS
  {
    hide InsertMessage, FlowInv, BatonInv, Inv, Reachable, Reached, Incremented, Do, PaceContext;
    SceneFacts(s);
    LoggersAreFree(s, t, 0, msg, level);
    n := Extend(s, AddMsg(t, 0, msg, level), w);
    DoIsAdd(s, t, 0, msg, level);
    AddQuiet(s, t, 0, msg, level);
    forall u: Tid | u >= t + 1 ensures Th(n, u).pc == Idle {
      assert Th(s, u).pc == Idle;
    }
  }

  lemma DoIsAdd(s: State, t: Tid, tr: Trid, msg: seq<char>, level: Level)
    requires Enabled(s, AddMsg(t, tr, msg, level)) && |s.h.dropped| == LEVELS && |s.h.lost| == LEVELS
    ensures Do(s, AddMsg(t, tr, msg, level)) == DoAdd(s, t, tr, msg, level)
  {
  }

  /** A debug message is dropped and charged to the last node of the queue. */
  lemma Drop(s: State, start: nat, end: nat, queue: seq<Tid>, token: Token, t: Tid) returns (n: State)
    requires Scene(s, start, end, queue, token, AtTop, t) && queue != []
    ensures Scene(n, start, end, queue, token, AtTop, t)
    ensures SameTickets(s, n) && n.threads == s.threads
    ensures var last := queue[|queue| - 1];
            && Kept(s, n, last)
            && |NodeOf(s.d, last).ctrs.ctr| == LEVELS
            && NodeOf(n.d, last).ctrs == Incremented(NodeOf(s.d, last).ctrs, 4)
  {
    hide InsertMessage, FlowInv, BatonInv, Inv, Reachable, Reached, Incremented, Do, PaceContext;
    SceneFacts(s);
    LoggersAreFree(s, t, 0, SHORT, 4);
    n := Extend(s, AddMsg(t, 0, SHORT, 4));
    DoIsAdd(s, t, 0, SHORT, 4);
    AddQuiet(s, t, 0, SHORT, 4);
    forall u: Tid | u >= t ensures Th(n, u).pc == Idle {
      assert Th(s, u).pc == Idle;
    }
  }

  lemma IdleStays(s: State, n: State, idle: nat)
    requires n.threads == s.threads && forall t: Tid | t >= idle :: Th(s, t).pc == Idle
    ensures forall t: Tid | t >= idle :: Th(n, t).pc == Idle
  {
    forall t: Tid | t >= idle ensures Th(n, t).pc == Idle {
      assert Th(s, t).pc == Idle;
    }
  }

  /** The writer wakes and takes its snapshot. */
  lemma SnapshotRound(s: State, start: nat, end: nat, queue: seq<Tid>, token: Token, idle: nat, action: Action := Proceed, w: Option<Clause> := None)
    returns (n: State)
    requires Scene(s, start, end, queue, token, AtTop, idle, action, w := w) && !Sleeps(s.d)
    ensures n.writer == Writing(start, end, 0, if TakesWaiter(s.d) then s.d.first else None, s.d.gFirst)
    ensures Scene(n, start, end, queue, if TakesWaiter(s.d) then AtWriter else token, n.writer, idle, action, w := w)
    ensures n.threads == s.threads && n.d.nodes == s.d.nodes && n.d.gwws == s.d.gwws
    ensures n.h.gq == (if s.d.gFirst.Some? then [] else s.h.gq) && n.h.gl == (if s.d.gFirst.Some? then s.h.gq else [])
    ensures n.d.gFirst == None && n.d.gLast == (if s.d.gFirst.Some? then None else s.d.gLast)
    ensures n.h.misused == s.h.misused && n.h.strayed == s.h.strayed && n.h.writes == s.h.writes
    ensures n.d.mbwi == s.d.mbwi && n.h.issued == s.h.issued && n.d.first == if TakesWaiter(s.d) then None else s.d.first
  {
    hide FlowInv, BatonInv, Inv, Reachable, Reached, PaceContext, DoAdd, DoRetry, Slice;
    SceneFacts(s);
    var a := Extend(s, WriterWakes, w);
    WriterIsFree(a);
    n := Extend(a, Snapshot, w);
    IdleStays(s, n, idle);
  }

  /** The writer writes out what it took and catches up. */
  lemma OutputRound(s: State, start: nat, end: nat, to: nat, queue: seq<Tid>, token: Token, idle: nat, action: Action := Proceed, w: Option<Clause> := None)
    returns (n: State)
    requires s.writer.Writing? && s.writer.done == 0 && s.writer.to == to
    requires Scene(s, start, end, queue, token, Writing(start, to, 0, s.writer.p, s.writer.g), idle, action, w := w)
    ensures n.writer == if s.writer.g.Some? then Releasing(s.writer.g.value, s.writer.p) else AfterRelease(s.writer.p)
    ensures Scene(n, to, end, queue, token, n.writer, idle, action, w := w)
    ensures n == s.(d := s.d.(start := to), writer := n.writer, h := n.h)
    ensures SameTickets(s, n.(h := n.h.(writes := s.h.writes))) && n.h.writes == s.h.writes + [Span(start, to)]
  {
    hide FlowInv, BatonInv, Inv, Reachable, Reached, PaceContext, DoAdd, DoRetry, Slice;
    WriterIsFree(s);
    var c := Extend(s, Emit(WrittenSize(B, start, to)), w);
    WriterIsFree(c);
    n := Extend(c, Advance, w);
    IdleStays(s, n, idle);
  }

  /** A full round for a parked logger that cannot be served yet. */
  lemma WriteRound(s: State, start: nat, end: nat, queue: seq<Tid>, idle: nat, w: Option<Clause> := None) returns (n: State)
    requires Scene(s, start, end, queue, Parked, AtTop, idle, w := w) && NoTickets(s)
    requires start < end && end + MAX_MESSAGE > start + B
    ensures Scene(n, end, end, queue, Parked, AtTop, idle, w := w) && NoTickets(n)
    ensures n.threads == s.threads && n.d.nodes == s.d.nodes
  {
    hide FlowInv, BatonInv, Inv, Reachable, Reached, PaceContext, DoAdd, DoRetry, Slice;
    var a := SnapshotRound(s, start, end, queue, Parked, idle, w := w);
    var b := OutputRound(a, start, end, end, queue, Parked, idle, w := w);
    n := Extend(b, CheckTermination, w);
    IdleStays(s, n, idle);
  }

  /** A round that detaches the parked logger, with nothing to write: the ring is dumped. */
  lemma TakeRound(s: State, at: nat, queue: seq<Tid>, idle: nat, w: Option<Clause> := None) returns (n: State)
    requires Scene(s, at, at, queue, Parked, AtTop, idle, w := w) && NoTickets(s) && queue != []
    ensures Scene(n, at, at, queue, Woken(true), AtTop, idle, w := w) && NoTickets(n)
    ensures n.threads == s.threads && Span(at, at) in n.h.writes
    ensures forall t: Tid :: NodeOf(n.d, t).ctrs == NodeOf(s.d, t).ctrs
    ensures NodeOf(n.d, queue[0]).canRun
  {
    hide FlowInv, Inv, Reachable, Reached, PaceContext, DoAdd, DoRetry, Slice;
    SceneFacts(s);
    var a := SnapshotRound(s, at, at, queue, Parked, idle, w := w);
    var b := OutputRound(a, at, at, at, queue, AtWriter, idle, w := w);
    assert Span(at, at) in b.h.writes;
    n := Extend(b, Signal, w);
    IdleStays(s, n, idle);
  }

  lemma NoneAwaits(s: State)
    requires Reachable(s) && NoTickets(s)
    ensures NobodyAwaits(s, 0)
  {
    hide FlowInv, BatonInv, TaleInv, SpotInv, BooksInv, PaceInv, LifeInv, Reachable;
    ReachableInv(s);
    forall u: Tid ensures !Th(s, u).pc.AwaitingWrite? {
      assert HolderOk(TicketsOf(s), u) && H(TicketsOf(s), u) == Th(s, u);
    }
  }

  /** Four long messages fill the ring but for four bytes; a fifth logger has to wait. */
  lemma Crowded(level: Level, w: Option<Clause> := None) returns (s: State)
    requires level < 3 && (level == 0 && w.Some? ==> w == Some(AtOnce))
    ensures Scene(s, 0, 16380, [4], Parked, AtTop, 5, w := w) && NoTickets(s)
    ensures Th(s, 4) == Thread(AwaitingSpace, 0, Long(), level) && NodeOf(s.d, 4).ctrs == NO_SKIPS
  {
    hide Scene, Reachable, Reached, PaceContext;
    s := Opening(w := w);
    s := Insert(s, 0, 0, AtTop, 0, w := w);
    s := Insert(s, 0, 4095, AtTop, 1, w := w);
    s := Insert(s, 0, 8190, AtTop, 2, w := w);
    s := Insert(s, 0, 12285, AtTop, 3, w := w);
    SceneReachable(s, 0, 16380, [], NoToken, AtTop, 4, w := w);
    NoneAwaits(s);
    s := Wait(s, 0, 16380, [], NoToken, 4, Long(), level, w := w);
    var none: seq<Tid> := [];
    assert none + [4] == [4];
  }

  lemma SceneReachable(s: State, start: nat, end: nat, queue: seq<Tid>, token: Token, writer: Writer, idle: nat,
                       action: Action := Proceed, w: Option<Clause> := None)
    requires Scene(s, start, end, queue, token, writer, idle, action, w)
    ensures Reachable(s)
  {
  }

  /** The log is not always a prefix of the stream: once the ring has been full, all of it
      is written a second time. And nextToAdd can be set with nobody parked (334). */
  lemma LogCanRepeat() returns (s: State)
    ensures Reachable(s) && !s.writer.Writing? && s.d.start <= |s.h.stream|
    ensures s.h.log != s.h.stream[..s.d.start]
    ensures s.d.last.Some? && s.d.first == None
  {
    hide PaceContext, FlowInv, BatonInv, Inv;
    s := Crowded(1);
    s := WriteRound(s, 0, 16380, [4], 5);
    s := TakeRound(s, 16380, [4], 5);
    LogIsPrefix(s);
    SceneFacts(s);
    assert s.d.first == None by { FirstIsParked(s); }
  }

  lemma FirstIsParked(s: State)
    requires PaceContext(s)
    ensures s.d.first.Some? <==> s.h.token == Parked
  {
  }

  /** The head of the queue wakes, inserts ... */
  lemma HeadInserts(s: State, start: nat, end: nat, t: Tid, rest: seq<Tid>, token: Token, idle: nat, w: Option<Clause> := None)
    returns (n: State)
    requires Scene(s, start, end, [t] + rest, token, AtTop, idle, w := w) && token.Woken? && t < idle
    requires Th(s, t).msg == Long() && Th(s, t).tr == 0 && NodeOf(s.d, t).ctrs == NO_SKIPS
    requires NodeOf(s.d, t).canRun && end + 4095 <= start + B
    ensures Scene(n, start, end + 4095, rest, if rest == [] then NoToken else Passing(t), AtTop, idle, w := w)
    ensures n.threads == s.threads[t := Th(s, t).(pc := HandingOn)]
    ensures forall u: Tid :: NodeOf(n.d, u).ctrs == NodeOf(s.d, u).ctrs
    ensures NoTickets(s) ==> if WantsWrite(s.d, Th(s, t).level) then QueuedForNobody(n) else NoTickets(n)
  {
    hide FlowInv, Inv, Reachable, Reached, PaceContext, DoAdd, DoRetry, InsertMessage, BatonInv, QueuedForNobody;
    var h := [t] + rest;
    assert h[0] == t && h[1..] == rest;
    var a := HeadWakes(s, start, end, h, token, t, idle, w := w);
    n := HeadRetries(a, start, end, t, rest, Running(token.byWriter), idle, w := w);
  }

  /** Node 0 is queued, and nobody is going to wait on it. */
  ghost predicate QueuedForNobody(s: State) {
    && s.d.gFirst == Some(0) && s.d.gLast == Some(0) && s.h.gq == [0] && s.h.gl == []
    && s.d.gwws == map[0 := FRESH_GWW] && !s.h.misused && !s.h.strayed
    && 0 in s.h.issued && !s.h.issued[0].waits
  }

  lemma HeadRetries(s: State, start: nat, end: nat, t: Tid, rest: seq<Tid>, token: Token, idle: nat, w: Option<Clause> := None)
    returns (n: State)
    requires Scene(s, start, end, [t] + rest, token, AtTop, idle, w := w) && t < idle
    requires Th(s, t) == Thread(Retrying, 0, Long(), Th(s, t).level) && NodeOf(s.d, t).ctrs == NO_SKIPS
    requires end + 4095 <= start + B
    ensures Scene(n, start, end + 4095, rest, if rest == [] then NoToken else Passing(t), AtTop, idle, w := w)
    ensures n.threads == s.threads[t := Th(s, t).(pc := HandingOn)]
    ensures forall u: Tid :: NodeOf(n.d, u).ctrs == NodeOf(s.d, u).ctrs
    ensures NoTickets(s) ==> if WantsWrite(s.d, Th(s, t).level) then QueuedForNobody(n) else NoTickets(n)
  {
    hide FlowInv, Inv, Reachable, Reached, PaceContext, DoAdd, DoRetry, InsertMessage, BatonInv;
    assert ([t] + rest)[1..] == rest;
    LoggersAreFree(s, t, 0, Long(), 1);
    n := Extend(s, Retry(t), w);
    RetryInserts(s, t);
    InsertIssues(s.d, 0, NO_SKIPS, Long(), Th(s, t).level);
    forall u: Tid | u >= idle ensures Th(n, u).pc == Idle {
      assert Th(s, u).pc == Idle;
    }
  }

  lemma HeadWakes(s: State, start: nat, end: nat, queue: seq<Tid>, token: Token, t: Tid, idle: nat, w: Option<Clause> := None) returns (n: State)
    requires Scene(s, start, end, queue, token, AtTop, idle, w := w) && token.Woken? && t < idle && NodeOf(s.d, t).canRun
    ensures Scene(n, start, end, queue, Running(token.byWriter), AtTop, idle, w := w) && SameTickets(s, n)
    ensures n.threads == s.threads[t := Th(s, t).(pc := Retrying)]
    ensures forall u: Tid :: NodeOf(n.d, u).ctrs == NodeOf(s.d, u).ctrs
  {
    hide FlowInv, Inv, Reachable, Reached, PaceContext, DoAdd, DoRetry, InsertMessage, BatonInv;
    SceneFacts(s);
    HeadWaits(s, t);
    n := Extend(s, WakeUp(t), w);
    forall u: Tid | u >= idle ensures Th(n, u).pc == Idle {
      assert Th(s, u).pc == Idle;
    }
  }

  lemma HeadWaits(s: State, t: Tid)
    requires BatonInv(BatonOf(s)) && NodeOf(s.d, t).canRun
    ensures Th(s, t).pc == AwaitingSpace
  {
    assert ThreadOk(BatonOf(s), t);
    assert P(BatonOf(s), t) == Th(s, t) && N(BatonOf(s), t) == NodeOf(s.d, t);
  }

  /** It then looks at its successor, wakes it if there is one, and returns. */
  lemma HeadReturns(s: State, start: nat, end: nat, t: Tid, rest: seq<Tid>, idle: nat, w: Option<Clause> := None) returns (n: State)
    requires Scene(s, start, end, rest, if rest == [] then NoToken else Passing(t), AtTop, idle, w := w)
    requires Th(s, t).pc == HandingOn && t < idle
    ensures Scene(n, start, end, rest, if rest == [] then NoToken else Woken(false), AtTop, idle, w := w)
    ensures n.threads == s.threads[t := Th(s, t).(pc := Idle)] && SameTickets(s, n)
    ensures forall u: Tid :: NodeOf(n.d, u).ctrs == NodeOf(s.d, u).ctrs
    ensures rest != [] ==> NodeOf(n.d, rest[0]).canRun
  {
    hide FlowInv, Inv, Reachable, Reached, PaceContext, DoAdd, DoRetry, InsertMessage, BatonInv;
    SceneFacts(s);
    BatonPass(BatonOf(s), t);
    SuccessorIs(BatonOf(s), t);
    n := Extend(s, HandOn(t), w);
    forall u: Tid | u >= idle ensures Th(n, u).pc == Idle {
      assert Th(s, u).pc == Idle;
    }
  }

  lemma SuccessorIs(b: Baton, t: Tid)
    requires BatonInv(b) && P(b, t).pc == HandingOn
    ensures N(b, t).next == if b.token == Passing(t) && b.queue != [] then Some(b.queue[0]) else None
  {
    assert ThreadOk(b, t);
  }

  /** A logger can return although its critical message has not been written. */
  ghost predicate ReturnsEarly(s: State, t: Tid) {
    && Reachable(s) && Enabled(s, WriteConfirmed(t)) && Th(s, t).level == s.d.critLevel == 0
    && Th(s, t).pc.ticket > s.d.start && Th(s, t).pc.ticket > |s.h.good|
  }

  /** A critical message that had to wait leaves its node queued although nobody waits on
      it, and the writer releases the node: the assertion at src/log.cpp:301 fails at the
      next critical message. */
  lemma ReleasedForNobody() returns (s: State)
    ensures Scene(s, 20475, 20475, [], NoToken, AtTop, 5, w := Some(AtOnce)) && Th(s, 4).pc == Idle
    ensures s.d.gFirst == s.d.gLast == None && GwwOf(s.d, 0) == Gww(None, true)
    ensures Reachable(s) && Enabled(s, AddMsg(4, 0, SHORT, 0)) && WantsWrite(s.d, 0) && Passes(s.d, SHORT)
    ensures NobodyAwaits(s, 0)
  {
    hide PaceContext, FlowInv, BatonInv, Inv, DoAdd, DoRetry, InsertMessage, Slice, Enqueue, Reached, Reachable;
    var w := Some(AtOnce);
    s := Crowded(0, w);
    s := WriteRound(s, 0, 16380, [4], 5, w);
    s := TakeRound(s, 16380, [4], 5, w);
    assert [4] == [4] + [];
    s := HeadInserts(s, 16380, 16380, 4, [], Woken(true), 5, w);
    s := HeadReturns(s, 16380, 20475, 4, [], 5, w);
    s := ReleaseRound(s, 16380, 20475, 5, w);
    NotAwaited(s, 0);
    LoggersAreFree(s, 4, 0, SHORT, 0);
  }

  lemma NotAwaited(s: State, tr: Trid)
    requires Reachable(s) && !s.h.misused && !s.h.strayed && tr in s.h.issued && !s.h.issued[tr].waits
    ensures NobodyAwaits(s, tr)
  {
    hide FlowInv, BatonInv, TaleInv, SpotInv, BooksInv, PaceInv, LifeInv, Reachable;
    ReachableInv(s);
    forall u: Tid | Th(s, u).pc.AwaitingWrite? ensures Th(s, u).tr != tr {
      assert HolderOk(TicketsOf(s), u) && H(TicketsOf(s), u) == Th(s, u);
    }
  }

  /** The writer puts the message out and releases the node nobody waits on. */
  lemma ReleaseRound(s: State, start: nat, end: nat, idle: nat, w: Option<Clause> := None) returns (n: State)
    requires Scene(s, start, end, [], NoToken, AtTop, idle, w := w) && start < end
    requires s.d.gFirst == Some(0) && s.d.gLast == Some(0) && s.h.gq == [0] && s.h.gl == [] && s.d.gwws == map[0 := FRESH_GWW]
    ensures Scene(n, end, end, [], NoToken, AtTop, idle, w := w) && n.threads == s.threads
    ensures n.d.gFirst == n.d.gLast == None && GwwOf(n.d, 0) == Gww(None, true)
    ensures n.h.issued == s.h.issued && n.h.misused == s.h.misused && n.h.strayed == s.h.strayed
  {
    hide FlowInv, Inv, Reachable, Reached, PaceContext, BatonInv;
    assert s.h.gq == [0] + [];
    var a := FirstReleased(s, start, end, 0, [], idle, w := w);
    n := WriterFinishes(a, end, end, 0, idle, w := w);
  }

  // ---------------------------------------------------------------- every rule is needed

  /** A message that is to be written for certain is inserted at once, and its node queued. */
  lemma Guarantee(s: State, start: nat, end: nat, writer: Writer, t: Tid, tr: Trid, level: Level, idle: nat,
                  action: Action := Proceed, w: Option<Clause> := None) returns (n: State)
    requires Scene(s, start, end, [], NoToken, writer, idle, action, w) && t < idle && Th(s, t).pc == Idle && tr <= 1
    requires end + 4 <= start + B && WantsWrite(s.d, level) && level <= 1
    requires level == 0 && w.Some? && w != Some(OwnNode) ==> NobodyAwaits(s, tr)
    requires level == 0 && w.Some? && w != Some(KeepLink) ==> ReadingOf(writer) != Some(tr)
    ensures Scene(n, start, end + 4, [], NoToken, writer, idle, action, w)
    ensures var e := Enqueue(s.d, tr); n.d.gwws == e.gwws && n.d.gFirst == e.gFirst && n.d.gLast == e.gLast && n.d.mbwi == end + 4
    ensures n.threads == s.threads[t := Thread(if level == 0 then AwaitingWrite(end + 4) else Idle, tr, SHORT, level)]
    ensures n.h.gq == s.h.gq + [tr] && n.h.gl == s.h.gl && n.h.strayed == s.h.strayed
    ensures n.h.misused == (s.h.misused || InUse(s, tr))
  {
    hide InsertMessage, DoAdd, FlowInv, BatonInv, Inv, Reachable, Reached, Enqueue;
    SceneFacts(s);
    LoggersAreFree(s, t, tr, SHORT, level);
    n := Extend(s, AddMsg(t, tr, SHORT, level), w);
    AddInserts(s, t, tr, SHORT, level);
    InsertIssues(s.d, tr, s.d.skipped, SHORT, level);
    EnqueueMoves(s.d, tr, s.d.skipped, SHORT, level);
    forall u: Tid | u >= idle ensures Th(n, u).pc == Idle {
      assert Th(s, u).pc == Idle;
    }
  }

  /** The writer detaches the queue, writes, and releases the first node. */
  lemma FirstReleased(s: State, start: nat, end: nat, tr: Trid, rest: seq<Trid>, idle: nat,
                      action: Action := Proceed, w: Option<Clause> := None) returns (n: State)
    requires Scene(s, start, end, [], NoToken, AtTop, idle, action, w) && start < end
    requires s.d.gFirst == Some(tr) && s.h.gq == [tr] + rest
    ensures Scene(n, end, end, [], NoToken, Reading(tr, None), idle, action, w) && n.threads == s.threads
    ensures n.d.gwws == s.d.gwws[tr := GwwOf(s.d, tr).(canRun := true)] && n.d.gFirst == n.d.gLast == None
    ensures n.h.gq == [] && n.h.gl == rest && n.h.misused == s.h.misused && n.h.strayed == s.h.strayed
    ensures n.h.issued == s.h.issued && n.d.mbwi == s.d.mbwi
  {
    hide FlowInv, Inv, Reachable, Reached, PaceContext, DoAdd, DoRetry, BatonInv, Slice;
    SceneFacts(s);
    FirstIsParked(s);
    var a := SnapshotRound(s, start, end, [], NoToken, idle, action, w);
    var b := OutputRound(a, start, end, end, [], NoToken, idle, action, w);
    n := Extend(b, Release, w);
    IdleStays(s, n, idle);
  }

  /** The writer finds no further node and goes back to the top. */
  lemma WriterFinishes(s: State, start: nat, end: nat, tr: Trid, idle: nat,
                       action: Action := Proceed, w: Option<Clause> := None) returns (n: State)
    requires Scene(s, start, end, [], NoToken, Reading(tr, None), idle, action, w)
    requires GwwOf(s.d, tr).next == None && action != TerminationAllowed
    ensures Scene(n, start, end, [], NoToken, AtTop, idle, action, w)
    ensures n == s.(writer := AtTop, h := s.h.(strayed := s.h.strayed || s.h.gl != []))
  {
    hide FlowInv, Inv, Reachable, Reached, PaceContext, DoAdd, DoRetry, BatonInv, Slice;
    var a := Extend(s, ReadNext, w);
    n := Extend(a, CheckTermination, w);
    IdleStays(s, n, idle);
  }

  /** A logger whose node was released returns. */
  lemma Confirms(s: State, start: nat, end: nat, writer: Writer, t: Tid, idle: nat, w: Option<Clause> := None) returns (n: State)
    requires Scene(s, start, end, [], NoToken, writer, idle, w := w) && t < idle && Enabled(s, WriteConfirmed(t))
    ensures Scene(n, start, end, [], NoToken, writer, idle, w := w)
    ensures n == s.(d := SetGwwCanRun(s.d, Th(s, t).tr, false), threads := WithPc(s, t, Idle))
  {
    hide FlowInv, Inv, Reachable, Reached, PaceContext, DoAdd, DoRetry, BatonInv, Slice;
    n := Extend(s, WriteConfirmed(t), w);
    forall u: Tid | u >= idle ensures Th(n, u).pc == Idle {
      assert Th(s, u).pc == Idle;
    }
  }

  /** OwnNode: two threads share a transport; the second finds the first one's canRun. */
  lemma SharedTransport() returns (s: State)
    ensures ReturnsEarly(s, 1) && Reached(s, Some(OwnNode))
  {
    hide FlowInv, Inv, Reachable, Reached, PaceContext, BatonInv;
    var w := Some(OwnNode);
    s := Opening(w);
    s := Guarantee(s, 0, 0, AtTop, 0, 0, 0, 2, w := w);
    assert s.h.gq == [0] + [];
    s := FirstReleased(s, 0, 4, 0, [], 2, w := w);
    s := WriterFinishes(s, 4, 4, 0, 2, w := w);
    s := Guarantee(s, 4, 4, AtTop, 1, 0, 0, 2, w := w);
    GoodSize(s);
  }

  /** AtOnce: a critical message that had to wait has left its node released. */
  lemma GuaranteeCanFail() returns (s: State)
    ensures ReturnsEarly(s, 4) && Reached(s, Some(AtOnce))
  {
    hide FlowInv, Inv, Reachable, Reached, PaceContext, BatonInv;
    s := ReleasedForNobody();
    s := Guarantee(s, 20475, 20475, AtTop, 4, 0, 0, 5, w := Some(AtOnce));
    GoodSize(s);
  }

  /** StayOpen: in the terminating phase every message queues a node, most with no one waiting. */
  lemma TerminatingPhase() returns (s: State)
    ensures ReturnsEarly(s, 0) && Reached(s, Some(StayOpen))
  {
    hide FlowInv, Inv, Reachable, Reached, PaceContext, BatonInv;
    var w, action := Some(StayOpen), ProceedToTermination;
    var s0 := Opening(w);
    s := Extend(s0, EnterTerminating, w);
    IdleStays(s0, s, 0);
    s := Guarantee(s, 0, 0, AtTop, 0, 0, 1, 2, action, w);
    assert s.h.gq == [0] + [];
    s := FirstReleased(s, 0, 4, 0, [], 2, action, w);
    s := WriterFinishes(s, 4, 4, 0, 2, action, w);
    s := Guarantee(s, 4, 4, AtTop, 0, 0, 0, 2, action, w);
    GoodSize(s);
  }

  /** The writer has released node 0; its logger returns and logs the next critical message
      before the writer reads the link (src/log.cpp:150-151). */
  lemma Requeued(more: bool) returns (s: State)
    ensures Scene(s, if more then 8 else 4, if more then 12 else 8, [], NoToken, Reading(0, None), 2, w := Some(KeepLink))
    ensures s.h.gq == [0] && s.h.gl == (if more then [1] else []) && !s.h.misused && !s.h.strayed
    ensures s.d.gFirst == s.d.gLast == Some(0) && GwwOf(s.d, 0) == FRESH_GWW && !GwwOf(s.d, 1).canRun
    ensures s.d.mbwi == s.d.end && (!more ==> NobodyAwaits(s, 1))
    ensures Th(s, 1) == if more then Thread(AwaitingWrite(8), 1, SHORT, 0) else NO_THREAD
  {
    hide FlowInv, Inv, Reachable, Reached, PaceContext, BatonInv;
    var w := Some(KeepLink);
    s := Opening(w);
    s := Guarantee(s, 0, 0, AtTop, 0, 0, 0, 2, w := w);
    var at := if more then 8 else 4;
    if more { s := Guarantee(s, 0, 4, AtTop, 1, 1, 0, 2, w := w); }
    var rest := if more then [1] else [];
    assert s.h.gq == [0] + rest;
    s := FirstReleased(s, 0, at, 0, rest, 2, w := w);
    s := Confirms(s, at, at, Reading(0, None), 0, 2, w := w);
    s := Guarantee(s, at, at, Reading(0, None), 0, 0, 0, 2, w := w);
  }

  /** KeepLink: another critical message follows; the writer walks into the new queue and
      releases that message's logger. */
  lemma WrongLink() returns (s: State)
    ensures ReturnsEarly(s, 1) && Reached(s, Some(KeepLink)) && !s.h.misused
  {
    hide FlowInv, Inv, Reachable, Reached, PaceContext, BatonInv;
    var w := Some(KeepLink);
    s := Requeued(false);
    s := Guarantee(s, 4, 8, Reading(0, None), 1, 1, 0, 2, w := w);
    s := Extend(s, ReadNext, w);
    s := Extend(s, Release, w);
    GoodSize(s);
  }

  /** Or the writer finds its list cut short: the nodes behind are never released, and it
      sleeps while their loggers wait. */
  lemma ListCutShort() returns (s: State)
    ensures Reachable(s) && Reached(s, Some(KeepLink)) && !s.h.misused
    ensures s.writer == AtTop && Sleeps(s.d) && !s.overrun
    ensures Th(s, 1).pc.AwaitingWrite? && !Enabled(s, WriteConfirmed(1))
  {
    hide FlowInv, Inv, Reachable, Reached, PaceContext, BatonInv;
    var w := Some(KeepLink);
    s := Requeued(true);
    s := WriterFinishes(s, 8, 12, 0, 2, w := w);
    assert s.h.gq == [0] + [];
    s := FirstReleased(s, 8, 12, 0, [], 2, w := w);
    s := WriterFinishes(s, 12, 12, 0, 2, w := w);
    SceneFacts(s);
    FirstIsParked(s);
  }

  /** KeepNode: a transport is destroyed and the writer still has to read its link. */
  lemma DestroyedNodeIsRead() returns (s: State)
    ensures Reachable(s) && Reached(s, Some(KeepNode))
    ensures Enabled(s, ReadNext) && s.writer.node !in s.h.live
  {
    hide FlowInv, Inv, Reachable, Reached, PaceContext, BatonInv;
    var w := Some(KeepNode);
    s := Opening(w);
    s := Guarantee(s, 0, 0, AtTop, 0, 0, 0, 2, w := w);
    assert s.h.gq == [0] + [];
    s := FirstReleased(s, 0, 4, 0, [], 2, w := w);
    s := Confirms(s, 4, 4, Reading(0, None), 0, 2, w := w);
    References(s);
    s := Extend(s, Detach(0), w);
  }

  lemma References(s: State)
    requires Reachable(s) && s.h.live == {0, 1} && s.writer != Stopped
    ensures s.d.refCounter == 3
  {
    ReachableInv(s);
    assert |{0, 1}| == 2;
  }

  /** No clause of the rules can be spared: leaving out any one of the first four lets a
      logger return early, leaving out the last lets the writer read a destroyed node. */
  lemma EveryClauseIsNeeded(clause: Clause) returns (s: State, t: Tid)
    ensures Reachable(s) && Reached(s, Some(clause))
    ensures if clause == KeepNode then Enabled(s, ReadNext) && s.writer.node !in s.h.live else ReturnsEarly(s, t)
  {
    hide Reachable, Reached;
    match clause
    case OwnNode => s := SharedTransport(); t := 1;
    case AtOnce => s := GuaranteeCanFail(); t := 4;
    case StayOpen => s := TerminatingPhase(); t := 0;
    case KeepLink => s := WrongLink(); t := 1;
    case KeepNode => s := DestroyedNodeIsRead(); t := 0;
  }

  lemma GoodSize(s: State)
    requires Reachable(s) && !s.writer.Writing?
    ensures |s.h.good| == s.d.start
  {
    ReachableInv(s);
    LogIsStreamPrefix(FlowOf(s));
  }

  // ---------------------------------------------------------------- no way out

  /** Termination is allowed when all is written and the last transport is gone: the
      writer thread never ends. */
  lemma TerminationCanHang() returns (s: State)
    ensures Reachable(s) && !s.overrun && s.d.action == TerminationAllowed && Stuck(s) && !CanStop(s)
  {
    hide FlowInv, Inv, Reachable, Reached, PaceContext, BatonInv, CanStop;
    s := Opening();
    References(s);
    s := Extend(s, Detach(0));
    s := Extend(s, Detach(1));
    s := Extend(s, AllowTermination);
    ReachableInv(s);
    assert s.h.live == {};
    CannotStop(s);
  }

  // ---------------------------------------------------------------- the wrong counters

  /** What the overrun run keeps about its queue: loggers 4 to 7 with long messages and
      nothing charged, logger 8 with a short one and one drop to report. */
  ghost predicate InConvoy(s: State, t: Tid) {
    && Th(s, t).tr == 0 && Th(s, t).level == 1
    && Th(s, t).msg == (if t < 8 then Long() else SHORT)
    && (if t < 8 then NodeOf(s.d, t).ctrs == NO_SKIPS else OneSkip(NodeOf(s.d, t).ctrs))
  }

  predicate OneSkip(c: Counters) {
    |c.ctr| == LEVELS && c.full == 1 && c.ctr[4] == 1
  }

  lemma FirstSkip(c: Counters)
    requires c == NO_SKIPS
    ensures OneSkip(Incremented(c, 4))
  {
  }

  ghost predicate Convoy(s: State) {
    forall t | t in s.h.queue :: InConvoy(s, t)
  }

  lemma ConvoyQueues() returns (s: State)
    ensures Scene(s, 0, 16380, [4, 5, 6, 7, 8], Parked, AtTop, 9) && NoTickets(s)
    ensures forall t | 4 <= t <= 8 ::
              Th(s, t).tr == 0 && Th(s, t).level == 1 && NodeOf(s.d, t).ctrs == NO_SKIPS
              && Th(s, t).msg == if t < 8 then Long() else SHORT
  {
    hide Scene, Reachable, Reached, PaceContext, FlowInv, BatonInv, Inv;
    s := Crowded(1);
    SceneQueue(s, 0, 16380, [4], Parked, 5);
    s := Wait(s, 0, 16380, [4], Parked, 5, Long(), 1);
    assert [4] + [5] == [4, 5];
    SceneQueue(s, 0, 16380, [4, 5], Parked, 6);
    s := Wait(s, 0, 16380, [4, 5], Parked, 6, Long(), 1);
    assert [4, 5] + [6] == [4, 5, 6];
    SceneQueue(s, 0, 16380, [4, 5, 6], Parked, 7);
    s := Wait(s, 0, 16380, [4, 5, 6], Parked, 7, Long(), 1);
    assert [4, 5, 6] + [7] == [4, 5, 6, 7];
    SceneQueue(s, 0, 16380, [4, 5, 6, 7], Parked, 8);
    s := Wait(s, 0, 16380, [4, 5, 6, 7], Parked, 8, SHORT, 1);
    assert [4, 5, 6, 7] + [8] == [4, 5, 6, 7, 8];
  }

  lemma ConvoyGathers() returns (s: State)
    ensures Scene(s, 16380, 16380, [4, 5, 6, 7, 8], Woken(true), AtTop, 9) && NoTickets(s) && Convoy(s)
    ensures NodeOf(s.d, 4).canRun
  {
    hide Scene, Reachable, Reached, PaceContext, FlowInv, BatonInv, Inv, Incremented;
    var queue: seq<Tid> := [4, 5, 6, 7, 8];
    var d := ConvoyQueues();
    SceneQueue(d, 0, 16380, queue, Parked, 9);
    var e := Drop(d, 0, 16380, queue, Parked, 9);
    FirstSkip(NodeOf(d.d, 8).ctrs);
    SceneQueue(e, 0, 16380, queue, Parked, 9);
    var f := WriteRound(e, 0, 16380, queue, 9);
    s := TakeRound(f, 16380, queue, 9);
    SceneQueue(s, 16380, 16380, queue, Woken(true), 9);
  }

  lemma SceneQueue(s: State, start: nat, end: nat, queue: seq<Tid>, token: Token, idle: nat)
    requires Scene(s, start, end, queue, token, AtTop, idle)
    ensures s.h.queue == queue
  {
  }

  /** One logger of the convoy inserts and wakes the next. */
  lemma ConvoyMoves(s: State, end: nat, t: Tid, rest: seq<Tid>, token: Token) returns (n: State)
    requires Scene(s, 16380, end, [t] + rest, token, AtTop, 9) && token.Woken? && NoTickets(s) && Convoy(s)
    requires NodeOf(s.d, t).canRun && t < 8 && end + 4095 <= 16380 + B && rest != [] && t !in rest
    ensures Scene(n, 16380, end + 4095, rest, Woken(false), AtTop, 9) && NoTickets(n) && Convoy(n)
    ensures NodeOf(n.d, rest[0]).canRun
  {
    hide Reachable, Reached, PaceContext, FlowInv, BatonInv, Inv, Incremented;
    assert t in [t] + rest;
    assert forall u | u in rest :: u in [t] + rest;
    var a := HeadInserts(s, 16380, end, t, rest, token, 9);
    n := HeadReturns(a, 16380, end + 4095, t, rest, 9);
  }

  /** The space assertion on the retry path (src/log.cpp:273) can fail. */
  lemma RetryCanOverrun() returns (s: State, t: Tid)
    ensures Reachable(s) && Enabled(s, Retry(t)) && |s.h.lost| == LEVELS && DoRetry(s, t).overrun
  {
    hide Scene, Reachable, Reached, PaceContext, FlowInv, BatonInv, Inv, Incremented, DoRetry, Convoy;
    s := ConvoyGathers();
    assert [4, 5, 6, 7, 8] == [4] + [5, 6, 7, 8];
    s := ConvoyMoves(s, 16380, 4, [5, 6, 7, 8], Woken(true));
    assert [5, 6, 7, 8] == [5] + [6, 7, 8];
    s := ConvoyMoves(s, 20475, 5, [6, 7, 8], Woken(false));
    assert [6, 7, 8] == [6] + [7, 8];
    s := ConvoyMoves(s, 24570, 6, [7, 8], Woken(false));
    assert [7, 8] == [7] + [8];
    s := ConvoyMoves(s, 28665, 7, [8], Woken(false));
    s := LastOverruns(s);
    t := 8;
  }

  lemma LastOverruns(s: State) returns (n: State)
    requires Scene(s, 16380, 32760, [8], Woken(false), AtTop, 9) && Convoy(s) && NodeOf(s.d, 8).canRun
    ensures Reachable(n) && Enabled(n, Retry(8)) && |n.h.lost| == LEVELS && DoRetry(n, 8).overrun
  {
    hide Reachable, Reached, PaceContext, FlowInv, BatonInv, Inv, DoRetry, Convoy;
    SceneFacts(s);
    HeadWaits(s, 8);
    n := Extend(s, WakeUp(8));
    LoggersAreFree(n, 8, 0, SHORT, 1);
    SceneFacts(n);
    LastOfConvoy(s);
    var c := NodeOf(n.d, 8).ctrs;
    ReportFits(c);
    var l: Level := 4;
    assert c.ctr[l] == 1;
    OverrunExactly(n, 8);
  }

  lemma LastOfConvoy(s: State)
    requires Convoy(s) && s.h.queue == [8]
    ensures Th(s, 8).msg == SHORT && OneSkip(NodeOf(s.d, 8).ctrs)
  {
    assert 8 in s.h.queue;
  }

  // ---------------------------------------------------------------- both at one snapshot

  /** A critical message that fits: its node is queued. */
  lemma InsertCritical(s: State, start: nat, end: nat, writer: Writer, t: Tid) returns (n: State)
    requires Scene(s, start, end, [], NoToken, writer, t) && NoTickets(s) && end + 4095 <= start + B
    ensures Scene(n, start, end + 4095, [], NoToken, writer, t + 1) && n.d.gFirst == Some(0)
  {
    hide InsertMessage, DoAdd, FlowInv, BatonInv, Inv, Reachable, Reached;
    SceneFacts(s);
    LoggersAreFree(s, t, 0, Long(), 0);
    n := Extend(s, AddMsg(t, 0, Long(), 0));
    AddInserts(s, t, 0, Long(), 0);
    InsertIssues(s.d, 0, s.d.skipped, Long(), 0);
    forall u: Tid | u >= t + 1 ensures Th(n, u).pc == Idle {
      assert Th(s, u).pc == Idle;
    }
  }

  /** With no queue and no room, a debug message is charged to the shared counters. */
  lemma DropShared(s: State, writer: Writer, t: Tid) returns (n: State)
    requires Scene(s, 0, 16380, [], NoToken, writer, t)
    ensures Reachable(n) && n.d.skipped.full == 1 && n.d == s.d.(skipped := n.d.skipped, nodes := n.d.nodes)
    ensures n.writer == writer && n.h.queue == [] && n.threads == s.threads && n.h.live == {0, 1} && !n.overrun
  {
    hide InsertMessage, FlowInv, BatonInv, Inv, Reachable, Do, PaceContext;
    SceneFacts(s);
    LoggersAreFree(s, t, 0, Long(), 4);
    n := Extend(s, AddMsg(t, 0, Long(), 4));
    DoIsAdd(s, t, 0, Long(), 4);
  }

  /** A piece of the ring has been written and released, the rest is full but for one long
      message, and there is a skip to report: a long message just misses. */
  lemma JustMisses() returns (s: State)
    ensures Reachable(s) && !s.overrun && s.writer == Deciding && |s.d.buff| == B && s.d.start == 4095 && s.d.end == 16380
    ensures s.d.skipped.full == 1 && s.d.gFirst == Some(0) && s.h.queue == [] && s.h.live == {0, 1}
    ensures s.d.skipLevel == 3 && s.d.action == Proceed && Th(s, 5).pc == Idle
  {
    hide FlowInv, BatonInv, Inv, Reachable, Reached, PaceContext, DoAdd, DoRetry, Slice;
    var w := Writing(0, 4095, 0, None, None);
    s := MidWrite();
    s := Insert(s, 0, 4095, w, 1);
    s := Insert(s, 0, 8190, w, 2);
    s := InsertCritical(s, 0, 12285, w, 3);
    assert Th(s, 5).pc == Idle;
    s := DropShared(s, w, 4);
    s := WriteCatchesUp(s);
  }

  lemma MidWrite() returns (s: State)
    ensures Scene(s, 0, 4095, [], NoToken, Writing(0, 4095, 0, None, None), 1) && NoTickets(s)
  {
    hide FlowInv, BatonInv, Inv, Reachable, Reached, PaceContext;
    s := Opening();
    s := Insert(s, 0, 0, AtTop, 0);
    SceneFacts(s);
    FirstIsParked(s);
    s := SnapshotRound(s, 0, 4095, [], NoToken, 1);
  }

  lemma WriteCatchesUp(s: State) returns (n: State)
    requires Reachable(s) && !s.overrun && |s.d.buff| == B && s.writer == Writing(0, 4095, 0, None, None)
    ensures Reachable(n) && !n.overrun && n.writer == Deciding && n.d == s.d.(start := 4095)
    ensures n.threads == s.threads && n.h.queue == s.h.queue && n.h.live == s.h.live
  {
    hide FlowInv, BatonInv, Inv, Reachable, Reached, PaceContext, DoAdd, DoRetry, Slice;
    WriterIsFree(s);
    n := Extend(s, Emit(4095));
    WriterIsFree(n);
    n := Extend(n, Advance);
  }

  /** The assertion at src/log.cpp:134 can fail: a snapshot that finds a guaranteed write
      and takes a parked logger as well. */
  lemma SnapshotCanTakeBoth() returns (s: State)
    ensures Reachable(s) && Enabled(s, Snapshot)
    ensures DoSnapshot(s).writer.p.Some? && DoSnapshot(s).writer.g.Some?
  {
    hide FlowInv, BatonInv, Inv, Reachable, Reached, PaceContext, InsertMessage, Do;
    s := JustMisses();
    SceneFacts(s);
    LoggersAreFree(s, 5, 0, Long(), 1);
    var a := Extend(s, AddMsg(5, 0, Long(), 1));
    DoIsAdd(s, 5, 0, Long(), 1);
    assert a.d.first == Some(5) && a.writer == Deciding;
    s := WriterReturns(a);
  }

  lemma WriterReturns(s: State) returns (n: State)
    requires Reachable(s) && !s.overrun && s.writer == Deciding && s.d.action == Proceed && s.d.first.Some?
    ensures Reachable(n) && Enabled(n, Snapshot) && n.d == s.d
  {
    hide FlowInv, BatonInv, Inv, Reachable, Reached, PaceContext, DoAdd, DoRetry;
    n := Extend(s, CheckTermination);
    n := Extend(n, WriterWakes);
    WriterIsFree(n);
  }
}

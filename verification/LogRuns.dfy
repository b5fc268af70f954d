/** Properties of every run of the logger, from any start, with any number of threads and
    any interleaving. */
module LogRuns {
  import opened LogText
  import opened LogRing
  import opened LogProtocol
  import opened LogBaton
  import opened LogStream
  import opened LogSkips
  import opened LogPace
  import opened LogTickets
  import opened LogRules

  const EMPTY_HISTORY :=
    History("", [], [], [], NoToken, 0, [0, 0, 0, 0, 0], [0, 0, 0, 0, 0], "", "", 0, [], [], [], map[], false, false, {})

  /** After LogBufferBaseData::init, with the writer registered. */
  ghost predicate Initial(s: State) {
    && RingSize(|s.d.buff|) && s.d.start == s.d.end == s.d.mbwi == 0
    && s.d.skipped == NO_SKIPS && s.d.first == s.d.last == None && s.d.gFirst == s.d.gLast == None
    && s.d.action == Proceed && s.d.refCounter == |s.h.live| + 1
    && s.d.nodes == map[] && s.d.gwws == map[] && s.threads == map[]
    && s.writer == AtTop && !s.overrun
    && s.h == EMPTY_HISTORY.(live := s.h.live)
  }

  ghost predicate Inv(s: State) {
    && FlowInv(FlowOf(s)) && BatonInv(BatonOf(s)) && TaleInv(TaleOf(s)) && SpotInv(TaleOf(s))
    && BooksInv(BooksOf(s)) && PaceInv(s) && LifeInv(LifeOf(s)) && TicketsInv(s)
  }

  lemma InitialBytes(s: State)
    requires Initial(s)
    ensures FlowInv(FlowOf(s)) && TaleInv(TaleOf(s)) && SpotInv(TaleOf(s)) && PaceInv(s)
  {
    assert LogRing.Holds(s.d.buff, "", 0);
    assert Messages([]) == [] && Pending(s.threads, []) == [];
    forall t: Tid ensures Spot(TaleOf(s), t) {}
  }

  lemma InitialQueues(s: State)
    requires Initial(s)
    ensures BatonInv(BatonOf(s)) && BooksInv(BooksOf(s)) && LifeInv(LifeOf(s))
  {
    forall t: Tid ensures ThreadOk(BatonOf(s), t) {}
    forall t: Tid ensures T(LifeOf(s), t).pc == Idle {}
    forall l: Level ensures Balanced(BooksOf(s), l) {}
  }

  lemma InitialTickets(s: State, rule: Rule)
    requires Initial(s)
    ensures OrderlyState(s, rule)
  {
    forall t: Tid ensures HolderOk(TicketsOf(s), t) {}
    forall t: Trid ensures NodeOk(TicketsOf(s), t) {}
    forall t: Tid ensures OrderlyThread(RulesOf(s), t) {}
  }

  lemma InitialInv(s: State)
    requires Initial(s)
    ensures Inv(s) && forall rule :: OrderlyState(s, rule)
  {
    hide FlowInv, BatonInv, TaleInv, SpotInv, BooksInv, PaceInv, LifeInv, TicketInv, Initial;
    InitialBytes(s);
    InitialQueues(s);
    forall rule ensures OrderlyState(s, rule) { InitialTickets(s, rule); }
    OrderlyTickets(s, Unread);
  }

  lemma OrderlyTickets(s: State, rule: Rule)
    requires OrderlyState(s, rule)
    ensures TicketsInv(s)
  {
  }

  lemma InvSizes(s: State)
    requires Inv(s)
    ensures |s.h.dropped| == LEVELS && |s.h.lost| == LEVELS && |s.h.stream| == s.d.end
  {
  }

  /** Every step of every thread keeps everything. */
  lemma InvStep(s: State, step: Step)
    requires Inv(s) && Enabled(s, step)
    ensures |s.h.dropped| == LEVELS && |s.h.lost| == LEVELS && Inv(Do(s, step))
  {
    hide FlowInv, BatonInv, TaleInv, SpotInv, BooksInv, PaceInv, LifeInv, TicketsInv, Do, Enabled, PaceContext;
    InvSizes(s);
    ContextHolds(s);
    FlowStep(s, step);
    BatonStep(s, step);
    TaleStep(s, step);
    SpotStep(s, step);
    BooksStep(s, step);
    PaceStep(s, step);
    LifeStep(s, step);
    TicketsStep(s, step);
  }

  // ---------------------------------------------------------------- runs

  ghost predicate Legal(s: State, steps: seq<Step>)
    decreases |steps|
  {
    steps == [] ||
    (Enabled(s, steps[0]) && |s.h.dropped| == LEVELS && |s.h.lost| == LEVELS && Legal(Do(s, steps[0]), steps[1..]))
  }

  ghost function Exec(s: State, steps: seq<Step>): State
    requires Legal(s, steps)
    decreases |steps|
  {
    if steps == [] then s else Exec(Do(s, steps[0]), steps[1..])
  }

  ghost predicate Reachable(s: State) {
    exists s0: State, steps: seq<Step> :: Initial(s0) && Legal(s0, steps) && Exec(s0, steps) == s
  }

  lemma {:induction false} RunInv(s: State, steps: seq<Step>)
    requires Inv(s) && Legal(s, steps)
    ensures Inv(Exec(s, steps))
    decreases |steps|
  {
    hide Inv, Enabled, Do;
    if steps != [] {
      InvStep(s, steps[0]);
      RunInv(Do(s, steps[0]), steps[1..]);
    }
  }

  lemma ReachableInv(s: State)
    requires Reachable(s)
    ensures Inv(s)
  {
    hide Inv, Enabled, Do, Initial;
    var s0: State, steps: seq<Step> :| Initial(s0) && Legal(s0, steps) && Exec(s0, steps) == s;
    InitialInv(s0);
    RunInv(s0, steps);
  }
}
